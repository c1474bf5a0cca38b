/** What each event of a board room does to everyone in it, in plain terms. */
module BoardEffects {
  import opened Common
  import opened Channels
  import opened BoardMachine

  /** Every member in `to` was offered `n`, and nobody else's channel changed. */
  ghost predicate OnlyOffered<C>(before: Crowd<C, Notice>, after: Crowd<C, Notice>, to: set<C>, n: Notice, dropOnFull: bool) {
    && after.chans.Keys == before.chans.Keys
    && forall c | c in before.chans ::
         after.chans[c] == if c in to then Offered(before.chans[c], n, dropOnFull) else before.chans[c]
  }

  lemma NewBoardIsEmpty<C>()
    ensures var b := NewBoard<C>();
            b.crowd.clients == {} && b.crowd.chans == map[] && b.broadcast == [] && b.taken == [] && !b.done
  {
  }

  /** The newcomer is in with nothing waiting, and each of the others with room is told who joined. */
  lemma RegisterEffect<C>(b: Board<C>, c: C, user: string)
    requires CrowdOk(b.crowd) && !b.done && c !in b.crowd.chans
    ensures var after := Step(b, Register(c, user));
            && after.crowd.clients == b.crowd.clients + {c}
            && after.crowd.chans.Keys == b.crowd.chans.Keys + {c}
            && after.crowd.chans[c] == Channel([], [], false, 0)
            && (forall d | d in b.crowd.chans ::
                  after.crowd.chans[d] ==
                    if d in b.crowd.clients then Offered(b.crowd.chans[d], Joined(user), false) else b.crowd.chans[d])
            && after.broadcast == b.broadcast && after.taken == b.taken && !after.done
  {
    hide Deliver, CrowdOk;
    var at := |b.taken|;
    JoinKeepsCrowd(b.crowd, c, at);
    var joined := Join(b.crowd, c, at);
    DeliverMeaning(joined, joined.clients - {c}, Joined(user), false, at);
    MembersHaveChannels(b.crowd);
  }

  lemma MembersHaveChannels<C>(crowd: Crowd<C, Notice>)
    requires CrowdOk(crowd)
    ensures crowd.clients <= crowd.chans.Keys
    ensures forall c | c in crowd.chans :: (crowd.chans[c].closed <==> c !in crowd.clients) && |crowd.chans[c].queue| <= 256
  {
  }

  /** A member that leaves has its channel closed and nobody else is told; the loop ends if and only if it was the last. */
  lemma UnregisterEffect<C>(b: Board<C>, c: C)
    requires CrowdOk(b.crowd) && !b.done && c in b.crowd.chans
    ensures var after := Step(b, Unregister(c));
            && (c !in b.crowd.clients ==> after == b)
            && (c in b.crowd.clients ==>
                  && after.crowd.clients == b.crowd.clients - {c}
                  && after.crowd.chans == b.crowd.chans[c := b.crowd.chans[c].(closed := true)]
                  && (after.done <==> b.crowd.clients == {c})
                  && after.broadcast == b.broadcast && after.taken == b.taken)
  {
    if c in b.crowd.clients {
      PartingEffect(b.crowd, c, |b.taken|);
      MembersHaveChannels(b.crowd);
    }
  }

  /** The oldest event is taken and goes to every member or, with 256 unread messages, the member leaves. */
  lemma BroadcastEffect<C>(b: Board<C>)
    requires CrowdOk(b.crowd) && !b.done && b.broadcast != []
    ensures var after := Step(b, TakeBroadcast);
            && after.broadcast == b.broadcast[1..] && after.taken == b.taken + [b.broadcast[0]] && !after.done
            && OnlyOffered(b.crowd, after.crowd, b.crowd.clients, BoardEvent(b.broadcast[0]), true)
            && (forall c :: c in after.crowd.clients <==> c in b.crowd.clients && |b.crowd.chans[c].queue| < 256)
  {
    MembersHaveChannels(b.crowd);
    hide Deliver, CrowdOk;
    DeliverMeaning(b.crowd, b.crowd.clients, BoardEvent(b.broadcast[0]), true, |b.taken|);
  }

  lemma ShutdownEffect<C>(b: Board<C>)
    requires CrowdOk(b.crowd) && !b.done
    ensures var after := Step(b, Shutdown);
            && after.done && after.crowd.clients == {} && after.crowd.chans.Keys == b.crowd.chans.Keys
            && (forall c | c in b.crowd.chans :: after.crowd.chans[c] == b.crowd.chans[c].(closed := true))
            && after.broadcast == b.broadcast && after.taken == b.taken
  {
    assert b.crowd.clients - b.crowd.clients == {};
  }

  /** A WritePump takes exactly the oldest message, if there is one. */
  lemma DrainEffect<C>(b: Board<C>, c: C)
    requires c in b.crowd.chans
    ensures var ch := b.crowd.chans[c];
            var left := if |ch.queue| > 0 then ch.queue[1..] else [];
            Step(b, Drain(c)) == b.(crowd := b.crowd.(chans := b.crowd.chans[c := ch.(queue := left)]))
  {
  }

  // ---------- over every run ----------

  /** The events BroadcastToBoard got into the room, which waits while 256 are in its channel. */
  function Published<C(==)>(events: seq<Event<C>>): seq<Bytes> {
    if events == [] then []
    else
      var front, e := events[..|events| - 1], events[|events| - 1];
      Published(front) + (if e.Publish? && |Exec(front).broadcast| < 256 then [e.data] else [])
  }

  lemma StepQueue<C>(b: Board<C>, e: Event<C>)
    requires |b.broadcast| <= 256
    ensures var after := Step(b, e);
            && after.taken + after.broadcast
               == b.taken + b.broadcast + (if e.Publish? && |b.broadcast| < 256 then [e.data] else [])
            && |after.broadcast| <= 256
  {
    hide Deliver, CloseAll, DrainOne, Announce;
    if Enabled(b, e) && e.TakeBroadcast? {
      assert b.broadcast == [b.broadcast[0]] + b.broadcast[1..];
    } else if e.Publish? {
      assert b.taken + (b.broadcast + [e.data]) == b.taken + b.broadcast + [e.data];
    }
  }

  /** Published events are taken in the order they were published, none lost or doubled: the rest is still waiting. */
  lemma {:induction false} TakenInOrder<C>(events: seq<Event<C>>)
    ensures var b := Exec(events); Published(events) == b.taken + b.broadcast && |b.broadcast| <= 256
  {
    hide Step;
    if events != [] {
      TakenInOrder(events[..|events| - 1]);
      StepQueue(Exec(events[..|events| - 1]), events[|events| - 1]);
    }
  }

  /**
   In every run, a member leaves at an event if and only if its ReadPump ended, the room was shut
   down, or an event was taken while 256 messages waited for it.
   */
  lemma LeavesIff<C>(events: seq<Event<C>>, e: Event<C>, c: C)
    requires c in Exec(events).crowd.clients
    ensures var b := Exec(events);
            && c in b.crowd.chans
            && (c !in Step(b, e).crowd.clients <==>
                  || e == Unregister(c)
                  || e == Shutdown
                  || (e.TakeBroadcast? && b.broadcast != [] && |b.crowd.chans[c].queue| == 256))
  {
    hide Step, Exec, CrowdServed;
    RunKeepsBoard(events);
    var b := Exec(events);
    BoardFacts(b);
    StepLeavesIff(b, e, c);
  }

  lemma BoardFacts<C>(b: Board<C>)
    requires BoardOk(b)
    ensures CrowdOk(b.crowd) && b.crowd.clients <= b.crowd.chans.Keys && (b.done ==> b.crowd.clients == {})
    ensures forall c | c in b.crowd.chans :: |b.crowd.chans[c].queue| <= 256
  {
  }

  lemma StepLeavesIff<C>(b: Board<C>, e: Event<C>, c: C)
    requires CrowdOk(b.crowd) && !b.done && c in b.crowd.clients && c in b.crowd.chans && |b.crowd.chans[c].queue| <= 256
    ensures c !in Step(b, e).crowd.clients <==>
              || e == Unregister(c)
              || e == Shutdown
              || (e.TakeBroadcast? && b.broadcast != [] && |b.crowd.chans[c].queue| == 256)
  {
    hide Step, CrowdOk, OnlyOffered, Offered;
    if Enabled(b, e) {
      match e
      case Register(d, user) => RegisterEffect(b, d, user);
      case Unregister(d) => UnregisterEffect(b, d);
      case TakeBroadcast => BroadcastEffect(b);
      case Shutdown => ShutdownEffect(b);
      case _ => OthersKeepMembers(b, e);
    } else {
      DisabledChangesNothing(b, e);
    }
  }

  lemma OthersKeepMembers<C>(b: Board<C>, e: Event<C>)
    requires Enabled(b, e) && (e.Publish? || e.Drain?)
    ensures Step(b, e).crowd.clients == b.crowd.clients && Step(b, e).done == b.done
  {
  }

  lemma DisabledChangesNothing<C>(b: Board<C>, e: Event<C>)
    requires !Enabled(b, e)
    ensures Step(b, e) == b
  {
  }

  /** In every run, the loop ends at an event if and only if that is a shutdown or the departure of the only member. */
  lemma EndsIff<C>(events: seq<Event<C>>, e: Event<C>)
    requires !Exec(events).done
    ensures var b := Exec(events);
            Step(b, e).done <==> e == Shutdown || (e.Unregister? && b.crowd.clients == {e.client})
  {
    hide Step, Exec, CrowdServed, OnlyOffered, Offered;
    RunKeepsBoard(events);
    var b := Exec(events);
    BoardFacts(b);
    if Enabled(b, e) {
      match e
      case Register(d, user) => RegisterEffect(b, d, user);
      case Unregister(d) => UnregisterEffect(b, d);
      case TakeBroadcast => BroadcastEffect(b);
      case Shutdown => ShutdownEffect(b);
      case _ => OthersKeepMembers(b, e);
    } else {
      DisabledChangesNothing(b, e);
    }
  }
}
