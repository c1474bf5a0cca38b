/** What each event of a document room does to everyone in it, in plain terms. */
module RoomEffects {
  import opened Common
  import opened Channels
  import opened DocumentLog
  import opened RoomLog
  import opened RoomMachine
  import opened RoomSafety

  /** Every member in `to` was offered `m`, and nobody else's channel changed. */
  ghost predicate OnlyOffered<C>(before: Crowd<C, Message>, after: Crowd<C, Message>, to: set<C>, m: Message, dropOnFull: bool) {
    && after.chans.Keys == before.chans.Keys
    && forall c | c in before.chans ::
         after.chans[c] == if c in to then Offered(before.chans[c], m, dropOnFull) else before.chans[c]
  }

  /** Only the crowd changed, or only the inbox. */
  ghost predicate SameLog<C>(r: Room<C>, after: Room<C>) {
    after.log == r.log && after.store == r.store && after.start == r.start
  }

  /** A room starts with nobody in it, nothing waiting, and at the end of the document's history. */
  lemma NewRoomIsEmpty<C>(store: Tracked)
    ensures var r := NewRoom<C>(store);
            && r.crowd.clients == {} && r.crowd.chans == map[] && !r.done && r.log == [] && r.store == store
            && r.inbox.broadcast == [] && r.inbox.awareness == [] && r.inbox.forwarded == [] && r.inbox.failures == 0
  {
  }

  /** The newcomer is in, with the first message waiting; each of the others is asked for its awareness if it has room. */
  lemma RegisterEffect<C>(r: Room<C>, c: C)
    requires CrowdOk(r.crowd) && !r.done && c !in r.crowd.chans
    ensures var after := Step(r, Register(c));
            && after.crowd.clients == r.crowd.clients + {c}
            && after.crowd.chans.Keys == r.crowd.chans.Keys + {c}
            && after.crowd.chans[c] == Channel([SyncInit], [SyncInit], false, 0)
            && (forall d | d in r.crowd.chans ::
                  after.crowd.chans[d] ==
                    if d in r.crowd.clients then Offered(r.crowd.chans[d], AwarenessQuery, false) else r.crowd.chans[d])
            && after.inbox == r.inbox.(read := r.inbox.read[c := []]) && !after.done && SameLog(r, after)
  {
    hide Deliver, Join, CrowdOk;
    var at := |r.log|;
    JoinKeepsCrowd(r.crowd, c, at);
    JoinMeaning(r.crowd, c, at);
    GreetEffect(r.crowd, c, SyncInit, at);
    var joined := Join(r.crowd, c, at);
    var greeted := Deliver(joined, {c}, SyncInit, true, at);
    DeliverEffect(joined, {c}, SyncInit, true, at);
    DeliverKeepsCrowd(joined, greeted, {c}, SyncInit, true, at);
    DeliverMeaning(greeted, greeted.clients - {c}, AwarenessQuery, false, at);
    assert c in greeted.chans && greeted.chans[c] == NewChannel().Push(SyncInit);
    CrowdIsKnown(r.crowd);
  }

  lemma JoinMeaning<C>(crowd: Crowd<C, Message>, c: C, at: nat)
    requires c !in crowd.chans
    ensures Join(crowd, c, at).clients == crowd.clients + {c}
  {
  }

  lemma CrowdIsKnown<C>(crowd: Crowd<C, Message>)
    requires CrowdOk(crowd)
    ensures crowd.clients <= crowd.chans.Keys
    ensures forall c | c in crowd.chans :: crowd.chans[c].closed <==> c !in crowd.clients
  {
  }

  /**
   A member that leaves has its channel closed, with what it has not read still in it, and the others
   are told to remove its cursor; the loop ends if and only if it was the last. An unknown client changes nothing.
   */
  lemma UnregisterEffect<C>(r: Room<C>, c: C)
    requires CrowdOk(r.crowd) && !r.done && c in r.crowd.chans
    ensures var after := Step(r, Unregister(c));
            && (c !in r.crowd.clients ==> after == r)
            && (c in r.crowd.clients ==>
                  && after.crowd.clients == r.crowd.clients - {c}
                  && after.crowd.chans.Keys == r.crowd.chans.Keys
                  && after.crowd.chans[c] == r.crowd.chans[c].(closed := true)
                  && (forall d | d in r.crowd.chans && d != c ::
                        after.crowd.chans[d] ==
                          if d in r.crowd.clients then Offered(r.crowd.chans[d], CursorsGone, false) else r.crowd.chans[d])
                  && (after.done <==> r.crowd.clients == {c})
                  && after.inbox == r.inbox && SameLog(r, after))
  {
    hide CrowdOk, Deliver, CloseAll, Closed, Offered;
    if c in r.crowd.clients {
      var at := |r.log|;
      PartingEffect(r.crowd, c, at);
      CloseEffect(r.crowd, {c}, at);
      var left := CloseAll(r.crowd, {c}, at);
      CloseKeepsCrowd(r.crowd, left, {c}, at);
      CrowdIsKnown(r.crowd);
      DeliverMeaning(left, left.clients, CursorsGone, false, at);
    }
  }

  /** The oldest message can be persisted: nothing fails and the document's clock is its latest one. */
  predicate Persists<C>(r: Room<C>, fault: bool) {
    !fault && r.store.doc.Some? && r.store.doc.value.clock == |r.store.history| < 2147483647
  }

  /**
   The oldest message is taken. If it is persisted it becomes the next row and everyone but its sender
   gets it or, with 256 unread messages, leaves; if not, nobody gets it.
   */
  lemma BroadcastEffect<C>(r: Room<C>, fault: bool)
    requires CrowdOk(r.crowd) && Consistent(r.store) && !r.done && r.inbox.broadcast != []
    ensures var after := Step(r, TakeBroadcast(fault));
            var msg, clock := r.inbox.broadcast[0], |r.store.history| + 1;
            && after.inbox.broadcast == r.inbox.broadcast[1..] && after.inbox.awareness == r.inbox.awareness
            && after.inbox.taken == r.inbox.taken + [msg] && !after.done
            && (Persists(r, fault) ==>
                  && after.log == r.log + [Row(clock, msg.sender, msg.data)]
                  && after.store.history == r.store.history + [msg.data]
                  && after.inbox.failures == r.inbox.failures
                  && OnlyOffered(r.crowd, after.crowd, r.crowd.clients - {msg.sender}, Update(clock, msg.data), true)
                  && (forall c :: c in after.crowd.clients <==>
                        c in r.crowd.clients && (c == msg.sender || |r.crowd.chans[c].queue| < 256)))
            && (!Persists(r, fault) ==>
                  after.crowd == r.crowd && SameLog(r, after) && after.inbox.failures == r.inbox.failures + 1)
  {
    var msg := r.inbox.broadcast[0];
    if r.store.doc.Some? {
      IncrementCommitsIff(r.store, msg.data, fault);
    }
    hide Deliver, CrowdOk;
    DeliverMeaning(r.crowd, r.crowd.clients - {msg.sender}, Update(|r.store.history| + 1, msg.data), true, |r.log|);
  }

  /** The oldest awareness message goes to everyone but its sender who has room; nobody leaves and nothing is persisted. */
  lemma AwarenessEffect<C>(r: Room<C>)
    requires CrowdOk(r.crowd) && !r.done && r.inbox.awareness != []
    ensures var after := Step(r, TakeAwareness);
            var msg := r.inbox.awareness[0];
            && after.inbox == r.inbox.(awareness := r.inbox.awareness[1..])
            && OnlyOffered(r.crowd, after.crowd, r.crowd.clients - {msg.sender}, Awareness(msg.data), false)
            && after.crowd.clients == r.crowd.clients && !after.done && SameLog(r, after)
  {
    hide Deliver, CrowdOk;
    var msg := r.inbox.awareness[0];
    DeliverMeaning(r.crowd, r.crowd.clients - {msg.sender}, Awareness(msg.data), false, |r.log|);
  }

  /** The loop ends with nobody in the set and every member's channel closed, unread messages still in it. */
  lemma ShutdownEffect<C>(r: Room<C>)
    requires CrowdOk(r.crowd) && !r.done
    ensures var after := Step(r, Shutdown);
            && after.done && after.crowd.clients == {} && after.crowd.chans.Keys == r.crowd.chans.Keys
            && (forall c | c in r.crowd.chans :: after.crowd.chans[c] == r.crowd.chans[c].(closed := true))
            && after.inbox == r.inbox && SameLog(r, after)
  {
    assert r.crowd.clients - r.crowd.clients == {};
  }

  /** A WritePump takes exactly the oldest message, if there is one. */
  lemma DrainEffect<C>(r: Room<C>, c: C)
    requires c in r.crowd.chans
    ensures var ch := r.crowd.chans[c];
            var left := if |ch.queue| > 0 then ch.queue[1..] else [];
            Step(r, Drain(c)) == r.(crowd := r.crowd.(chans := r.crowd.chans[c := ch.(queue := left)]))
  {
  }

  /**
   A ReadPump puts a message that starts with 0 into the broadcast channel and one that starts with 1
   into the awareness channel, waiting while that one holds 256; anything else is discarded.
   */
  lemma ReceiveEffect<C>(r: Room<C>, c: C, message: Bytes)
    requires c in r.crowd.chans && c in r.inbox.read
    ensures var after := Step(r, Receive(c, message)).inbox;
            var sync := |message| > 0 && message[0] == 0;
            var awareness := |message| > 0 && message[0] == 1;
            var full := (sync && |r.inbox.broadcast| >= 256) || (awareness && |r.inbox.awareness| >= 256);
            && (full ==> after == r.inbox)
            && (!full ==>
                  && after.broadcast == r.inbox.broadcast + (if sync then [RoomMessage(c, message)] else [])
                  && after.awareness == r.inbox.awareness + (if awareness then [RoomMessage(c, message)] else [])
                  && after.read == r.inbox.read[c := r.inbox.read[c] + [message]]
                  && after.taken == r.inbox.taken && after.failures == r.inbox.failures)
    ensures Step(r, Receive(c, message)) == r.(inbox := Step(r, Receive(c, message)).inbox)
  {
    assert r.inbox.broadcast + [] == r.inbox.broadcast && r.inbox.awareness + [] == r.inbox.awareness;
  }

  /** A compaction that the database takes leaves the snapshot and exactly the rows after its clock. */
  lemma CompactionEffect<C>(r: Room<C>, snapshot: Bytes, clock: nat)
    requires Consistent(r.store) && r.store.doc.Some? && r.store.compacted <= clock <= |r.store.history|
    ensures var after := Step(r, Compaction(snapshot, clock, false));
            && after == r.(store := after.store) && after.store.history == r.store.history
            && after.store.doc.Some? && after.store.doc.value.snapshot == Some(snapshot)
            && after.store.doc.value.clock == clock
            && (forall k :: k in after.store.doc.value.rows <==> clock < k <= |r.store.history|)
  {
  }

  lemma DeletionEffect<C>(r: Room<C>)
    ensures Step(r, Deletion) == r.(store := r.store.(doc := None))
  {
  }

  // ---------- who leaves, and when it ends ----------

  /**
   In every run, a member leaves at an event if and only if its ReadPump ended, the room was shut
   down, or an update of someone else was persisted while 256 messages waited for it.
   */
  lemma LeavesIff<C>(store: Tracked, events: seq<Event<C>>, e: Event<C>, c: C)
    requires Consistent(store) && c in Exec(NewRoom(store), events).crowd.clients
    ensures var r := Exec(NewRoom(store), events);
            && c in r.crowd.chans
            && (c !in Step(r, e).crowd.clients <==>
                  || e == Unregister(c)
                  || e == Shutdown
                  || (e.TakeBroadcast? && r.inbox.broadcast != [] && r.inbox.broadcast[0].sender != c
                      && Persists(r, e.fault) && |r.crowd.chans[c].queue| == 256))
  {
    hide Step, Exec, RoomOk, Persists;
    RunKeepsRoom(store, events);
    var r := Exec(NewRoom(store), events);
    MemberFacts(r, c);
    StepLeavesIff(r, e, c);
  }

  lemma StepLeavesIff<C>(r: Room<C>, e: Event<C>, c: C)
    requires CrowdOk(r.crowd) && Consistent(r.store) && !r.done
    requires c in r.crowd.clients && c in r.crowd.chans && |r.crowd.chans[c].queue| <= 256
    ensures c !in Step(r, e).crowd.clients <==>
              || e == Unregister(c)
              || e == Shutdown
              || (e.TakeBroadcast? && r.inbox.broadcast != [] && r.inbox.broadcast[0].sender != c
                  && Persists(r, e.fault) && |r.crowd.chans[c].queue| == 256)
  {
    hide Step, CrowdOk, Consistent, OnlyOffered, SameLog, Offered, Persists;
    if Enabled(r, e) {
      match e
      case Register(d) => RegisterEffect(r, d);
      case Unregister(d) => UnregisterEffect(r, d);
      case TakeBroadcast(fault) => BroadcastEffect(r, fault);
      case TakeAwareness => AwarenessEffect(r);
      case Shutdown => ShutdownEffect(r);
      case _ => OthersKeepMembers(r, e);
    } else {
      DisabledChangesNothing(r, e);
    }
  }

  lemma MemberFacts<C>(r: Room<C>, c: C)
    requires RoomOk(r) && c in r.crowd.clients
    ensures CrowdOk(r.crowd) && Consistent(r.store) && !r.done && c in r.crowd.chans && |r.crowd.chans[c].queue| <= 256
  {
  }

  lemma OthersKeepMembers<C>(r: Room<C>, e: Event<C>)
    requires Enabled(r, e) && (e.Receive? || e.Drain? || e.Compaction? || e.Deletion?)
    ensures Step(r, e).crowd.clients == r.crowd.clients && Step(r, e).done == r.done
  {
  }

  lemma DisabledChangesNothing<C>(r: Room<C>, e: Event<C>)
    requires !Enabled(r, e)
    ensures Step(r, e) == r
  {
  }

  /** In every run, the loop ends at an event if and only if that is a shutdown or the departure of the only member. */
  lemma EndsIff<C>(store: Tracked, events: seq<Event<C>>, e: Event<C>)
    requires Consistent(store) && !Exec(NewRoom(store), events).done
    ensures var r := Exec(NewRoom(store), events);
            Step(r, e).done <==> e == Shutdown || (e.Unregister? && r.crowd.clients == {e.client})
  {
    hide Step, Exec, RoomOk, OnlyOffered, SameLog, Offered, Persists;
    RunKeepsRoom(store, events);
    var r := Exec(NewRoom(store), events);
    RoomFacts(r);
    if Enabled(r, e) {
      match e
      case Register(d) => RegisterEffect(r, d);
      case Unregister(d) => UnregisterEffect(r, d);
      case TakeBroadcast(fault) => BroadcastEffect(r, fault);
      case TakeAwareness => AwarenessEffect(r);
      case Shutdown => ShutdownEffect(r);
      case _ => OthersKeepMembers(r, e);
    } else {
      DisabledChangesNothing(r, e);
    }
  }

  lemma RoomFacts<C>(r: Room<C>)
    requires RoomOk(r)
    ensures CrowdOk(r.crowd) && Consistent(r.store) && r.crowd.clients <= r.crowd.chans.Keys
  {
  }

  /** Once the loop has ended it stays ended, and nobody is ever in the set again. */
  lemma {:induction false} EndIsFinal<C>(r: Room<C>, events: seq<Event<C>>)
    requires r.done && r.crowd.clients == {}
    ensures Exec(r, events).done && Exec(r, events).crowd.clients == {}
    ensures Exec(r, events).log == r.log
  {
    hide Deliver, CloseAll, Join, CompactTracked;
    if events != [] {
      EndIsFinal(r, events[..|events| - 1]);
    }
  }

  // ---------- what the inboxes hold ----------

  ghost predicate InboxOk<C>(inbox: Inbox<C>) {
    && |inbox.broadcast| <= 256 && |inbox.awareness| <= 256
    && (forall m | m in inbox.broadcast :: |m.data| > 0 && m.data[0] == 0)
    && (forall m | m in inbox.awareness :: |m.data| > 0 && m.data[0] == 1)
  }

  lemma StepKeepsInbox<C>(r: Room<C>, e: Event<C>)
    requires InboxOk(r.inbox)
    ensures InboxOk(Step(r, e).inbox)
  {
    hide Greet, SayGoodbye, Deliver, CloseAll, DrainOne, CompactTracked, Append, Increment;
  }

  /** Neither inbox ever holds more than 256 messages, nor the awareness one anything but awareness. */
  lemma {:induction false} InboxesOverRuns<C>(store: Tracked, events: seq<Event<C>>)
    ensures InboxOk(Exec(NewRoom<C>(store), events).inbox)
  {
    hide Step;
    if events != [] {
      InboxesOverRuns(store, events[..|events| - 1]);
      StepKeepsInbox(Exec(NewRoom<C>(store), events[..|events| - 1]), events[|events| - 1]);
    }
  }

  /** Over every run only messages that start with 0 are persisted: awareness never is. */
  lemma {:induction false} OnlySyncIsPersisted<C>(store: Tracked, events: seq<Event<C>>)
    ensures forall row | row in Exec(NewRoom<C>(store), events).log :: |row.data| > 0 && row.data[0] == 0
  {
    hide Deliver, CloseAll, Join, CompactTracked, Increment;
    if events != [] {
      var front := events[..|events| - 1];
      OnlySyncIsPersisted(store, front);
      InboxesOverRuns(store, front);
    }
  }
}
