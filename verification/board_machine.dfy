/** The event loop of a board room as a state machine, and what every run of it keeps. */
module BoardMachine {
  import opened Common
  import opened Channels

  datatype Notice = Joined(user: string) | BoardEvent(data: Bytes)

  /** Capacity of the room's `broadcast` channel. */
  const INBOX: nat := 256

  datatype Event<C> =
    | Register(client: C, user: string)
    | Unregister(client: C)
    | TakeBroadcast
    | Shutdown
    | Publish(data: Bytes)    // BroadcastToBoard put an event into the channel
    | Drain(client: C)

  /** `taken` is every event the loop has taken from its channel. */
  datatype Board<C> = Board(crowd: Crowd<C, Notice>, broadcast: seq<Bytes>, taken: seq<Bytes>, done: bool)

  function NewBoard<C(==)>(): Board<C> {
    Board(NobodyYet(), [], [], false)
  }

  /** The newcomer joins and the others are told, if they have room. */
  function Announce<C(==)>(crowd: Crowd<C, Notice>, client: C, user: string, at: nat): Crowd<C, Notice> {
    var joined := Join(crowd, client, at);
    Deliver(joined, joined.clients - {client}, Joined(user), false, at)
  }

  function OnUnregister<C(==)>(b: Board<C>, client: C): Board<C> {
    if client !in b.crowd.clients then b
    else
      var left := CloseAll(b.crowd, {client}, |b.taken|);
      b.(crowd := left, done := left.clients == {})
  }

  function OnBroadcast<C(==)>(b: Board<C>): Board<C>
    requires b.broadcast != []
  {
    var data := b.broadcast[0];
    b.(broadcast := b.broadcast[1..], taken := b.taken + [data],
       crowd := Deliver(b.crowd, b.crowd.clients, BoardEvent(data), true, |b.taken|))
  }

  predicate Enabled<C(==)>(b: Board<C>, e: Event<C>) {
    match e
    case Register(c, _) => !b.done && c !in b.crowd.chans
    case Unregister(c) => !b.done && c in b.crowd.chans
    case TakeBroadcast => !b.done && b.broadcast != []
    case Shutdown => !b.done
    case Publish(_) => |b.broadcast| < INBOX
    case Drain(c) => c in b.crowd.chans
  }

  /** An event that is not enabled does not happen. */
  function Step<C(==)>(b: Board<C>, e: Event<C>): Board<C> {
    if !Enabled(b, e) then b else
    match e
    case Register(c, user) => b.(crowd := Announce(b.crowd, c, user, |b.taken|))
    case Unregister(c) => OnUnregister(b, c)
    case TakeBroadcast => OnBroadcast(b)
    case Shutdown => b.(crowd := CloseAll(b.crowd, b.crowd.clients, |b.taken|), done := true)
    case Publish(data) => b.(broadcast := b.broadcast + [data])
    case Drain(c) => b.(crowd := DrainOne(b.crowd, c))
  }

  function Exec<C(==)>(events: seq<Event<C>>): Board<C> {
    if events == [] then NewBoard() else Step(Exec(events[..|events| - 1]), events[|events| - 1])
  }

  // ---------- what a client was queued ----------

  function EventsOf(queued: seq<Notice>): seq<Bytes> {
    if queued == [] then []
    else
      var n := queued[|queued| - 1];
      EventsOf(queued[..|queued| - 1]) + (if n.BoardEvent? then [n.data] else [])
  }

  /** The events queued to a client are exactly those taken while it was in the room. */
  ghost predicate Served(taken: seq<Bytes>, joined: nat, left: nat, queued: seq<Notice>) {
    joined <= left <= |taken| && EventsOf(queued) == taken[joined..left]
  }

  ghost predicate CrowdServed<C>(crowd: Crowd<C, Notice>, taken: seq<Bytes>) {
    && CrowdOk(crowd)
    && forall c | c in crowd.chans ::
         Served(taken, crowd.joinedAt[c], Until(crowd, c, |taken|), crowd.chans[c].queued)
  }

  lemma OfferEvents(ch: Channel<Notice>, n: Notice, dropOnFull: bool)
    ensures EventsOf(ch.Offer(n, dropOnFull).queued)
         == EventsOf(ch.queued) + if n.BoardEvent? && !ch.closed && !ch.Blocked() then [n.data] else []
  {
    assert (ch.queued + [n])[..|ch.queued|] == ch.queued;
  }

  lemma NoticeKeepsServed<C>(crowd: Crowd<C, Notice>, to: set<C>, user: string, taken: seq<Bytes>)
    requires CrowdServed(crowd, taken) && to <= crowd.clients
    ensures CrowdServed(Deliver(crowd, to, Joined(user), false, |taken|), taken)
  {
    hide Deliver, Channel.Sound, EventsOf;
    var after := Deliver(crowd, to, Joined(user), false, |taken|);
    DeliverEffect(crowd, to, Joined(user), false, |taken|);
    DeliverKeepsCrowd(crowd, after, to, Joined(user), false, |taken|);
    forall c | c in after.chans
      ensures Served(taken, after.joinedAt[c], Until(after, c, |taken|), after.chans[c].queued)
    {
      OfferEvents(crowd.chans[c], Joined(user), false);
      assert Served(taken, crowd.joinedAt[c], Until(crowd, c, |taken|), crowd.chans[c].queued);
    }
  }

  lemma StayedThroughEvent(taken: seq<Bytes>, joined: nat, ch: Channel<Notice>, data: Bytes)
    requires Served(taken, joined, |taken|, ch.queued) && !ch.closed && !ch.Blocked()
    ensures Served(taken + [data], joined, |taken| + 1, ch.Offer(BoardEvent(data), true).queued)
  {
    OfferEvents(ch, BoardEvent(data), true);
    assert (taken + [data])[joined..|taken| + 1] == taken[joined..|taken|] + [data];
  }

  lemma GoneBeforeEvent(taken: seq<Bytes>, joined: nat, left: nat, queued: seq<Notice>, data: Bytes)
    requires Served(taken, joined, left, queued)
    ensures Served(taken + [data], joined, left, queued)
  {
    assert (taken + [data])[joined..left] == taken[joined..left];
  }

  /** One event, offered to everyone: whoever misses it leaves right before it. */
  lemma EventKeepsServed<C>(crowd: Crowd<C, Notice>, taken: seq<Bytes>, data: Bytes)
    requires CrowdServed(crowd, taken)
    ensures CrowdServed(Deliver(crowd, crowd.clients, BoardEvent(data), true, |taken|), taken + [data])
  {
    hide Deliver, Channel.Sound, Served;
    var after := Deliver(crowd, crowd.clients, BoardEvent(data), true, |taken|);
    DeliverEffect(crowd, crowd.clients, BoardEvent(data), true, |taken|);
    DeliverKeepsCrowd(crowd, after, crowd.clients, BoardEvent(data), true, |taken|);
    forall c | c in after.chans
      ensures Served(taken + [data], after.joinedAt[c], Until(after, c, |taken| + 1), after.chans[c].queued)
    {
      var joined, left, ch := crowd.joinedAt[c], Until(crowd, c, |taken|), crowd.chans[c];
      assert Served(taken, joined, left, ch.queued);
      if c in after.clients {
        StayedThroughEvent(taken, joined, ch, data);
      } else {
        GoneBeforeEvent(taken, joined, left, ch.queued, data);
      }
    }
  }

  lemma ClosingKeepsServed<C>(crowd: Crowd<C, Notice>, which: set<C>, taken: seq<Bytes>)
    requires CrowdServed(crowd, taken) && which <= crowd.clients
    ensures CrowdServed(CloseAll(crowd, which, |taken|), taken)
  {
    hide CloseAll, Channel.Sound, EventsOf;
    var after := CloseAll(crowd, which, |taken|);
    CloseEffect(crowd, which, |taken|);
    CloseKeepsCrowd(crowd, after, which, |taken|);
    forall c | c in after.chans
      ensures Served(taken, after.joinedAt[c], Until(after, c, |taken|), after.chans[c].queued)
    {
      assert Served(taken, crowd.joinedAt[c], Until(crowd, c, |taken|), crowd.chans[c].queued);
    }
  }

  lemma JoinKeepsServed<C>(crowd: Crowd<C, Notice>, c: C, taken: seq<Bytes>)
    requires CrowdServed(crowd, taken) && c !in crowd.chans
    ensures CrowdServed(Join(crowd, c, |taken|), taken)
  {
    hide Channel.Sound;
    JoinKeepsCrowd(crowd, c, |taken|);
    var after := Join(crowd, c, |taken|);
    forall d | d in after.chans
      ensures Served(taken, after.joinedAt[d], Until(after, d, |taken|), after.chans[d].queued)
    {
      if d != c {
        assert Served(taken, crowd.joinedAt[d], Until(crowd, d, |taken|), crowd.chans[d].queued);
      }
    }
  }

  lemma DrainKeepsServed<C>(crowd: Crowd<C, Notice>, c: C, taken: seq<Bytes>)
    requires CrowdServed(crowd, taken) && c in crowd.chans
    ensures CrowdServed(DrainOne(crowd, c), taken)
  {
    hide Channel.Sound, EventsOf;
    DrainKeepsCrowd(crowd, c);
    var after := DrainOne(crowd, c);
    forall d | d in after.chans
      ensures Served(taken, after.joinedAt[d], Until(after, d, |taken|), after.chans[d].queued)
    {
      assert Served(taken, crowd.joinedAt[d], Until(crowd, d, |taken|), crowd.chans[d].queued);
    }
  }

  // ---------- every run ----------

  ghost predicate BoardOk<C>(b: Board<C>) {
    CrowdServed(b.crowd, b.taken) && (b.done ==> b.crowd.clients == {})
  }

  lemma StepKeepsBoard<C>(b: Board<C>, e: Event<C>)
    requires BoardOk(b)
    ensures BoardOk(Step(b, e))
  {
    hide CrowdServed;
    if Enabled(b, e) {
      match e
      case Register(c, user) =>
        JoinKeepsServed(b.crowd, c, b.taken);
        var joined := Join(b.crowd, c, |b.taken|);
        NoticeKeepsServed(joined, joined.clients - {c}, user, b.taken);
      case Unregister(c) =>
        if c in b.crowd.clients {
          ClosingKeepsServed(b.crowd, {c}, b.taken);
        }
      case TakeBroadcast => EventKeepsServed(b.crowd, b.taken, b.broadcast[0]);
      case Shutdown =>
        ClosingKeepsServed(b.crowd, b.crowd.clients, b.taken);
        assert b.crowd.clients - b.crowd.clients == {};
      case Drain(c) => DrainKeepsServed(b.crowd, c, b.taken);
      case Publish(_) =>
    }
  }

  lemma {:induction false} RunKeepsBoard<C>(events: seq<Event<C>>)
    ensures BoardOk(Exec(events))
  {
    hide Step;
    if events != [] {
      RunKeepsBoard(events[..|events| - 1]);
      StepKeepsBoard(Exec(events[..|events| - 1]), events[|events| - 1]);
    }
  }

  /**
   Over every run a connected client has been queued every event the loop took since it joined,
   in order; a client that left was queued all of them up to the point where it left, so a client
   dropped for being slow left at the first event it missed. Join notices play no part.
   */
  lemma EventsReachEveryone<C>(events: seq<Event<C>>, c: C)
    requires c in Exec(events).crowd.chans
    ensures var b := Exec(events);
            && c in b.crowd.joinedAt && b.crowd.joinedAt[c] <= |b.taken|
            && (c in b.crowd.clients ==> EventsOf(b.crowd.chans[c].queued) == b.taken[b.crowd.joinedAt[c]..])
            && (c !in b.crowd.clients ==>
                  && c in b.crowd.leftAt && b.crowd.joinedAt[c] <= b.crowd.leftAt[c] <= |b.taken|
                  && EventsOf(b.crowd.chans[c].queued) == b.taken[b.crowd.joinedAt[c]..b.crowd.leftAt[c]])
  {
    hide Step, Exec, EventsOf;
    RunKeepsBoard(events);
    var b := Exec(events);
    assert Served(b.taken, b.crowd.joinedAt[c], Until(b.crowd, c, |b.taken|), b.crowd.chans[c].queued);
    assert b.taken[b.crowd.joinedAt[c]..|b.taken|] == b.taken[b.crowd.joinedAt[c]..];
  }

  /** The channel discipline of the document room holds here too. */
  lemma BoardChannelsOverRuns<C>(events: seq<Event<C>>, c: C)
    requires c in Exec(events).crowd.chans
    ensures var b := Exec(events);
            && (!b.crowd.chans[c].closed <==> c in b.crowd.clients)
            && b.crowd.chans[c].panics == 0
            && (b.done ==> b.crowd.chans[c].closed)
  {
    hide Step, Exec;
    RunKeepsBoard(events);
  }
}
