/**
 The bounded `send` channel of one client, and the crowd of clients of a room: who is in the
 set, every channel the room was ever given, and where in the room's log each client joined
 and left.
 */
module Channels {
  const CAPACITY: nat := 256

  /**
   `queue` is what the client has not read yet and `queued` everything ever put in, in order.
   A send on a closed channel and a second close panic in Go; `panics` counts them.
   */
  datatype Channel<M> = Channel(queue: seq<M>, queued: seq<M>, closed: bool, panics: nat) {

    /** The `default` branch of the non-blocking send is taken. */
    predicate Blocked() {
      !closed && |queue| >= CAPACITY
    }

    /** `select { case ch <- m: default: }` */
    function Push(m: M): Channel<M> {
      if closed then this.(panics := panics + 1)
      else if Blocked() then this
      else this.(queue := queue + [m], queued := queued + [m])
    }

    function Close(): Channel<M> {
      if closed then this.(panics := panics + 1) else this.(closed := true)
    }

    function Offer(m: M, dropOnFull: bool): Channel<M> {
      if Blocked() && dropOnFull then Close() else Push(m)
    }

    /** The reader takes the oldest message. */
    function Drain(): Channel<M> {
      if queue == [] then this else this.(queue := queue[1..])
    }

    /** What is still queued is the end of what was queued, and nothing ever panicked. */
    ghost predicate Sound() {
      && panics == 0
      && |queue| <= |queued| && |queue| <= CAPACITY
      && queue == queued[|queued| - |queue|..]
    }
  }

  function NewChannel<M>(): Channel<M> {
    Channel([], [], false, 0)
  }

  datatype Crowd<C, M> = Crowd(
    clients: set<C>,
    chans: map<C, Channel<M>>,
    joinedAt: map<C, nat>,
    leftAt: map<C, nat>)

  function NobodyYet<C(==), M>(): Crowd<C, M> {
    Crowd({}, map[], map[], map[])
  }

  /** Where the client left, or the end `now` of the log. */
  function Until<C(==), M>(crowd: Crowd<C, M>, c: C, now: nat): nat {
    if c in crowd.leftAt then crowd.leftAt[c] else now
  }

  function Leave<C(==)>(leftAt: map<C, nat>, gone: set<C>, at: nat): map<C, nat> {
    map c | c in leftAt.Keys + gone :: if c in gone then at else leftAt[c]
  }

  /** The clients a delivery drops. */
  function Dropped<C(==), M>(chans: map<C, Channel<M>>, to: set<C>, dropOnFull: bool): set<C> {
    set c | c in to && dropOnFull && c in chans && chans[c].Blocked()
  }

  /** Offers one message to the clients of `to`, dropping those whose channel is full when asked to. */
  function Deliver<C(==), M>(crowd: Crowd<C, M>, to: set<C>, m: M, dropOnFull: bool, at: nat): (r: Crowd<C, M>)
    ensures r.chans.Keys == crowd.chans.Keys
    ensures !dropOnFull ==> r.clients == crowd.clients
  {
    var gone := Dropped(crowd.chans, to, dropOnFull);
    crowd.(clients := crowd.clients - gone,
           chans := map c | c in crowd.chans :: if c in to then crowd.chans[c].Offer(m, dropOnFull) else crowd.chans[c],
           leftAt := Leave(crowd.leftAt, gone, at))
  }

  function CloseAll<C(==), M>(crowd: Crowd<C, M>, which: set<C>, at: nat): (r: Crowd<C, M>)
    ensures r.chans.Keys == crowd.chans.Keys
  {
    crowd.(clients := crowd.clients - which,
           chans := map c | c in crowd.chans :: if c in which then crowd.chans[c].Close() else crowd.chans[c],
           leftAt := Leave(crowd.leftAt, which, at))
  }

  /** Adds a client with the channel it already has, or a new one. */
  function Join<C(==), M>(crowd: Crowd<C, M>, c: C, at: nat): (r: Crowd<C, M>)
    ensures r.chans.Keys == crowd.chans.Keys + {c}
  {
    Crowd(crowd.clients + {c},
          crowd.chans[c := if c in crowd.chans then crowd.chans[c] else NewChannel()],
          crowd.joinedAt[c := at],
          crowd.leftAt - {c})
  }

  function DrainOne<C(==), M>(crowd: Crowd<C, M>, c: C): (r: Crowd<C, M>)
    requires c in crowd.chans
    ensures r.chans.Keys == crowd.chans.Keys
  {
    crowd.(chans := crowd.chans[c := crowd.chans[c].Drain()])
  }

  // ---------- the same operations, seen from one client ----------

  /** What a delivery does to each client, one by one. */
  ghost predicate Delivered<C, M>(before: Crowd<C, M>, after: Crowd<C, M>, to: set<C>, m: M, dropOnFull: bool, at: nat) {
    && after.chans.Keys == before.chans.Keys
    && after.joinedAt == before.joinedAt
    && after.clients <= before.clients
    && after.leftAt.Keys <= before.chans.Keys
    && forall c | c in before.chans ::
         var gone := c in to && dropOnFull && before.chans[c].Blocked();
         && after.chans[c] == (if c in to then before.chans[c].Offer(m, dropOnFull) else before.chans[c])
         && (c in after.clients <==> c in before.clients && !gone)
         && (c in after.leftAt <==> c in before.leftAt || gone)
         && (c in after.leftAt ==> after.leftAt[c] == if gone then at else before.leftAt[c])
  }

  ghost predicate Closed<C, M>(before: Crowd<C, M>, after: Crowd<C, M>, which: set<C>, at: nat) {
    && after.chans.Keys == before.chans.Keys
    && after.joinedAt == before.joinedAt
    && after.clients <= before.clients
    && after.leftAt.Keys <= before.chans.Keys
    && forall c | c in before.chans ::
         && after.chans[c] == (if c in which then before.chans[c].Close() else before.chans[c])
         && (c in after.clients <==> c in before.clients && c !in which)
         && (c in after.leftAt <==> c in before.leftAt || c in which)
         && (c in after.leftAt ==> after.leftAt[c] == if c in which then at else before.leftAt[c])
  }

  /**
   A channel is open exactly while its client is in the set, nothing ever panicked, and a
   client has left exactly when it is no longer in the set.
   */
  ghost predicate CrowdOk<C, M>(crowd: Crowd<C, M>) {
    && crowd.clients <= crowd.chans.Keys == crowd.joinedAt.Keys
    && crowd.leftAt.Keys <= crowd.chans.Keys
    && forall c | c in crowd.chans ::
         && crowd.chans[c].Sound()
         && (crowd.chans[c].closed <==> c !in crowd.clients)
         && (c in crowd.leftAt <==> c !in crowd.clients)
  }

  lemma OfferKeepsSound<M>(ch: Channel<M>, m: M, dropOnFull: bool)
    requires ch.Sound() && !ch.closed
    ensures ch.Offer(m, dropOnFull).Sound()
    ensures ch.Offer(m, dropOnFull).closed <==> ch.Blocked() && dropOnFull
  {
    if !ch.Blocked() {
      var after := ch.Push(m);
      assert after.queue == after.queued[|after.queued| - |after.queue|..];
    }
  }

  lemma DeliverEffect<C, M>(crowd: Crowd<C, M>, to: set<C>, m: M, dropOnFull: bool, at: nat)
    requires CrowdOk(crowd)
    ensures Delivered(crowd, Deliver(crowd, to, m, dropOnFull, at), to, m, dropOnFull, at)
  {
  }

  lemma DeliverKeepsCrowd<C, M>(before: Crowd<C, M>, after: Crowd<C, M>, to: set<C>, m: M, dropOnFull: bool, at: nat)
    requires CrowdOk(before) && to <= before.clients && Delivered(before, after, to, m, dropOnFull, at)
    ensures CrowdOk(after)
  {
    forall c | c in after.chans
      ensures after.chans[c].Sound()
           && (after.chans[c].closed <==> c !in after.clients)
           && (c in after.leftAt <==> c !in after.clients)
    {
      if c in to {
        OfferKeepsSound(before.chans[c], m, dropOnFull);
      }
    }
  }

  lemma CloseEffect<C, M>(crowd: Crowd<C, M>, which: set<C>, at: nat)
    requires CrowdOk(crowd) && which <= crowd.clients
    ensures Closed(crowd, CloseAll(crowd, which, at), which, at)
  {
  }

  lemma CloseKeepsCrowd<C, M>(before: Crowd<C, M>, after: Crowd<C, M>, which: set<C>, at: nat)
    requires CrowdOk(before) && which <= before.clients && Closed(before, after, which, at)
    ensures CrowdOk(after)
  {
  }

  lemma JoinKeepsCrowd<C, M>(crowd: Crowd<C, M>, c: C, at: nat)
    requires CrowdOk(crowd) && c !in crowd.chans
    ensures CrowdOk(Join(crowd, c, at))
  {
  }

  lemma DrainKeepsSound<M>(ch: Channel<M>)
    requires ch.Sound()
    ensures ch.Drain().Sound() && ch.Drain().closed == ch.closed && ch.Drain().queued == ch.queued
  {
  }

  lemma DrainKeepsCrowd<C, M>(crowd: Crowd<C, M>, c: C)
    requires CrowdOk(crowd) && c in crowd.chans
    ensures CrowdOk(DrainOne(crowd, c))
  {
    hide Channel.Sound;
    DrainKeepsSound(crowd.chans[c]);
  }

  /** A newcomer's first message always fits, and leaves everyone else as they were. */
  lemma GreetEffect<C, M>(crowd: Crowd<C, M>, c: C, m: M, at: nat)
    requires c !in crowd.chans
    ensures var greeted := Deliver(Join(crowd, c, at), {c}, m, true, at);
            && greeted.clients == crowd.clients + {c}
            && greeted.chans == crowd.chans[c := NewChannel().Push(m)]
  {
    var joined := Join(crowd, c, at);
    assert Dropped(joined.chans, {c}, true) == {};
  }

  lemma PartingEffect<C, M>(crowd: Crowd<C, M>, c: C, at: nat)
    requires c in crowd.chans
    ensures var left := CloseAll(crowd, {c}, at);
            && left.clients == crowd.clients - {c}
            && left.chans == crowd.chans[c := crowd.chans[c].Close()]
  {
  }

  // ---------- the buffer of 256 ----------

  /** What an open channel is after one message was offered: it has room for 256 unread messages. */
  function Offered<M>(ch: Channel<M>, m: M, dropOnFull: bool): Channel<M> {
    if |ch.queue| < 256 then Channel(ch.queue + [m], ch.queued + [m], false, ch.panics)
    else if dropOnFull then Channel(ch.queue, ch.queued, true, ch.panics)
    else ch
  }

  lemma OfferMeaning<M>(ch: Channel<M>, m: M, dropOnFull: bool)
    requires !ch.closed
    ensures ch.Offer(m, dropOnFull) == Offered(ch, m, dropOnFull)
  {
  }

  /** A recipient of a delivery that drops stays in the set if and only if fewer than 256 messages were unread. */
  lemma StaysIff<C, M>(crowd: Crowd<C, M>, to: set<C>, m: M, at: nat, c: C)
    requires CrowdOk(crowd) && to <= crowd.clients && c in to
    ensures c in Deliver(crowd, to, m, true, at).clients <==> |crowd.chans[c].queue| < 256
  {
  }

  /** A delivery gives every recipient the message if its buffer has room, and leaves all others alone. */
  lemma DeliverMeaning<C, M>(crowd: Crowd<C, M>, to: set<C>, m: M, dropOnFull: bool, at: nat)
    requires CrowdOk(crowd) && to <= crowd.clients
    ensures var after := Deliver(crowd, to, m, dropOnFull, at);
            && after.chans.Keys == crowd.chans.Keys
            && (forall c | c in crowd.chans ::
                  after.chans[c] == if c in to then Offered(crowd.chans[c], m, dropOnFull) else crowd.chans[c])
            && (forall c :: c in after.clients <==>
                  c in crowd.clients && !(c in to && dropOnFull && |crowd.chans[c].queue| >= 256))
  {
    forall c | c in to ensures crowd.chans[c].Offer(m, dropOnFull) == Offered(crowd.chans[c], m, dropOnFull) {
      OfferMeaning(crowd.chans[c], m, dropOnFull);
    }
  }
}
