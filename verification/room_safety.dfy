/** What every run of a document room keeps. */
module RoomSafety {
  import opened Common
  import opened Channels
  import opened DocumentLog
  import opened RoomLog
  import opened RoomMachine

  // ---------- delivery ----------

  /** The updates queued to a client are the rows of others in its stretch of the log. */
  ghost predicate Served<C>(log: seq<Row<C>>, joined: nat, left: nat, queued: seq<Message>, c: C) {
    joined <= left <= |log| && Updates(queued) == Foreign(log[joined..left], c)
  }

  ghost predicate AllServed<C>(crowd: Crowd<C, Message>, log: seq<Row<C>>)
    requires crowd.chans.Keys == crowd.joinedAt.Keys
  {
    forall c | c in crowd.chans ::
      Served(log, crowd.joinedAt[c], Until(crowd, c, |log|), crowd.chans[c].queued, c)
  }

  lemma OfferUpdates(ch: Channel<Message>, m: Message, dropOnFull: bool)
    ensures Updates(ch.Offer(m, dropOnFull).queued)
         == Updates(ch.queued) + if m.Update? && !ch.closed && !ch.Blocked() then [m] else []
  {
    UpdatesSnoc(ch.queued, m);
    assert Updates(ch.queued) + [] == Updates(ch.queued);
  }

  /** Delivering anything but an update changes nobody's stretch and nobody's updates. */
  lemma OtherMessagesKeepServed<C>(before: Crowd<C, Message>, after: Crowd<C, Message>, to: set<C>, m: Message,
                                   dropOnFull: bool, log: seq<Row<C>>)
    requires CrowdOk(before) && to <= before.clients && !m.Update?
    requires Delivered(before, after, to, m, dropOnFull, |log|)
    requires AllServed(before, log)
    ensures AllServed(after, log)
  {
    forall c | c in after.chans
      ensures Served(log, after.joinedAt[c], Until(after, c, |log|), after.chans[c].queued, c)
    {
      OfferUpdates(before.chans[c], m, dropOnFull);
      assert Served(log, before.joinedAt[c], Until(before, c, |log|), before.chans[c].queued, c);
    }
  }

  lemma ClosingKeepsServed<C>(before: Crowd<C, Message>, after: Crowd<C, Message>, which: set<C>, log: seq<Row<C>>)
    requires CrowdOk(before) && which <= before.clients && Closed(before, after, which, |log|)
    requires AllServed(before, log)
    ensures AllServed(after, log)
  {
    forall c | c in after.chans
      ensures Served(log, after.joinedAt[c], Until(after, c, |log|), after.chans[c].queued, c)
    {
      assert Served(log, before.joinedAt[c], Until(before, c, |log|), before.chans[c].queued, c);
    }
  }

  lemma StayedThroughRow<C>(log: seq<Row<C>>, row: Row<C>, joined: nat, queued: seq<Message>, c: C)
    requires Served(log, joined, |log|, queued, c)
    ensures row.sender == c ==> Served(log + [row], joined, |log| + 1, queued, c)
    ensures row.sender != c ==> Served(log + [row], joined, |log| + 1, queued + [Update(row.clock, row.data)], c)
  {
    ForeignSnoc(log[joined..], row, c);
    UpdatesSnoc(queued, Update(row.clock, row.data));
    assert log[joined..|log|] == log[joined..];
    assert (log + [row])[joined..|log| + 1] == log[joined..] + [row];
    assert Foreign(log[joined..], c) + [] == Foreign(log[joined..], c);
  }

  lemma GoneBeforeRow<C>(log: seq<Row<C>>, row: Row<C>, joined: nat, left: nat, queued: seq<Message>, c: C)
    requires Served(log, joined, left, queued, c)
    ensures Served(log + [row], joined, left, queued, c)
  {
    assert (log + [row])[joined..left] == log[joined..left];
  }

  /** One row, delivered to everyone but its sender: whoever misses it leaves right before it. */
  lemma RowKeepsServed<C>(before: Crowd<C, Message>, after: Crowd<C, Message>, log: seq<Row<C>>, row: Row<C>)
    requires CrowdOk(before)
    requires Delivered(before, after, before.clients - {row.sender}, Update(row.clock, row.data), true, |log|)
    requires AllServed(before, log)
    ensures AllServed(after, log + [row])
  {
    hide Served;
    forall c | c in after.chans
      ensures Served(log + [row], after.joinedAt[c], Until(after, c, |log| + 1), after.chans[c].queued, c)
    {
      var joined, left, queued := before.joinedAt[c], Until(before, c, |log|), before.chans[c].queued;
      assert Served(log, joined, left, queued, c);
      if c in after.clients {
        StayedThroughRow(log, row, joined, queued, c);
      } else {
        GoneBeforeRow(log, row, joined, left, queued, c);
      }
    }
  }

  lemma JustJoined<C>(log: seq<Row<C>>, c: C)
    ensures Served(log, |log|, |log|, [], c)
  {
  }

  lemma JoinKeepsServed<C>(crowd: Crowd<C, Message>, c: C, log: seq<Row<C>>)
    requires CrowdOk(crowd) && c !in crowd.chans && AllServed(crowd, log)
    ensures CrowdOk(Join(crowd, c, |log|)) && AllServed(Join(crowd, c, |log|), log)
  {
    hide Served;
    JoinKeepsCrowd(crowd, c, |log|);
    var after := Join(crowd, c, |log|);
    forall d | d in after.chans
      ensures Served(log, after.joinedAt[d], Until(after, d, |log|), after.chans[d].queued, d)
    {
      if d == c {
        JustJoined(log, c);
      } else {
        assert Served(log, crowd.joinedAt[d], Until(crowd, d, |log|), crowd.chans[d].queued, d);
      }
    }
  }

  lemma DrainKeepsServed<C>(crowd: Crowd<C, Message>, c: C, log: seq<Row<C>>)
    requires CrowdOk(crowd) && c in crowd.chans && AllServed(crowd, log)
    ensures CrowdOk(DrainOne(crowd, c)) && AllServed(DrainOne(crowd, c), log)
  {
    DrainKeepsCrowd(crowd, c);
    var after := DrainOne(crowd, c);
    forall d | d in after.chans
      ensures Served(log, after.joinedAt[d], Until(after, d, |log|), after.chans[d].queued, d)
    {
      assert Served(log, crowd.joinedAt[d], Until(crowd, d, |log|), crowd.chans[d].queued, d);
    }
  }

  // ---------- the crowd through each event ----------

  ghost predicate CrowdServed<C>(crowd: Crowd<C, Message>, log: seq<Row<C>>) {
    CrowdOk(crowd) && AllServed(crowd, log)
  }

  lemma SendKeeps<C>(crowd: Crowd<C, Message>, to: set<C>, m: Message, dropOnFull: bool, log: seq<Row<C>>)
    requires CrowdServed(crowd, log) && to <= crowd.clients && !m.Update?
    ensures CrowdServed(Deliver(crowd, to, m, dropOnFull, |log|), log)
  {
    var after := Deliver(crowd, to, m, dropOnFull, |log|);
    DeliverEffect(crowd, to, m, dropOnFull, |log|);
    DeliverKeepsCrowd(crowd, after, to, m, dropOnFull, |log|);
    OtherMessagesKeepServed(crowd, after, to, m, dropOnFull, log);
  }

  lemma CloseKeeps<C>(crowd: Crowd<C, Message>, which: set<C>, log: seq<Row<C>>)
    requires CrowdServed(crowd, log) && which <= crowd.clients
    ensures CrowdServed(CloseAll(crowd, which, |log|), log)
  {
    var after := CloseAll(crowd, which, |log|);
    CloseEffect(crowd, which, |log|);
    CloseKeepsCrowd(crowd, after, which, |log|);
    ClosingKeepsServed(crowd, after, which, log);
  }

  lemma UpdateKeeps<C>(crowd: Crowd<C, Message>, log: seq<Row<C>>, row: Row<C>)
    requires CrowdServed(crowd, log)
    ensures CrowdServed(Deliver(crowd, crowd.clients - {row.sender}, Update(row.clock, row.data), true, |log|), log + [row])
  {
    var to, m := crowd.clients - {row.sender}, Update(row.clock, row.data);
    var after := Deliver(crowd, to, m, true, |log|);
    DeliverEffect(crowd, to, m, true, |log|);
    DeliverKeepsCrowd(crowd, after, to, m, true, |log|);
    RowKeepsServed(crowd, after, log, row);
  }

  lemma RegisterKeeps<C>(r: Room<C>, c: C)
    requires CrowdServed(r.crowd, r.log) && c !in r.crowd.chans
    ensures CrowdServed(OnRegister(r, c).crowd, r.log)
  {
    var joined := Join(r.crowd, c, |r.log|);
    JoinKeepsServed(r.crowd, c, r.log);
    SendKeeps(joined, {c}, SyncInit, true, r.log);
    var greeted := Deliver(joined, {c}, SyncInit, true, |r.log|);
    SendKeeps(greeted, greeted.clients - {c}, AwarenessQuery, false, r.log);
  }

  lemma UnregisterKeeps<C>(r: Room<C>, c: C)
    requires CrowdServed(r.crowd, r.log) && c in r.crowd.clients
    ensures CrowdServed(OnUnregister(r, c).crowd, r.log)
    ensures OnUnregister(r, c).done ==> OnUnregister(r, c).crowd.clients == {}
  {
    hide CrowdServed;
    CloseKeeps(r.crowd, {c}, r.log);
    var left := CloseAll(r.crowd, {c}, |r.log|);
    SendKeeps(left, left.clients, CursorsGone, false, r.log);
  }

  ghost predicate MembersOk<C>(r: Room<C>) {
    CrowdServed(r.crowd, r.log) && (r.done ==> r.crowd.clients == {})
  }

  lemma StepKeepsMembers<C>(r: Room<C>, e: Event<C>)
    requires MembersOk(r)
    ensures MembersOk(Step(r, e))
  {
    if Enabled(r, e) {
      match e
      case Register(c) => RegisterKeeps(r, c);
      case Unregister(c) =>
        if c in r.crowd.clients {
          UnregisterKeeps(r, c);
        }
      case TakeBroadcast(fault) =>
        var msg := r.inbox.broadcast[0];
        var got := Increment(r.store.doc, msg.data, fault);
        if got.Ok? {
          UpdateKeeps(r.crowd, r.log, Row(got.value.1, msg.sender, msg.data));
        }
      case TakeAwareness =>
        var msg := r.inbox.awareness[0];
        SendKeeps(r.crowd, r.crowd.clients - {msg.sender}, Awareness(msg.data), false, r.log);
      case Shutdown =>
        CloseKeeps(r.crowd, r.crowd.clients, r.log);
        assert r.crowd.clients - r.crowd.clients == {};
      case Drain(c) => DrainKeepsServed(r.crowd, c, r.log);
      case _ =>
    }
  }

  // ---------- the log ----------

  /** The room's rows are the last ones of the document's history, clocks without a gap. */
  ghost predicate LogOk<C>(store: Tracked, start: nat, log: seq<Row<C>>) {
    && Consistent(store)
    && |store.history| == start + |log|
    && forall i | 0 <= i < |log| :: log[i].clock == start + i + 1 && log[i].data == store.history[start + i]
  }

  lemma StepKeepsLog<C>(r: Room<C>, e: Event<C>)
    requires LogOk(r.store, r.start, r.log)
    ensures var r' := Step(r, e); LogOk(r'.store, r'.start, r'.log)
  {
    if Enabled(r, e) {
      match e
      case TakeBroadcast(fault) =>
        var msg := r.inbox.broadcast[0];
        AppendKeepsConsistent(r.store, msg.data, fault);
        if r.store.doc.Some? {
          IncrementCommitsIff(r.store, msg.data, fault);
        }
      case Compaction(snapshot, clock, fault) =>
        CompactKeepsConsistent(r.store, snapshot, clock, fault);
      case _ =>
    }
  }

  // ---------- the senders' streams ----------

  ghost predicate StreamsOk<C>(known: set<C>, inbox: Inbox<C>, log: seq<Row<C>>) {
    && inbox.read.Keys == known
    && inbox.forwarded == inbox.taken + inbox.broadcast
    && Subsequence(Sent(log), inbox.taken)
    && |log| + inbox.failures == |inbox.taken|
    && (inbox.failures == 0 ==> Sent(log) == inbox.taken)
    && (forall m | m in inbox.forwarded :: m.sender in known)
    && forall c | c in known :: From(inbox.forwarded, c) == SyncOf(inbox.read[c])
  }

  lemma {:induction false} FromStranger<C>(messages: seq<RoomMessage<C>>, c: C)
    requires forall m | m in messages :: m.sender != c
    ensures From(messages, c) == []
  {
    if messages != [] {
      FromStranger(messages[..|messages| - 1], c);
    }
  }

  lemma ReceiveKeepsStreams<C>(known: set<C>, inbox: Inbox<C>, log: seq<Row<C>>, c: C, message: Bytes)
    requires StreamsOk(known, inbox, log) && c in known
    ensures StreamsOk(known, Received(inbox, c, message), log)
  {
    hide Subsequence, Sent, From, SyncOf;
    var after, msg := Received(inbox, c, message), RoomMessage(c, message);
    forall d | d in known ensures From(after.forwarded, d) == SyncOf(after.read[d]) {
      FromSnoc(inbox.forwarded, msg, d);
      SyncSnoc(inbox.read[c], message);
    }
    assert (inbox.taken + inbox.broadcast) + [msg] == inbox.taken + (inbox.broadcast + [msg]);
  }

  lemma SyncSnoc(messages: seq<Bytes>, m: Bytes)
    ensures SyncOf(messages + [m]) == SyncOf(messages) + if IsSync(m) then [m] else []
  {
    assert (messages + [m])[..|messages|] == messages;
  }

  lemma FailureKeepsStreams<C>(known: set<C>, inbox: Inbox<C>, log: seq<Row<C>>)
    requires StreamsOk(known, inbox, log) && inbox.broadcast != []
    ensures StreamsOk(known, Took(inbox, true), log)
  {
    SubsequenceSkip(Sent(log), inbox.taken, inbox.broadcast[0]);
  }

  lemma SuccessKeepsStreams<C>(known: set<C>, inbox: Inbox<C>, log: seq<Row<C>>, row: Row<C>)
    requires StreamsOk(known, inbox, log) && inbox.broadcast != []
    requires inbox.broadcast[0] == RoomMessage(row.sender, row.data)
    ensures StreamsOk(known, Took(inbox, false), log + [row])
  {
    SubsequenceTake(Sent(log), inbox.taken, inbox.broadcast[0]);
    assert Sent(log + [row]) == Sent(log) + [inbox.broadcast[0]];
  }

  lemma AwarenessKeepsStreams<C>(known: set<C>, inbox: Inbox<C>, log: seq<Row<C>>)
    requires StreamsOk(known, inbox, log) && inbox.awareness != []
    ensures StreamsOk(known, inbox.(awareness := inbox.awareness[1..]), log)
  {
  }

  lemma JoinKeepsStreams<C>(known: set<C>, inbox: Inbox<C>, log: seq<Row<C>>, c: C)
    requires StreamsOk(known, inbox, log) && c !in known
    ensures StreamsOk(known + {c}, inbox.(read := inbox.read[c := []]), log)
  {
    FromStranger(inbox.forwarded, c);
  }

  lemma StepKeepsStreams<C>(r: Room<C>, e: Event<C>)
    requires StreamsOk(r.crowd.chans.Keys, r.inbox, r.log)
    ensures var r' := Step(r, e); StreamsOk(r'.crowd.chans.Keys, r'.inbox, r'.log)
  {
    hide StreamsOk, Deliver, CloseAll, Join, DrainOne, Received, Took, Increment, CompactTracked;
    var known := r.crowd.chans.Keys;
    if Enabled(r, e) {
      match e
      case Register(c) =>
        JoinKeepsStreams(known, r.inbox, r.log, c);
        assert OnRegister(r, c).crowd.chans.Keys == known + {c};
      case TakeBroadcast(fault) =>
        var msg := r.inbox.broadcast[0];
        var got := Increment(r.store.doc, msg.data, fault);
        if got.Ok? {
          SuccessKeepsStreams(known, r.inbox, r.log, Row(got.value.1, msg.sender, msg.data));
          assert Step(r, e).crowd.chans.Keys == known;
        } else {
          FailureKeepsStreams(known, r.inbox, r.log);
        }
      case TakeAwareness => AwarenessKeepsStreams(known, r.inbox, r.log);
      case Receive(c, m) => ReceiveKeepsStreams(known, r.inbox, r.log, c, m);
      case _ =>
        assert Step(r, e).crowd.chans.Keys == known;
    }
  }

  // ---------- every run ----------

  ghost predicate RoomOk<C>(r: Room<C>) {
    && MembersOk(r)
    && LogOk(r.store, r.start, r.log)
    && StreamsOk(r.crowd.chans.Keys, r.inbox, r.log)
  }

  lemma StepKeepsRoom<C>(r: Room<C>, e: Event<C>)
    requires RoomOk(r)
    ensures RoomOk(Step(r, e)) && Step(r, e).start == r.start
  {
    StepKeepsMembers(r, e);
    StepKeepsLog(r, e);
    StepKeepsStreams(r, e);
  }

  lemma NewRoomOk<C>(store: Tracked)
    requires Consistent(store)
    ensures RoomOk<C>(NewRoom(store))
  {
  }

  lemma {:induction false} RunKeepsRoom<C>(store: Tracked, events: seq<Event<C>>)
    requires Consistent(store)
    ensures RoomOk(Exec(NewRoom(store), events)) && Exec(NewRoom(store), events).start == |store.history|
  {
    hide Step, RoomOk;
    if events == [] {
      assert RoomOk(NewRoom<C>(store)) by { NewRoomOk<C>(store); }
    } else {
      RunKeepsRoom(store, events[..|events| - 1]);
      StepKeepsRoom(Exec(NewRoom(store), events[..|events| - 1]), events[|events| - 1]);
    }
  }

  lemma MemberIsServed<C>(r: Room<C>, c: C)
    requires RoomOk(r) && c in r.crowd.clients
    ensures !r.done && c in r.crowd.chans && c in r.crowd.joinedAt && r.crowd.joinedAt[c] <= |r.log|
    ensures Updates(r.crowd.chans[c].queued) == Foreign(r.log[r.crowd.joinedAt[c]..], c)
  {
    hide Updates, Foreign;
    assert Served(r.log, r.crowd.joinedAt[c], Until(r.crowd, c, |r.log|), r.crowd.chans[c].queued, c);
    assert r.log[r.crowd.joinedAt[c]..|r.log|] == r.log[r.crowd.joinedAt[c]..];
  }

  /**
   Over every run: the updates ever queued to a connected client are exactly the rows others
   persisted since it joined, in clock order and with no gap; a client that left was served
   exactly up to the row before which it left.
   */
  lemma QueuedUpdatesAreForeignRows<C>(store: Tracked, events: seq<Event<C>>, c: C)
    requires Consistent(store)
    requires c in Exec(NewRoom(store), events).crowd.chans
    ensures var r := Exec(NewRoom(store), events);
            && c in r.crowd.joinedAt && r.crowd.joinedAt[c] <= |r.log|
            && (c in r.crowd.clients ==> Updates(r.crowd.chans[c].queued) == Foreign(r.log[r.crowd.joinedAt[c]..], c))
            && (c !in r.crowd.clients ==>
                  && c in r.crowd.leftAt && r.crowd.joinedAt[c] <= r.crowd.leftAt[c] <= |r.log|
                  && Updates(r.crowd.chans[c].queued) == Foreign(r.log[r.crowd.joinedAt[c]..r.crowd.leftAt[c]], c))
            && (forall i | 0 <= i < |r.log| :: r.log[i].clock == |store.history| + i + 1)
  {
    hide Step, Exec, Foreign, Updates;
    RunKeepsRoom(store, events);
    var r := Exec(NewRoom(store), events);
    assert Served(r.log, r.crowd.joinedAt[c], Until(r.crowd, c, |r.log|), r.crowd.chans[c].queued, c);
    assert r.log[r.crowd.joinedAt[c]..|r.log|] == r.log[r.crowd.joinedAt[c]..];
  }

  /**
   Over every run: a channel is open exactly while its client is in the set, no close or send
   ever panics, and when the loop has returned every channel is closed.
   */
  lemma ChannelsOverRuns<C>(store: Tracked, events: seq<Event<C>>, c: C)
    requires Consistent(store)
    requires c in Exec(NewRoom(store), events).crowd.chans
    ensures var r := Exec(NewRoom(store), events);
            && (!r.crowd.chans[c].closed <==> c in r.crowd.clients)
            && r.crowd.chans[c].panics == 0
            && (r.done ==> r.crowd.chans[c].closed)
            && |r.crowd.chans[c].queue| <= CAPACITY
  {
    RunKeepsRoom(store, events);
  }

  /** Registering a client a second time makes the loop panic exactly when the client had already left. */
  lemma RegisterAgainPanicsIff<C>(r: Room<C>, c: C)
    requires RoomOk(r) && c in r.crowd.chans
    ensures OnRegister(r, c).crowd.chans[c].panics > 0 <==> c !in r.crowd.clients
  {
  }

  /**
   Over every run the log is an order-preserving merge of the senders' streams: each sender's
   rows are a subsequence of the sync messages its ReadPump read, and a prefix of them as long
   as no persist failed. Rows, failures and buffered messages add up to what was forwarded.
   */
  lemma LogMergesStreams<C>(store: Tracked, events: seq<Event<C>>, c: C)
    requires Consistent(store)
    requires c in Exec(NewRoom(store), events).crowd.chans
    ensures var r := Exec(NewRoom(store), events);
            && c in r.inbox.read
            && Subsequence(Sent(r.log), r.inbox.forwarded)
            && Subsequence(From(Sent(r.log), c), SyncOf(r.inbox.read[c]))
            && (r.inbox.failures == 0 ==> From(Sent(r.log), c) <= SyncOf(r.inbox.read[c]))
            && |r.log| + r.inbox.failures + |r.inbox.broadcast| == |r.inbox.forwarded|
  {
    RunKeepsRoom(store, events);
    var r := Exec(NewRoom(store), events);
    SubsequenceExtend(Sent(r.log), r.inbox.taken, r.inbox.broadcast);
    SubsequencePerSender(Sent(r.log), r.inbox.forwarded, c);
    FromConcat(r.inbox.taken, r.inbox.broadcast, c);
  }
}
