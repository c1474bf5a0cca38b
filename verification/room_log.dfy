/** Filters and subsequences over the log of a room. */
module RoomLog {
  import opened Common

  /** What the room puts on a client's channel; an update carries the clock it was persisted under. */
  datatype Message =
    | SyncInit
    | AwarenessQuery
    | CursorsGone
    | Awareness(data: Bytes)
    | Update(clock: nat, data: Bytes)

  datatype RoomMessage<C> = RoomMessage(sender: C, data: Bytes)

  /** A persisted update, with the client it came from. */
  datatype Row<C> = Row(clock: nat, sender: C, data: Bytes)

  /** The document updates among the messages queued to a client. */
  function Updates(queued: seq<Message>): seq<Message> {
    if queued == [] then []
    else
      var m := queued[|queued| - 1];
      Updates(queued[..|queued| - 1]) + (if m.Update? then [m] else [])
  }

  /** The updates `client` must receive: the rows someone else sent, in log order. */
  function Foreign<C(==)>(log: seq<Row<C>>, client: C): seq<Message> {
    if log == [] then []
    else
      var row := log[|log| - 1];
      Foreign(log[..|log| - 1], client) + (if row.sender != client then [Update(row.clock, row.data)] else [])
  }

  /** The messages of one sender, in order. */
  function From<C(==)>(messages: seq<RoomMessage<C>>, sender: C): seq<Bytes> {
    if messages == [] then []
    else
      var m := messages[|messages| - 1];
      From(messages[..|messages| - 1], sender) + (if m.sender == sender then [m.data] else [])
  }

  function Sent<C>(log: seq<Row<C>>): seq<RoomMessage<C>> {
    seq(|log|, i requires 0 <= i < |log| => RoomMessage(log[i].sender, log[i].data))
  }

  /** `part` is `whole` with some elements left out. */
  predicate Subsequence<T(==)>(part: seq<T>, whole: seq<T>) {
    part == [] ||
    (whole != [] &&
       ((part[|part| - 1] == whole[|whole| - 1] && Subsequence(part[..|part| - 1], whole[..|whole| - 1]))
        || Subsequence(part, whole[..|whole| - 1])))
  }

  lemma UpdatesSnoc(queued: seq<Message>, m: Message)
    ensures Updates(queued + [m]) == Updates(queued) + if m.Update? then [m] else []
  {
    assert (queued + [m])[..|queued|] == queued;
  }

  lemma ForeignSnoc<C>(log: seq<Row<C>>, row: Row<C>, client: C)
    ensures Foreign(log + [row], client)
         == Foreign(log, client) + if row.sender != client then [Update(row.clock, row.data)] else []
  {
    assert (log + [row])[..|log|] == log;
  }

  lemma FromSnoc<C>(messages: seq<RoomMessage<C>>, m: RoomMessage<C>, sender: C)
    ensures From(messages + [m], sender) == From(messages, sender) + if m.sender == sender then [m.data] else []
  {
    assert (messages + [m])[..|messages|] == messages;
  }

  lemma {:induction false} FromConcat<C>(first: seq<RoomMessage<C>>, second: seq<RoomMessage<C>>, sender: C)
    ensures From(first + second, sender) == From(first, sender) + From(second, sender)
    decreases |second|
  {
    if second == [] {
      assert first + second == first;
    } else {
      var n := |second| - 1;
      FromConcat(first, second[..n], sender);
      assert first + second == (first + second[..n]) + [second[n]];
      FromSnoc(first + second[..n], second[n], sender);
    }
  }

  lemma SubsequenceSkip<T>(part: seq<T>, whole: seq<T>, x: T)
    requires Subsequence(part, whole)
    ensures Subsequence(part, whole + [x])
  {
    assert (whole + [x])[..|whole|] == whole;
  }

  lemma SubsequenceTake<T>(part: seq<T>, whole: seq<T>, x: T)
    requires Subsequence(part, whole)
    ensures Subsequence(part + [x], whole + [x])
  {
    assert (whole + [x])[..|whole|] == whole;
    assert (part + [x])[..|part|] == part;
  }

  lemma {:induction false} SubsequenceExtend<T>(part: seq<T>, whole: seq<T>, more: seq<T>)
    requires Subsequence(part, whole)
    ensures Subsequence(part, whole + more)
    decreases |more|
  {
    if more == [] {
      assert whole + more == whole;
    } else {
      var n := |more| - 1;
      SubsequenceExtend(part, whole, more[..n]);
      SubsequenceSkip(part, whole + more[..n], more[n]);
      assert whole + more == (whole + more[..n]) + [more[n]];
    }
  }

  /** Leaving out messages of the whole leaves out messages of each sender, and reorders none. */
  lemma {:induction false} SubsequencePerSender<C>(part: seq<RoomMessage<C>>, whole: seq<RoomMessage<C>>, sender: C)
    requires Subsequence(part, whole)
    ensures Subsequence(From(part, sender), From(whole, sender))
    decreases |whole|
  {
    if part != [] {
      var n, k := |whole| - 1, |part| - 1;
      assert From(whole[..n], sender) + [] == From(whole[..n], sender);
      assert From(part[..k], sender) + [] == From(part[..k], sender);
      if part[k] == whole[n] && Subsequence(part[..k], whole[..n]) {
        SubsequencePerSender(part[..k], whole[..n], sender);
        if whole[n].sender == sender {
          SubsequenceTake(From(part[..k], sender), From(whole[..n], sender), whole[n].data);
        }
      } else {
        SubsequencePerSender(part, whole[..n], sender);
        if whole[n].sender == sender {
          SubsequenceSkip(From(part, sender), From(whole[..n], sender), whole[n].data);
        }
      }
    }
  }

  /** A subsequence sits in the whole at increasing places. */
  lemma {:induction false} SubsequenceMeaning<T>(part: seq<T>, whole: seq<T>)
    requires Subsequence(part, whole)
    ensures exists at: seq<nat> :: IsEmbedding(at, part, whole)
    decreases |whole|
  {
    if part == [] {
      assert IsEmbedding([], part, whole);
    } else {
      var n, k := |whole| - 1, |part| - 1;
      if part[k] == whole[n] && Subsequence(part[..k], whole[..n]) {
        SubsequenceMeaning(part[..k], whole[..n]);
        var at: seq<nat> :| IsEmbedding(at, part[..k], whole[..n]);
        assert IsEmbedding(at + [n], part, whole);
      } else {
        SubsequenceMeaning(part, whole[..n]);
        var at: seq<nat> :| IsEmbedding(at, part, whole[..n]);
        assert IsEmbedding(at, part, whole);
      }
    }
  }

  ghost predicate IsEmbedding<T>(at: seq<nat>, part: seq<T>, whole: seq<T>) {
    && |at| == |part|
    && (forall i, j | 0 <= i < j < |at| :: at[i] < at[j])
    && forall i | 0 <= i < |at| :: at[i] < |whole| && part[i] == whole[at[i]]
  }

  // ---------- what the filters keep ----------

  /** The updates are the updates among the messages, in their order. */
  lemma {:induction false} UpdatesMeaning(queued: seq<Message>)
    ensures Subsequence(Updates(queued), queued)
    ensures forall m :: m in Updates(queued) <==> m in queued && m.Update?
  {
    if queued != [] {
      var n := |queued| - 1;
      var front, m := queued[..n], queued[n];
      UpdatesMeaning(front);
      assert queued == front + [m];
      if m.Update? {
        SubsequenceTake(Updates(front), front, m);
      } else {
        assert Updates(front) + [] == Updates(front);
        SubsequenceSkip(Updates(front), front, m);
      }
    }
  }

  /** Every row as the message it makes for everyone else. */
  function AsUpdates<C>(log: seq<Row<C>>): seq<Message> {
    seq(|log|, i requires 0 <= i < |log| => Update(log[i].clock, log[i].data))
  }

  /** What a client must receive are the rows of others, each as its update, in log order; of its own none, if clocks differ. */
  lemma {:induction false} ForeignMeaning<C>(log: seq<Row<C>>, client: C)
    ensures Subsequence(Foreign(log, client), AsUpdates(log))
    ensures forall i | 0 <= i < |log| && log[i].sender != client :: Update(log[i].clock, log[i].data) in Foreign(log, client)
    ensures forall m | m in Foreign(log, client) ::
              exists i :: 0 <= i < |log| && log[i].sender != client && m == Update(log[i].clock, log[i].data)
  {
    if log != [] {
      var n := |log| - 1;
      var front, row := log[..n], log[n];
      var m := Update(row.clock, row.data);
      ForeignMeaning(front, client);
      assert AsUpdates(log) == AsUpdates(front) + [m];
      assert forall i | 0 <= i < n :: front[i] == log[i];
      if row.sender != client {
        SubsequenceTake(Foreign(front, client), AsUpdates(front), m);
      } else {
        assert Foreign(front, client) + [] == Foreign(front, client);
        SubsequenceSkip(Foreign(front, client), AsUpdates(front), m);
      }
      forall u | u in Foreign(log, client)
        ensures exists i :: 0 <= i < |log| && log[i].sender != client && u == Update(log[i].clock, log[i].data)
      {
        if u in Foreign(front, client) {
          var i :| 0 <= i < n && front[i].sender != client && u == Update(front[i].clock, front[i].data);
          assert log[i].sender != client && u == Update(log[i].clock, log[i].data);
        } else {
          assert u == m && row.sender != client;
        }
      }
    }
  }
}
