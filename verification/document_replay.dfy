/**
 What the update log means: a client that loads the snapshot and applies the retained rows
 in clock order. The merge itself is left abstract.
 */
module DocumentReplay {
  import opened Common
  import opened DocumentLog

  /** Any way of reading a snapshot and applying an update to a state. */
  datatype Yjs<!S> = Yjs(empty: S, load: Bytes -> S, apply: (S, Bytes) -> S) {

    function Replay(s: S, updates: seq<Bytes>): S {
      if updates == [] then s
      else apply(Replay(s, updates[..|updates| - 1]), updates[|updates| - 1])
    }

    function Base(doc: Document): S {
      if doc.snapshot.None? then empty else load(doc.snapshot.value)
    }

    /** The snapshot, then every retained row in clock order. */
    function Content(doc: Document): S {
      Replay(Base(doc), Payloads(UpdatesSince(doc, 0)))
    }

    lemma {:induction false} ReplayConcat(s: S, first: seq<Bytes>, second: seq<Bytes>)
      ensures Replay(s, first + second) == Replay(Replay(s, first), second)
      decreases |second|
    {
      if second == [] {
        assert first + second == first;
      } else {
        var n := |second| - 1;
        ReplayConcat(s, first, second[..n]);
        assert (first + second)[..|first + second| - 1] == first + second[..n];
      }
    }

    /** The snapshot is a correct merge of everything up to the last compaction. */
    ghost predicate Faithful(t: Tracked)
      requires t.compacted <= |t.history|
    {
      t.doc.Some? ==> Base(t.doc.value) == Replay(empty, t.history[..t.compacted])
    }

    ghost predicate Legal(t: Tracked, op: Op) {
      match op
      case Persist(_, _) => true
      case Compaction(snapshot, clock, _) =>
        InRange(t, clock) && load(snapshot) == Replay(empty, t.history[..clock])
    }

    ghost predicate LegalRun(t: Tracked, ops: seq<Op>) {
      ops == [] ||
      (LegalRun(t, ops[..|ops| - 1]) && Legal(Exec(t, ops[..|ops| - 1]), ops[|ops| - 1]))
    }

    /** The content of a consistent document is the replay of everything ever persisted. */
    lemma ContentIsHistory(t: Tracked)
      requires Consistent(t) && t.doc.Some? && Faithful(t)
      ensures Content(t.doc.value) == Replay(empty, t.history)
    {
      RetainedRows(t);
      ReplayConcat(empty, t.history[..t.compacted], t.history[t.compacted..]);
      assert t.history[..t.compacted] + t.history[t.compacted..] == t.history;
    }

    lemma LegalStepKeeps(t: Tracked, op: Op)
      requires Consistent(t) && Faithful(t) && Legal(t, op)
      ensures Consistent(Step(t, op)) && Faithful(Step(t, op))
    {
      match op
      case Persist(data, fault) =>
        AppendKeepsConsistent(t, data, fault);
        assert (t.history + [data])[..t.compacted] == t.history[..t.compacted];
      case Compaction(snapshot, clock, fault) =>
        CompactKeepsConsistent(t, snapshot, clock, fault);
    }

    /** Over every run of persists and correct compactions, failing ones included, nothing is lost or reordered. */
    lemma {:induction false} ReplayOverRuns(ops: seq<Op>)
      requires LegalRun(NEW_DOCUMENT, ops)
      ensures var t := Exec(NEW_DOCUMENT, ops);
              Consistent(t) && Faithful(t) && t.doc.Some? && Content(t.doc.value) == Replay(empty, t.history)
    {
      if ops != [] {
        var front := ops[..|ops| - 1];
        ReplayOverRuns(front);
        LegalStepKeeps(Exec(NEW_DOCUMENT, front), ops[|ops| - 1]);
      }
      ContentIsHistory(Exec(NEW_DOCUMENT, ops));
    }
  }

  datatype Op = Persist(data: Bytes, fault: bool) | Compaction(snapshot: Bytes, clock: nat, fault: bool)

  function Step(t: Tracked, op: Op): Tracked {
    match op
    case Persist(data, fault) => Append(t, data, fault)
    case Compaction(snapshot, clock, fault) => CompactTracked(t, snapshot, clock, fault)
  }

  function Exec(t: Tracked, ops: seq<Op>): Tracked {
    if ops == [] then t else Step(Exec(t, ops[..|ops| - 1]), ops[|ops| - 1])
  }

  /** The clocks handed out by the persists of a run. */
  function Clocks(t: Tracked, ops: seq<Op>): seq<nat> {
    if ops == [] then []
    else
      var front, op := ops[..|ops| - 1], ops[|ops| - 1];
      Clocks(t, front) +
      match op
      case Persist(data, fault) =>
        (match Increment(Exec(t, front).doc, data, fault) case Ok((_, clock)) => [clock] case Err(_) => [])
      case Compaction(_, _, _) => []
  }

  /** Every compaction of the run is at a clock between the last compaction and the latest clock. */
  ghost predicate RunInRange(t: Tracked, ops: seq<Op>) {
    ops == [] ||
    (RunInRange(t, ops[..|ops| - 1])
     && (ops[|ops| - 1].Compaction? ==> InRange(Exec(t, ops[..|ops| - 1]), ops[|ops| - 1].clock)))
  }

  lemma StepKeepsConsistent(t: Tracked, op: Op)
    requires Consistent(t) && (op.Compaction? ==> InRange(t, op.clock))
    ensures Consistent(Step(t, op))
  {
    match op
    case Persist(data, fault) => AppendKeepsConsistent(t, data, fault);
    case Compaction(snapshot, clock, fault) => CompactKeepsConsistent(t, snapshot, clock, fault);
  }

  /**
   From any consistent state, a successful persist gets the clock after all earlier ones, whatever
   the compactions in between wrote.
   */
  lemma {:induction false} ClocksNeverReused(t: Tracked, ops: seq<Op>)
    requires Consistent(t) && RunInRange(t, ops)
    ensures Consistent(Exec(t, ops))
    ensures |Exec(t, ops).history| == |t.history| + |Clocks(t, ops)|
    ensures forall i | 0 <= i < |Clocks(t, ops)| :: Clocks(t, ops)[i] == |t.history| + i + 1
  {
    if ops != [] {
      var front, op := ops[..|ops| - 1], ops[|ops| - 1];
      ClocksNeverReused(t, front);
      var mid := Exec(t, front);
      StepKeepsConsistent(mid, op);
      if op.Persist? && mid.doc.Some? {
        IncrementCommitsIff(mid, op.data, op.fault);
      }
    }
  }

  /**
   After a compaction below the latest clock every persist rolls back, whatever else is
   compacted in between, until a compaction reaches the latest clock.
   */
  lemma {:induction false} BlockedUntilLatestCompaction(t: Tracked, ops: seq<Op>)
    requires Consistent(t) && t.doc.Some? && t.doc.value.clock < |t.history| && RunInRange(t, ops)
    requires forall op | op in ops && op.Compaction? :: op.clock < |t.history| || op.fault
    ensures var last := Exec(t, ops);
            Consistent(last) && last.doc.Some?
            && last.history == t.history && last.doc.value.clock < |t.history| && Clocks(t, ops) == []
  {
    if ops != [] {
      var front, op := ops[..|ops| - 1], ops[|ops| - 1];
      assert op in ops;
      BlockedUntilLatestCompaction(t, front);
      var mid := Exec(t, front);
      StepKeepsConsistent(mid, op);
      if op.Persist? {
        IncrementCommitsIff(mid, op.data, op.fault);
      }
    }
  }

  /** Whatever came before, right after a compaction a persist commits if and only if the compaction was at the latest clock. */
  lemma PersistAfterCompactionIff(t: Tracked, snapshot: Bytes, clock: nat, data: Bytes)
    requires Consistent(t) && t.doc.Some? && InRange(t, clock) && |t.history| < MAX_CLOCK
    ensures Increment(CompactTracked(t, snapshot, clock, false).doc, data, false).Ok? <==> clock == |t.history|
  {
    CompactKeepsConsistent(t, snapshot, clock, false);
    IncrementCommitsIff(CompactTracked(t, snapshot, clock, false), data, false);
  }

  function Payloads(rows: seq<UpdateRow>): seq<Bytes> {
    seq(|rows|, i requires 0 <= i < |rows| => rows[i].data)
  }

  lemma RetainedRows(t: Tracked)
    requires Consistent(t) && t.doc.Some?
    ensures Payloads(UpdatesSince(t.doc.value, 0)) == t.history[t.compacted..]
  {
    UpdatesSinceIsTail(t, 0);
  }

  /**
   GetSnapshot hands a client the snapshot with the document's clock, and the client then asks
   for the updates since that clock. It ends up with every update if and only if no retained
   row carries that clock, which fails as soon as anything was persisted after the compaction.
   */
  lemma BootstrapCompleteIff(t: Tracked)
    requires Consistent(t) && t.doc.Some?
    ensures t.history[..t.compacted] + Payloads(UpdatesSince(t.doc.value, t.doc.value.clock)) == t.history
       <==> t.doc.value.clock !in t.doc.value.rows
  {
    var clock := t.doc.value.clock;
    UpdatesSinceIsTail(t, clock);
    assert Payloads(Tail(t.history, clock)) == t.history[clock..];
    assert t.history == t.history[..t.compacted] + t.history[t.compacted..];
    if clock != t.compacted {
      assert |t.history[..t.compacted] + t.history[clock..]| < |t.history|;
    }
  }

  /** One persisted update, never compacted: the bootstrap misses it. */
  lemma BootstrapMissesFirstUpdate(data: Bytes)
    ensures var t := Append(NEW_DOCUMENT, data, false);
            Consistent(t) && t.doc.Some? && t.history == [data] && t.doc.value.snapshot.None?
            && UpdatesSince(t.doc.value, t.doc.value.clock) == []
  {
    var t := Append(NEW_DOCUMENT, data, false);
    AppendKeepsConsistent(NEW_DOCUMENT, data, false);
    UpdatesSinceIsTail(t, 1);
  }

  /** A compaction with the merge of the first `clock` updates loses nothing if and only if it does not go back. */
  lemma CompactionLosesNothingIff(t: Tracked, snapshot: Bytes, clock: nat)
    requires Consistent(t) && t.doc.Some? && clock <= |t.history|
    ensures var after := CompactTracked(t, snapshot, clock, false);
            t.history[..clock] + Payloads(UpdatesSince(after.doc.value, 0)) == t.history <==> t.compacted <= clock
  {
    var after := CompactTracked(t, snapshot, clock, false);
    if t.compacted <= clock {
      CompactKeepsConsistent(t, snapshot, clock, false);
      RetainedRows(after);
      assert t.history == t.history[..clock] + t.history[clock..];
    } else {
      assert after.doc.value.rows == t.doc.value.rows;
      RetainedRows(t);
      assert |t.history[..clock] + t.history[t.compacted..]| < |t.history|;
    }
  }
}
