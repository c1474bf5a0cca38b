/**
 The persisted update log of a document: the `documents` row with its snapshot and
 `snapshot_clock`, and the `document_updates` rows, which a unique index keys by clock.

 `Tracked` adds what no row stores but every statement needs: the sequence of all updates
 ever persisted, and the clock of the last compaction.
 */
module DocumentLog {
  import opened Common

  /** `snapshot_clock` and `clock` are 32-bit INTEGER columns. */
  const MAX_CLOCK: nat := 0x7FFF_FFFF

  datatype Document = Document(snapshot: Option<Bytes>, clock: nat, rows: map<nat, Bytes>)

  datatype UpdateRow = UpdateRow(clock: nat, data: Bytes)

  datatype DbError = NotFound | UniqueViolation | OutOfRange | Unavailable

  // ---------- the transactions, as functions on the rows ----------

  /** One transaction: it commits both writes or, on any error, neither. */
  function Increment(doc: Option<Document>, data: Bytes, fault: bool): Result<(Document, nat), DbError> {
    if fault then Err(Unavailable)
    else if doc.None? then Err(NotFound)
    else
      var newClock := doc.value.clock + 1;
      if newClock > MAX_CLOCK then Err(OutOfRange)
      else if newClock in doc.value.rows then Err(UniqueViolation)
      else Ok((doc.value.(clock := newClock, rows := doc.value.rows[newClock := data]), newClock))
  }

  /** Compaction: an UPDATE that matches no row is not an error. */
  function Compact(doc: Option<Document>, snapshot: Bytes, clock: nat, fault: bool): Option<Document> {
    if fault || doc.None? || clock > MAX_CLOCK then doc
    else Some(Document(Some(snapshot), clock, map k | k in doc.value.rows && k > clock :: doc.value.rows[k]))
  }

  /** The rows with a clock above `lo` and at most `hi`, in clock order. */
  function RowsBetween(rows: map<nat, Bytes>, lo: nat, hi: nat): (r: seq<UpdateRow>)
    decreases hi
  {
    if hi <= lo then []
    else RowsBetween(rows, lo, hi - 1) + (if hi in rows then [UpdateRow(hi, rows[hi])] else [])
  }

  /** Every row with a clock above the given one, ORDER BY clock ASC. */
  function UpdatesSince(doc: Document, clock: nat): seq<UpdateRow> {
    RowsBetween(doc.rows, clock, MAX_CLOCK)
  }

  // ---------- the repository ----------

  class DocumentRepository {
    var documents: map<string, Document>
    /** Everything ever persisted to a document, and the clock of its last compaction. */
    ghost var histories: map<string, seq<Bytes>>
    ghost var compactions: map<string, nat>

    ghost function TrackedView(id: string): Tracked
      reads this
    {
      Tracked(
        if id in documents then Some(documents[id]) else None,
        if id in histories then histories[id] else [],
        if id in compactions then compactions[id] else 0)
    }

    /** `fault` stands for any database failure, after which the transaction rolls back. */
    method IncrementClock(id: string, data: Bytes, fault: bool) returns (r: Result<nat, DbError>)
      modifies this
      ensures TrackedView(id) == Append(old(TrackedView(id)), data, fault)
      ensures forall other | other != id :: TrackedView(other) == old(TrackedView(other))
      ensures r.Ok? <==> Increment(old(TrackedView(id)).doc, data, fault).Ok?
      ensures r.Ok? ==> r.value == Increment(old(TrackedView(id)).doc, data, fault).value.1
    {
      if fault {
        return Err(Unavailable);
      }
      if id !in documents {
        return Err(NotFound);
      }
      var doc := documents[id];
      var newClock := doc.clock + 1;
      if newClock > MAX_CLOCK {
        return Err(OutOfRange);
      }
      if newClock in doc.rows {
        return Err(UniqueViolation);
      }
      ghost var before := TrackedView(id);
      documents := documents[id := doc.(clock := newClock, rows := doc.rows[newClock := data])];
      histories := histories[id := before.history + [data]];
      return Ok(newClock);
    }

    method UpdateSnapshot(id: string, snapshot: Bytes, clock: nat, fault: bool) returns (ok: bool)
      modifies this
      ensures TrackedView(id) == CompactTracked(old(TrackedView(id)), snapshot, clock, fault)
      ensures forall other | other != id :: TrackedView(other) == old(TrackedView(other))
      ensures ok <==> !fault && clock <= MAX_CLOCK
    {
      if fault || clock > MAX_CLOCK {
        return false;
      }
      if id in documents {
        var doc := documents[id];
        var kept := map k | k in doc.rows && k > clock :: doc.rows[k];
        documents := documents[id := Document(Some(snapshot), clock, kept)];
        compactions := compactions[id := clock];
      }
      return true;
    }
  }

  // ---------- the log over a run ----------

  datatype Tracked = Tracked(doc: Option<Document>, history: seq<Bytes>, compacted: nat)

  function Append(t: Tracked, data: Bytes, fault: bool): Tracked {
    match Increment(t.doc, data, fault)
    case Ok((doc, _)) => t.(doc := Some(doc), history := t.history + [data])
    case Err(_) => t
  }

  function CompactTracked(t: Tracked, snapshot: Bytes, clock: nat, fault: bool): Tracked {
    if fault || t.doc.None? || clock > MAX_CLOCK then t
    else t.(doc := Compact(t.doc, snapshot, clock, fault), compacted := clock)
  }

  /** A compaction at a clock between the last compaction and the latest clock. */
  predicate InRange(t: Tracked, clock: nat) {
    t.compacted <= clock <= |t.history|
  }

  /**
   The rows are exactly the updates persisted since the last compaction, each under its
   own position in the history, and the document's clock is the latest one or, after a
   compaction below the latest, the compaction's.
   */
  ghost predicate Consistent(t: Tracked) {
    && t.compacted <= |t.history| <= MAX_CLOCK
    && (t.doc.Some? ==>
          && (t.doc.value.clock == |t.history| || t.doc.value.clock == t.compacted)
          && (forall k :: k in t.doc.value.rows <==> t.compacted < k <= |t.history|)
          && (forall k | k in t.doc.value.rows :: t.doc.value.rows[k] == t.history[k - 1]))
  }

  const NEW_DOCUMENT := Tracked(Some(Document(None, 0, map[])), [], 0)

  /**
   An increment commits exactly when the database does not fail, the clock still fits and
   the document's clock is the latest one; it then hands out the next clock, so no clock is
   used twice.
   */
  lemma IncrementCommitsIff(t: Tracked, data: Bytes, fault: bool)
    requires Consistent(t) && t.doc.Some?
    ensures Increment(t.doc, data, fault).Ok? <==>
            !fault && |t.history| < MAX_CLOCK && t.doc.value.clock == |t.history|
    ensures Increment(t.doc, data, fault).Ok? ==>
              Increment(t.doc, data, fault).value.1 == |t.history| + 1
  {
    var next := t.doc.value.clock + 1;
    if t.doc.value.clock == t.compacted < |t.history| {
      assert next in t.doc.value.rows;
    } else {
      assert next !in t.doc.value.rows;
    }
  }

  lemma AppendKeepsConsistent(t: Tracked, data: Bytes, fault: bool)
    requires Consistent(t)
    ensures Consistent(Append(t, data, fault))
  {
    if t.doc.Some? {
      IncrementCommitsIff(t, data, fault);
    }
  }

  lemma CompactKeepsConsistent(t: Tracked, snapshot: Bytes, clock: nat, fault: bool)
    requires Consistent(t) && InRange(t, clock)
    ensures Consistent(CompactTracked(t, snapshot, clock, fault))
  {
  }

  /** Meaning of the query: exactly the rows in the clock range, each once, in ascending clock order. */
  lemma {:induction false} RowsBetweenMeaning(rows: map<nat, Bytes>, lo: nat, hi: nat)
    ensures forall i, j :: 0 <= i < j < |RowsBetween(rows, lo, hi)| ==>
              RowsBetween(rows, lo, hi)[i].clock < RowsBetween(rows, lo, hi)[j].clock
    ensures forall row :: row in RowsBetween(rows, lo, hi) <==>
              lo < row.clock <= hi && row.clock in rows && row.data == rows[row.clock]
    decreases hi
  {
    if hi > lo {
      RowsBetweenMeaning(rows, lo, hi - 1);
    }
  }

  /** Everything persisted after the first `clock` updates. */
  function Tail(history: seq<Bytes>, clock: nat): seq<UpdateRow>
    requires clock <= |history|
  {
    seq(|history| - clock, i requires 0 <= i < |history| - clock => UpdateRow(clock + 1 + i, history[clock + i]))
  }

  lemma TailGrows(history: seq<Bytes>, clock: nat, data: Bytes)
    requires clock <= |history|
    ensures Tail(history + [data], clock) == Tail(history, clock) + [UpdateRow(|history| + 1, data)]
  {
  }

  lemma {:induction false} RowsBetweenIsTail(t: Tracked, lo: nat, hi: nat)
    requires Consistent(t) && t.doc.Some? && InRange(t, lo) && lo <= hi
    ensures RowsBetween(t.doc.value.rows, lo, hi)
         == if hi <= |t.history| then Tail(t.history[..hi], lo) else Tail(t.history, lo)
    decreases hi
  {
    if lo < hi {
      RowsBetweenIsTail(t, lo, hi - 1);
      if hi <= |t.history| {
        assert t.history[..hi] == t.history[..hi - 1] + [t.history[hi - 1]];
        TailGrows(t.history[..hi - 1], lo, t.history[hi - 1]);
        assert t.doc.value.rows[hi] == t.history[hi - 1];
      } else if hi == |t.history| + 1 {
        assert t.history[..hi - 1] == t.history;
      }
    }
  }

  lemma {:induction false} NoRowsPast(t: Tracked, lo: nat, hi: nat)
    requires Consistent(t) && t.doc.Some? && lo >= |t.history|
    ensures RowsBetween(t.doc.value.rows, lo, hi) == []
    decreases hi
  {
    if hi > lo {
      NoRowsPast(t, lo, hi - 1);
    }
  }

  lemma {:induction false} NoRowsBelow(t: Tracked, lo: nat, hi: nat)
    requires Consistent(t) && t.doc.Some? && lo <= t.compacted
    ensures hi <= t.compacted ==> RowsBetween(t.doc.value.rows, lo, hi) == []
    ensures hi >= t.compacted ==> RowsBetween(t.doc.value.rows, lo, hi) == RowsBetween(t.doc.value.rows, t.compacted, hi)
    decreases hi
  {
    if hi > lo {
      NoRowsBelow(t, lo, hi - 1);
    }
  }

  /**
   For any clock from the last compaction on, the updates since it are all later ones, in order, with
   no gap; past the latest there are none, and below the compaction those since the compaction.
   */
  lemma UpdatesSinceIsTail(t: Tracked, clock: nat)
    requires Consistent(t) && t.doc.Some?
    ensures UpdatesSince(t.doc.value, clock)
         == if clock < t.compacted then Tail(t.history, t.compacted)
            else if clock <= |t.history| then Tail(t.history, clock)
            else []
  {
    assert t.history[..|t.history|] == t.history;
    if clock < t.compacted {
      NoRowsBelow(t, clock, MAX_CLOCK);
      RowsBetweenIsTail(t, t.compacted, MAX_CLOCK);
    } else if clock <= |t.history| {
      RowsBetweenIsTail(t, clock, MAX_CLOCK);
    } else {
      NoRowsPast(t, clock, MAX_CLOCK);
    }
  }

  // ---------- the transactions, in plain terms ----------

  /**
   How an increment ends: it fails with the database, on a missing document, past 2147483647 or on a
   clock that a row has already; otherwise clock and row are added and nothing else changes.
   */
  lemma IncrementEffect(doc: Option<Document>, data: Bytes, fault: bool)
    ensures var r := Increment(doc, data, fault);
            && (r == Err(Unavailable) <==> fault)
            && (r == Err(NotFound) <==> !fault && doc.None?)
            && (r == Err(OutOfRange) <==> !fault && doc.Some? && doc.value.clock >= 2147483647)
            && (r == Err(UniqueViolation) <==>
                  !fault && doc.Some? && doc.value.clock < 2147483647 && doc.value.clock + 1 in doc.value.rows)
            && (r.Ok? ==>
                  && doc.Some? && doc.value.clock + 1 !in doc.value.rows
                  && r.value.1 == r.value.0.clock == doc.value.clock + 1
                  && r.value.0.snapshot == doc.value.snapshot
                  && r.value.0.rows == doc.value.rows[doc.value.clock + 1 := data])
  {
  }

  /** A compaction sets snapshot and clock and keeps exactly the rows after the clock, with what they hold. */
  lemma CompactEffect(doc: Document, snapshot: Bytes, clock: nat)
    requires clock <= 2147483647
    ensures var after := Compact(Some(doc), snapshot, clock, false);
            && after.Some? && after.value.snapshot == Some(snapshot) && after.value.clock == clock
            && (forall k :: k in after.value.rows <==> k in doc.rows && k > clock)
            && (forall k | k in after.value.rows :: after.value.rows[k] == doc.rows[k])
  {
  }

  /** A failing compaction, or one of a missing document, changes nothing. */
  lemma CompactFails(doc: Option<Document>, snapshot: Bytes, clock: nat, fault: bool)
    requires fault || doc.None?
    ensures Compact(doc, snapshot, clock, fault) == doc
  {
  }

  lemma NewDocumentIsEmpty()
    ensures NEW_DOCUMENT.doc == Some(Document(None, 0, map[])) && NEW_DOCUMENT.history == []
  {
  }
}
