/** Moves of cards into the gap that the last one left, up to the rebalance. */
module CardGaps {
  import opened Common
  import opened Fractional
  import opened Cards
  import opened CardMoves

  /** Wherever a position between the two is requested, they are its neighbours. */
  ghost predicate Gap(cards: Table, column: string, below: real, above: real) {
    forall refPos | below < refPos < above :: GetNeighborPositions(cards, column, refPos) == (below, above)
  }

  lemma BelowUnchanged(cards: Table, after: Table, column: string, refPos: real)
    requires LiveBelow(after, column, refPos) == LiveBelow(cards, column, refPos)
    requires forall x | x in LiveBelow(cards, column, refPos) :: after[x].position == cards[x].position
    ensures GetNeighborPositions(after, column, refPos).0 == GetNeighborPositions(cards, column, refPos).0
  {
  }

  lemma AboveUnchanged(cards: Table, after: Table, column: string, refPos: real)
    requires LiveAbove(after, column, refPos) == LiveAbove(cards, column, refPos)
    requires forall x | x in LiveAbove(cards, column, refPos) :: after[x].position == cards[x].position
    ensures GetNeighborPositions(after, column, refPos).1 == GetNeighborPositions(cards, column, refPos).1
  {
  }

  /** A card that comes into the gap splits it in two. */
  lemma GapSplits(cards: Table, id: string, column: string, below: real, above: real, mid: real)
    requires Gap(cards, column, below, above) && below < mid < above
    requires id in cards && !cards[id].archived && id !in LiveIn(cards, column)
    ensures Gap(Moved(cards, id, column, mid), column, below, mid)
    ensures Gap(Moved(cards, id, column, mid), column, mid, above)
  {
    hide GetNeighborPositions;
    forall refPos | below < refPos < mid
      ensures GetNeighborPositions(Moved(cards, id, column, mid), column, refPos) == (below, mid)
    {
      LowerHalf(cards, id, column, below, above, mid, refPos);
    }
    forall refPos | mid < refPos < above
      ensures GetNeighborPositions(Moved(cards, id, column, mid), column, refPos) == (mid, above)
    {
      UpperHalf(cards, id, column, below, above, mid, refPos);
    }
  }

  lemma LowerHalf(cards: Table, id: string, column: string, below: real, above: real, mid: real, refPos: real)
    requires Gap(cards, column, below, above) && below < refPos < mid < above
    requires id in cards && !cards[id].archived && id !in LiveIn(cards, column)
    ensures GetNeighborPositions(Moved(cards, id, column, mid), column, refPos) == (below, mid)
  {
    var after := Moved(cards, id, column, mid);
    assert GetNeighborPositions(cards, column, refPos) == (below, above);
    assert LiveBelow(after, column, refPos) == LiveBelow(cards, column, refPos);
    BelowUnchanged(cards, after, column, refPos);
    var high := LiveAbove(after, column, refPos);
    assert high == LiveAbove(cards, column, refPos) + {id};
    assert forall x | x in LiveAbove(cards, column, refPos) :: above <= cards[x].position;
    assert forall x | x in high :: mid <= after[x].position;
    assert id in high;
  }

  lemma UpperHalf(cards: Table, id: string, column: string, below: real, above: real, mid: real, refPos: real)
    requires Gap(cards, column, below, above) && below < mid < refPos < above
    requires id in cards && !cards[id].archived && id !in LiveIn(cards, column)
    ensures GetNeighborPositions(Moved(cards, id, column, mid), column, refPos) == (mid, above)
  {
    var after := Moved(cards, id, column, mid);
    assert GetNeighborPositions(cards, column, refPos) == (below, above);
    assert LiveAbove(after, column, refPos) == LiveAbove(cards, column, refPos);
    AboveUnchanged(cards, after, column, refPos);
    var low := LiveBelow(after, column, refPos);
    assert low == LiveBelow(cards, column, refPos) + {id};
    assert forall x | x in LiveBelow(cards, column, refPos) :: cards[x].position <= below;
    assert forall x | x in low :: after[x].position <= mid;
    assert id in low;
  }

  // ---------- a run of such moves ----------

  /** A move of a card from elsewhere that nothing refuses. */
  ghost predicate ComesIn(cards: Table, columns: map<string, string>, column: string, r: Request) {
    && r.Move? && r.column == column && r.denied.None? && r.fault.NoFault?
    && r.id in cards && !cards[r.id].archived && r.id !in LiveIn(cards, column)
    && column in columns && columns[column] == cards[r.id].board
  }

  /** The k-th move asks for a position inside the gap that the moves before it left on the chosen sides. */
  ghost predicate AimsIntoGap(r: Request, below: real, lower: seq<bool>, k: nat)
    requires k <= |lower| && r.Move?
  {
    var (b, a) := Nested(below, below + STEP, lower[..k]);
    b < r.refPos < a
  }

  ghost predicate FillsGap(cards: Table, columns: map<string, string>, column: string, requests: seq<Request>,
                           below: real, lower: seq<bool>)
  {
    && |lower| == |requests|
    && (forall k | 0 <= k < |requests| ::
          ComesIn(cards, columns, column, requests[k]) && AimsIntoGap(requests[k], below, lower, k))
    && (forall i, j | 0 <= i < j < |requests| && requests[i].Move? && requests[j].Move? :: requests[i].id != requests[j].id)
  }

  lemma FillsFront(cards: Table, columns: map<string, string>, column: string, requests: seq<Request>,
                   below: real, lower: seq<bool>, n: nat)
    requires FillsGap(cards, columns, column, requests, below, lower) && n <= |requests|
    ensures FillsGap(cards, columns, column, requests[..n], below, lower[..n])
  {
    forall k | 0 <= k < n ensures AimsIntoGap(requests[k], below, lower[..n], k) {
      assert lower[..n][..k] == lower[..k];
    }
  }

  /** A move into a gap that is still wide enough puts the card in the middle and touches no other. */
  lemma MoveIntoGap(cards: Table, columns: map<string, string>, column: string, r: Request, below: real, above: real)
    requires Gap(cards, column, below, above) && ComesIn(cards, columns, column, r)
    requires below < r.refPos < above && !NeedsRebalance(below, above)
    ensures Serve(cards, columns, r) == Moved(cards, r.id, column, Between(below, above))
  {
    hide Rebalanced, Moved;
    assert GetNeighborPositions(cards, column, r.refPos) == (below, above);
  }

  /** After up to twenty moves what is left of the gap is the nested one, and the cards to come are still where they were. */
  lemma {:induction false} GapAfterMoves(cards: Table, columns: map<string, string>, column: string, requests: seq<Request>,
                                         below: real, lower: seq<bool>)
    requires Gap(cards, column, below, below + STEP) && FillsGap(cards, columns, column, requests, below, lower)
    requires |requests| <= 20
    ensures var after := ServeAll(cards, columns, requests);
            var (b, a) := Nested(below, below + STEP, lower);
            && Gap(after, column, b, a)
            && (forall id | id in cards && (forall r | r in requests && r.Move? :: r.id != id) ::
                  id in after && after[id] == cards[id])
    decreases |requests|
  {
    hide Gap, Serve, FillsGap, ComesIn, AimsIntoGap;
    if requests == [] {
      assert lower == [] by { SidesMatch(cards, columns, column, requests, below, lower); }
    } else {
      var n := |requests| - 1;
      var front, r := requests[..n], requests[n];
      SidesMatch(cards, columns, column, requests, below, lower);
      FillsFront(cards, columns, column, requests, below, lower, n);
      GapAfterMoves(cards, columns, column, front, below, lower[..n]);
      var before := ServeAll(cards, columns, front);
      LastMoveIntoGap(cards, before, columns, column, requests, below, lower);
      assert r in requests;
    }
  }

  lemma SidesMatch(cards: Table, columns: map<string, string>, column: string, requests: seq<Request>,
                   below: real, lower: seq<bool>)
    requires FillsGap(cards, columns, column, requests, below, lower)
    ensures |lower| == |requests| && forall r | r in requests :: r.Move?
  {
  }

  /** The last move, on the table the others left. */
  lemma LastMoveIntoGap(cards: Table, before: Table, columns: map<string, string>, column: string, requests: seq<Request>,
                        below: real, lower: seq<bool>)
    requires FillsGap(cards, columns, column, requests, below, lower) && 0 < |requests| <= 20
    requires var (b, a) := Nested(below, below + STEP, lower[..|requests| - 1]); Gap(before, column, b, a)
    requires forall id | id in cards && (forall r | r in requests[..|requests| - 1] && r.Move? :: r.id != id) ::
               id in before && before[id] == cards[id]
    ensures var r := requests[|requests| - 1];
            var after := Serve(before, columns, r);
            var (b, a) := Nested(below, below + STEP, lower);
            && Gap(after, column, b, a) && r.Move?
            && (forall id | id in before && id != r.id :: id in after && after[id] == before[id])
  {
    hide Gap, Serve;
    var n := |requests| - 1;
    var r := requests[n];
    var (b, a) := Nested(below, below + STEP, lower[..n]);
    RebalanceDueAfterTwenty(below, lower[..n]);
    forall q | q in requests[..n] && q.Move? ensures q.id != r.id {
      var i :| 0 <= i < n && requests[i] == q;
    }
    assert before[r.id] == cards[r.id];
    assert AimsIntoGap(r, below, lower, n);
    MoveIntoGap(before, columns, column, r, b, a);
    GapSplits(before, r.id, column, b, a, Between(b, a));
  }

  /**
   Cards from elsewhere are moved, one by one, each into the part of a gap of 1000 that the last one
   left on either side: the first twenty moves find room, and the twenty-first rebalances the column.
   */
  lemma RebalanceAtTwentyFirstMove(cards: Table, columns: map<string, string>, column: string, requests: seq<Request>,
                                   below: real, lower: seq<bool>, k: nat)
    requires Gap(cards, column, below, below + STEP) && FillsGap(cards, columns, column, requests, below, lower)
    requires k < |requests| && k <= 20
    ensures var before := ServeAll(cards, columns, requests[..k]);
            var (b, a) := GetNeighborPositions(before, column, requests[k].refPos);
            (NeedsRebalance(b, a) <==> k == 20)
            && BeforeMove(before, column, requests[k].refPos, requests[k].order)
               == if k == 20 then Rebalanced(before, requests[k].order, |requests[k].order|) else before
  {
    hide ServeAll;
    FillsFront(cards, columns, column, requests, below, lower, k);
    GapAfterMoves(cards, columns, column, requests[..k], below, lower[..k]);
    RebalanceDueAfterTwenty(below, lower[..k]);
    assert AimsIntoGap(requests[k], below, lower, k);
  }
}
