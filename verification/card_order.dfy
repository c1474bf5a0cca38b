/** Spacing and order of the cards in a column, for one request and over whole runs. */
module CardOrder {
  import opened Common
  import opened Fractional
  import opened Cards

  // ---------- spacing ----------

  predicate Apart(p: real, q: real) {
    p - q >= MIN_SPACING || q - p >= MIN_SPACING
  }

  /** Any two live cards of a column are apart, and every live card is clear of zero. */
  ghost predicate Spaced(cards: Table) {
    && (forall a, b | a in cards && b in cards && a != b && Live(cards[a], cards[b].column) && Live(cards[b], cards[b].column) ::
          Apart(cards[a].position, cards[b].position))
    && (forall a | a in cards && !cards[a].archived :: cards[a].position >= MIN_SPACING)
  }

  /** No live card of the column other than `id` sits exactly at the requested position. */
  ghost predicate Clear(cards: Table, column: string, refPos: real, id: string) {
    forall x | x in LiveIn(cards, column) && x != id :: cards[x].position != refPos
  }

  /** The neighbours enclose the requested position, and no live card lies between them and it. */
  lemma NeighborsEnclose(cards: Table, column: string, refPos: real)
    requires refPos > 0.0
    ensures var (below, above) := GetNeighborPositions(cards, column, refPos);
            && below < refPos < above
            && (forall x | x in LiveIn(cards, column) && cards[x].position < refPos :: cards[x].position <= below)
            && (forall x | x in LiveIn(cards, column) && cards[x].position > refPos :: above <= cards[x].position)
  {
    var low, high := LiveBelow(cards, column, refPos), LiveAbove(cards, column, refPos);
    assert forall x | x in LiveIn(cards, column) && cards[x].position < refPos :: x in low;
    assert forall x | x in LiveIn(cards, column) && cards[x].position > refPos :: x in high;
  }

  /** The listed cards are the live ones of the column, each in its slot. */
  ghost predicate InSlots(cards: Table, column: string, order: seq<string>) {
    && (forall i, j | 0 <= i < j < |order| :: order[i] != order[j])
    && (forall id :: id in order <==> id in LiveIn(cards, column))
    && (forall i | 0 <= i < |order| :: order[i] in cards && cards[order[i]].position == Slot(i))
  }

  /** After a rebalance every live card of the column is in its slot and nothing else changed. */
  lemma RebalancedColumn(cards: Table, column: string, order: seq<string>)
    requires IsListing(cards, column, order)
    ensures var after := Rebalanced(cards, order, |order|);
            && after.Keys == cards.Keys
            && InSlots(after, column, order)
            && LiveIn(after, column) == LiveIn(cards, column)
            && (forall id | id in cards :: after[id] == cards[id].(position := after[id].position))
            && (forall id | id in cards && id !in LiveIn(cards, column) :: after[id] == cards[id])
  {
    RebalancedMeaning(cards, order, |order|);
    assert order[..|order|] == order;
    var after := Rebalanced(cards, order, |order|);
    forall id | id in cards
      ensures after[id] == cards[id].(position := after[id].position)
           && (id in LiveIn(after, column) <==> id in LiveIn(cards, column))
    {
      if id in order {
        var i :| 0 <= i < |order| && order[i] == id;
        assert after[order[i]] == cards[order[i]].(position := Slot(i));
      }
    }
  }

  lemma GapInSlots(cards: Table, column: string, order: seq<string>, refPos: real)
    requires InSlots(cards, column, order) && refPos > 0.0
    ensures var (below, above) := GetNeighborPositions(cards, column, refPos); above - below >= STEP
  {
    NeighborsEnclose(cards, column, refPos);
    var (below, above) := GetNeighborPositions(cards, column, refPos);
    var low, high := LiveBelow(cards, column, refPos), LiveAbove(cards, column, refPos);
    if high != {} {
      var h :| h in high && cards[h].position == above;
      assert h in LiveIn(cards, column);
      var j :| 0 <= j < |order| && order[j] == h;
      if low != {} {
        var l :| l in low && cards[l].position == below;
        assert l in LiveIn(cards, column);
        var i :| 0 <= i < |order| && order[i] == l;
        assert Slot(i) < Slot(j);
      }
    }
  }

  lemma NeighborsOfSlot(ready: Table, column: string, order: seq<string>, x: string)
    requires InSlots(ready, column, order) && x in LiveIn(ready, column)
    ensures GetNeighborPositions(ready, column, ready[x].position)
         == (ready[x].position - STEP, ready[x].position + STEP)
  {
    var k :| 0 <= k < |order| && order[k] == x;
    SlotBelow(ready, column, order, k);
    SlotAbove(ready, column, order, k);
  }

  lemma SlotBelow(ready: Table, column: string, order: seq<string>, k: nat)
    requires InSlots(ready, column, order) && k < |order|
    ensures GetNeighborPositions(ready, column, Slot(k)).0 == Slot(k) - STEP
  {
    var below, low := GetNeighborPositions(ready, column, Slot(k)).0, LiveBelow(ready, column, Slot(k));
    if k > 0 {
      assert order[k - 1] in order;
      assert order[k - 1] in low;
    }
    if low != {} {
      var l :| l in low && ready[l].position == below;
      assert l in LiveIn(ready, column);
      var i :| 0 <= i < |order| && order[i] == l;
      assert Slot(i) < Slot(k);
    }
  }

  lemma SlotAbove(ready: Table, column: string, order: seq<string>, k: nat)
    requires InSlots(ready, column, order) && k < |order|
    ensures GetNeighborPositions(ready, column, Slot(k)).1 == Slot(k) + STEP
  {
    var above, high := GetNeighborPositions(ready, column, Slot(k)).1, LiveAbove(ready, column, Slot(k));
    if k + 1 < |order| {
      assert order[k + 1] in order;
      assert order[k + 1] in high;
    }
    if high != {} {
      var h :| h in high && ready[h].position == above;
      assert h in LiveIn(ready, column);
      var j :| 0 <= j < |order| && order[j] == h;
      assert Slot(k) < Slot(j);
    }
  }

  /** One rebalance always suffices: the gap around any requested position is then at least 1000. */
  lemma RebalanceSuffices(cards: Table, column: string, order: seq<string>, refPos: real)
    requires IsListing(cards, column, order) && refPos > 0.0
    ensures var (below, above) := GetNeighborPositions(Rebalanced(cards, order, |order|), column, refPos);
            above - below >= STEP && !NeedsRebalance(below, above)
  {
    hide Rebalanced, InSlots;
    RebalancedColumn(cards, column, order);
    GapInSlots(Rebalanced(cards, order, |order|), column, order, refPos);
  }

  lemma SlotsAreApart(cards: Table, column: string, order: seq<string>, a: string, b: string)
    requires InSlots(cards, column, order) && a in LiveIn(cards, column) && b in LiveIn(cards, column) && a != b
    ensures Apart(cards[a].position, cards[b].position) && cards[a].position >= STEP
  {
    var i :| 0 <= i < |order| && order[i] == a;
    var j :| 0 <= j < |order| && order[j] == b;
    assert Slot(i) - Slot(j) == ((i - j) * 1000) as real;
  }

  lemma SlotsAreHigh(cards: Table, column: string, order: seq<string>, a: string)
    requires InSlots(cards, column, order) && a in LiveIn(cards, column)
    ensures cards[a].position >= STEP
  {
    var i :| 0 <= i < |order| && order[i] == a;
  }

  lemma RebalanceSpaces(cards: Table, column: string, order: seq<string>)
    requires IsListing(cards, column, order) && Spaced(cards)
    ensures Spaced(Rebalanced(cards, order, |order|))
  {
    hide Rebalanced, InSlots, IsListing;
    var after := Rebalanced(cards, order, |order|);
    RebalancedColumn(cards, column, order);
    forall a, b | a in after && b in after && a != b && Live(after[a], after[b].column) && Live(after[b], after[b].column)
      ensures Apart(after[a].position, after[b].position)
    {
      if after[b].column == column {
        SlotsAreApart(after, column, order, a, b);
      }
    }
    forall a | a in after && !after[a].archived ensures after[a].position >= MIN_SPACING {
      if after[a].column == column {
        SlotsAreHigh(after, column, order, a);
      }
    }
  }

  /**
   No other live card sits at the requested position within reach of the midpoint. Such a card is
   invisible to both neighbour queries.
   */
  ghost predicate MidpointIsFree(cards: Table, id: string, column: string, refPos: real) {
    forall x | x in LiveIn(cards, column) && x != id && cards[x].position == refPos ::
      Apart(FinalPosition(cards, column, refPos), refPos)
  }

  /**
   With room around the requested position, a move keeps the spacing if and only if the card is
   archived or its midpoint is free.
   */
  lemma MoveKeepsSpacingIff(ready: Table, id: string, column: string, refPos: real)
    requires Spaced(ready) && id in ready && refPos > 0.0
    requires var (below, above) := GetNeighborPositions(ready, column, refPos); !NeedsRebalance(below, above)
    ensures Spaced(Moved(ready, id, column, FinalPosition(ready, column, refPos))) <==>
            ready[id].archived || MidpointIsFree(ready, id, column, refPos)
  {
    var final := FinalPosition(ready, column, refPos);
    var after := Moved(ready, id, column, final);
    NeighborsEnclose(ready, column, refPos);
    BelowIsNotNegative(ready, column, refPos);
    if ready[id].archived || MidpointIsFree(ready, id, column, refPos) {
      forall x | x in LiveIn(ready, column) && x != id && !ready[id].archived
        ensures Apart(ready[x].position, final)
      {
      }
      MovedIsSpaced(ready, id, column, final);
    } else {
      var x :| x in LiveIn(ready, column) && x != id && ready[x].position == refPos && !Apart(final, refPos);
      assert Live(after[x], after[id].column) && Live(after[id], after[id].column);
    }
  }

  lemma BelowIsNotNegative(cards: Table, column: string, refPos: real)
    requires Spaced(cards)
    ensures GetNeighborPositions(cards, column, refPos).0 >= 0.0
  {
    var low := LiveBelow(cards, column, refPos);
    if low != {} {
      var l :| l in low && cards[l].position == GetNeighborPositions(cards, column, refPos).0;
    }
  }

  lemma MovedIsSpaced(ready: Table, id: string, column: string, final: real)
    requires Spaced(ready) && id in ready && final >= MIN_SPACING
    requires forall x | x in LiveIn(ready, column) && x != id && !ready[id].archived :: Apart(ready[x].position, final)
    ensures Spaced(Moved(ready, id, column, final))
  {
    var after := Moved(ready, id, column, final);
    forall a, b | a in after && b in after && a != b && Live(after[a], after[b].column) && Live(after[b], after[b].column)
      ensures Apart(after[a].position, after[b].position)
    {
      if a == id {
        assert b in LiveIn(ready, column);
      } else if b == id {
        assert a in LiveIn(ready, column);
      }
    }
  }

  function ThreeCards(board: string, column: string): Table {
    map["a" := Card(board, column, 1000.0, false),
        "b" := Card(board, column, 2000.0, false),
        "c" := Card(board, column, 3000.0, false)]
  }

  lemma NeighborsOfSecond(board: string, column: string)
    ensures Spaced(ThreeCards(board, column))
    ensures GetNeighborPositions(ThreeCards(board, column), column, 2000.0) == (1000.0, 3000.0)
  {
    var cards := ThreeCards(board, column);
    assert LiveBelow(cards, column, 2000.0) == {"a"};
    assert LiveAbove(cards, column, 2000.0) == {"c"};
  }

  /** The last of three cards, moved exactly onto the second: both end at 2000, even if the request returns an error. */
  lemma MoveOntoTakenPosition(board: string, column: string, fault: Fault)
    requires fault.NoFault? || fault.AfterMove?
    ensures var moved := MoveCard(ThreeCards(board, column), map[column := board], "c", None, column, 2000.0, [], fault);
            && Spaced(ThreeCards(board, column)) && (moved.error.None? <==> fault.NoFault?) && !Spaced(moved.cards)
            && "b" in moved.cards && "c" in moved.cards
            && moved.cards["c"].position == moved.cards["b"].position
  {
    hide GetNeighborPositions;
    NeighborsOfSecond(board, column);
    var moved := MoveCard(ThreeCards(board, column), map[column := board], "c", None, column, 2000.0, [], fault);
    assert Live(moved.cards["c"], moved.cards["b"].column);
  }

  /** No slot but the moved card's own is the requested position. */
  ghost predicate SlotsAvoid(id: string, refPos: real, order: seq<string>) {
    forall i | 0 <= i < |order| && order[i] != id :: Slot(i) != refPos
  }

  /** In a rebalanced column the midpoint hits a card exactly when the requested position is its slot. */
  lemma SlotsAvoidIff(ready: Table, id: string, column: string, refPos: real, order: seq<string>)
    requires InSlots(ready, column, order)
    ensures MidpointIsFree(ready, id, column, refPos) <==> SlotsAvoid(id, refPos, order)
  {
    forall x | x in LiveIn(ready, column) && ready[x].position == refPos
      ensures FinalPosition(ready, column, refPos) == refPos
    {
      NeighborsOfSlot(ready, column, order, x);
    }
    forall i | 0 <= i < |order| ensures order[i] in LiveIn(ready, column) && ready[order[i]].position == Slot(i) {
      assert order[i] in order;
    }
  }

  /** What a move that reaches its update needs, from the values its queries return. */
  ghost predicate LeavesRoom(cards: Table, id: string, column: string, refPos: real, order: seq<string>) {
    var (below, above) := GetNeighborPositions(cards, column, refPos);
    if NeedsRebalance(below, above) then SlotsAvoid(id, refPos, order)
    else forall x | x in LiveIn(cards, column) && x != id && cards[x].position == refPos ::
           Apart(Between(below, above), refPos)
  }

  lemma LeavesRoomIff(cards: Table, id: string, column: string, refPos: real, order: seq<string>)
    requires IsListing(cards, column, order)
    ensures LeavesRoom(cards, id, column, refPos, order)
       <==> MidpointIsFree(BeforeMove(cards, column, refPos, order), id, column, refPos)
  {
    hide Rebalanced, IsListing, SlotsAvoid, InSlots;
    var (below, above) := GetNeighborPositions(cards, column, refPos);
    if NeedsRebalance(below, above) {
      RebalancedColumn(cards, column, order);
      SlotsAvoidIff(Rebalanced(cards, order, |order|), id, column, refPos, order);
    }
  }

  /**
   A move request keeps the spacing if and only if it does not reach its update, or the card is
   archived, or: with a rebalance, no slot but the card's own is the requested position; without
   one, no other live card is at the requested position within reach of the neighbours' midpoint.
   An error returned after the update makes no difference.
   */
  lemma MoveCardKeepsSpacingIff(cards: Table, columns: map<string, string>, id: string, denied: Option<Error>,
                                column: string, refPos: real, order: seq<string>, fault: Fault)
    requires Spaced(cards) && refPos > 0.0 && IsListing(cards, column, order)
    ensures Spaced(MoveCard(cards, columns, id, denied, column, refPos, order, fault).cards) <==>
              || !Reaches(cards, columns, id, denied, column, refPos, fault)
              || cards[id].archived
              || LeavesRoom(cards, id, column, refPos, order)
  {
    hide Rebalanced, Spaced, MidpointIsFree, LeavesRoom, GetNeighborPositions, IsListing;
    var (below, above) := GetNeighborPositions(cards, column, refPos);
    var ready := BeforeMove(cards, column, refPos, order);
    LeavesRoomIff(cards, id, column, refPos, order);
    if NeedsRebalance(below, above) {
      RebalanceSpaces(cards, column, order);
      RebalanceSuffices(cards, column, order, refPos);
      RebalancedColumn(cards, column, order);
    }
    if id in cards {
      MoveKeepsSpacingIff(ready, id, column, refPos);
    }
  }

  /** So it does if no other card sits at the requested position when the neighbours are last read. */
  lemma MoveKeepsSpacing(cards: Table, columns: map<string, string>, id: string, denied: Option<Error>,
                         column: string, refPos: real, order: seq<string>, fault: Fault)
    requires Spaced(cards) && refPos > 0.0 && IsListing(cards, column, order)
    requires Clear(BeforeMove(cards, column, refPos, order), column, refPos, id)
    ensures Spaced(MoveCard(cards, columns, id, denied, column, refPos, order, fault).cards)
  {
    hide BeforeMove, Spaced, IsListing, MoveCard, LeavesRoom, Reaches;
    LeavesRoomIff(cards, id, column, refPos, order);
    MoveCardKeepsSpacingIff(cards, columns, id, denied, column, refPos, order, fault);
  }

  lemma CreateKeepsSpacing(cards: Table, columns: map<string, string>, id: string, denied: Option<Error>, column: string)
    requires Spaced(cards) && id !in cards
    ensures Spaced(CreateCard(cards, columns, id, denied, column).cards)
  {
    var after := CreateCard(cards, columns, id, denied, column).cards;
    var live := LiveIn(cards, column);
    var top := GetMaxPositionInColumn(cards, column);
    assert forall x | x in cards && Live(cards[x], column) :: x in live;
    if live != {} {
      var x :| x in live && cards[x].position == top;
    }
    forall a, b | a in after && b in after && a != b && Live(after[a], after[b].column) && Live(after[b], after[b].column)
      ensures Apart(after[a].position, after[b].position)
    {
    }
  }

  /**
   Unarchiving keeps the spacing if and only if the restored position is clear of zero and no other
   live card is within reach of it.
   */
  lemma UnarchiveKeepsSpacingIff(cards: Table, id: string, late: bool)
    requires Spaced(cards) && id in cards
    ensures Spaced(SetArchived(cards, id, None, false, late).cards) <==>
            && cards[id].position >= MIN_SPACING
            && forall x | x in LiveIn(cards, cards[id].column) && x != id :: Apart(cards[x].position, cards[id].position)
  {
    var after := SetArchived(cards, id, None, false, late).cards;
    assert !after[id].archived && after[id].position == cards[id].position;
    if forall x | x in LiveIn(cards, cards[id].column) && x != id :: Apart(cards[x].position, cards[id].position) {
      forall a, b | a in after && b in after && a != b && Live(after[a], after[b].column) && Live(after[b], after[b].column)
        ensures Apart(after[a].position, after[b].position)
      {
        if a == id {
          assert b in LiveIn(cards, cards[id].column);
        } else if b == id {
          assert a in LiveIn(cards, cards[id].column);
        }
      }
    } else {
      var x :| x in LiveIn(cards, cards[id].column) && x != id && !Apart(cards[x].position, cards[id].position);
      assert Live(after[x], after[id].column) && Live(after[id], after[id].column);
    }
  }
}
