/** Where a moved card lands, what it does to the others, and whole runs of requests. */
module CardMoves {
  import opened Common
  import opened Fractional
  import opened Cards
  import opened CardOrder

  // ---------- order ----------

  /** The slots follow the positions the cards had. */
  lemma SlotsFollowOrder(cards: Table, after: Table, column: string, order: seq<string>, a: string, b: string)
    requires IsListing(cards, column, order) && InSlots(after, column, order)
    requires a in LiveIn(cards, column) && b in LiveIn(cards, column) && a in after && b in after
    ensures cards[a].position < cards[b].position ==> after[a].position < after[b].position
  {
    var i :| 0 <= i < |order| && order[i] == a;
    var j :| 0 <= j < |order| && order[j] == b;
    assert Slot(i) < Slot(j) <==> i < j;
  }

  lemma ReadyKeepsOrder(cards: Table, column: string, refPos: real, order: seq<string>, a: string, b: string)
    requires IsListing(cards, column, order) && a in cards && b in cards
    requires Live(cards[a], cards[b].column) && Live(cards[b], cards[b].column)
    ensures var ready := BeforeMove(cards, column, refPos, order);
            && ready.Keys == cards.Keys
            && ready[a] == cards[a].(position := ready[a].position)
            && ready[b] == cards[b].(position := ready[b].position)
            && (cards[a].position < cards[b].position ==> ready[a].position < ready[b].position)
  {
    hide Rebalanced, GetNeighborPositions;
    RebalancedColumn(cards, column, order);
    if cards[b].column == column {
      SlotsFollowOrder(cards, Rebalanced(cards, order, |order|), column, order, a, b);
    }
  }

  /**
   A move request, successful or not and rebalanced or not, leaves every other card in its column
   and every two other live cards of one column in the same order, if their positions differ.
   */
  lemma MoveKeepsOthersInOrder(cards: Table, columns: map<string, string>, id: string, denied: Option<Error>,
                               column: string, refPos: real, order: seq<string>, fault: Fault, a: string, b: string)
    requires IsListing(cards, column, order)
    requires a in cards && b in cards && a != id && b != id
    requires Live(cards[a], cards[b].column) && Live(cards[b], cards[b].column)
    ensures var after := MoveCard(cards, columns, id, denied, column, refPos, order, fault).cards;
            && after.Keys == cards.Keys
            && after[a] == cards[a].(position := after[a].position)
            && after[b] == cards[b].(position := after[b].position)
            && (cards[a].position < cards[b].position ==> after[a].position < after[b].position)
            && (cards[a].position != cards[b].position ==>
                  (cards[a].position < cards[b].position <==> after[a].position < after[b].position))
  {
    hide BeforeMove, GetNeighborPositions, FinalPosition, IsListing;
    ReadyKeepsOrder(cards, column, refPos, order, a, b);
    ReadyKeepsOrder(cards, column, refPos, order, b, a);
  }

  // ---------- the rank ----------

  /** The moved card ends strictly after the cards that were below the requested position and strictly before the rest. */
  ghost predicate RankKept(cards: Table, ready: Table, id: string, column: string, refPos: real)
    requires ready.Keys == cards.Keys
  {
    var final := FinalPosition(ready, column, refPos);
    forall x | x in LiveIn(cards, column) && x != id ::
      if cards[x].position < refPos then ready[x].position < final else ready[x].position > final
  }

  /** Every other card's slot is on the side of the requested position where the card was. */
  ghost predicate SlotsOnSameSide(cards: Table, id: string, refPos: real, order: seq<string>) {
    forall i | 0 <= i < |order| && order[i] in cards && order[i] != id ::
      if cards[order[i]].position < refPos then Slot(i) < refPos else Slot(i) > refPos
  }

  /** In a rebalanced column the midpoint is on the same side of every card as the requested position, or on the card itself. */
  lemma MidpointInSlots(ready: Table, column: string, order: seq<string>, refPos: real, x: string)
    requires InSlots(ready, column, order) && refPos > 0.0 && x in LiveIn(ready, column)
    ensures var final := FinalPosition(ready, column, refPos);
            && (ready[x].position < refPos ==> ready[x].position < final)
            && (ready[x].position > refPos ==> ready[x].position > final)
            && (ready[x].position == refPos ==> ready[x].position == final)
  {
    NeighborsEnclose(ready, column, refPos);
    if ready[x].position == refPos {
      NeighborsOfSlot(ready, column, order, x);
    }
  }

  /**
   The request's position is reused after a rebalance, when the cards have moved away from it. The
   requested rank survives if and only if every other card's slot is still on the same side of it.
   */
  lemma RankKeptIff(cards: Table, id: string, column: string, refPos: real, order: seq<string>)
    requires IsListing(cards, column, order) && refPos > 0.0
    ensures Rebalanced(cards, order, |order|).Keys == cards.Keys
    ensures RankKept(cards, Rebalanced(cards, order, |order|), id, column, refPos) <==>
            SlotsOnSameSide(cards, id, refPos, order)
  {
    hide Rebalanced, FinalPosition;
    var ready := Rebalanced(cards, order, |order|);
    RebalancedColumn(cards, column, order);
    forall x | x in LiveIn(cards, column)
      ensures var final := FinalPosition(ready, column, refPos);
              && (ready[x].position < refPos ==> ready[x].position < final)
              && (ready[x].position > refPos ==> ready[x].position > final)
              && (ready[x].position == refPos ==> ready[x].position == final)
    {
      MidpointInSlots(ready, column, order, refPos, x);
    }
    assert forall i | 0 <= i < |order| :: order[i] in LiveIn(cards, column);
    if SlotsOnSameSide(cards, id, refPos, order) {
      forall x | x in LiveIn(cards, column) && x != id
        ensures if cards[x].position < refPos then ready[x].position < FinalPosition(ready, column, refPos)
                else ready[x].position > FinalPosition(ready, column, refPos)
      {
        var i :| 0 <= i < |order| && order[i] == x;
      }
    }
  }

  /** The moved card is in the column, after exactly the other live cards that were below the requested position. */
  ghost predicate LandsAtRank(cards: Table, after: Table, id: string, column: string, refPos: real)
    requires id in after
  {
    && after[id].column == column
    && forall x | x in LiveIn(cards, column) && x != id ::
         && x in after
         && if cards[x].position < refPos then after[x].position < after[id].position
            else after[x].position > after[id].position
  }

  /** Without a rebalance the rank is the requested one unless another card sits there and the midpoint is not below it. */
  lemma MidpointRankIff(cards: Table, id: string, column: string, refPos: real)
    requires refPos > 0.0
    ensures RankKept(cards, cards, id, column, refPos) <==>
            Clear(cards, column, refPos, id) || FinalPosition(cards, column, refPos) < refPos
  {
    NeighborsEnclose(cards, column, refPos);
  }

  /**
   A move that reaches its update lands at the requested rank if and only if: without a rebalance, no other live
   card sits at the requested position or the midpoint is below it; with one, every other card's
   slot is on the side of the requested position where the card was.
   */
  lemma MoveLandsAtRankIff(cards: Table, columns: map<string, string>, id: string, denied: Option<Error>,
                           column: string, refPos: real, order: seq<string>, fault: Fault)
    requires IsListing(cards, column, order) && refPos > 0.0
    requires Reaches(cards, columns, id, denied, column, refPos, fault)
    ensures var after := MoveCard(cards, columns, id, denied, column, refPos, order, fault).cards;
            var (below, above) := GetNeighborPositions(cards, column, refPos);
            && after.Keys == cards.Keys && id in after
            && (LandsAtRank(cards, after, id, column, refPos) <==>
                  if NeedsRebalance(below, above) then SlotsOnSameSide(cards, id, refPos, order)
                  else Clear(cards, column, refPos, id) || Between(below, above) < refPos)
  {
    hide Rebalanced, SlotsOnSameSide, Clear, GetNeighborPositions, IsListing;
    RankKeptIff(cards, id, column, refPos, order);
    MidpointRankIff(cards, id, column, refPos);
  }

  /**
   For a card that comes from elsewhere the slots' condition is two comparisons with the number of
   cards below the requested position.
   */
  lemma RankKeptFromElsewhereIff(cards: Table, id: string, column: string, refPos: real, order: seq<string>, below: nat)
    requires IsListing(cards, column, order) && id !in order && below <= |order|
    requires forall i | 0 <= i < |order| && order[i] in cards :: cards[order[i]].position < refPos <==> i < below
    requires forall i | 0 <= i < |order| :: order[i] in cards
    ensures SlotsOnSameSide(cards, id, refPos, order) <==>
            (below == 0 || Slot(below - 1) < refPos) && (below == |order| || refPos < Slot(below))
  {
    assert forall i: nat, j: nat | i <= j :: Slot(i) <= Slot(j);
    if 0 < below && SlotsOnSameSide(cards, id, refPos, order) {
      assert order[below - 1] != id;
    }
    if below < |order| && SlotsOnSameSide(cards, id, refPos, order) {
      assert order[below] != id;
    }
  }

  function HairApart(board: string, column: string, other: string): Table {
    map["a" := Card(board, column, 1.0, false),
        "b" := Card(board, column, 1.0005, false),
        "m" := Card(board, other, STEP, false)]
  }

  lemma HairApartFacts(board: string, column: string, other: string)
    requires column != other
    ensures var cards := HairApart(board, column, other);
            && IsListing(cards, column, ["a", "b"])
            && BeforeMove(cards, column, 1.00025, ["a", "b"]) == Rebalanced(cards, ["a", "b"], 2)
  {
    hide Rebalanced;
    var cards := HairApart(board, column, other);
    assert LiveIn(cards, column) == {"a", "b"};
    assert LiveBelow(cards, column, 1.00025) == {"a"};
    assert LiveAbove(cards, column, 1.00025) == {"b"};
  }

  lemma HairApartReady(board: string, column: string, other: string)
    requires column != other
    ensures var cards := HairApart(board, column, other);
            var ready := BeforeMove(cards, column, 1.00025, ["a", "b"]);
            && ready.Keys == cards.Keys
            && FinalPosition(ready, column, 1.00025) < ready["a"].position < ready["b"].position
  {
    hide BeforeMove, Rebalanced, FinalPosition, IsListing;
    HairApartFacts(board, column, other);
    var cards, order := HairApart(board, column, other), ["a", "b"];
    var ready := BeforeMove(cards, column, 1.00025, order);
    RebalancedColumn(cards, column, order);
    assert ready[order[0]].position == Slot(0) && ready[order[1]].position == Slot(1);
    assert order[0] in order;
    MidpointInSlots(ready, column, order, 1.00025, "a");
  }

  /** A move that nothing refuses and nothing fails. */
  lemma MoveSucceeds(cards: Table, columns: map<string, string>, id: string, column: string, refPos: real, order: seq<string>)
    requires Reaches(cards, columns, id, None, column, refPos, NoFault)
    requires id in BeforeMove(cards, column, refPos, order)
    ensures var ready := BeforeMove(cards, column, refPos, order);
            MoveCard(cards, columns, id, None, column, refPos, order, NoFault)
              == Outcome(Moved(ready, id, column, FinalPosition(ready, column, refPos)), None)
  {
    hide BeforeMove, Moved, FinalPosition, GetNeighborPositions;
  }

  lemma HairApartIsSpaced(board: string, column: string, other: string)
    requires column != other
    ensures Spaced(HairApart(board, column, other))
  {
  }

  /** Two cards a hair apart: a card asked to go between them lands in front of both. */
  lemma RankLostBetweenTwo(board: string, column: string, other: string)
    requires column != other
    ensures var cards := HairApart(board, column, other);
            var columns := map[column := board, other := board];
            var moved := MoveCard(cards, columns, "m", None, column, 1.00025, ["a", "b"], NoFault);
            && Spaced(cards) && cards["a"].position < 1.00025 < cards["b"].position
            && moved.error.None? && moved.cards.Keys == cards.Keys && moved.cards["m"].column == column
            && moved.cards["m"].position < moved.cards["a"].position < moved.cards["b"].position
  {
    hide BeforeMove, FinalPosition, GetNeighborPositions, MoveCard, Spaced;
    HairApartIsSpaced(board, column, other);
    HairApartReady(board, column, other);
    MoveSucceeds(HairApart(board, column, other), map[column := board, other := board], "m", column, 1.00025, ["a", "b"]);
  }

  // ---------- runs ----------

  datatype Request =
    | Create(id: string, column: string, denied: Option<Error>)
    | Move(id: string, column: string, refPos: real, order: seq<string>, denied: Option<Error>, fault: Fault)
    | Archive(id: string, denied: Option<Error>)
    | Unarchive(id: string, denied: Option<Error>, late: bool)
    | Delete(id: string, denied: Option<Error>)

  function Serve(cards: Table, columns: map<string, string>, r: Request): Table {
    match r
    case Create(id, column, denied) => CreateCard(cards, columns, id, denied, column).cards
    case Move(id, column, refPos, order, denied, fault) =>
      MoveCard(cards, columns, id, denied, column, refPos, order, fault).cards
    case Archive(id, denied) => SetArchived(cards, id, denied, true, false).cards
    case Unarchive(id, denied, late) => SetArchived(cards, id, denied, false, late).cards
    case Delete(id, denied) => DeleteCard(cards, id, denied).cards
  }

  /** What the database and the request validation guarantee: new identifiers, a position above zero, a sorted listing. */
  ghost predicate WellFormed(cards: Table, r: Request) {
    match r
    case Create(id, _, _) => id !in cards
    case Move(id, column, refPos, order, _, _) => refPos > 0.0 && IsListing(cards, column, order)
    case _ => true
  }

  /** No unarchive, and no other live card at a requested position when the neighbours are last read. */
  ghost predicate Careful(cards: Table, r: Request) {
    match r
    case Move(id, column, refPos, order, _, _) => Clear(BeforeMove(cards, column, refPos, order), column, refPos, id)
    case Unarchive(_, _, _) => false
    case _ => true
  }

  function ServeAll(cards: Table, columns: map<string, string>, requests: seq<Request>): Table {
    if requests == [] then cards
    else Serve(ServeAll(cards, columns, requests[..|requests| - 1]), columns, requests[|requests| - 1])
  }

  lemma ServeKeepsSpacing(cards: Table, columns: map<string, string>, r: Request)
    requires Spaced(cards) && WellFormed(cards, r) && Careful(cards, r)
    ensures Spaced(Serve(cards, columns, r))
  {
    hide MoveCard, CreateCard, BeforeMove;
    match r
    case Create(id, column, denied) => CreateKeepsSpacing(cards, columns, id, denied, column);
    case Move(id, column, refPos, order, denied, fault) =>
      MoveKeepsSpacing(cards, columns, id, denied, column, refPos, order, fault);
    case Archive(id, _) =>
    case Delete(id, _) =>
  }

  /** Over every serial run of careful requests, from an empty table on, the cards stay spaced. */
  lemma {:induction false} SpacedOverRuns(columns: map<string, string>, requests: seq<Request>)
    requires forall k | 0 <= k < |requests| ::
               && WellFormed(ServeAll(map[], columns, requests[..k]), requests[k])
               && Careful(ServeAll(map[], columns, requests[..k]), requests[k])
    ensures Spaced(ServeAll(map[], columns, requests))
  {
    hide Serve, WellFormed, Careful;
    if requests != [] {
      var front := requests[..|requests| - 1];
      assert forall k | 0 <= k < |front| :: front[..k] == requests[..k];
      SpacedOverRuns(columns, front);
      ServeKeepsSpacing(ServeAll(map[], columns, front), columns, requests[|requests| - 1]);
    }
  }

  /** Create, archive, create, unarchive: both cards end at 1000. */
  lemma UnarchiveRestoresTakenPosition(board: string, column: string)
    ensures var cards := ServeAll(map[], map[column := board],
                           [Create("a", column, None), Archive("a", None), Create("b", column, None), Unarchive("a", None, false)]);
            && cards == map["a" := Card(board, column, STEP, false), "b" := Card(board, column, STEP, false)]
            && !Spaced(cards)
  {
    var columns := map[column := board];
    var create, archive := Create("a", column, None), Archive("a", None);
    var another, unarchive := Create("b", column, None), Unarchive("a", None, false);
    assert LiveIn(map[], column) == {};
    ServeSnoc(map[], columns, [], create);
    ServeSnoc(map[], columns, [create], archive);
    var two := ServeAll(map[], columns, [create] + [archive]);
    assert [] + [create] == [create];
    assert two == map["a" := Card(board, column, STEP, true)];
    assert LiveIn(two, column) == {};
    ServeSnoc(map[], columns, [create] + [archive], another);
    ServeSnoc(map[], columns, [create] + [archive] + [another], unarchive);
    assert [create] + [archive] + [another] + [unarchive] == [create, archive, another, unarchive];
    var last := ServeAll(map[], columns, [create, archive, another, unarchive]);
    assert Live(last["a"], last["b"].column);
  }

  lemma ServeSnoc(cards: Table, columns: map<string, string>, front: seq<Request>, r: Request)
    ensures ServeAll(cards, columns, front + [r]) == Serve(ServeAll(cards, columns, front), columns, r)
  {
    assert (front + [r])[..|front|] == front;
  }
}
