/**
 The `cards` table and what one request does to it. Requests run one at a time; each statement
 or transaction succeeds or leaves the rows as they were.
 */
module Cards {
  import opened Common
  import opened Fractional

  datatype Card = Card(board: string, column: string, position: real, archived: bool)

  type Table = map<string, Card>

  datatype Error = NotFound | AccessDenied | InsufficientPermissions | Unavailable

  /** The rows after a request, and the error it returned, if any. */
  datatype Outcome = Outcome(cards: Table, error: Option<Error>)

  predicate Live(card: Card, column: string) {
    card.column == column && !card.archived
  }

  function LiveIn(cards: Table, column: string): set<string> {
    set id | id in cards && Live(cards[id], column)
  }

  // ---------- the aggregate queries ----------

  datatype Value = Value(position: real)

  /** The one column the aggregates run over. */
  function Positions(cards: Table, ids: set<string>): set<Value>
    requires ids <= cards.Keys
  {
    set id | id in ids :: Value(cards[id].position)
  }

  lemma {:induction false} HasGreatest(cards: Table, ids: set<string>)
    requires ids <= cards.Keys && ids != {}
    ensures exists m :: m in Positions(cards, ids) && forall p | p in Positions(cards, ids) :: p.position <= m.position
  {
    var one :| one in ids;
    var rest := ids - {one};
    var m := Value(cards[one].position);
    assert Positions(cards, ids) == Positions(cards, rest) + {m};
    if rest != {} {
      HasGreatest(cards, rest);
      var other :| other in Positions(cards, rest) && forall p | p in Positions(cards, rest) :: p.position <= other.position;
      m := if m.position >= other.position then m else other;
    }
    assert m in Positions(cards, ids) && forall p | p in Positions(cards, ids) :: p.position <= m.position;
  }

  lemma {:induction false} HasLeast(cards: Table, ids: set<string>)
    requires ids <= cards.Keys && ids != {}
    ensures exists m :: m in Positions(cards, ids) && forall p | p in Positions(cards, ids) :: m.position <= p.position
  {
    var one :| one in ids;
    var rest := ids - {one};
    var m := Value(cards[one].position);
    assert Positions(cards, ids) == Positions(cards, rest) + {m};
    if rest != {} {
      HasLeast(cards, rest);
      var other :| other in Positions(cards, rest) && forall p | p in Positions(cards, rest) :: other.position <= p.position;
      m := if m.position <= other.position then m else other;
    }
    assert m in Positions(cards, ids) && forall p | p in Positions(cards, ids) :: m.position <= p.position;
  }

  /** COALESCE(MAX(position), otherwise) */
  function MaxPosition(cards: Table, ids: set<string>, otherwise: real): (m: real)
    requires ids <= cards.Keys
    ensures ids == {} ==> m == otherwise
    ensures ids != {} ==> exists id :: id in ids && cards[id].position == m
    ensures forall id | id in ids :: cards[id].position <= m
  {
    if ids == {} then otherwise
    else
      HasGreatest(cards, ids);
      var m :| m in Positions(cards, ids) && forall p | p in Positions(cards, ids) :: p.position <= m.position;
      assert forall id | id in ids :: Value(cards[id].position) in Positions(cards, ids);
      m.position
  }

  /** COALESCE(MIN(position), otherwise) */
  function MinPosition(cards: Table, ids: set<string>, otherwise: real): (m: real)
    requires ids <= cards.Keys
    ensures ids == {} ==> m == otherwise
    ensures ids != {} ==> exists id :: id in ids && cards[id].position == m
    ensures forall id | id in ids :: m <= cards[id].position
  {
    if ids == {} then otherwise
    else
      HasLeast(cards, ids);
      var m :| m in Positions(cards, ids) && forall p | p in Positions(cards, ids) :: m.position <= p.position;
      assert forall id | id in ids :: Value(cards[id].position) in Positions(cards, ids);
      m.position
  }

  function GetMaxPositionInColumn(cards: Table, column: string): real {
    MaxPosition(cards, LiveIn(cards, column), 0.0)
  }

  function LiveBelow(cards: Table, column: string, refPos: real): set<string> {
    set id | id in cards && Live(cards[id], column) && cards[id].position < refPos
  }

  function LiveAbove(cards: Table, column: string, refPos: real): set<string> {
    set id | id in cards && Live(cards[id], column) && cards[id].position > refPos
  }

  /** The live positions next to `refPos`, strictly below and strictly above it. */
  function GetNeighborPositions(cards: Table, column: string, refPos: real): (real, real) {
    (MaxPosition(cards, LiveBelow(cards, column, refPos), 0.0),
     MinPosition(cards, LiveAbove(cards, column, refPos), refPos + STEP))
  }

  // ---------- rebalancing ----------

  /** The column's live cards as ORDER BY position returned them; ties come in any order. */
  ghost predicate IsListing(cards: Table, column: string, order: seq<string>) {
    && (forall i, j | 0 <= i < j < |order| :: order[i] != order[j])
    && (forall id :: id in order <==> id in LiveIn(cards, column))
    && (forall i, j | 0 <= i < j < |order| && order[i] in cards && order[j] in cards ::
          cards[order[i]].position <= cards[order[j]].position)
  }

  /** The position the rebalance gives to the i-th card. */
  function Slot(i: nat): real {
    ((i + 1) * 1000) as real
  }

  /** The table after the first `n` updates of the rebalance. */
  function Rebalanced(cards: Table, order: seq<string>, n: nat): Table
    requires n <= |order|
  {
    if n == 0 then cards
    else
      var before := Rebalanced(cards, order, n - 1);
      var id := order[n - 1];
      if id in before then before[id := before[id].(position := Slot(n - 1))] else before
  }

  /** The listed cards up to `n` are in their slots, and no other card has moved. */
  ghost predicate FirstMoved(cards: Table, order: seq<string>, n: nat, after: Table)
    requires n <= |order|
  {
    && after.Keys == cards.Keys
    && (forall i | 0 <= i < n && order[i] in cards :: after[order[i]] == cards[order[i]].(position := Slot(i)))
    && (forall id | id in cards && id !in order[..n] :: after[id] == cards[id])
  }

  lemma OneMoreSlot(cards: Table, order: seq<string>, n: nat, before: Table)
    requires n < |order| && order[n] in cards && order[n] !in order[..n]
    requires FirstMoved(cards, order, n, before)
    ensures FirstMoved(cards, order, n + 1, before[order[n] := before[order[n]].(position := Slot(n))])
  {
    hide Slot;
    assert order[..n + 1] == order[..n] + [order[n]];
    assert forall i | 0 <= i < n :: order[i] in order[..n];
  }

  lemma NothingMoved(cards: Table, order: seq<string>)
    ensures Rebalanced(cards, order, 0) == cards && FirstMoved(cards, order, 0, cards)
  {
  }

  lemma NextMoved(cards: Table, order: seq<string>, n: nat)
    requires n < |order| && order[n] in cards && FirstMoved(cards, order, n, Rebalanced(cards, order, n))
    ensures var before := Rebalanced(cards, order, n);
            && before.Keys == cards.Keys
            && Rebalanced(cards, order, n + 1) == before[order[n] := before[order[n]].(position := Slot(n))]
  {
  }

  /** Exactly the listed cards move, each to its own slot. */
  lemma {:induction false} RebalancedMeaning(cards: Table, order: seq<string>, n: nat)
    requires n <= |order|
    requires forall i, j | 0 <= i < j < |order| :: order[i] != order[j]
    requires forall id | id in order :: id in cards
    ensures FirstMoved(cards, order, n, Rebalanced(cards, order, n))
  {
    hide Slot, Rebalanced, FirstMoved;
    if n == 0 {
      NothingMoved(cards, order);
    } else {
      RebalancedMeaning(cards, order, n - 1);
      var before := Rebalanced(cards, order, n - 1);
      assert order[n - 1] !in order[..n - 1];
      OneMoreSlot(cards, order, n - 1, before);
      NextMoved(cards, order, n - 1);
    }
  }

  // ---------- requests ----------

  /** Where a database failure hits a move: the rebalance, the update, or the reads of the response after it. */
  datatype Fault = NoFault | AtRebalance | AtMove | AfterMove

  /** The rows when the final position is computed: rebalanced if the gap was too small. */
  function BeforeMove(cards: Table, column: string, refPos: real, order: seq<string>): Table {
    var (below, above) := GetNeighborPositions(cards, column, refPos);
    if NeedsRebalance(below, above) then Rebalanced(cards, order, |order|) else cards
  }

  function FinalPosition(cards: Table, column: string, refPos: real): real {
    var (below, above) := GetNeighborPositions(cards, column, refPos);
    Between(below, above)
  }

  function Moved(cards: Table, id: string, column: string, position: real): Table
    requires id in cards
  {
    cards[id := cards[id].(column := column, position := position)]
  }

  /** `denied` is what the access check returned, `order` the rows the rebalance query would return. */
  function MoveCard(cards: Table, columns: map<string, string>, id: string, denied: Option<Error>,
                    column: string, refPos: real, order: seq<string>, fault: Fault): Outcome {
    if id !in cards then Outcome(cards, Some(NotFound))
    else if denied.Some? then Outcome(cards, denied)
    else if column !in columns then Outcome(cards, Some(NotFound))
    else if columns[column] != cards[id].board then Outcome(cards, Some(InsufficientPermissions))
    else
      var (below, above) := GetNeighborPositions(cards, column, refPos);
      if NeedsRebalance(below, above) && fault.AtRebalance? then Outcome(cards, Some(Unavailable))
      else
        var ready := BeforeMove(cards, column, refPos, order);
        if fault.AtMove? then Outcome(ready, Some(Unavailable))
        else if id !in ready then Outcome(ready, Some(NotFound))
        else
          // the row stays moved when the reads for the response fail
          Outcome(Moved(ready, id, column, FinalPosition(ready, column, refPos)),
                  if fault.AfterMove? then Some(Unavailable) else None)
  }

  /** The request's guards and its database let the update of the card's row through. */
  predicate Reaches(cards: Table, columns: map<string, string>, id: string, denied: Option<Error>,
                    column: string, refPos: real, fault: Fault)
  {
    var (below, above) := GetNeighborPositions(cards, column, refPos);
    && id in cards && denied.None?
    && column in columns && columns[column] == cards[id].board
    && !fault.AtMove? && !(fault.AtRebalance? && NeedsRebalance(below, above))
  }

  /** `id` is the identifier the database generates. */
  function CreateCard(cards: Table, columns: map<string, string>, id: string, denied: Option<Error>, column: string): Outcome {
    if column !in columns then Outcome(cards, Some(NotFound))
    else if denied.Some? then Outcome(cards, denied)
    else
      var position := GetMaxPositionInColumn(cards, column) + STEP;
      Outcome(cards[id := Card(columns[column], column, position, false)], None)
  }

  /** `late` says that a read after the update fails; only unarchiving reads the card again. */
  function SetArchived(cards: Table, id: string, denied: Option<Error>, archived: bool, late: bool): Outcome {
    if id !in cards then Outcome(cards, Some(NotFound))
    else if denied.Some? then Outcome(cards, denied)
    else Outcome(cards[id := cards[id].(archived := archived)], if late && !archived then Some(Unavailable) else None)
  }

  function DeleteCard(cards: Table, id: string, denied: Option<Error>): Outcome {
    if id !in cards then Outcome(cards, Some(NotFound))
    else if denied.Some? then Outcome(cards, denied)
    else Outcome(cards - {id}, None)
  }
}
