/** What each card request leaves in the rows, when it fails and how, in plain terms. */
module CardEffects {
  import opened Common
  import opened Fractional
  import opened Cards
  import opened CardOrder
  import opened CardMoves

  /** The cards of a column that are not archived. */
  predicate IsLiveIn(cards: Table, column: string, id: string) {
    id in cards && cards[id].column == column && !cards[id].archived
  }

  // ---------- the queries ----------

  /** The greatest position below the requested one or 0, and the least above it or 1000 more than requested. */
  lemma NeighborsAre(cards: Table, column: string, refPos: real)
    ensures var (below, above) := GetNeighborPositions(cards, column, refPos);
            && (forall x | IsLiveIn(cards, column, x) && cards[x].position < refPos :: cards[x].position <= below)
            && (forall x | IsLiveIn(cards, column, x) && cards[x].position > refPos :: above <= cards[x].position)
            && (|| (exists x :: IsLiveIn(cards, column, x) && cards[x].position < refPos && cards[x].position == below)
                || (below == 0.0 && forall x | IsLiveIn(cards, column, x) :: cards[x].position >= refPos))
            && (|| (exists x :: IsLiveIn(cards, column, x) && cards[x].position > refPos && cards[x].position == above)
                || (above == refPos + 1000.0 && forall x | IsLiveIn(cards, column, x) :: cards[x].position <= refPos))
  {
    var low, high := LiveBelow(cards, column, refPos), LiveAbove(cards, column, refPos);
    assert forall x | IsLiveIn(cards, column, x) && cards[x].position < refPos :: x in low;
    assert forall x | IsLiveIn(cards, column, x) && cards[x].position > refPos :: x in high;
    if low != {} {
      var l :| l in low && cards[l].position == GetNeighborPositions(cards, column, refPos).0;
      assert IsLiveIn(cards, column, l);
    }
    if high != {} {
      var h :| h in high && cards[h].position == GetNeighborPositions(cards, column, refPos).1;
      assert IsLiveIn(cards, column, h);
    }
  }

  /** A rebalance is due for a gap of less than a thousandth, and the midpoint is halfway. */
  lemma GapAndMidpoint(below: real, above: real)
    ensures NeedsRebalance(below, above) <==> above < below + 0.001
    ensures Between(below, above) - below == above - Between(below, above)
  {
  }

  /** The i-th card of the listing goes to 1000 * (i + 1), and nothing else changes. */
  lemma RebalanceEffect(cards: Table, column: string, order: seq<string>)
    requires IsListing(cards, column, order)
    ensures var after := Rebalanced(cards, order, |order|);
            && after.Keys == cards.Keys
            && (forall i | 0 <= i < |order| ::
                  IsLiveIn(cards, column, order[i])
                  && after[order[i]] == cards[order[i]].(position := 1000.0 * ((i + 1) as real)))
            && (forall id | id in cards && !IsLiveIn(cards, column, id) :: after[id] == cards[id])
  {
    hide Rebalanced;
    RebalancedColumn(cards, column, order);
    forall i | 0 <= i < |order| ensures IsLiveIn(cards, column, order[i]) {
      assert order[i] in order;
    }
  }

  // ---------- moving ----------

  /**
   The move gets to its update if and only if the card and the column are there, the access check
   passes, both are of one board, and neither statement fails, the rebalance only if it is needed.
   */
  lemma ReachesIff(cards: Table, columns: map<string, string>, id: string, denied: Option<Error>,
                   column: string, refPos: real, fault: Fault)
    ensures var (below, above) := GetNeighborPositions(cards, column, refPos);
            Reaches(cards, columns, id, denied, column, refPos, fault) <==>
              && id in cards && denied == None && column in columns && columns[column] == cards[id].board
              && fault != AtMove && (above - below < 0.001 ==> fault != AtRebalance)
  {
    hide GetNeighborPositions;
  }

  /**
   A move that reaches its update leaves the card's board, archive mark and everything else as they
   were, in the column asked for, halfway between its neighbours when they are last read. It returns an
   error if and only if a read after the update failed. All other rows are those of the rebalance, if any.
   */
  lemma MoveEffect(cards: Table, columns: map<string, string>, id: string, denied: Option<Error>,
                   column: string, refPos: real, order: seq<string>, fault: Fault)
    requires IsListing(cards, column, order) && Reaches(cards, columns, id, denied, column, refPos, fault)
    ensures var (after, error) := Both(MoveCard(cards, columns, id, denied, column, refPos, order, fault));
            var (b, a) := GetNeighborPositions(cards, column, refPos);
            var ready := if a - b < 0.001 then Rebalanced(cards, order, |order|) else cards;
            var (below, above) := GetNeighborPositions(ready, column, refPos);
            && after.Keys == cards.Keys == ready.Keys
            && after[id].board == cards[id].board && after[id].archived == cards[id].archived
            && after[id] == cards[id].(column := column, position := (below + above) / 2.0)
            && (forall other | other in cards && other != id :: after[other] == ready[other])
            && error == (if fault == AfterMove then Some(Unavailable) else None)
  {
    hide GetNeighborPositions, Rebalanced, IsListing;
    RebalancedColumn(cards, column, order);
  }

  function Both(o: Outcome): (Table, Option<Error>) {
    (o.cards, o.error)
  }

  /** A move that does not get there changes nothing but, at most, positions: those of the rebalance before a failing update. */
  lemma FailedMoveEffect(cards: Table, columns: map<string, string>, id: string, denied: Option<Error>,
                         column: string, refPos: real, order: seq<string>, fault: Fault)
    requires IsListing(cards, column, order) && !Reaches(cards, columns, id, denied, column, refPos, fault)
    ensures var (after, error) := Both(MoveCard(cards, columns, id, denied, column, refPos, order, fault));
            var (below, above) := GetNeighborPositions(cards, column, refPos);
            var allowed := id in cards && denied == None && column in columns && columns[column] == cards[id].board;
            && error.Some?
            && after == (if allowed && fault == AtMove && above - below < 0.001 then Rebalanced(cards, order, |order|) else cards)
            && after.Keys == cards.Keys
            && (forall x | x in cards :: after[x] == cards[x].(position := after[x].position))
            && (allowed ==> error == Some(Unavailable))
            && (!allowed ==>
                  error == if id !in cards then Some(NotFound)
                           else if denied.Some? then denied
                           else if column !in columns then Some(NotFound)
                           else Some(InsufficientPermissions))
  {
    hide GetNeighborPositions, Rebalanced, IsListing;
    RebalancedColumn(cards, column, order);
  }

  /** A card of one board is never moved to a column of another, and after a move it can be moved again. */
  lemma MoveStaysOnBoard(cards: Table, columns: map<string, string>, id: string, column: string, refPos: real,
                         order: seq<string>, next: string, nextPos: real)
    requires IsListing(cards, column, order) && Reaches(cards, columns, id, None, column, refPos, NoFault)
    requires next in columns
    ensures var after := MoveCard(cards, columns, id, None, column, refPos, order, NoFault).cards;
            && id in after && column in columns && after[id].board == columns[after[id].column]
            && (Reaches(after, columns, id, None, next, nextPos, NoFault) <==> columns[next] == cards[id].board)
  {
    hide GetNeighborPositions, MoveCard, Rebalanced, IsListing;
    MoveEffect(cards, columns, id, None, column, refPos, order, NoFault);
  }

  // ---------- creating, archiving, deleting ----------

  /**
   A card is created if and only if the column is there and the access check passes: on the column's
   board, not archived, 1000 past the last live card, or at 1000 in a column without one.
   */
  lemma CreateEffect(cards: Table, columns: map<string, string>, id: string, denied: Option<Error>, column: string)
    requires id !in cards
    ensures var (after, error) := Both(CreateCard(cards, columns, id, denied, column));
            && (error == None <==> column in columns && denied == None)
            && (error == Some(NotFound) <==> column !in columns || denied == Some(NotFound))
            && (column in columns && denied.Some? ==> error == denied)
            && (error.Some? ==> after == cards)
            && (error == None ==>
                  && after.Keys == cards.Keys + {id} && (forall x | x in cards :: after[x] == cards[x])
                  && after[id] == Card(columns[column], column, after[id].position, false)
                  && (forall x | IsLiveIn(cards, column, x) :: after[id].position >= cards[x].position + 1000.0)
                  && (|| (exists x :: IsLiveIn(cards, column, x) && after[id].position == cards[x].position + 1000.0)
                      || (after[id].position == 1000.0 && forall x :: !IsLiveIn(cards, column, x))))
  {
    var live := LiveIn(cards, column);
    assert forall x | IsLiveIn(cards, column, x) :: x in live;
    if live != {} {
      var x :| x in live && cards[x].position == GetMaxPositionInColumn(cards, column);
      assert IsLiveIn(cards, column, x);
    }
  }

  /** Archiving and unarchiving set the mark and keep the position, the column and every other row. */
  lemma ArchiveEffect(cards: Table, id: string, denied: Option<Error>, archived: bool, late: bool)
    ensures var (after, error) := Both(SetArchived(cards, id, denied, archived, late));
            && (error == None <==> id in cards && denied == None && (archived || !late))
            && (id !in cards ==> error == Some(NotFound)) && (id in cards && denied.Some? ==> error == denied)
            && (id in cards && denied == None && error.Some? ==> error == Some(Unavailable))
            && (id !in cards || denied.Some? ==> after == cards)
            && (id in cards && denied == None ==>
                  && after.Keys == cards.Keys && (forall x | x in cards && x != id :: after[x] == cards[x])
                  && after[id] == Card(cards[id].board, cards[id].column, cards[id].position, archived))
  {
  }

  lemma DeleteEffect(cards: Table, id: string, denied: Option<Error>)
    ensures var (after, error) := Both(DeleteCard(cards, id, denied));
            && (error == None <==> id in cards && denied == None)
            && (id !in cards ==> error == Some(NotFound)) && (id in cards && denied.Some? ==> error == denied)
            && (error.Some? ==> after == cards)
            && (error == None ==> id !in after && forall x | x != id :: (x in after <==> x in cards) && (x in cards ==> after[x] == cards[x]))
  {
  }

  // ---------- the spacing, in numbers ----------

  /** After every careful run any two live cards of a column are at least 0.0005 apart, and every live card is at least at 0.0005. */
  lemma LiveCardsStayApart(columns: map<string, string>, requests: seq<Request>, column: string, a: string, b: string)
    requires forall k | 0 <= k < |requests| ::
               && WellFormed(ServeAll(map[], columns, requests[..k]), requests[k])
               && Careful(ServeAll(map[], columns, requests[..k]), requests[k])
    requires var cards := ServeAll(map[], columns, requests); IsLiveIn(cards, column, a) && IsLiveIn(cards, column, b)
    ensures var cards := ServeAll(map[], columns, requests);
            && cards[a].position >= 0.0005
            && (a != b ==> cards[a].position >= cards[b].position + 0.0005 || cards[b].position >= cards[a].position + 0.0005)
  {
    hide ServeAll, WellFormed, Careful;
    SpacedOverRuns(columns, requests);
    var cards := ServeAll(map[], columns, requests);
    assert Live(cards[a], cards[b].column) && Live(cards[b], cards[b].column);
  }

  /** In a run, a deleted card is gone and the others stay; an archived one only changes its mark. */
  lemma ServeEffect(cards: Table, columns: map<string, string>, id: string)
    requires id in cards
    ensures var gone := Serve(cards, columns, Delete(id, None));
            id !in gone && forall x | x != id :: (x in gone <==> x in cards) && (x in cards ==> gone[x] == cards[x])
    ensures Serve(cards, columns, Archive(id, None)) == cards[id := cards[id].(archived := true)]
    ensures Serve(cards, columns, Unarchive(id, None, false)) == cards[id := cards[id].(archived := false)]
  {
    hide MoveCard, CreateCard;
  }
}
