/** The card service over its table, step by step, proved to do what the request functions say. */
module CardServices {
  import opened Common
  import opened Fractional
  import opened Cards

  class CardService {
    var cards: Table
    /** The board of every column. */
    var columns: map<string, string>

    constructor (columns: map<string, string>)
      ensures cards == map[] && this.columns == columns
    {
      cards := map[];
      this.columns := columns;
    }

    /** One transaction; `order` is what its query returned. */
    method RebalanceColumn(column: string, order: seq<string>, fault: bool) returns (ok: bool)
      requires forall id | id in order :: id in cards
      modifies this`cards
      ensures ok == !fault
      ensures cards == if fault then old(cards) else Rebalanced(old(cards), order, |order|)
    {
      if fault {
        return false;
      }
      for i := 0 to |order|
        invariant cards == Rebalanced(old(cards), order, i)
        invariant cards.Keys == old(cards.Keys)
      {
        var id := order[i];
        cards := cards[id := cards[id].(position := ((i + 1) * 1000) as real)];
      }
      return true;
    }

    method MoveCard(id: string, denied: Option<Error>, column: string, refPos: real,
                    order: seq<string>, fault: Fault)
      returns (error: Option<Error>)
      requires refPos > 0.0 && IsListing(cards, column, order)
      modifies this`cards
      ensures Outcome(cards, error) == Cards.MoveCard(old(cards), columns, id, denied, column, refPos, order, fault)
    {
      if id !in cards {
        return Some(NotFound);
      }
      var card := cards[id];
      if denied.Some? {
        return denied;
      }
      if column !in columns {
        return Some(NotFound);
      }
      if columns[column] != card.board {
        return Some(InsufficientPermissions);
      }
      var (below, above) := GetNeighborPositions(cards, column, refPos);
      if NeedsRebalance(below, above) {
        assert forall x | x in order :: x in LiveIn(cards, column);
        var ok := RebalanceColumn(column, order, fault.AtRebalance?);
        if !ok {
          return Some(Unavailable);
        }
        var (b, a) := GetNeighborPositions(cards, column, refPos);
        below, above := b, a;
      }
      var finalPosition := Between(below, above);
      if fault.AtMove? {
        return Some(Unavailable);
      }
      if id !in cards {
        return Some(NotFound);
      }
      cards := cards[id := cards[id].(column := column, position := finalPosition)];
      if fault.AfterMove? {
        return Some(Unavailable);
      }
      return None;
    }

    /** `id` is generated by the database. */
    method CreateCard(id: string, denied: Option<Error>, column: string) returns (error: Option<Error>)
      requires id !in cards
      modifies this`cards
      ensures Outcome(cards, error) == Cards.CreateCard(old(cards), columns, id, denied, column)
    {
      if column !in columns {
        return Some(NotFound);
      }
      if denied.Some? {
        return denied;
      }
      var position := GetMaxPositionInColumn(cards, column) + 1000.0;
      cards := cards[id := Card(columns[column], column, position, false)];
      return None;
    }

    /** ArchiveCard and UnarchiveCard. */
    method SetArchived(id: string, denied: Option<Error>, archived: bool, late: bool) returns (error: Option<Error>)
      modifies this`cards
      ensures Outcome(cards, error) == Cards.SetArchived(old(cards), id, denied, archived, late)
    {
      if id !in cards {
        return Some(NotFound);
      }
      if denied.Some? {
        return denied;
      }
      cards := cards[id := cards[id].(archived := archived)];
      if late && !archived {
        return Some(Unavailable);
      }
      return None;
    }

    method DeleteCard(id: string, denied: Option<Error>) returns (error: Option<Error>)
      modifies this`cards
      ensures Outcome(cards, error) == Cards.DeleteCard(old(cards), id, denied)
    {
      if id !in cards {
        return Some(NotFound);
      }
      if denied.Some? {
        return denied;
      }
      cards := cards - {id};
      return None;
    }
  }
}
