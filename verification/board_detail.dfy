/** The loop of GetBoardDetail that groups the rows of the join into columns with their cards. */
module BoardDetail {
  import opened Common

  /** One row of the LEFT JOIN; the card part is absent for a column without live cards. */
  datatype Row = Row(columnID: string, title: string, position: real, card: Option<CardPart>)

  datatype CardPart = CardPart(id: string, title: string, position: real)

  datatype Column = Column(id: string, title: string, position: real, cards: seq<CardPart>)

  // ---------- what the grouping must be ----------

  /** The column identifiers, each where it first appears. */
  function FirstSeen(rows: seq<Row>): seq<string> {
    if rows == [] then []
    else
      var front, id := FirstSeen(rows[..|rows| - 1]), rows[|rows| - 1].columnID;
      if id in front then front else front + [id]
  }

  /** The cards of one column, in row order. */
  function CardsOf(rows: seq<Row>, id: string): seq<CardPart> {
    if rows == [] then []
    else
      var last := rows[|rows| - 1];
      CardsOf(rows[..|rows| - 1], id)
      + (if last.columnID == id && last.card.Some? then [last.card.value] else [])
  }

  /** The first row of a column gives its own fields. */
  function HeadOf(rows: seq<Row>, id: string): Option<Row> {
    if rows == [] then None
    else
      var earlier := HeadOf(rows[..|rows| - 1], id);
      if earlier.Some? then earlier
      else if rows[|rows| - 1].columnID == id then Some(rows[|rows| - 1])
      else None
  }

  ghost predicate IsGrouping(rows: seq<Row>, columns: seq<Column>) {
    && |columns| == |FirstSeen(rows)|
    && forall i | 0 <= i < |columns| ::
         && columns[i].id == FirstSeen(rows)[i]
         && columns[i].cards == CardsOf(rows, columns[i].id)
         && HeadOf(rows, columns[i].id).Some?
         && columns[i].title == HeadOf(rows, columns[i].id).value.title
         && columns[i].position == HeadOf(rows, columns[i].id).value.position
  }

  lemma {:induction false} FirstSeenMeaning(rows: seq<Row>)
    ensures forall i, j | 0 <= i < j < |FirstSeen(rows)| :: FirstSeen(rows)[i] != FirstSeen(rows)[j]
    ensures forall id :: id in FirstSeen(rows) <==> exists k :: 0 <= k < |rows| && rows[k].columnID == id
    ensures forall id :: id in FirstSeen(rows) <==> HeadOf(rows, id).Some?
  {
    if rows != [] {
      var front := rows[..|rows| - 1];
      FirstSeenMeaning(front);
      forall id ensures id in FirstSeen(rows) <==> exists k :: 0 <= k < |rows| && rows[k].columnID == id {
        if id in FirstSeen(front) {
          var k :| 0 <= k < |front| && front[k].columnID == id;
          assert rows[k].columnID == id;
        }
        if exists k :: 0 <= k < |rows| && rows[k].columnID == id {
          var k :| 0 <= k < |rows| && rows[k].columnID == id;
          assert k < |front| ==> front[k].columnID == id;
        }
      }
    }
  }

  /** First-seen order: before any row of a column there is one of each column listed earlier. */
  lemma {:induction false} FirstSeenOrder(rows: seq<Row>, i: nat, j: nat, k: nat)
    requires i < j < |FirstSeen(rows)| && k < |rows| && rows[k].columnID == FirstSeen(rows)[j]
    ensures exists m :: 0 <= m < k && rows[m].columnID == FirstSeen(rows)[i]
  {
    var n := |rows| - 1;
    var front := rows[..n];
    FirstSeenMeaning(front);
    if k < n {
      assert front[k].columnID in FirstSeen(front);
      FirstSeenMeaning(rows);
      FirstSeenOrder(front, i, j, k);
      var m :| 0 <= m < k && front[m].columnID == FirstSeen(front)[i];
      assert rows[m].columnID == FirstSeen(rows)[i];
    } else {
      assert FirstSeen(front)[i] in FirstSeen(front);
      var m :| 0 <= m < |front| && front[m].columnID == FirstSeen(front)[i];
      assert rows[m].columnID == FirstSeen(rows)[i];
    }
  }

  /** The column has its title and position from the first row of its identifier. */
  ghost predicate FromFirstRow(rows: seq<Row>, column: Column) {
    exists k | 0 <= k < |rows| ::
      && rows[k].columnID == column.id && rows[k].title == column.title && rows[k].position == column.position
      && forall j | 0 <= j < k :: rows[j].columnID != column.id
  }

  /** The first row of an identifier is that: a row with it which none comes before. */
  lemma {:induction false} HeadOfMeaning(rows: seq<Row>, id: string)
    ensures HeadOf(rows, id).Some? ==>
              exists k | 0 <= k < |rows| ::
                && rows[k] == HeadOf(rows, id).value && rows[k].columnID == id
                && forall j | 0 <= j < k :: rows[j].columnID != id
    ensures HeadOf(rows, id).None? ==> forall k | 0 <= k < |rows| :: rows[k].columnID != id
  {
    if rows != [] {
      var front := rows[..|rows| - 1];
      HeadOfMeaning(front, id);
      if HeadOf(front, id).Some? {
        var k :| 0 <= k < |front| && front[k] == HeadOf(front, id).value && front[k].columnID == id
                 && forall j | 0 <= j < k :: front[j].columnID != id;
        assert rows[k] == HeadOf(rows, id).value && forall j | 0 <= j < k :: rows[j].columnID != id;
      } else {
        assert forall j | 0 <= j < |rows| - 1 :: rows[j] == front[j];
      }
    }
  }

  /** Where the cards of a column are among the rows. */
  function CardRows(rows: seq<Row>, id: string): seq<nat> {
    if rows == [] then []
    else
      var n := |rows| - 1;
      CardRows(rows[..n], id) + (if rows[n].columnID == id && rows[n].card.Some? then [n] else [])
  }

  /** `at` are the places of the card rows of a column, in order, and `cards` the cards there. */
  ghost predicate ListsCards(rows: seq<Row>, id: string, at: seq<nat>, cards: seq<CardPart>) {
    && |at| == |cards|
    && (forall i, j | 0 <= i < j < |at| :: at[i] < at[j])
    && (forall i | 0 <= i < |at| :: at[i] < |rows| && rows[at[i]].columnID == id && rows[at[i]].card == Some(cards[i]))
    && (forall k | 0 <= k < |rows| && rows[k].columnID == id && rows[k].card.Some? :: k in at)
  }

  /** A column's cards are those of exactly its card rows, in row order. */
  lemma {:induction false} CardsOfMeaning(rows: seq<Row>, id: string)
    ensures ListsCards(rows, id, CardRows(rows, id), CardsOf(rows, id))
  {
    if rows != [] {
      var n := |rows| - 1;
      CardsOfMeaning(rows[..n], id);
      ListsOneMore(rows[..n], rows[n], id, CardRows(rows[..n], id), CardsOf(rows[..n], id));
      assert rows[..n] + [rows[n]] == rows;
    }
  }

  lemma ListsOneMore(rows: seq<Row>, row: Row, id: string, at: seq<nat>, cards: seq<CardPart>)
    requires ListsCards(rows, id, at, cards)
    ensures if row.columnID == id && row.card.Some?
            then ListsCards(rows + [row], id, at + [|rows|], cards + [row.card.value])
            else ListsCards(rows + [row], id, at + [], cards + [])
  {
    assert at + [] == at && cards + [] == cards;
    assert |rows| in at + [|rows|];
    assert forall k | k in at :: k in at + [|rows|];
  }

  // ---------- the loop ----------

  method Group(rows: seq<Row>) returns (columns: seq<Column>)
    ensures IsGrouping(rows, columns)
    ensures forall i | 0 <= i < |columns| :: FromFirstRow(rows, columns[i])
  {
    hide FromFirstRow, FirstSeen, HeadOf, CardsOf;
    var columnMap: map<string, Column> := map[];
    var columnOrder: seq<string> := [];
    NothingSoFar();
    assert rows[..0] == [];
    for k := 0 to |rows|
      invariant SoFar(rows[..k], columnMap, columnOrder)
    {
      var row := rows[k];
      assert rows[..k + 1] == rows[..k] + [row];
      RowGoesOn(rows[..k], row, columnMap, columnOrder);
      if row.columnID !in columnMap {
        columnMap := columnMap[row.columnID := Column(row.columnID, row.title, row.position, [])];
        columnOrder := columnOrder + [row.columnID];
      }
      if row.card.None? {
        continue;
      }
      var column := columnMap[row.columnID];
      columnMap := columnMap[row.columnID := column.(cards := column.cards + [row.card.value])];
    }
    assert rows[..|rows|] == rows;
    columns := [];
    for i := 0 to |columnOrder|
      invariant |columns| == i
      invariant forall j | 0 <= j < i :: columnOrder[j] in columnMap && columns[j] == columnMap[columnOrder[j]]
    {
      columns := columns + [columnMap[columnOrder[i]]];
    }
    GroupedFromFirstRows(rows, columns);
  }

  lemma GroupedFromFirstRows(rows: seq<Row>, columns: seq<Column>)
    requires IsGrouping(rows, columns)
    ensures forall i | 0 <= i < |columns| :: FromFirstRow(rows, columns[i])
  {
    forall i | 0 <= i < |columns| ensures FromFirstRow(rows, columns[i]) {
      HeadOfMeaning(rows, columns[i].id);
    }
  }

  /** The map and the order after some rows. */
  ghost predicate SoFar(rows: seq<Row>, columnMap: map<string, Column>, columnOrder: seq<string>) {
    && columnOrder == FirstSeen(rows)
    && (forall id :: id in columnMap <==> id in columnOrder)
    && forall id | id in columnMap ::
         && HeadOf(rows, id).Some?
         && columnMap[id] == Column(id, HeadOf(rows, id).value.title, HeadOf(rows, id).value.position, CardsOf(rows, id))
  }

  lemma NothingSoFar()
    ensures SoFar([], map[], [])
  {
  }

  /** One more row: its column is entered if it is new, and its card is put last. */
  lemma RowGoesOn(rows: seq<Row>, row: Row, columnMap: map<string, Column>, columnOrder: seq<string>)
    requires SoFar(rows, columnMap, columnOrder)
    ensures var isNew := row.columnID !in columnMap;
            var entered := if isNew then columnMap[row.columnID := Column(row.columnID, row.title, row.position, [])] else columnMap;
            var column := entered[row.columnID];
            SoFar(rows + [row],
                  if row.card.None? then entered
                  else entered[row.columnID := column.(cards := column.cards + [row.card.value])],
                  if isNew then columnOrder + [row.columnID] else columnOrder)
  {
    assert (rows + [row])[..|rows|] == rows;
    Unseen(rows, row.columnID);
  }

  lemma {:induction false} Unseen(rows: seq<Row>, id: string)
    ensures id !in FirstSeen(rows) ==> CardsOf(rows, id) == [] && HeadOf(rows, id).None?
  {
    if rows != [] {
      Unseen(rows[..|rows| - 1], id);
    }
  }

  // ---------- nothing lost, nothing doubled ----------

  function AllCards(rows: seq<Row>): seq<CardPart> {
    if rows == [] then []
    else
      var last := rows[|rows| - 1];
      AllCards(rows[..|rows| - 1]) + (if last.card.Some? then [last.card.value] else [])
  }

  function Flattened(rows: seq<Row>, ids: seq<string>): multiset<CardPart> {
    if ids == [] then multiset{}
    else Flattened(rows, ids[..|ids| - 1]) + multiset(CardsOf(rows, ids[|ids| - 1]))
  }

  lemma {:induction false} FlattenedGrows(front: seq<Row>, row: Row, ids: seq<string>)
    requires forall i, j | 0 <= i < j < |ids| :: ids[i] != ids[j]
    ensures Flattened(front + [row], ids)
         == Flattened(front, ids)
          + if row.columnID in ids && row.card.Some? then multiset{row.card.value} else multiset{}
    decreases |ids|
  {
    assert (front + [row])[..|front|] == front;
    if ids != [] {
      FlattenedGrows(front, row, ids[..|ids| - 1]);
    }
  }

  lemma FlattenedSnoc(rows: seq<Row>, ids: seq<string>, id: string)
    ensures Flattened(rows, ids + [id]) == Flattened(rows, ids) + multiset(CardsOf(rows, id))
  {
    assert (ids + [id])[..|ids|] == ids;
  }

  lemma {:induction false} EveryCardRowOnce(rows: seq<Row>)
    ensures Flattened(rows, FirstSeen(rows)) == multiset(AllCards(rows))
  {
    hide Flattened;
    if rows == [] {
      FlattenedNothing();
    } else {
      var front, row := rows[..|rows| - 1], rows[|rows| - 1];
      EveryCardRowOnce(front);
      assert rows == front + [row];
      FirstSeenMeaning(front);
      var ids := FirstSeen(front);
      FlattenedGrows(front, row, ids);
      if row.columnID !in ids {
        Unseen(front, row.columnID);
        FlattenedSnoc(rows, ids, row.columnID);
      }
    }
  }

  lemma FlattenedNothing()
    ensures Flattened([], []) == multiset{}
  {
  }

  /** All the cards of the columns. */
  function Held(columns: seq<Column>): multiset<CardPart> {
    if columns == [] then multiset{}
    else Held(columns[..|columns| - 1]) + multiset(columns[|columns| - 1].cards)
  }

  lemma {:induction false} HeldIsFlattened(rows: seq<Row>, columns: seq<Column>, ids: seq<string>)
    requires |columns| == |ids| && forall i | 0 <= i < |ids| :: columns[i].cards == CardsOf(rows, ids[i])
    ensures Held(columns) == Flattened(rows, ids)
    decreases |ids|
  {
    if ids != [] {
      HeldIsFlattened(rows, columns[..|columns| - 1], ids[..|ids| - 1]);
    }
  }

  /** The columns of a grouping hold, all together, exactly the card rows of the join, each once. */
  lemma EveryCardOnce(rows: seq<Row>, columns: seq<Column>)
    requires IsGrouping(rows, columns)
    ensures Held(columns) == multiset(AllCards(rows))
  {
    HeldIsFlattened(rows, columns, FirstSeen(rows));
    EveryCardRowOnce(rows);
  }
}
