/** What the answer to a statement is, row by row and cell by cell, from the table's values. */
module Answers {
  import opened Types
  import opened Bitmap
  import opened Storage
  import opened Relation
  import opened Aggregation
  import opened Sorting
  import opened Ast
  import opened Semantics
  import opened Pushdown
  import opened QueryLaws
  import opened Acceptance
  import opened Floats

  // ----- without aggregates -----

  /** The table's rows that pass WHERE, in the order of ORDER BY, as far as LIMIT lets them through. */
  ghost function LetThrough(rg: RowGroup, stmt: SelectStmt): seq<Row> {
    var rows, names := Filtered(rg, stmt.filter), SchemaOf(rg).names;
    var sorted := if stmt.orderBy.None? then rows
                  else OrderRows(rows, ColIdx(names, stmt.orderBy.value.column), stmt.orderBy.value.ascending);
    if stmt.limit < 0 then sorted else Take(sorted, stmt.limit)
  }

  /** The column ORDER BY sorts the answer by is the table's column of that name. */
  lemma {:induction false} OrderColumn(s: Schema, stmt: SelectStmt)
    requires OrderOk(stmt.items, stmt.orderBy) && stmt.orderBy.Some?
    ensures OrderCol(stmt) < |PlainCols(s, stmt.items)|
    ensures Idxs(s.names, PlainCols(s, stmt.items))[OrderCol(stmt)] == ColIdx(s.names, stmt.orderBy.value.column)
  {
    assert stmt.items[OrderCol(stmt)] == Col(stmt.orderBy.value.column);
  }

  /** A statement without aggregates shows the SELECT columns of the rows let through. */
  lemma {:induction false} MeaningLetThrough(ar: Arith, rg: RowGroup, stmt: SelectStmt)
    requires WellFormed(SchemaOf(rg), stmt) && !HasAgg(stmt.items)
    ensures var s := SchemaOf(rg);
            Meaning(ar, rg, stmt) == ProjectRows(Idxs(s.names, PlainCols(s, stmt.items)), LetThrough(rg, stmt))
  {
    hide Filtered, ProjectRow, OrderRows, Index, PlainCols, WhereOk, HasAgg;
    var s, rows := SchemaOf(rg), Filtered(rg, stmt.filter);
    if stmt.orderBy.Some? {
      OrderColumn(s, stmt);
      OrderProject(Idxs(s.names, PlainCols(s, stmt.items)), OrderCol(stmt), stmt.orderBy.value.ascending, rows);
    }
  }

  /** Projected rows, cell by cell. */
  lemma ProjectedCells(cols: seq<nat>, rows: seq<Row>)
    ensures |ProjectRows(cols, rows)| == |rows|
    ensures forall g :: 0 <= g < |rows| ==> |ProjectRows(cols, rows)[g]| == |cols|
    ensures forall g, i :: 0 <= g < |rows| && 0 <= i < |cols| ==>
        ProjectRows(cols, rows)[g][i] == CellOf(rows[g], cols[i])
  {}

  /**
   * A statement without aggregates answers with one row for each row let through, and in it with
   * one cell for each item: the cell of the table's first column with the item's name.
   */
  lemma {:induction false} PlainAnswers(ar: Arith, rg: RowGroup, stmt: SelectStmt)
    requires WellFormed(SchemaOf(rg), stmt) && !HasAgg(stmt.items) && stmt.items != [Star]
    ensures var rows, ans := LetThrough(rg, stmt), Meaning(ar, rg, stmt);
            && |ans| == |rows| && (forall g :: 0 <= g < |ans| ==> |ans[g]| == |stmt.items|)
            && (forall i :: 0 <= i < |stmt.items| ==> stmt.items[i].Col?)
            && forall i: nat, k: nat :: i < |stmt.items| && FirstColumn(rg, stmt.items[i].name, k) ==>
                 forall g :: 0 <= g < |ans| ==> ans[g][i] == CellOf(rows[g], k)
  {
    hide ProjectRow, ProjectRows, LetThrough, Meaning, HasAgg, FirstColumn, SchemaOf;
    var cols := PlainCols(SchemaOf(rg), stmt.items);
    MeaningLetThrough(ar, rg, stmt);
    ProjectedCells(Idxs(SchemaOf(rg).names, cols), LetThrough(rg, stmt));
    forall i: nat, k: nat | i < |stmt.items| && FirstColumn(rg, stmt.items[i].name, k)
      ensures Idxs(SchemaOf(rg).names, cols)[i] == k
    {
      FirstColumnAt(rg, stmt.items[i].name, k);
    }
  }

  /**
   * SELECT * answers with one row for each row let through, and in it with one cell for each column
   * of the table, that of the first column of the same name. Without repeated names these are the
   * rows as they are.
   */
  lemma {:induction false} StarAnswers(ar: Arith, rg: RowGroup, stmt: SelectStmt)
    requires GroupOk(rg) && WellFormed(SchemaOf(rg), stmt) && stmt.items == [Star]
    ensures var rows, ans := Filtered(rg, stmt.filter), Meaning(ar, rg, stmt);
            && |ans| == (if 0 <= stmt.limit < |rows| then stmt.limit else |rows|)
            && (forall g :: 0 <= g < |ans| ==> |ans[g]| == |rows[g]| == |rg.columns|)
            && (forall i: nat, k: nat :: i < |rg.columns| && FirstColumn(rg, rg.columns[i].name, k) ==>
                  forall g :: 0 <= g < |ans| ==> ans[g][i] == rows[g][k])
            && ((forall i, j :: 0 <= i < j < |rg.columns| ==> rg.columns[i].name != rg.columns[j].name) ==>
                  ans == rows[..|ans|])
  {
    hide ProjectRow, ProjectRows, Meaning, HasAgg, FirstColumn, SchemaOf, Filtered, GroupOk, FromTable;
    var names, rows := SchemaOf(rg).names, Filtered(rg, stmt.filter);
    StarUnordered(SchemaOf(rg), stmt);
    MeaningLetThrough(ar, rg, stmt);
    var let := LetThrough(rg, stmt);
    ProjectedCells(Idxs(names, names), let);
    RowsWide(rg, stmt.filter);
    forall i: nat, k: nat | i < |rg.columns| && FirstColumn(rg, rg.columns[i].name, k)
      ensures Idxs(names, names)[i] == k
    {
      FirstColumnAt(rg, rg.columns[i].name, k);
      NameAt(rg, i);
    }
    if forall i, j :: 0 <= i < j < |rg.columns| ==> rg.columns[i].name != rg.columns[j].name {
      forall g | 0 <= g < |let|
        ensures Meaning(ar, rg, stmt)[g] == rows[g]
      {
        forall i | 0 <= i < |rg.columns|
          ensures Meaning(ar, rg, stmt)[g][i] == rows[g][i]
        {
          OnlyColumn(rg, i);
        }
      }
    }
  }

  lemma NameAt(rg: RowGroup, i: nat)
    requires i < |rg.columns|
    ensures SchemaOf(rg).names[i] == rg.columns[i].name
  {}

  lemma OnlyColumn(rg: RowGroup, i: nat)
    requires i < |rg.columns|
    requires forall i, j :: 0 <= i < j < |rg.columns| ==> rg.columns[i].name != rg.columns[j].name
    ensures FirstColumn(rg, rg.columns[i].name, i)
  {}

  /** A lone * names no column ORDER BY could find, and it is no aggregate. */
  lemma StarUnordered(s: Schema, stmt: SelectStmt)
    requires |s.names| == |s.types| && WellFormed(s, stmt) && stmt.items == [Star]
    ensures stmt.orderBy.None? && !HasAgg(stmt.items)
  {}

  lemma {:induction false} RowsWide(rg: RowGroup, w: Option<Where>)
    ensures forall g :: 0 <= g < |Filtered(rg, w)| ==> |Filtered(rg, w)[g]| == |rg.columns|
  {
    hide Filtered, FilterRows;
    GroupsFromTable(rg, w, [], []);
  }

  lemma ChunkCellIs(c: Chunk, g: nat)
    requires ChunkOk(c) && g < |c.vals|
    ensures g < |Bits(c.nulls)| && ChunkCell(c, g) == if Bits(c.nulls)[g] then Null else Val(c.vals[g])
  {}

  /** Cell i of row g of a table: NULL when the null bit is set, else value g of column i. */
  ghost predicate HoldsCell(rg: RowGroup, g: nat, i: nat, c: Cell) {
    && i < |rg.columns| && g < |rg.columns[i].vals| && g < |Bits(rg.columns[i].nulls)|
    && c == if Bits(rg.columns[i].nulls)[g] then Null else Val(rg.columns[i].vals[g])
  }

  /** Without WHERE every row of the table stays, with all its cells. */
  lemma {:induction false} AllRows(rg: RowGroup)
    requires GroupOk(rg)
    ensures var rows := Filtered(rg, None);
            && |rows| == rg.rowCount
            && forall g: nat, i: nat :: g < rg.rowCount && i < |rg.columns| ==>
                 |rows[g]| == |rg.columns| && HoldsCell(rg, g, i, rows[g][i])
  {
    hide ChunkCell;
    forall g: nat, i: nat | g < rg.rowCount && i < |rg.columns|
      ensures |Filtered(rg, None)[g]| == |rg.columns| && HoldsCell(rg, g, i, Filtered(rg, None)[g][i])
    {
      ChunkCellIs(rg.columns[i], g);
    }
  }

  // ----- with aggregates -----

  /** Each item's cell for a group: its aggregate, the group's size, or the key column's cell. */
  ghost predicate ShowsItems(ar: Arith, rg: RowGroup, items: seq<SelectItem>, group: seq<Row>, row: Row) {
    && |row| == |items|
    && (forall i :: 0 <= i < |items| && items[i].Agg? && items[i].arg != STAR ==>
          row[i] == Shown(ar, rg, items[i].fn, items[i].arg, group))
    && (forall i :: 0 <= i < |items| && items[i] == Agg(CountFn, STAR) && |group| < 0x8000_0000_0000_0000 ==>
          row[i] == Val(SInt(|group|)))
    && (forall i: nat, k: nat :: i < |items| && items[i].Col? && FirstColumn(rg, items[i].name, k) && group != [] ==>
          row[i] == CellOf(group[0], k))
  }

  lemma {:induction false} ItemsShown(ar: Arith, rg: RowGroup, items: seq<SelectItem>, groupBy: seq<Text>,
                                      group: seq<Row>)
    ensures var s := SchemaOf(rg);
            ShowsItems(ar, rg, items, group, OutRow(ar, s, ReadItems(s, items, groupBy), group))
  {
    hide FirstColumn, ColIdx, Aggregate, SchemaOf;
    var s := SchemaOf(rg);
    forall i: nat, k: nat | i < |items| && items[i].Col? && FirstColumn(rg, items[i].name, k)
      ensures ColIdx(s.names, items[i].name) == k
    {
      FirstColumnAt(rg, items[i].name, k);
    }
    if |group| < 0x8000_0000_0000_0000 {
      CountItem(ar, rg, STAR, group);
    }
  }

  /** Without GROUP BY an aggregate statement shows one row, for all rows that pass WHERE. */
  lemma {:induction false} ScalarAnswers(ar: Arith, rg: RowGroup, stmt: SelectStmt)
    requires WellFormed(SchemaOf(rg), stmt) && HasAgg(stmt.items) && stmt.groupBy == []
    ensures |Meaning(ar, rg, stmt)| == if stmt.limit == 0 then 0 else 1
    ensures stmt.limit != 0 ==>
        ShowsItems(ar, rg, stmt.items, Filtered(rg, stmt.filter), Meaning(ar, rg, stmt)[0])
  {
    hide Filtered, ShowsItems, OutRow, WhereOk;
    ItemsShown(ar, rg, stmt.items, stmt.groupBy, Filtered(rg, stmt.filter));
    ScalarUnordered(SchemaOf(rg), stmt);
  }

  /** Without a grouping column no item is plain, so ORDER BY has none to name. */
  lemma ScalarUnordered(s: Schema, stmt: SelectStmt)
    requires |s.names| == |s.types| && WellFormed(s, stmt) && HasAgg(stmt.items) && stmt.groupBy == []
    ensures stmt.orderBy.None?
  {
    forall k | 0 <= k < |stmt.items|
      ensures !stmt.items[k].Col?
    {
      assert AggItemOk(s, stmt.groupBy, stmt.items[k]);
    }
  }

  /**
   * With GROUP BY it shows, before ORDER BY and LIMIT, one row for each key in first-seen order,
   * for the rows that pass WHERE and have that key.
   */
  lemma {:induction false} GroupAnswers(ar: Arith, rg: RowGroup, stmt: SelectStmt)
    requires WellFormed(SchemaOf(rg), stmt) && HasAgg(stmt.items) && stmt.groupBy != []
    ensures var rows, kc := Filtered(rg, stmt.filter), Idxs(SchemaOf(rg).names, stmt.groupBy);
            && |Body(ar, rg, stmt)| == |Keys(rows, kc)|
            && forall g :: 0 <= g < |Keys(rows, kc)| ==>
                 && Bucket(rows, kc, Keys(rows, kc)[g]) != []
                 && ShowsItems(ar, rg, stmt.items, Bucket(rows, kc, Keys(rows, kc)[g]), Body(ar, rg, stmt)[g])
  {
    hide Filtered, ShowsItems, OutRow, WhereOk, Keys, Bucket;
    var rows, kc := Filtered(rg, stmt.filter), Idxs(SchemaOf(rg).names, stmt.groupBy);
    forall g | 0 <= g < |Keys(rows, kc)|
      ensures Bucket(rows, kc, Keys(rows, kc)[g]) != []
      ensures ShowsItems(ar, rg, stmt.items, Bucket(rows, kc, Keys(rows, kc)[g]), Body(ar, rg, stmt)[g])
    {
      EmptyBucket(rows, kc, Keys(rows, kc)[g]);
      ItemsShown(ar, rg, stmt.items, stmt.groupBy, Bucket(rows, kc, Keys(rows, kc)[g]));
    }
  }

  // ----- ORDER BY -----

  /**
   * ORDER BY sorts the rows, grouped or not, by the first item that is the named column: without a
   * LIMIT the answer is a rearrangement of them, with one the beginning of that, and either is in order.
   */
  lemma {:induction false} OrderedAnswers(ar: Arith, rg: RowGroup, stmt: SelectStmt, k: nat)
    requires WellFormed(SchemaOf(rg), stmt) && Supported(ar, rg, stmt) && stmt.orderBy.Some?
    requires k < |stmt.items| && stmt.items[k] == Col(stmt.orderBy.value.column)
    requires forall j :: 0 <= j < k ==> stmt.items[j] != stmt.items[k]
    ensures var all, n := Meaning(ar, rg, stmt.(limit := -1)), stmt.limit;
            && multiset(all) == multiset(Body(ar, rg, stmt)) && InOrder(all, k, stmt.orderBy.value.ascending)
            && Meaning(ar, rg, stmt) == if 0 <= n < |all| then all[..n] else all
  {
    hide Body, Supported, WellFormed, OrderCol, OrderRows, TypeAt, AllSortable, InOrder;
    OrderSupported(ar, rg, stmt);
    OrderItem(stmt, k);
    Unlimited(ar, rg, stmt);
    var rows, asc := Body(ar, rg, stmt), stmt.orderBy.value.ascending;
    var perm := OrderBySorts(rows, k, asc, TypeAt(SchemaOf(rg), stmt.orderBy.value.column));
    OrderRowsPermutes(rows, k, asc);
  }

  lemma OrderItem(stmt: SelectStmt, k: nat)
    requires OrderOk(stmt.items, stmt.orderBy) && stmt.orderBy.Some?
    requires k < |stmt.items| && stmt.items[k] == Col(stmt.orderBy.value.column)
    requires forall j :: 0 <= j < k ==> stmt.items[j] != stmt.items[k]
    ensures OrderCol(stmt) == k
  {}

  // ----- which answers are described -----

  /** The cells of the column a statement sorts by have that column's type. */
  lemma {:induction false} SortKeysFit(ar: Arith, rg: RowGroup, stmt: SelectStmt)
    requires GroupOk(rg) && WellFormed(SchemaOf(rg), stmt) && stmt.orderBy.Some?
    ensures var keys := Column(Body(ar, rg, stmt), OrderCol(stmt));
            forall g :: 0 <= g < |keys| ==> CellFits(keys[g], TypeAt(SchemaOf(rg), stmt.orderBy.value.column))
  {
    hide Filtered, Keys, Bucket, TypeAt, ColIdx, GroupOk, WhereOk, AggItemOk, KeyTypeOk, Index, FromTable, ProjectRow;
    hide ReadItems, HasAgg;
    var s, col := SchemaOf(rg), stmt.orderBy.value.column;
    var rows, keys := Filtered(rg, stmt.filter), Column(Body(ar, rg, stmt), OrderCol(stmt));
    SortColumnNamed(s, stmt);
    forall g | 0 <= g < |keys|
      ensures CellFits(keys[g], TypeAt(s, col))
    {
      if HasAgg(stmt.items) {
        GroupKeyFits(ar, rg, stmt, g);
      } else {
        OrderColumn(s, stmt);
        ProjectedCells(Idxs(s.names, PlainCols(s, stmt.items)), rows);
        GroupsFromTable(rg, stmt.filter, [], []);
        ColumnFits(rg, col, rows);
        assert Column(rows, ColIdx(s.names, col))[g] == keys[g];
      }
    }
  }

  lemma SortColumnNamed(s: Schema, stmt: SelectStmt)
    requires |s.names| == |s.types| && WellFormed(s, stmt) && stmt.orderBy.Some?
    ensures OrderCol(stmt) < |stmt.items| && stmt.items[OrderCol(stmt)] == Col(stmt.orderBy.value.column)
    ensures stmt.orderBy.value.column in s.names && (HasAgg(stmt.items) ==> stmt.groupBy != [])
  {
    hide PredOf, FnOf;
    var i := OrderCol(stmt);
    assert HasAgg(stmt.items) ==> AggItemOk(s, stmt.groupBy, stmt.items[i]);
  }

  lemma {:induction false} GroupKeyFits(ar: Arith, rg: RowGroup, stmt: SelectStmt, g: nat)
    requires GroupOk(rg) && WellFormed(SchemaOf(rg), stmt) && stmt.orderBy.Some? && HasAgg(stmt.items)
    requires g < |Body(ar, rg, stmt)|
    ensures CellFits(CellOf(Body(ar, rg, stmt)[g], OrderCol(stmt)), TypeAt(SchemaOf(rg), stmt.orderBy.value.column))
  {
    hide Filtered, Keys, Bucket, TypeAt, ColIdx, GroupOk, WhereOk, AggItemsOk, Index, FromTable, HasAgg;
    hide FnOf, Aggregate, FirstScanned, OrderCol;
    var s, col, i := SchemaOf(rg), stmt.orderBy.value.column, OrderCol(stmt);
    SortColumnNamed(s, stmt);
    var kc := Idxs(s.names, stmt.groupBy);
    var group := Bucket(Filtered(rg, stmt.filter), kc, Keys(Filtered(rg, stmt.filter), kc)[g]);
    GroupsFromTable(rg, stmt.filter, kc, Keys(Filtered(rg, stmt.filter), kc)[g]);
    ColumnFits(rg, col, group);
    assert ReadItems(s, stmt.items, stmt.groupBy)[i] == Col(col);
    if group != [] {
      assert Column(group, ColIdx(s.names, col))[0] == CellOf(group[0], ColIdx(s.names, col));
    }
  }

  /** No row holds a Bool value. */
  ghost predicate NoBool(rows: seq<Row>) {
    forall g, i :: 0 <= g < |rows| && 0 <= i < |rows[g]| ==> !HoldsBool(rows[g][i])
  }

  predicate HoldsBool(c: Cell) {
    c.Val? && c.v.SBool?
  }

  predicate HoldsNaN(c: Cell) {
    c.Val? && c.v.SFloat? && NotANumber(c.v.bits)
  }

  /**
   * The answers described: with at most 2^31 keys, an Int64 column where a star is summed, compared
   * or averaged, and under ORDER BY no Bool value in the rows and no NaN in the column sorted by.
   */
  lemma {:induction false} SupportedIff(ar: Arith, rg: RowGroup, stmt: SelectStmt)
    requires GroupOk(rg) && WellFormed(SchemaOf(rg), stmt)
    ensures Supported(ar, rg, stmt)
            <==> && |Keys(Filtered(rg, stmt.filter), Idxs(SchemaOf(rg).names, stmt.groupBy))| <= 0x8000_0000
                 && (forall i :: 0 <= i < |stmt.items| && TakesStar(stmt.items[i]) ==>
                       TypeAt(SchemaOf(rg), FirstScanned(SchemaOf(rg), stmt.items, stmt.groupBy)) == TInt64)
                 && (stmt.orderBy.Some? ==>
                       && NoBool(Body(ar, rg, stmt))
                       && var keys := Column(Body(ar, rg, stmt), OrderCol(stmt));
                          forall g :: 0 <= g < |keys| ==> !HoldsNaN(keys[g]))
  {
    hide Filtered, Keys, TypeAt, GroupOk, WhereOk, AggItemsOk, PlainItemsOk, HasAgg, FirstScanned, Body, OrderCol;
    assert "*" == STAR;
    if stmt.orderBy.Some? {
      SortKeysFit(ar, rg, stmt);
      KeysSortable(Body(ar, rg, stmt), OrderCol(stmt), TypeAt(SchemaOf(rg), stmt.orderBy.value.column));
    }
  }

  lemma {:induction false} KeysSortable(rows: seq<Row>, col: nat, t: ColType)
    requires forall g :: 0 <= g < |rows| ==> CellFits(Column(rows, col)[g], t)
    ensures Storable(rows) && AllSortable(Column(rows, col), t)
            <==> NoBool(rows) && forall g :: 0 <= g < |rows| ==> !HoldsNaN(Column(rows, col)[g])
  {
    assert Storable(rows) <==> NoBool(rows);
    forall g | 0 <= g < |rows|
      ensures NoBool(rows) ==> (Sortable(Column(rows, col)[g], t) <==> !HoldsNaN(Column(rows, col)[g]))
    {
      var c := Column(rows, col)[g];
      if c.Val? && c.v.SFloat? {
        NaNPatterns(c.v.bits);
      }
      assert NoBool(rows) && col < |rows[g]| ==> !HoldsBool(rows[g][col]);
    }
  }
}
