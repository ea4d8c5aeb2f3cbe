/** Where the engine's answer is not the one SQL asks for: which statements, over which tables, and exactly when. */
module Deviations {
  import opened Types
  import opened Bitmap
  import opened Storage
  import opened Relation
  import opened Aggregation
  import opened Sorting
  import opened Ast
  import opened Semantics
  import opened Pushdown
  import opened QueryLaws
  import opened Answers
  import opened Acceptance
  import opened SelectLists
  import opened DistinctRows
  import AggregateLaws

  // ----- GROUP BY without an aggregate -----

  /** A SELECT list of grouping columns, any of them in any order. */
  predicate PlainOver(items: seq<SelectItem>, groupBy: seq<Text>) {
    forall i :: 0 <= i < |items| ==> items[i].Col? && items[i].name in groupBy
  }

  /** What GROUP BY asks for: one row a distinct key, then ORDER BY and LIMIT. */
  ghost function GroupedMeaning(ar: Arith, rg: RowGroup, stmt: SelectStmt): seq<Row>
    requires OrderOk(stmt.items, stmt.orderBy)
  {
    var s := SchemaOf(rg);
    var rows := GroupedRows(ar, s, stmt.items, Idxs(s.names, stmt.groupBy), Filtered(rg, stmt.filter));
    var sorted := if stmt.orderBy.None? then rows else OrderRows(rows, OrderCol(stmt), stmt.orderBy.value.ascending);
    if stmt.limit < 0 then sorted else Take(sorted, stmt.limit)
  }

  /** No two rows share their key. */
  ghost predicate KeysDiffer(rows: seq<Row>, kc: seq<nat>) {
    forall i, j :: 0 <= i < j < |rows| ==> ProjectRow(kc, rows[i]) != ProjectRow(kc, rows[j])
  }

  /** There are as many keys as rows only when each row brings a new one. */
  lemma {:induction false} AllKeysNew(rows: seq<Row>, kc: seq<nat>)
    ensures |Keys(rows, kc)| <= |rows|
    ensures |Keys(rows, kc)| == |rows| ==> Keys(rows, kc) == ProjectRows(kc, rows)
  {
    if rows != [] {
      AllKeysNew(rows[..|rows| - 1], kc);
    }
  }

  /** Rows with one key show the same cells. */
  lemma {:induction false} ShownByKey(names: seq<Text>, items: seq<SelectItem>, groupBy: seq<Text>, i: nat,
                                      a: Row, b: Row)
    requires PlainOver(items, groupBy) && i < |items|
    requires ProjectRow(Idxs(names, groupBy), a) == ProjectRow(Idxs(names, groupBy), b)
    ensures items[i].Col? && CellOf(a, ColIdx(names, items[i].name)) == CellOf(b, ColIdx(names, items[i].name))
  {
    var kc := Idxs(names, groupBy);
    var k :| 0 <= k < |groupBy| && groupBy[k] == items[i].name;
    assert ProjectRow(kc, a)[k] == ProjectRow(kc, b)[k];
  }

  /** A group shows the cells of any row with its key. */
  lemma {:induction false} GroupShows(ar: Arith, s: Schema, items: seq<SelectItem>, groupBy: seq<Text>,
                                      rows: seq<Row>, g: nat, r: Row)
    requires |s.names| == |s.types| && PlainOver(items, groupBy) && items != [Star]
    requires g < |Keys(rows, Idxs(s.names, groupBy))|
    requires ProjectRow(Idxs(s.names, groupBy), r) == Keys(rows, Idxs(s.names, groupBy))[g]
    ensures GroupedRows(ar, s, items, Idxs(s.names, groupBy), rows)[g]
            == ProjectRow(Idxs(s.names, PlainCols(s, items)), r)
  {
    hide Keys, Bucket, ProjectRow, PlainOver;
    var kc := Idxs(s.names, groupBy);
    var key := Keys(rows, kc)[g];
    EmptyBucket(rows, kc, key);
    BucketKey(rows, kc, key);
    var group := Bucket(rows, kc, key);
    forall i | 0 <= i < |items|
      ensures ItemCell(ar, s, items[i], group) == CellOf(r, Idxs(s.names, PlainCols(s, items))[i])
    {
      ShownByKey(s.names, items, groupBy, i, group[0], r);
    }
    ProjectRowIs(Idxs(s.names, PlainCols(s, items)), r);
  }

  lemma ProjectRowIs(cols: seq<nat>, r: Row)
    ensures |ProjectRow(cols, r)| == |cols|
    ensures forall i :: 0 <= i < |cols| ==> ProjectRow(cols, r)[i] == CellOf(r, cols[i])
  {}

  /** Grouping rows that share no key lists the rows themselves. */
  lemma {:induction false} GroupsAreRows(ar: Arith, rg: RowGroup, items: seq<SelectItem>, groupBy: seq<Text>,
                                         rows: seq<Row>)
    requires PlainOver(items, groupBy) && KeysDiffer(rows, Idxs(SchemaOf(rg).names, groupBy))
    ensures var s := SchemaOf(rg);
            GroupedRows(ar, s, items, Idxs(s.names, groupBy), rows)
            == ProjectRows(Idxs(s.names, PlainCols(s, items)), rows)
  {
    var s := SchemaOf(rg);
    var kc := Idxs(s.names, groupBy);
    AggregateLaws.KeysAreRows(rows, kc);
    NoStar(items, groupBy);
    forall g | 0 <= g < |rows|
      ensures GroupedRows(ar, s, items, kc, rows)[g] == ProjectRow(Idxs(s.names, PlainCols(s, items)), rows[g])
    {
      GroupShows(ar, s, items, groupBy, rows, g, rows[g]);
    }
  }

  lemma NoStar(items: seq<SelectItem>, groupBy: seq<Text>)
    requires PlainOver(items, groupBy)
    ensures items != [Star]
  {
    if |items| == 1 {
      assert items[0].Col?;
    }
  }

  /** Every grouping column is in the SELECT list. */
  predicate AllListed(items: seq<SelectItem>, groupBy: seq<Text>) {
    forall k :: 0 <= k < |groupBy| ==> Col(groupBy[k]) in items
  }

  /** When every grouping column is shown, rows share their key exactly when they are shown alike. */
  lemma {:induction false} SameKey(s: Schema, items: seq<SelectItem>, groupBy: seq<Text>, a: Row, b: Row)
    requires PlainOver(items, groupBy) && AllListed(items, groupBy)
    ensures ProjectRow(Idxs(s.names, groupBy), a) == ProjectRow(Idxs(s.names, groupBy), b)
            <==> ProjectRow(Idxs(s.names, PlainCols(s, items)), a) == ProjectRow(Idxs(s.names, PlainCols(s, items)), b)
  {
    hide PlainOver, AllListed, ProjectRow;
    var kc, pc := Idxs(s.names, groupBy), Idxs(s.names, PlainCols(s, items));
    NoStar(items, groupBy);
    if ProjectRow(kc, a) == ProjectRow(kc, b) {
      forall i | 0 <= i < |items|
        ensures CellOf(a, pc[i]) == CellOf(b, pc[i])
      {
        ShownByKey(s.names, items, groupBy, i, a, b);
      }
      SameProjection(pc, a, b);
    }
    if ProjectRow(pc, a) == ProjectRow(pc, b) {
      forall k | 0 <= k < |groupBy|
        ensures CellOf(a, kc[k]) == CellOf(b, kc[k])
      {
        KeyByShown(s, items, groupBy, k, a, b);
      }
      SameProjection(kc, a, b);
    }
  }

  lemma SameProjection(cols: seq<nat>, a: Row, b: Row)
    requires forall i :: 0 <= i < |cols| ==> CellOf(a, cols[i]) == CellOf(b, cols[i])
    ensures ProjectRow(cols, a) == ProjectRow(cols, b)
  {}

  /** Rows shown alike agree in every grouping column that is listed. */
  lemma {:induction false} KeyByShown(s: Schema, items: seq<SelectItem>, groupBy: seq<Text>, k: nat, a: Row, b: Row)
    requires AllListed(items, groupBy) && items != [Star] && k < |groupBy|
    requires ProjectRow(Idxs(s.names, PlainCols(s, items)), a) == ProjectRow(Idxs(s.names, PlainCols(s, items)), b)
    ensures CellOf(a, Idxs(s.names, groupBy)[k]) == CellOf(b, Idxs(s.names, groupBy)[k])
  {
    var pc := Idxs(s.names, PlainCols(s, items));
    var i :| 0 <= i < |items| && items[i] == Col(groupBy[k]);
    assert ProjectRow(pc, a)[i] == ProjectRow(pc, b)[i];
  }

  /** The key and the shown row of each group come from one row of the table. */
  lemma {:induction false} Corresponding(s: Schema, items: seq<SelectItem>, groupBy: seq<Text>, rows: seq<Row>)
    returns (from: seq<nat>)
    requires PlainOver(items, groupBy) && AllListed(items, groupBy)
    ensures var kc, pc := Idxs(s.names, groupBy), Idxs(s.names, PlainCols(s, items));
            && |from| == |Keys(rows, kc)| == |Keys(rows, pc)|
            && forall g :: 0 <= g < |from| ==>
                 from[g] < |rows| && Keys(rows, kc)[g] == ProjectRow(kc, rows[from[g]])
                 && Keys(rows, pc)[g] == ProjectRow(pc, rows[from[g]])
  {
    hide PlainOver, AllListed, ProjectRow;
    var kc, pc := Idxs(s.names, groupBy), Idxs(s.names, PlainCols(s, items));
    if rows == [] {
      from := [];
    } else {
      var n := |rows| - 1;
      from := Corresponding(s, items, groupBy, rows[..n]);
      forall g | 0 <= g < |from|
        ensures Keys(rows[..n], kc)[g] == ProjectRow(kc, rows[n]) <==> Keys(rows[..n], pc)[g] == ProjectRow(pc, rows[n])
      {
        SameKey(s, items, groupBy, rows[from[g]], rows[n]);
      }
      if ProjectRow(kc, rows[n]) !in Keys(rows[..n], kc) {
        from := from + [n];
      }
    }
  }

  /** When every grouping column is shown, the groups are the shown rows, each once. */
  lemma {:induction false} GroupsDistinct(ar: Arith, s: Schema, items: seq<SelectItem>, groupBy: seq<Text>,
                                          rows: seq<Row>)
    requires |s.names| == |s.types| && PlainOver(items, groupBy) && AllListed(items, groupBy)
    ensures GroupedRows(ar, s, items, Idxs(s.names, groupBy), rows)
            == Distinct(ProjectRows(Idxs(s.names, PlainCols(s, items)), rows))
  {
    hide PlainOver, AllListed, ProjectRow, Keys, Distinct, OutRow;
    var pc := Idxs(s.names, PlainCols(s, items));
    var from := Corresponding(s, items, groupBy, rows);
    NoStar(items, groupBy);
    KeysDistinctRows(rows, pc);
    forall g | 0 <= g < |from|
      ensures GroupedRows(ar, s, items, Idxs(s.names, groupBy), rows)[g] == Keys(rows, pc)[g]
    {
      GroupShows(ar, s, items, groupBy, rows, g, rows[from[g]]);
    }
  }

  /** The ORDER BY column of the rows that pass WHERE holds no NaN and no Bool value. */
  ghost predicate Orderable(rg: RowGroup, stmt: SelectStmt) {
    stmt.orderBy.Some? ==>
      var s, col := SchemaOf(rg), stmt.orderBy.value.column;
      AllSortable(Column(Filtered(rg, stmt.filter), ColIdx(s.names, col)), TypeAt(s, col))
  }

  /**
   * Whatever its ORDER BY and LIMIT, a statement that lists all its grouping columns is answered as
   * GROUP BY asks exactly when the answer has no row twice.
   */
  lemma {:induction false} RightWithoutRepeats(ar: Arith, rg: RowGroup, stmt: SelectStmt)
    requires WellFormed(SchemaOf(rg), stmt) && Orderable(rg, stmt)
    requires PlainOver(stmt.items, stmt.groupBy) && AllListed(stmt.items, stmt.groupBy)
    ensures Meaning(ar, rg, stmt) == GroupedMeaning(ar, rg, stmt) <==> NoRepeats(Meaning(ar, rg, stmt))
  {
    hide Filtered, Keys, ProjectRow, GroupedRows, OrderRows, Distinct, NoRepeats, PlainOver, AllListed, Column;
    var s, rows := SchemaOf(rg), Filtered(rg, stmt.filter);
    NoAggregate(stmt.items, stmt.groupBy);
    var shown := Body(ar, rg, stmt);
    GroupsDistinct(ar, s, stmt.items, stmt.groupBy, rows);
    var ordered := Semantics.Ordered(ar, rg, stmt);
    if stmt.orderBy.Some? {
      var col := OrderCol(stmt);
      OrderColumn(s, stmt);
      ColumnProject(Idxs(s.names, PlainCols(s, stmt.items)), col, rows);
      DistinctOrder(shown, col, stmt.orderBy.value.ascending, TypeAt(s, stmt.orderBy.value.column));
    }
    DistinctFacts(ordered);
    TakeDistinct(ordered, if stmt.limit < 0 then |ordered| else stmt.limit);
  }

  /** Shown with every grouping column, rows repeat exactly when they share a key. */
  lemma {:induction false} RepeatsAreKeys(s: Schema, items: seq<SelectItem>, groupBy: seq<Text>, rows: seq<Row>)
    requires PlainOver(items, groupBy) && AllListed(items, groupBy)
    ensures NoRepeats(ProjectRows(Idxs(s.names, PlainCols(s, items)), rows))
            <==> KeysDiffer(rows, Idxs(s.names, groupBy))
  {
    hide PlainOver, AllListed, ProjectRow;
    var kc, shown := Idxs(s.names, groupBy), ProjectRows(Idxs(s.names, PlainCols(s, items)), rows);
    forall i, j | 0 <= i < j < |rows|
      ensures ProjectRow(kc, rows[i]) == ProjectRow(kc, rows[j]) <==> shown[i] == shown[j]
    {
      SameKey(s, items, groupBy, rows[i], rows[j]);
    }
  }

  lemma OrderRowsLength(rows: seq<Row>, col: nat, asc: bool)
    ensures |OrderRows(rows, col, asc)| == |rows|
  {
    SortPermPermutes(LessOf(Column(rows, col), asc), |rows|);
  }

  /**
   * GROUP BY without an aggregate is not carried out. A statement that asks for grouping columns
   * only is answered as it should be when no two rows that pass WHERE share their key, and without
   * a LIMIT only then. One that lists all its grouping columns is answered as it should be exactly
   * when no two of the rows that its ORDER BY and LIMIT let through share their key.
   */
  lemma {:induction false} GroupByWithoutAggregate(ar: Arith, rg: RowGroup, stmt: SelectStmt)
    requires WellFormed(SchemaOf(rg), stmt) && PlainOver(stmt.items, stmt.groupBy)
    ensures var rows, kc := Filtered(rg, stmt.filter), Idxs(SchemaOf(rg).names, stmt.groupBy);
            var grouped := Meaning(ar, rg, stmt) == GroupedMeaning(ar, rg, stmt);
            && (KeysDiffer(rows, kc) ==> grouped)
            && (stmt.limit < 0 ==> (grouped <==> KeysDiffer(rows, kc)))
            && (AllListed(stmt.items, stmt.groupBy) && Orderable(rg, stmt) ==>
                  (grouped <==> KeysDiffer(LetThrough(rg, stmt), kc)))
  {
    hide Filtered, Keys, KeysDiffer, ProjectRow, OrderRows, Bucket, LetThrough, Orderable, NoRepeats, AllListed;
    var s := SchemaOf(rg);
    var rows, kc := Filtered(rg, stmt.filter), Idxs(s.names, stmt.groupBy);
    NoAggregate(stmt.items, stmt.groupBy);
    if KeysDiffer(rows, kc) {
      GroupsAreRows(ar, rg, stmt.items, stmt.groupBy, rows);
    }
    if stmt.limit < 0 && Meaning(ar, rg, stmt) == GroupedMeaning(ar, rg, stmt) {
      if stmt.orderBy.Some? {
        var col, asc := OrderCol(stmt), stmt.orderBy.value.ascending;
        OrderRowsLength(Body(ar, rg, stmt), col, asc);
        OrderRowsLength(GroupedRows(ar, s, stmt.items, kc, rows), col, asc);
      }
      AsManyKeys(rows, kc);
    }
    if AllListed(stmt.items, stmt.groupBy) && Orderable(rg, stmt) {
      RightWithoutRepeats(ar, rg, stmt);
      MeaningLetThrough(ar, rg, stmt);
      RepeatsAreKeys(s, stmt.items, stmt.groupBy, LetThrough(rg, stmt));
    }
  }

  lemma NoAggregate(items: seq<SelectItem>, groupBy: seq<Text>)
    requires PlainOver(items, groupBy)
    ensures !HasAgg(items)
  {}

  lemma {:induction false} AsManyKeys(rows: seq<Row>, kc: seq<nat>)
    requires |Keys(rows, kc)| == |rows|
    ensures KeysDiffer(rows, kc)
  {
    AllKeysNew(rows, kc);
    AggregateLaws.KeysAreRows(rows, kc);
  }

  /** The table k = 7, 7. */
  function Sevens(): RowGroup {
    RowGroup([Chunk("k", TInt64, [SInt(7), SInt(7)], [0])], 2)
  }

  /** SELECT k FROM t GROUP BY k */
  function SelectKeys(): SelectStmt {
    SelectStmt([Col("k")], "t", None, ["k"], None, -1)
  }

  lemma SevensRows()
    ensures GroupOk(Sevens()) && SchemaOf(Sevens()) == Schema(["k"], [TInt64])
    ensures TableRows(Sevens().columns, 2) == [[Val(SInt(7))], [Val(SInt(7))]]
  {
    var c := Sevens().columns[0];
    BitsAt(c.nulls, 0);
    BitsAt(c.nulls, 1);
    assert Cells(c) == [Val(SInt(7)), Val(SInt(7))];
    assert TableRows(Sevens().columns, 2)[0] == [Val(SInt(7))] && TableRows(Sevens().columns, 2)[1] == [Val(SInt(7))];
  }

  /** On that table the engine lists the key twice, GROUP BY asks for it once. */
  lemma {:induction false} GroupByRepeatsKeys(ar: Arith)
    ensures var rg, stmt, row := Sevens(), SelectKeys(), [Val(SInt(7))];
            && GroupOk(rg) && WellFormed(SchemaOf(rg), stmt) && Supported(ar, rg, stmt)
            && Meaning(ar, rg, stmt) == [row, row] && GroupedMeaning(ar, rg, stmt) == [row]
  {
    hide Keys, Bucket, ProjectRow, Index, TableRows, SchemaOf, GroupOk, GroupedRows;
    SevensRows();
    SevensNames();
    SevensPlain();
    SevensGroups(ar);
  }

  lemma {:induction false} SevensNames()
    ensures Idxs(["k"], ["k"]) == [0] && ProjectRow([0], [Val(SInt(7))]) == [Val(SInt(7))]
  {
    assert ColIdx(["k"], "k") == Index(["k"], "k") == 0;
  }

  lemma {:induction false} SevensPlain()
    ensures var s, items, row := Schema(["k"], [TInt64]), SelectKeys().items, [Val(SInt(7))];
            && !HasAgg(items) && PlainCols(s, items) == ["k"] && PlainItemsOk(s, items)
            && ProjectRows([0], [row, row]) == [row, row]
  {
    SevensNames();
    assert SelectKeys().items[0] == Col("k");
    assert ["k"][0] == "k";
  }

  lemma {:induction false} SevensGroups(ar: Arith)
    ensures var s, items, row := Schema(["k"], [TInt64]), SelectKeys().items, [Val(SInt(7))];
            GroupedRows(ar, s, items, [0], [row, row]) == [row] && |Keys([row, row], [0])| == 1
  {
    hide Keys, Bucket, ProjectRow, Index;
    var s, row: Row := Schema(["k"], [TInt64]), [Val(SInt(7))];
    SevensNames();
    SevensKeys(row);
    assert ItemCell(ar, s, Col("k"), [row, row]) == CellOf(row, Idxs(["k"], ["k"])[0]);
    assert OutRow(ar, s, SelectKeys().items, [row, row]) == row;
  }

  lemma SevensKeys(row: Row)
    requires ProjectRow([0], row) == row
    ensures Keys([row, row], [0]) == [row] && Bucket([row, row], [0], row) == [row, row]
  {
    assert [row, row][..1] == [row] && [row][..0] == [];
    assert Keys([row], [0]) == [] + [row] && Bucket([row], [0], row) == [] + [row];
    assert [] + [row] == [row] && [row] + [row] == [row, row];
  }

  // ----- COUNT of a column -----

  /**
   * COUNT(col) without GROUP BY, for a column of any type: the answer is the number of values that
   * are not NULL exactly when the rows that pass WHERE have no NULL in the column.
   */
  lemma {:induction false} CountStatement(ar: Arith, rg: RowGroup, stmt: SelectStmt, i: nat, col: Text)
    requires GroupOk(rg) && WellFormed(SchemaOf(rg), stmt) && stmt.groupBy == [] && stmt.limit != 0
    requires i < |stmt.items| && stmt.items[i] == Agg(CountFn, col) && col != STAR
    requires |Filtered(rg, stmt.filter)| < 0x8000_0000_0000_0000
    ensures var cells := CellsOf(rg, col, Filtered(rg, stmt.filter));
            && AggregateLaws.NonNulls(cells) <= |cells|
            && |Meaning(ar, rg, stmt)| == 1 && |Meaning(ar, rg, stmt)[0]| == |stmt.items|
            && Meaning(ar, rg, stmt)[0][i] == Val(SInt(|cells|))
            && (Meaning(ar, rg, stmt)[0][i] == Val(SInt(AggregateLaws.NonNulls(cells))) <==> Null !in cells)
  {
    hide Filtered, PredOf;
    assert IsAgg(stmt.items[i]);
    ScalarUnordered(SchemaOf(rg), stmt);
    CountItem(ar, rg, col, Filtered(rg, stmt.filter));
  }

  /** The same for each group under GROUP BY. */
  lemma {:induction false} CountGroup(ar: Arith, rg: RowGroup, stmt: SelectStmt, i: nat, col: Text, g: nat)
    requires WellFormed(SchemaOf(rg), stmt) && stmt.groupBy != []
    requires i < |stmt.items| && stmt.items[i] == Agg(CountFn, col) && col != STAR
    requires |Filtered(rg, stmt.filter)| < 0x8000_0000_0000_0000 && g < |Body(ar, rg, stmt)|
    ensures var kc := Idxs(SchemaOf(rg).names, stmt.groupBy);
            var rows := Filtered(rg, stmt.filter);
            && g < |Keys(rows, kc)| && |Body(ar, rg, stmt)[g]| == |stmt.items|
            && var cells := CellsOf(rg, col, Bucket(rows, kc, Keys(rows, kc)[g]));
            && AggregateLaws.NonNulls(cells) <= |cells| <= |rows|
            && Body(ar, rg, stmt)[g][i] == Val(SInt(|cells|))
            && (Body(ar, rg, stmt)[g][i] == Val(SInt(AggregateLaws.NonNulls(cells))) <==> Null !in cells)
  {
    hide Filtered, PredOf, Keys, Bucket;
    assert IsAgg(stmt.items[i]);
    var rows, kc := Filtered(rg, stmt.filter), Idxs(SchemaOf(rg).names, stmt.groupBy);
    BucketSize(rows, kc, Keys(rows, kc)[g]);
    CountItem(ar, rg, col, Bucket(rows, kc, Keys(rows, kc)[g]));
  }

  lemma {:induction false} BucketSize(rows: seq<Row>, kc: seq<nat>, key: Row)
    ensures |Bucket(rows, kc, key)| <= |rows|
  {
    if rows != [] {
      BucketSize(rows[..|rows| - 1], kc, key);
    }
  }

  /** The table c = NULL. */
  function OneNull(): RowGroup {
    RowGroup([Chunk("c", TInt64, [SInt(0)], [1])], 1)
  }

  /** SELECT COUNT(c) FROM t */
  function SelectCount(): SelectStmt {
    SelectStmt([Agg(CountFn, "c")], "t", None, [], None, -1)
  }

  lemma {:induction false} OneNullRows()
    ensures GroupOk(OneNull()) && SchemaOf(OneNull()) == Schema(["c"], [TInt64])
    ensures TableRows(OneNull().columns, 1) == [[Null]] && CellsOf(OneNull(), "c", [[Null]]) == [Null]
  {
    hide Index, Bits;
    var rg := OneNull();
    BitsAt(rg.columns[0].nulls, 0);
    assert Cells(rg.columns[0]) == [Null];
    assert TableRows(rg.columns, 1)[0] == [Null] by {
      hide Cells;
    }
    assert ColIdx(["c"], "c") == 0 by {
      hide TableRows, Cells;
      assert Index(["c"], "c") == 0;
    }
  }

  lemma SelectCountOk(ar: Arith)
    ensures var s, stmt := Schema(["c"], [TInt64]), SelectCount();
            WellFormed(s, stmt) && HasAgg(stmt.items) && |Keys([[Null]], Idxs(s.names, stmt.groupBy))| <= 1
  {
    var s, stmt := Schema(["c"], [TInt64]), SelectCount();
    assert IsAgg(stmt.items[0]) && AggItemOk(s, stmt.groupBy, stmt.items[0]);
    AllKeysNew([[Null]], Idxs(s.names, stmt.groupBy));
  }

  /** On that table the engine answers 1 although the column holds no value. */
  lemma {:induction false} CountCountsNulls(ar: Arith)
    ensures var rg, stmt := OneNull(), SelectCount();
            && GroupOk(rg) && WellFormed(SchemaOf(rg), stmt) && Supported(ar, rg, stmt)
            && Meaning(ar, rg, stmt) == [[Val(SInt(1))]]
            && AggregateLaws.NonNulls(CellsOf(rg, "c", Filtered(rg, stmt.filter))) == 0
  {
    hide GroupOk, SchemaOf, TableRows, WellFormed, Keys, Meaning, Idxs;
    OneNullRows();
    SelectCountOk(ar);
    assert Filtered(OneNull(), None) == [[Null]];
    CountStatement(ar, OneNull(), SelectCount(), 0, "c");
    assert Meaning(ar, OneNull(), SelectCount())[0] == [Val(SInt(1))];
  }

  // ----- a star under SUM, MIN, MAX or AVG -----

  /** The statement with the first scanned column named wherever a * is summed, compared or averaged. */
  function NameStars(s: Schema, stmt: SelectStmt): SelectStmt {
    stmt.(items := ReadItems(s, stmt.items, stmt.groupBy))
  }

  lemma {:induction false} ReadFirst(items: seq<SelectItem>, read: seq<SelectItem>, first: Text)
    requires |read| == |items| && forall i :: 0 <= i < |items| ==> read[i] == ReadItem(items[i], first)
    requires FirstArg(items).Some? ==> FirstArg(items).value == first
    ensures FirstArg(items).Some? ==> FirstArg(read).Some?
    ensures FirstArg(read).Some? ==> FirstArg(read).value == first
  {
    if items != [] {
      ReadFirst(items[..|items| - 1], read[..|items| - 1], first);
    }
  }

  /** Naming the stars changes no other item, and once they are named there is nothing left to name. */
  lemma ReadAgain(s: Schema, items: seq<SelectItem>, groupBy: seq<Text>)
    ensures ReadItems(s, ReadItems(s, items, groupBy), groupBy) == ReadItems(s, items, groupBy)
    ensures HasAgg(ReadItems(s, items, groupBy)) <==> HasAgg(items)
    ensures forall i :: 0 <= i < |items| ==> (items[i].Col? || ReadItems(s, items, groupBy)[i].Col?) ==>
        ReadItems(s, items, groupBy)[i] == items[i]
  {
    var read := ReadItems(s, items, groupBy);
    if groupBy == [] && (FirstArg(items).Some? || s.names != []) {
      ReadFirst(items, read, FirstScanned(s, items, groupBy));
    }
    assert forall i :: 0 <= i < |items| ==> (IsAgg(read[i]) <==> IsAgg(items[i]));
  }

  lemma {:induction false} FirstArgListed(items: seq<SelectItem>) returns (j: nat)
    requires FirstArg(items).Some?
    ensures j < |items| && items[j].Agg? && items[j].arg == FirstArg(items).value != STAR
  {
    var n := |items| - 1;
    if FirstArg(items[..n]).Some? {
      j := FirstArgListed(items[..n]);
    } else {
      j := n;
    }
  }

  /** The planner accepts the SELECT list with its stars named exactly when it accepts the list itself. */
  lemma {:induction false} NamedItemsOk(s: Schema, items: seq<SelectItem>, groupBy: seq<Text>)
    requires |s.names| == |s.types| && s.names != []
    requires forall i :: 0 <= i < |items| && SumsStar(items[i]) ==> TypeAt(s, FirstScanned(s, items, groupBy)) == TInt64
    ensures AggItemsOk(s, ReadItems(s, items, groupBy), groupBy) <==> AggItemsOk(s, items, groupBy)
  {
    hide Index, FirstArg;
    var read, first := ReadItems(s, items, groupBy), FirstScanned(s, items, groupBy);
    if AggItemsOk(s, items, groupBy) && groupBy == [] && FirstArg(items).Some? {
      var j := FirstArgListed(items);
      assert AggItemOk(s, groupBy, items[j]);
    }
    forall i | 0 <= i < |items|
      ensures AggItemOk(s, groupBy, read[i]) ==> AggItemOk(s, groupBy, items[i])
      ensures AggItemsOk(s, items, groupBy) ==> AggItemOk(s, groupBy, read[i])
    {
      assert AggItemsOk(s, items, groupBy) ==> AggItemOk(s, groupBy, items[i]) && first in s.names;
    }
  }

  /** Two lists with the same column items find a column at the same place. */
  lemma SamePlace(a: seq<SelectItem>, b: seq<SelectItem>, col: Text)
    requires |a| == |b| && forall i :: 0 <= i < |a| ==> (a[i].Col? || b[i].Col?) ==> a[i] == b[i]
    ensures (Col(col) in a <==> Col(col) in b) && Index(a, Col(col)) == Index(b, Col(col))
  {}

  lemma {:induction false} StarsNamed(ar: Arith, rg: RowGroup, stmt: SelectStmt)
    requires GroupOk(rg) && HasAgg(stmt.items)
    requires forall i :: 0 <= i < |stmt.items| && SumsStar(stmt.items[i]) ==>
        TypeAt(SchemaOf(rg), FirstScanned(SchemaOf(rg), stmt.items, stmt.groupBy)) == TInt64
    ensures WellFormed(SchemaOf(rg), NameStars(SchemaOf(rg), stmt)) <==> WellFormed(SchemaOf(rg), stmt)
    ensures WellFormed(SchemaOf(rg), stmt) ==> Meaning(ar, rg, NameStars(SchemaOf(rg), stmt)) == Meaning(ar, rg, stmt)
  {
    hide Filtered, WhereOk, Keys, AggItemsOk, Index, GroupedRows, OutRow;
    var s := SchemaOf(rg);
    var named := NameStars(s, stmt);
    ReadAgain(s, stmt.items, stmt.groupBy);
    NamedItemsOk(s, stmt.items, stmt.groupBy);
    assert Body(ar, rg, named) == Body(ar, rg, stmt);
    if stmt.orderBy.Some? {
      SamePlace(stmt.items, named.items, stmt.orderBy.value.column);
    }
  }

  predicate NamedArg(item: SelectItem) {
    item.Agg? && item.arg != "*"
  }

  /** The first grouping column, else the first column an aggregate names, else the table's first column. */
  ghost predicate ReadsFirst(rg: RowGroup, stmt: SelectStmt, first: Text) {
    if stmt.groupBy != [] then first == stmt.groupBy[0]
    else if exists i :: 0 <= i < |stmt.items| && NamedArg(stmt.items[i]) then
      exists i :: 0 <= i < |stmt.items| && NamedArg(stmt.items[i]) && first == stmt.items[i].arg
                  && forall j :: 0 <= j < i ==> !NamedArg(stmt.items[j])
    else rg.columns != [] && first == rg.columns[0].name
  }

  lemma {:induction false} FirstNamed(items: seq<SelectItem>)
    ensures FirstArg(items).Some? <==> exists i :: 0 <= i < |items| && NamedArg(items[i])
    ensures forall i :: 0 <= i < |items| && NamedArg(items[i]) && (forall j :: 0 <= j < i ==> !NamedArg(items[j])) ==>
        FirstArg(items) == Some(items[i].arg)
  {
    if items != [] {
      var n := |items| - 1;
      FirstNamed(items[..n]);
      assert forall i :: 0 <= i < n ==> items[..n][i] == items[i];
      assert "*" == STAR;
    }
  }

  lemma {:induction false} FirstScannedIs(rg: RowGroup, stmt: SelectStmt, first: Text)
    requires ReadsFirst(rg, stmt, first)
    ensures FirstScanned(SchemaOf(rg), stmt.items, stmt.groupBy) == first
  {
    hide FirstArg;
    FirstNamed(stmt.items);
  }

  /** The SELECT list with a column named wherever a * is summed, compared or averaged. */
  function Naming(items: seq<SelectItem>, first: Text): (r: seq<SelectItem>)
    ensures |r| == |items|
  {
    seq(|items|, i requires 0 <= i < |items| =>
      if TakesStar(items[i]) then Agg(items[i].fn, first) else items[i])
  }

  /**
   * SUM(*), MIN(*), MAX(*) and AVG(*) are accepted and answered as if they named the column the
   * query scans first: its first grouping column, else its first argument, else the table's first.
   */
  lemma {:induction false} StarsReadFirst(ar: Arith, rg: RowGroup, stmt: SelectStmt, first: Text)
    requires GroupOk(rg) && HasAgg(stmt.items) && ReadsFirst(rg, stmt, first)
    requires forall k: nat :: FirstColumn(rg, first, k) ==> rg.columns[k].typ == TInt64
    ensures var named := stmt.(items := Naming(stmt.items, first));
            && (WellFormed(SchemaOf(rg), named) <==> WellFormed(SchemaOf(rg), stmt))
            && (WellFormed(SchemaOf(rg), stmt) ==> Meaning(ar, rg, named) == Meaning(ar, rg, stmt))
  {
    hide *;
    FirstScannedIs(rg, stmt, first);
    FirstType(rg, first);
    NamingIs(SchemaOf(rg), stmt, first);
    StarsNamed(ar, rg, stmt);
  }

  lemma FirstType(rg: RowGroup, first: Text)
    requires forall k: nat :: FirstColumn(rg, first, k) ==> rg.columns[k].typ == TInt64
    ensures TypeAt(SchemaOf(rg), first) == TInt64
  {
    NamedIs(rg, first, ANY);
    NamedIs(rg, first, {TInt64});
    AnyType(TypeAt(SchemaOf(rg), first));
    if first in SchemaOf(rg).names {
      var k: nat :| FirstColumn(rg, first, k) && rg.columns[k].typ in ANY;
    }
  }

  lemma NamingIs(s: Schema, stmt: SelectStmt, first: Text)
    requires FirstScanned(s, stmt.items, stmt.groupBy) == first
    ensures NameStars(s, stmt) == stmt.(items := Naming(stmt.items, first))
  {
    assert "*" == STAR;
    assert ReadItems(s, stmt.items, stmt.groupBy) == Naming(stmt.items, first);
  }
}
