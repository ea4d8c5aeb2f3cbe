/** sql/planner.go: from a parsed statement to the operator tree that answers it. */
module Planner {
  import opened Types
  import opened Storage
  import opened Relation
  import opened Batches
  import opened Aggregation
  import opened Aggregators
  import opened GroupKeys
  import opened Sorting
  import opened Exec
  import opened Ast
  import opened Semantics
  import opened Pushdown
  import opened SelectLists
  import opened Construct

  // ----- scanning and filtering -----

  /** storage.RowGroup.ColumnByName: the first chunk of that name. */
  method ColumnByName(rg: RowGroup, name: Text) returns (c: Option<Chunk>)
    ensures var names := SchemaOf(rg).names;
            c == if name in names then Some(rg.columns[Index(names, name)]) else None
  {
    ghost var names := SchemaOf(rg).names;
    for i := 0 to |rg.columns|
      invariant forall j :: 0 <= j < i ==> names[j] != name
    {
      assert names[i] == rg.columns[i].name;
      if rg.columns[i].name == name {
        return Some(rg.columns[i]);
      }
    }
    c := None;
  }

  /** The table's rows with only the named columns. */
  ghost function Narrow(rg: RowGroup, cols: seq<Text>, rows: seq<Row>): seq<Row> {
    ProjectRows(Idxs(SchemaOf(rg).names, cols), rows)
  }

  ghost function NarrowTypes(rg: RowGroup, cols: seq<Text>): seq<ColType> {
    seq(|cols|, i requires 0 <= i < |cols| => TypeAt(SchemaOf(rg), cols[i]))
  }

  /** exec.NewScanOp: fails without columns and on a missing one. */
  method ScanNamed(rg: RowGroup, cols: seq<Text>) returns (op: Option<Op>, ghost pool: set<Selection>)
    requires GroupOk(rg)
    ensures op.Some? <==> cols != [] && forall i :: 0 <= i < |cols| ==> cols[i] in SchemaOf(rg).names
    ensures op.Some? ==> op.value.Scan? && fresh(op.value.Reach(pool))
    ensures op.Some? ==>
        Delivers(op.value, pool, Narrow(rg, cols, TableRows(rg.columns, rg.rowCount)), NarrowTypes(rg, cols))
  {
    hide Op.At, Op.Footed, TableRows, ProjectRows, Index, Delivers;
    if cols == [] {
      return None, {};
    }
    ghost var names := SchemaOf(rg).names;
    var chunks: seq<Chunk> := [];
    for i := 0 to |cols|
      invariant |chunks| == i
      invariant forall j :: 0 <= j < i ==> cols[j] in names && chunks[j] == rg.columns[Index(names, cols[j])]
    {
      var chunk := ColumnByName(rg, cols[i]);
      if chunk.None? {
        return None, {};
      }
      chunks := chunks + [chunk.value];
    }
    ScanColumns(rg.columns, rg.rowCount, Idxs(names, cols), chunks);
    assert ChunkTypes(chunks) == NarrowTypes(rg, cols);
    var scan;
    scan, pool := NewScan(chunks, rg.rowCount);
    op := Some(scan);
  }

  /** The scan's column list with the WHERE column added when it is missing. */
  datatype Expanded = Expanded(cols: seq<Text>, idx: nat, extra: bool)

  method ExpandWhereColumn(s: Schema, cols: seq<Text>, w: Option<Where>) returns (r: Option<Expanded>)
    ensures r.Some? <==> (w.Some? ==> w.value.column in s.names)
    ensures r.Some? && w.None? ==> r.value == Expanded(cols, 0, false)
    ensures r.Some? && w.Some? ==>
        && r.value.cols == (if r.value.extra then cols + [w.value.column] else cols)
        && r.value.idx < |r.value.cols| && r.value.cols[r.value.idx] == w.value.column
        && (r.value.extra <==> w.value.column !in cols)
  {
    if w.None? {
      return Some(Expanded(cols, 0, false));
    }
    if w.value.column !in s.names {
      return None;
    }
    var idx := Index(cols, w.value.column);
    if idx < 0 {
      r := Some(Expanded(cols + [w.value.column], |cols|, true));
    } else {
      r := Some(Expanded(cols, idx, false));
    }
  }

  /** Wrap a scan of the expanded columns with the filter of a WHERE clause. */
  method ApplyFilter(rg: RowGroup, scan: Op, w: Option<Where>, e: Expanded, ghost spool: set<Selection>)
    returns (op: Option<Op>, ghost pool: set<Selection>, ghost own: set<object>)
    requires scan.Scan?
    requires Delivers(scan, spool, Narrow(rg, e.cols, TableRows(rg.columns, rg.rowCount)), NarrowTypes(rg, e.cols))
    requires w.Some? ==> w.value.column in SchemaOf(rg).names && e.idx < |e.cols| && e.cols[e.idx] == w.value.column
    ensures op.Some? <==> WhereOk(SchemaOf(rg), w)
    ensures op.Some? ==> Delivers(op.value, pool, Narrow(rg, e.cols, Filtered(rg, w)), NarrowTypes(rg, e.cols))
    ensures fresh(own) && (op.Some? ==> op.value.Reach(pool) == scan.Reach(spool) + own)
  {
    if w.None? {
      return Some(scan), spool, {};
    }
    var s := SchemaOf(rg);
    var pred := PredOf(TypeAt(s, w.value.column), w.value);
    if pred.None? {
      return None, {}, {};
    }
    FilterProject(pred.value, e.idx, Idxs(s.names, e.cols), TableRows(rg.columns, rg.rowCount));
    var filter;
    filter, pool, own := NewFilter(scan, e.idx, pred.value, spool);
    op := Some(filter);
  }

  /** The leaf of every plan: a scan of cols, expanded by the WHERE column, and its filter. */
  method ScanAndFilter(rg: RowGroup, cols: seq<Text>, w: Option<Where>)
    returns (op: Option<Op>, e: Expanded, ghost pool: set<Selection>)
    requires GroupOk(rg) && forall i :: 0 <= i < |cols| ==> cols[i] in SchemaOf(rg).names
    ensures op.Some? <==> WhereOk(SchemaOf(rg), w) && (cols != [] || w.Some?)
    ensures op.Some? ==> fresh(op.value.Reach(pool)) && cols <= e.cols
    ensures op.Some? ==> Delivers(op.value, pool, Narrow(rg, e.cols, Filtered(rg, w)), NarrowTypes(rg, e.cols))
    ensures op.Some? ==> e.extra == (w.Some? && w.value.column !in cols)
    ensures op.Some? ==> e.cols == if e.extra then cols + [w.value.column] else cols
  {
    e, pool := Expanded(cols, 0, false), {};
    var expanded := ExpandWhereColumn(SchemaOf(rg), cols, w);
    if expanded.None? {
      return None, e, {};
    }
    e := expanded.value;
    var scan;
    scan, pool := ScanNamed(rg, e.cols);
    if scan.None? {
      return None, e, {};
    }
    ghost var own;
    op, pool, own := ApplyFilter(rg, scan.value, w, e, pool);
  }

  // ----- SELECT without aggregates -----

  /** A lone * is every column; otherwise every item must be a known column. */
  method ResolvePlainScanColumns(s: Schema, items: seq<SelectItem>) returns (cols: Option<seq<Text>>)
    ensures cols.Some? <==> items == [] || PlainItemsOk(s, items)
    ensures cols.Some? ==> cols.value == PlainCols(s, items)
  {
    if |items| == 1 && items[0].Star? {
      assert items == [Star];
      return Some(s.names);
    }
    var names: seq<Text> := [];
    for i := 0 to |items|
      invariant |names| == i
      invariant forall j :: 0 <= j < i ==> items[j].Col? && items[j].name in s.names && names[j] == items[j].name
    {
      if !items[i].Col? || items[i].name !in s.names {
        return None;
      }
      names := names + [items[i].name];
    }
    cols := Some(names);
    assert names == PlainCols(s, items);
  }

  /** Dropping the last of the scanned columns leaves the SELECT list. */
  lemma DropExtra(rg: RowGroup, cols: seq<Text>, extra: Text, rows: seq<Row>)
    ensures ProjectRows(Iota(|cols|), Narrow(rg, cols + [extra], rows)) == Narrow(rg, cols, rows)
    ensures Pick(NarrowTypes(rg, cols + [extra]), Iota(|cols|)) == NarrowTypes(rg, cols)
  {
    var names := SchemaOf(rg).names;
    ProjectTwice(Iota(|cols|), Idxs(names, cols + [extra]), rows);
    assert Pick(Idxs(names, cols + [extra]), Iota(|cols|)) == Idxs(names, cols);
  }

  lemma PlainTypes(rg: RowGroup, stmt: SelectStmt)
    requires PlainItemsOk(SchemaOf(rg), stmt.items)
    ensures forall i :: 0 <= i < |PlainCols(SchemaOf(rg), stmt.items)| ==>
        PlainCols(SchemaOf(rg), stmt.items)[i] in SchemaOf(rg).names
    ensures stmt.items != [Star] ==>
        NarrowTypes(rg, PlainCols(SchemaOf(rg), stmt.items)) == OutTypes(SchemaOf(rg), stmt)
  {}

  method PlanSimpleSelect(rg: RowGroup, stmt: SelectStmt, ghost ar: Arith)
    returns (op: Option<Op>, ghost pool: set<Selection>)
    requires GroupOk(rg) && !HasAgg(stmt.items)
    ensures op.Some? <==> PlainItemsOk(SchemaOf(rg), stmt.items) && WhereOk(SchemaOf(rg), stmt.filter)
    ensures op.Some? ==> fresh(op.value.Reach(pool))
    ensures op.Some? ==>
        Delivers(op.value, pool, Body(ar, rg, stmt), NarrowTypes(rg, PlainCols(SchemaOf(rg), stmt.items)))
  {
    hide Op.At, Ascending, OutTypes, Idxs, TypeAt, Filtered, TableRows, PredOf;
    var s := SchemaOf(rg);
    var cols := ResolvePlainScanColumns(s, stmt.items);
    if cols.None? {
      return None, {};
    }
    if PlainItemsOk(s, stmt.items) {
      PlainTypes(rg, stmt);
    }
    var scanned, e;
    scanned, e, pool := ScanAndFilter(rg, cols.value, stmt.filter);
    if scanned.None? {
      return None, {};
    }
    if !e.extra {
      return scanned, pool;
    }
    ghost var own;
    DropExtra(rg, cols.value, stmt.filter.value.column, Filtered(rg, stmt.filter));
    op, own := NewProject(scanned.value, seq(|e.cols| - 1, i => i), pool);
  }

  // ----- SELECT with aggregates -----

  function AddUnique(cols: seq<Text>, name: Text): (r: seq<Text>)
    ensures name in r && cols <= r && forall x :: x in r ==> x == name || x in cols
  {
    if name in cols then cols else cols + [name]
  }

  method CheckItems(s: Schema, items: seq<SelectItem>, groupBy: seq<Text>) returns (ok: bool)
    ensures ok <==> (forall i :: 0 <= i < |items| ==> !items[i].Star? && (items[i].Col? ==> items[i].name in groupBy))
                    && (forall k :: 0 <= k < |groupBy| ==> groupBy[k] in s.names)
  {
    for i := 0 to |items|
      invariant forall j :: 0 <= j < i ==> !items[j].Star? && (items[j].Col? ==> items[j].name in groupBy)
    {
      if items[i].Star? || (items[i].Col? && items[i].name !in groupBy) {
        return false;
      }
    }
    for k := 0 to |groupBy|
      invariant forall j :: 0 <= j < k ==> groupBy[j] in s.names
    {
      if groupBy[k] !in s.names {
        return false;
      }
    }
    ok := true;
  }

  /** The scan columns, falling back to the first column of the table when nothing is named. */
  method CollectScanCols(s: Schema, items: seq<SelectItem>, groupBy: seq<Text>) returns (cols: Option<seq<Text>>)
    requires s.names != [] && forall k :: 0 <= k < |groupBy| ==> groupBy[k] in s.names
    ensures cols.Some? <==>
        forall i :: 0 <= i < |items| && items[i].Agg? && items[i].arg != STAR ==> items[i].arg in s.names
    ensures cols.Some? ==> cols.value != [] && Covers(cols.value, groupBy, items)
    ensures cols.Some? ==> forall i :: 0 <= i < |cols.value| ==> cols.value[i] in s.names
    ensures cols.Some? ==> cols.value[0] == FirstScanned(s, items, groupBy)
  {
    var names: seq<Text> := [];
    for k := 0 to |groupBy|
      invariant forall j :: 0 <= j < k ==> groupBy[j] in names
      invariant forall x :: x in names ==> x in s.names
      invariant if k == 0 then names == [] else names != [] && names[0] == groupBy[0]
    {
      names := AddUnique(names, groupBy[k]);
    }
    for i := 0 to |items|
      invariant forall j :: 0 <= j < |groupBy| ==> groupBy[j] in names
      invariant forall j :: 0 <= j < i && items[j].Agg? && items[j].arg != STAR ==>
          items[j].arg in s.names && items[j].arg in names
      invariant forall x :: x in names ==> x in s.names
      invariant groupBy != [] ==> names != [] && names[0] == groupBy[0]
      invariant groupBy == [] ==>
          if FirstArg(items[..i]).None? then names == [] else names != [] && names[0] == FirstArg(items[..i]).value
    {
      assert items[..i + 1][..i] == items[..i];
      if items[i].Agg? && items[i].arg != STAR {
        if items[i].arg !in s.names {
          return None;
        }
        names := AddUnique(names, items[i].arg);
      }
    }
    assert items[..|items|] == items;
    if |names| == 0 {
      names := [s.names[0]];
    }
    cols := Some(names);
  }

  /** One aggregator per aggregate item, in SELECT order; fails on an unsuitable column type. */
  method BuildSpecs(rg: RowGroup, items: seq<SelectItem>, cols: seq<Text>, ar: Arith)
    returns (specs: Option<seq<AggRef>>, ghost aggs: set<object>)
    requires forall i :: 0 <= i < |items| && items[i].Agg? && items[i].arg != STAR ==>
        items[i].arg in cols && items[i].arg in SchemaOf(rg).names
    requires cols != [] && forall i :: 0 <= i < |items| && SumsStar(items[i]) ==> NarrowTypes(rg, cols)[0] == TInt64
    ensures fresh(aggs)
    ensures specs.Some? <==> forall i :: 0 <= i < |items| && items[i].Agg? ==> FnOf(SchemaOf(rg), items[i]).Some?
    ensures specs.Some? ==> Blanks(specs.value, ar, NarrowTypes(rg, cols), aggs)
    ensures specs.Some? ==> SpecsOf(specs.value) == SpecList(SchemaOf(rg), items, cols)
  {
    hide Index, SchemaOf;
    var s := SchemaOf(rg);
    ghost var types := NarrowTypes(rg, cols);
    var refs: seq<AggRef> := [];
    aggs := {};
    for i := 0 to |items|
      invariant fresh(aggs) && Blanks(refs, ar, types, aggs)
      invariant SpecsOf(refs) == SpecList(s, items[..i], cols)
      invariant forall j :: 0 <= j < i && items[j].Agg? ==> FnOf(s, items[j]).Some?
    {
      TakeSnoc(items, i);
      assert items[..i + 1][..i] == items[..i];
      if items[i].Agg? {
        var fn := FnOf(s, items[i]);
        if fn.None? {
          return None, {};
        }
        var col := if items[i].arg == STAR then 0 else Index(cols, items[i].arg);
        var agg := new Aggregator(ar, fn.value, 0);
        refs := refs + [AggRef(col, agg)];
        aggs := aggs + {agg};
      }
    }
    assert items[..|items|] == items;
    specs := Some(refs);
  }

  method BuildOutputProjection(items: seq<SelectItem>, groupBy: seq<Text>) returns (projMap: seq<nat>)
    requires forall i :: 0 <= i < |items| ==> !items[i].Star? && (items[i].Col? ==> items[i].name in groupBy)
    ensures |projMap| == |items|
    ensures forall i :: 0 <= i < |items| ==> projMap[i] == OutputPos(items, groupBy, i)
  {
    projMap := [];
    var aggIdx := 0;
    for i := 0 to |items|
      invariant |projMap| == i && aggIdx == AggsBefore(items, i)
      invariant forall j :: 0 <= j < i ==> projMap[j] == OutputPos(items, groupBy, j)
    {
      if items[i].Agg? {
        projMap := projMap + [|groupBy| + aggIdx];
        aggIdx := aggIdx + 1;
      } else {
        projMap := projMap + [Index(groupBy, items[i].name)];
      }
    }
  }

  /** The checked statement and its scan columns, before any operator is built. */
  method ResolveAggregation(rg: RowGroup, stmt: SelectStmt) returns (cols: Option<seq<Text>>)
    requires GroupOk(rg)
    ensures cols.Some? <==>
        && (forall i :: 0 <= i < |stmt.items| ==>
              match stmt.items[i]
              case Star => false
              case Col(name) => name in stmt.groupBy
              case Agg(_, arg) => arg == STAR || arg in SchemaOf(rg).names)
        && (forall k :: 0 <= k < |stmt.groupBy| ==> stmt.groupBy[k] in SchemaOf(rg).names)
    ensures cols.Some? ==> cols.value != [] && Covers(cols.value, stmt.groupBy, stmt.items)
    ensures cols.Some? ==> cols.value[0] == FirstScanned(SchemaOf(rg), stmt.items, stmt.groupBy)
    ensures cols.Some? ==> forall i :: 0 <= i < |cols.value| ==> cols.value[i] in SchemaOf(rg).names
  {
    var s := SchemaOf(rg);
    var ok := CheckItems(s, stmt.items, stmt.groupBy);
    if !ok {
      return None;
    }
    cols := CollectScanCols(s, stmt.items, stmt.groupBy);
  }

  lemma CoversMore(cols: seq<Text>, more: seq<Text>, groupBy: seq<Text>, items: seq<SelectItem>)
    requires Covers(cols, groupBy, items) && cols <= more
    ensures Covers(more, groupBy, items)
  {}

  /** Aggregate everything into one row. */
  method FinishScalar(rg: RowGroup, stmt: SelectStmt, scanned: Op, cols: seq<Text>, specs: seq<AggRef>,
                      ghost ar: Arith, ghost spool: set<Selection>, ghost aggs: set<object>)
    returns (op: Op, ghost pool: set<Selection>, ghost own: set<object>)
    requires Delivers(scanned, spool, Narrow(rg, cols, Filtered(rg, stmt.filter)), NarrowTypes(rg, cols))
    requires Blanks(specs, ar, NarrowTypes(rg, cols), aggs) && aggs !! scanned.Reach(spool)
    requires StarsRead(SchemaOf(rg), stmt.items, stmt.groupBy, cols)
    requires SpecsOf(specs) == SpecList(SchemaOf(rg), stmt.items, cols)
    requires HasAgg(stmt.items) && stmt.groupBy == [] && Resolved(SchemaOf(rg), stmt.items, stmt.groupBy, cols)
    modifies aggs
    ensures Delivers(op, pool, Body(ar, rg, stmt), OutTypes(SchemaOf(rg), stmt))
    ensures fresh(own) && op.Reach(pool) == scanned.Reach(spool) + own + aggs
  {
    ghost var read := ReadItems(SchemaOf(rg), stmt.items, stmt.groupBy);
    ReadResolved(SchemaOf(rg), stmt.items, stmt.groupBy, cols);
    ScalarRow(ar, SchemaOf(rg), read, cols, Filtered(rg, stmt.filter));
    ScalarTypes(rg, stmt, cols, specs);
    op, pool, own := NewAggregate(scanned, specs, ar, spool, aggs);
  }

  lemma ScalarTypes(rg: RowGroup, stmt: SelectStmt, cols: seq<Text>, specs: seq<AggRef>)
    requires SpecsOf(specs) == SpecList(SchemaOf(rg), stmt.items, cols)
    requires stmt.groupBy == [] && Resolved(SchemaOf(rg), stmt.items, stmt.groupBy, cols)
    ensures OutputTypes(specs) == OutTypes(SchemaOf(rg), stmt)
  {
    var s, items := SchemaOf(rg), stmt.items;
    AllAggs(items, |items|);
    assert items[..|items|] == items;
    SpecListSize(s, items, cols, |items|);
    forall i | 0 <= i < |items|
      ensures OutputType(SpecsOf(specs)[i].fn) == ItemType(s, items[i])
    {
      AllAggs(items, i);
      SpecListAt(s, items, cols, i, |items|);
    }
  }

  function KeyTypesOf(s: Schema, groupBy: seq<Text>): seq<ColType>
    requires |s.names| == |s.types|
  {
    seq(|groupBy|, k requires 0 <= k < |groupBy| => TypeAt(s, groupBy[k]))
  }

  lemma KeyTypesAgree(s: Schema, groupBy: seq<Text>)
    requires |s.names| == |s.types|
    ensures (forall c :: 0 <= c < |KeyTypesOf(s, groupBy)| ==> KeyType(KeyTypesOf(s, groupBy)[c]))
            <==> forall k :: 0 <= k < |groupBy| ==> KeyTypeOk(TypeAt(s, groupBy[k]))
  {
    if !(forall k :: 0 <= k < |groupBy| ==> KeyTypeOk(TypeAt(s, groupBy[k]))) {
      var k :| 0 <= k < |groupBy| && !KeyTypeOk(TypeAt(s, groupBy[k]));
      assert !KeyType(KeyTypesOf(s, groupBy)[k]);
    }
  }

  /** The scanned key columns have the table's key types and as many distinct keys. */
  lemma KeyColumnsScanned(rg: RowGroup, cols: seq<Text>, groupBy: seq<Text>, rows: seq<Row>)
    requires forall k :: 0 <= k < |groupBy| ==> groupBy[k] in cols
    ensures var idxs, types := Idxs(cols, groupBy), KeyTypesOf(SchemaOf(rg), groupBy);
            && (forall c :: 0 <= c < |idxs| ==> idxs[c] < |cols| && NarrowTypes(rg, cols)[idxs[c]] == types[c])
            && Keys(Narrow(rg, cols, rows), idxs) == Keys(rows, Idxs(SchemaOf(rg).names, groupBy))
  {
    var names := SchemaOf(rg).names;
    RenameAll(names, cols, groupBy);
    KeysProject(Idxs(cols, groupBy), Idxs(names, cols), rows);
  }

  /** Group, then reorder into the SELECT list unless every column is already in its place. */
  method FinishGrouped(rg: RowGroup, stmt: SelectStmt, scanned: Op, cols: seq<Text>, specs: seq<AggRef>,
                       ghost ar: Arith, ghost spool: set<Selection>, ghost aggs: set<object>)
    returns (op: Option<Op>, ghost pool: set<Selection>, ghost own: set<object>)
    requires Delivers(scanned, spool, Narrow(rg, cols, Filtered(rg, stmt.filter)), NarrowTypes(rg, cols))
    requires Blanks(specs, ar, NarrowTypes(rg, cols), aggs) && aggs !! scanned.Reach(spool)
    requires StarsRead(SchemaOf(rg), stmt.items, stmt.groupBy, cols)
    requires SpecsOf(specs) == SpecList(SchemaOf(rg), stmt.items, cols)
    requires HasAgg(stmt.items) && stmt.groupBy != [] && Resolved(SchemaOf(rg), stmt.items, stmt.groupBy, cols)
    requires |Keys(Filtered(rg, stmt.filter), Idxs(SchemaOf(rg).names, stmt.groupBy))| <= 0x8000_0000
    ensures op.Some? <==> forall k :: 0 <= k < |stmt.groupBy| ==> KeyTypeOk(TypeAt(SchemaOf(rg), stmt.groupBy[k]))
    ensures op.Some? ==> Delivers(op.value, pool, Body(ar, rg, stmt), OutTypes(SchemaOf(rg), stmt))
    ensures fresh(own) && (op.Some? ==> op.value.Reach(pool) == scanned.Reach(spool) + own + aggs)
  {
    hide Op.At, Filtered, Body, OutTypes, GroupRows, Ascending, StarsRead, SpecList;
    var s := SchemaOf(rg);
    ghost var rows := Filtered(rg, stmt.filter);
    var keyIdxs := Idxs(cols, stmt.groupBy);
    var keyTypes := KeyTypesOf(s, stmt.groupBy);
    var ok := KeyTypesOk(keyTypes);
    KeyTypesAgree(s, stmt.groupBy);
    if !ok {
      return None, {}, {};
    }
    KeyColumnsScanned(rg, cols, stmt.groupBy, rows);
    var group;
    group, pool, own := NewGroupBy(scanned, keyIdxs, keyTypes, specs, ar, spool, aggs);
    ghost var more;
    op, more := Reorder(rg, stmt, group, cols, specs, keyTypes, ar, pool);
    own := own + more;
  }

  /** Put the grouped output into SELECT order; a projection only when some column has to move. */
  method Reorder(rg: RowGroup, stmt: SelectStmt, group: Op, cols: seq<Text>, ghost specs: seq<AggRef>,
                 ghost keyTypes: seq<ColType>, ghost ar: Arith, ghost pool: set<Selection>)
    returns (op: Option<Op>, ghost own: set<object>)
    requires StarsRead(SchemaOf(rg), stmt.items, stmt.groupBy, cols)
    requires SpecsOf(specs) == SpecList(SchemaOf(rg), stmt.items, cols)
    requires HasAgg(stmt.items) && stmt.groupBy != [] && Resolved(SchemaOf(rg), stmt.items, stmt.groupBy, cols)
    requires keyTypes == KeyTypesOf(SchemaOf(rg), stmt.groupBy)
    requires Delivers(group, pool, GroupRows(ar, Idxs(cols, stmt.groupBy), SpecsOf(specs),
                                             Narrow(rg, cols, Filtered(rg, stmt.filter))),
                      keyTypes + OutputTypes(specs))
    ensures op.Some? && Delivers(op.value, pool, Body(ar, rg, stmt), OutTypes(SchemaOf(rg), stmt))
    ensures fresh(own) && op.value.Reach(pool) == group.Reach(pool) + own
  {
    hide Op.At, Op.Held, Ascending, OutputPos, Covers, AggItemsOk, StarsRead, Idxs, SpecList;
    var projMap := BuildOutputProjection(stmt.items, stmt.groupBy);
    GroupedRead(ar, rg, stmt, cols, projMap, Filtered(rg, stmt.filter));
    GroupedTypes(rg, stmt, cols, specs, projMap, keyTypes);
    var identity := IsIdentity(projMap);
    if identity {
      PassThrough(rg, stmt, cols, specs, keyTypes, projMap, ar, Filtered(rg, stmt.filter));
      return Some(group), {};
    }
    op, own := NewProject(group, projMap, pool);
  }

  /** The projected groups are the groups of the SELECT list as it is read. */
  lemma GroupedRead(ar: Arith, rg: RowGroup, stmt: SelectStmt, cols: seq<Text>, projMap: seq<nat>, rows: seq<Row>)
    requires StarsRead(SchemaOf(rg), stmt.items, stmt.groupBy, cols)
    requires Resolved(SchemaOf(rg), stmt.items, stmt.groupBy, cols) && |projMap| == |stmt.items|
    requires forall i :: 0 <= i < |stmt.items| ==> projMap[i] == OutputPos(stmt.items, stmt.groupBy, i)
    ensures var s := SchemaOf(rg);
            ProjectRows(projMap, GroupRows(ar, Idxs(cols, stmt.groupBy), SpecList(s, stmt.items, cols),
                                           Narrow(rg, cols, rows)))
            == GroupedRows(ar, s, ReadItems(s, stmt.items, stmt.groupBy), Idxs(s.names, stmt.groupBy), rows)
  {
    hide OutputPos, GroupRows, GroupedRows, Resolved, StarsNamed, StarsRead;
    var s := SchemaOf(rg);
    var read := ReadItems(s, stmt.items, stmt.groupBy);
    ReadResolved(s, stmt.items, stmt.groupBy, cols);
    forall i | 0 <= i < |read|
      ensures projMap[i] == OutputPos(read, stmt.groupBy, i)
    {
      ReadPos(s, stmt.items, stmt.groupBy, i);
    }
    GroupedOutput(ar, s, read, stmt.groupBy, cols, projMap, rows);
  }

  /** Where nothing moves, the grouped output already has the arity and the order of the SELECT list. */
  lemma IdentityOutput(rg: RowGroup, stmt: SelectStmt, cols: seq<Text>, specs: seq<AggRef>,
                       keyTypes: seq<ColType>, projMap: seq<nat>, ar: Arith, rows: seq<Row>)
    requires SpecsOf(specs) == SpecList(SchemaOf(rg), stmt.items, cols) && |keyTypes| == |stmt.groupBy|
    requires HasAgg(stmt.items) && Resolved(SchemaOf(rg), stmt.items, stmt.groupBy, cols)
    requires |projMap| == |stmt.items| && projMap == Iota(|projMap|)
    requires forall i :: 0 <= i < |stmt.items| ==> projMap[i] == OutputPos(stmt.items, stmt.groupBy, i)
    ensures |keyTypes + OutputTypes(specs)| == |projMap|
    ensures var out := GroupRows(ar, Idxs(cols, stmt.groupBy), SpecsOf(specs), Narrow(rg, cols, rows));
            forall k :: 0 <= k < |out| ==> |out[k]| == |projMap|
  {
    forall i | 0 <= i < |stmt.items|
      ensures OutputPos(stmt.items, stmt.groupBy, i) == i && !stmt.items[i].Star?
      ensures stmt.items[i].Col? ==> stmt.items[i].name in stmt.groupBy
    {
      assert AggItemOk(SchemaOf(rg), stmt.groupBy, stmt.items[i]) && projMap[i] == Iota(|projMap|)[i];
    }
    IdentityArity(stmt.items, stmt.groupBy);
    SpecListSize(SchemaOf(rg), stmt.items, cols, |stmt.items|);
    assert stmt.items[..|stmt.items|] == stmt.items;
    KeysWidth(Narrow(rg, cols, rows), Idxs(cols, stmt.groupBy));
  }

  /** Group output that already is the SELECT list is its own projection. */
  lemma PassThrough(rg: RowGroup, stmt: SelectStmt, cols: seq<Text>, specs: seq<AggRef>,
                    keyTypes: seq<ColType>, projMap: seq<nat>, ar: Arith, rows: seq<Row>)
    requires SpecsOf(specs) == SpecList(SchemaOf(rg), stmt.items, cols) && |keyTypes| == |stmt.groupBy|
    requires HasAgg(stmt.items) && Resolved(SchemaOf(rg), stmt.items, stmt.groupBy, cols)
    requires |projMap| == |stmt.items| && projMap == Iota(|projMap|)
    requires forall i :: 0 <= i < |stmt.items| ==> projMap[i] == OutputPos(stmt.items, stmt.groupBy, i)
    ensures var out := GroupRows(ar, Idxs(cols, stmt.groupBy), SpecsOf(specs), Narrow(rg, cols, rows));
            && ProjectRows(projMap, out) == out && |keyTypes + OutputTypes(specs)| == |projMap|
            && Pick(keyTypes + OutputTypes(specs), projMap) == keyTypes + OutputTypes(specs)
  {
    var out := GroupRows(ar, Idxs(cols, stmt.groupBy), SpecsOf(specs), Narrow(rg, cols, rows));
    IdentityOutput(rg, stmt, cols, specs, keyTypes, projMap, ar, rows);
    IdentityProject(projMap, out, keyTypes + OutputTypes(specs));
  }

  method IsIdentity(projMap: seq<nat>) returns (r: bool)
    ensures r <==> projMap == Iota(|projMap|)
  {
    for i := 0 to |projMap|
      invariant forall j :: 0 <= j < i ==> projMap[j] == j
    {
      if projMap[i] != i {
        assert Iota(|projMap|)[i] == i;
        return false;
      }
    }
    r := true;
  }

  lemma IdentityProject(projMap: seq<nat>, rows: seq<Row>, types: seq<ColType>)
    requires projMap == Iota(|projMap|) && |types| == |projMap|
    requires forall k :: 0 <= k < |rows| ==> |rows[k]| == |projMap|
    ensures ProjectRows(projMap, rows) == rows && Pick(types, projMap) == types
  {
    forall k | 0 <= k < |rows|
      ensures ProjectRow(projMap, rows[k]) == rows[k]
    {}
  }

  lemma GroupedTypes(rg: RowGroup, stmt: SelectStmt, cols: seq<Text>, specs: seq<AggRef>,
                     projMap: seq<nat>, keyTypes: seq<ColType>)
    requires SpecsOf(specs) == SpecList(SchemaOf(rg), stmt.items, cols)
    requires HasAgg(stmt.items) && Resolved(SchemaOf(rg), stmt.items, stmt.groupBy, cols) && |projMap| == |stmt.items|
    requires forall i :: 0 <= i < |stmt.items| ==> projMap[i] == OutputPos(stmt.items, stmt.groupBy, i)
    requires keyTypes == KeyTypesOf(SchemaOf(rg), stmt.groupBy)
    ensures forall i :: 0 <= i < |projMap| ==> projMap[i] < |keyTypes + OutputTypes(specs)|
    ensures Pick(keyTypes + OutputTypes(specs), projMap) == OutTypes(SchemaOf(rg), stmt)
  {
    var s, items := SchemaOf(rg), stmt.items;
    assert items[..|items|] == items;
    forall i | 0 <= i < |items|
      ensures projMap[i] < |keyTypes + OutputTypes(specs)|
      ensures (keyTypes + OutputTypes(specs))[projMap[i]] == ItemType(s, items[i])
    {
      assert AggItemOk(s, stmt.groupBy, items[i]);
      if items[i].Agg? {
        SpecListAt(s, items, cols, i, |items|);
        assert SpecsOf(specs)[AggsBefore(items, i)] == SpecFor(s, items[i], cols);
      }
    }
  }

  /** Without grouping columns one row for all, otherwise one a key. */
  method FinishAggregation(rg: RowGroup, stmt: SelectStmt, scanned: Op, cols: seq<Text>, specs: seq<AggRef>,
                           ghost ar: Arith, ghost spool: set<Selection>, ghost aggs: set<object>)
    returns (op: Option<Op>, ghost pool: set<Selection>, ghost own: set<object>)
    requires Delivers(scanned, spool, Narrow(rg, cols, Filtered(rg, stmt.filter)), NarrowTypes(rg, cols))
    requires Blanks(specs, ar, NarrowTypes(rg, cols), aggs) && aggs !! scanned.Reach(spool)
    requires StarsRead(SchemaOf(rg), stmt.items, stmt.groupBy, cols)
    requires SpecsOf(specs) == SpecList(SchemaOf(rg), stmt.items, cols)
    requires HasAgg(stmt.items) && Resolved(SchemaOf(rg), stmt.items, stmt.groupBy, cols)
    requires |Keys(Filtered(rg, stmt.filter), Idxs(SchemaOf(rg).names, stmt.groupBy))| <= 0x8000_0000
    modifies aggs
    ensures op.Some? <==> forall k :: 0 <= k < |stmt.groupBy| ==> KeyTypeOk(TypeAt(SchemaOf(rg), stmt.groupBy[k]))
    ensures op.Some? ==> Delivers(op.value, pool, Body(ar, rg, stmt), OutTypes(SchemaOf(rg), stmt))
    ensures fresh(own) && (op.Some? ==> op.value.Reach(pool) == scanned.Reach(spool) + own + aggs)
  {
    hide Op.At, Ascending, Filtered, Body, OutTypes;
    if stmt.groupBy == [] {
      var result;
      result, pool, own := FinishScalar(rg, stmt, scanned, cols, specs, ar, spool, aggs);
      op := Some(result);
    } else {
      op, pool, own := FinishGrouped(rg, stmt, scanned, cols, specs, ar, spool, aggs);
    }
  }

  /** The first scanned column, which the stars read, stays first when the WHERE column is added. */
  lemma FirstStays(rg: RowGroup, stmt: SelectStmt, cols: seq<Text>, more: seq<Text>)
    requires Countable(rg, stmt) && cols != [] && cols <= more && cols[0] in SchemaOf(rg).names
    requires cols[0] == FirstScanned(SchemaOf(rg), stmt.items, stmt.groupBy)
    ensures StarsRead(SchemaOf(rg), stmt.items, stmt.groupBy, more)
    ensures forall i :: 0 <= i < |stmt.items| && SumsStar(stmt.items[i]) ==> NarrowTypes(rg, more)[0] == TInt64
  {}

  method PlanAggregation(rg: RowGroup, stmt: SelectStmt, ar: Arith)
    returns (op: Option<Op>, ghost pool: set<Selection>)
    requires GroupOk(rg) && HasAgg(stmt.items) && Countable(rg, stmt)
    ensures op.Some? <==> AggItemsOk(SchemaOf(rg), stmt.items, stmt.groupBy) && WhereOk(SchemaOf(rg), stmt.filter)
    ensures op.Some? ==> fresh(op.value.Reach(pool))
    ensures op.Some? ==> Delivers(op.value, pool, Body(ar, rg, stmt), OutTypes(SchemaOf(rg), stmt))
  {
    hide Op.At, Ascending, Filtered, TableRows, GroupOk, PredOf, Body, OutTypes, TypeAt, ChunkTypes, WhereOk, Covers;
    hide StarsRead, FirstScanned, NarrowTypes, SpecList, Narrow;
    var s := SchemaOf(rg);
    var cols := ResolveAggregation(rg, stmt);
    if cols.None? {
      return None, {};
    }
    var scanned, e;
    scanned, e, pool := ScanAndFilter(rg, cols.value, stmt.filter);
    if scanned.None? {
      return None, {};
    }
    CoversMore(cols.value, e.cols, stmt.groupBy, stmt.items);
    FirstStays(rg, stmt, cols.value, e.cols);
    var specs;
    ghost var aggs;
    specs, aggs := BuildSpecs(rg, stmt.items, e.cols, ar);
    if specs.None? {
      return None, {};
    }
    ghost var own;
    op, pool, own := FinishAggregation(rg, stmt, scanned.value, e.cols, specs.value, ar, pool, aggs);
  }

  // ----- ORDER BY, LIMIT and the whole statement -----

  method ApplyOrderByAndLimit(rg: RowGroup, stmt: SelectStmt, body: Op, ghost ar: Arith, ghost bpool: set<Selection>)
    returns (op: Option<Op>, ghost pool: set<Selection>, ghost own: set<object>)
    requires body.At(bpool, 0) && body.All() == Body(ar, rg, stmt)
    requires OrderOk(stmt.items, stmt.orderBy) && stmt.orderBy.Some? ==>
        body.ColTypes() == OutTypes(SchemaOf(rg), stmt) && Storable(body.All())
    ensures op.Some? <==> OrderOk(stmt.items, stmt.orderBy)
    ensures op.Some? ==> op.value.At(pool, 0) && op.value.All() == Meaning(ar, rg, stmt)
    ensures fresh(own) && (op.Some? ==> op.value.Reach(pool) == body.Reach(bpool) + own)
  {
    hide Op.At, Ascending;
    var result := body;
    pool, own := bpool, {};
    if stmt.orderBy.Some? {
      var sortCol := Index(stmt.items, Col(stmt.orderBy.value.column));
      if sortCol < 0 {
        return None, {}, {};
      }
      result, pool, own := NewOrderBy(body, OutTypes(SchemaOf(rg), stmt), sortCol, stmt.orderBy.value.ascending, bpool);
    }
    if stmt.limit >= 0 {
      ghost var more;
      result, more := NewLimit(result, stmt.limit, pool);
      own := own + more;
    }
    op := Some(result);
  }

  /**
   * Plan succeeds exactly on the well-formed statements, and draining the tree it builds gives
   * the statement's meaning.
   */
  method Plan(rg: RowGroup, stmt: SelectStmt, ar: Arith) returns (op: Option<Op>, ghost pool: set<Selection>)
    requires GroupOk(rg) && Supported(ar, rg, stmt)
    ensures op.Some? <==> WellFormed(SchemaOf(rg), stmt)
    ensures op.Some? ==> op.value.At(pool, 0) && fresh(op.value.Reach(pool))
    ensures op.Some? ==> op.value.All() == Meaning(ar, rg, stmt)
  {
    hide Op.At, Ascending, AggItemsOk, WhereOk, FirstScanned;
    var hasAgg := false;
    for i := 0 to |stmt.items|
      invariant hasAgg <==> exists j :: 0 <= j < i && IsAgg(stmt.items[j])
    {
      if IsAgg(stmt.items[i]) {
        hasAgg := true;
      }
    }
    var body;
    if hasAgg {
      body, pool := PlanAggregation(rg, stmt, ar);
    } else {
      body, pool := PlanSimpleSelect(rg, stmt, ar);
    }
    if body.None? {
      return None, {};
    }
    if !HasAgg(stmt.items) && OrderOk(stmt.items, stmt.orderBy) && stmt.orderBy.Some? {
      PlainTypes(rg, stmt);
    }
    ghost var own;
    op, pool, own := ApplyOrderByAndLimit(rg, stmt, body.value, ar, pool);
  }
}
