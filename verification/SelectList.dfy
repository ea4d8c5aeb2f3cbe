/** How an aggregate query's SELECT list maps to the columns it scans and to the columns GROUP BY emits. */
module SelectLists {
  import opened Types
  import opened Relation
  import opened Aggregation
  import opened Ast
  import opened Semantics
  import opened Pushdown

  /** The names an aggregate query scans for: its keys, then its arguments, each once. */
  ghost predicate Covers(cols: seq<Text>, groupBy: seq<Text>, items: seq<SelectItem>) {
    && (forall k :: 0 <= k < |groupBy| ==> groupBy[k] in cols)
    && (forall i :: 0 <= i < |items| && items[i].Agg? && items[i].arg != STAR ==> items[i].arg in cols)
  }

  /** The spec an aggregate item becomes over the scanned columns. */
  function SpecFor(s: Schema, item: SelectItem, cols: seq<Text>): AggSpec
    requires |s.names| == |s.types| && item.Agg?
  {
    var fn := FnOf(s, item);
    AggSpec(if fn.Some? then fn.value else Count, if item.arg == STAR then 0 else ColIdx(cols, item.arg))
  }

  function SpecList(s: Schema, items: seq<SelectItem>, cols: seq<Text>): seq<AggSpec>
    requires |s.names| == |s.types|
  {
    if items == [] then []
    else
      var n := |items| - 1;
      SpecList(s, items[..n], cols) + (if items[n].Agg? then [SpecFor(s, items[n], cols)] else [])
  }

  /** How many aggregates come before item i. */
  function AggsBefore(items: seq<SelectItem>, i: nat): (n: nat)
    requires i <= |items|
    ensures n <= i
  {
    if i == 0 then 0 else AggsBefore(items, i - 1) + (if items[i - 1].Agg? then 1 else 0)
  }

  lemma {:induction false} SpecListAt(s: Schema, items: seq<SelectItem>, cols: seq<Text>, i: nat, n: nat)
    requires |s.names| == |s.types| && i < n <= |items| && items[i].Agg?
    ensures |SpecList(s, items[..n], cols)| == AggsBefore(items, n)
    ensures AggsBefore(items, i) < AggsBefore(items, n)
    ensures SpecList(s, items[..n], cols)[AggsBefore(items, i)] == SpecFor(s, items[i], cols)
  {
    SpecListSize(s, items, cols, n - 1);
    assert items[..n][..n - 1] == items[..n - 1];
    if i < n - 1 {
      SpecListAt(s, items, cols, i, n - 1);
    }
  }

  lemma {:induction false} SpecListSize(s: Schema, items: seq<SelectItem>, cols: seq<Text>, n: nat)
    requires |s.names| == |s.types| && n <= |items|
    ensures |SpecList(s, items[..n], cols)| == AggsBefore(items, n)
  {
    if n > 0 {
      SpecListSize(s, items, cols, n - 1);
      assert items[..n][..n - 1] == items[..n - 1];
    }
  }

  // ----- a star under SUM, MIN, MAX or AVG -----

  lemma {:induction false} SameAggs(items: seq<SelectItem>, read: seq<SelectItem>, n: nat)
    requires n <= |items| == |read| && forall i :: 0 <= i < |items| ==> items[i].Agg? == read[i].Agg?
    ensures AggsBefore(read, n) == AggsBefore(items, n)
  {
    if n > 0 {
      SameAggs(items, read, n - 1);
    }
  }

  /** Naming the column a star reads does not move any item. */
  lemma ReadPos(s: Schema, items: seq<SelectItem>, groupBy: seq<Text>, i: nat)
    requires i < |items|
    ensures OutputPos(ReadItems(s, items, groupBy), groupBy, i) == OutputPos(items, groupBy, i)
  {
    SameAggs(items, ReadItems(s, items, groupBy), i);
  }

  /** The spec of a star over the scanned columns is the spec of the column scanned first. */
  lemma ReadSpec(s: Schema, item: SelectItem, first: Text, cols: seq<Text>)
    requires |s.names| == |s.types| && item.Agg? && cols != [] && cols[0] == first
    requires SumsStar(item) ==> TypeAt(s, first) == TInt64
    ensures FnOf(s, ReadItem(item, first)) == FnOf(s, item)
    ensures SpecFor(s, ReadItem(item, first), cols) == SpecFor(s, item, cols)
  {
    assert ColIdx(cols, first) == 0;
  }

  lemma {:induction false} ReadSpecs(s: Schema, items: seq<SelectItem>, read: seq<SelectItem>, first: Text,
                                     cols: seq<Text>)
    requires |s.names| == |s.types| && cols != [] && cols[0] == first && |read| == |items|
    requires forall i :: 0 <= i < |items| ==> read[i] == ReadItem(items[i], first)
    requires forall i :: 0 <= i < |items| && SumsStar(items[i]) ==> TypeAt(s, first) == TInt64
    ensures SpecList(s, read, cols) == SpecList(s, items, cols)
  {
    if items != [] {
      var n := |items| - 1;
      ReadSpecs(s, items[..n], read[..n], first, cols);
      if items[n].Agg? {
        ReadSpec(s, items[n], first, cols);
      }
    }
  }

  /** Where SELECT item i sits in the grouped output [keys..., aggregates...]. */
  function OutputPos(items: seq<SelectItem>, groupBy: seq<Text>, i: nat): nat
    requires i < |items|
  {
    match items[i]
    case Agg(_, _) => |groupBy| + AggsBefore(items, i)
    case Col(name) => ColIdx(groupBy, name)
    case Star => 0
  }

  /** What the aggregation planner has checked and collected by the time it builds operators. */
  ghost predicate Resolved(s: Schema, items: seq<SelectItem>, groupBy: seq<Text>, cols: seq<Text>) {
    && |s.names| == |s.types|
    && (forall i :: 0 <= i < |items| ==> AggItemOk(s, groupBy, items[i]))
    && (forall k :: 0 <= k < |groupBy| ==> groupBy[k] in s.names)
    && Covers(cols, groupBy, items)
  }

  /** The first scanned column is the one a star under SUM, MIN, MAX or AVG takes for Int64. */
  ghost predicate StarsRead(s: Schema, items: seq<SelectItem>, groupBy: seq<Text>, cols: seq<Text>)
    requires |s.names| == |s.types|
  {
    && cols != [] && cols[0] == FirstScanned(s, items, groupBy) && cols[0] in s.names
    && (forall i :: 0 <= i < |items| && SumsStar(items[i]) ==> TypeAt(s, cols[0]) == TInt64)
  }

  /** No star is left to read, unless the first scanned column is itself named so. */
  ghost predicate StarsNamed(items: seq<SelectItem>, cols: seq<Text>) {
    forall i :: 0 <= i < |items| && SumsStar(items[i]) ==> cols != [] && cols[0] == STAR
  }

  /** With its stars named the SELECT list is resolved as it was, and builds the same aggregators. */
  lemma ReadResolved(s: Schema, items: seq<SelectItem>, groupBy: seq<Text>, cols: seq<Text>)
    requires Resolved(s, items, groupBy, cols) && StarsRead(s, items, groupBy, cols)
    ensures Resolved(s, ReadItems(s, items, groupBy), groupBy, cols) && StarsNamed(ReadItems(s, items, groupBy), cols)
    ensures SpecList(s, ReadItems(s, items, groupBy), cols) == SpecList(s, items, cols)
  {
    var read := ReadItems(s, items, groupBy);
    ReadSpecs(s, items, read, cols[0], cols);
    forall i | 0 <= i < |read|
      ensures AggItemOk(s, groupBy, read[i])
    {
      assert AggItemOk(s, groupBy, items[i]);
      if items[i].Agg? {
        ReadSpec(s, items[i], cols[0], cols);
      }
    }
  }

  /** A scanned column, found by its name, is the table's column of that name. */
  lemma Rename(names: seq<Text>, cols: seq<Text>, name: Text)
    requires name in cols
    ensures ColIdx(cols, name) < |cols| && Idxs(names, cols)[ColIdx(cols, name)] == ColIdx(names, name)
  {}

  lemma RenameAll(names: seq<Text>, cols: seq<Text>, wanted: seq<Text>)
    requires forall k :: 0 <= k < |wanted| ==> wanted[k] in cols
    ensures forall k :: 0 <= k < |wanted| ==> Idxs(cols, wanted)[k] < |cols|
    ensures Pick(Idxs(names, cols), Idxs(cols, wanted)) == Idxs(names, wanted)
  {}

  /** One aggregate item computed over the scanned columns. */
  lemma AggItem(ar: Arith, s: Schema, item: SelectItem, groupBy: seq<Text>, cols: seq<Text>, group: seq<Row>)
    requires |s.names| == |s.types| && item.Agg? && AggItemOk(s, groupBy, item)
    requires SumsStar(item) ==> cols != [] && cols[0] == STAR
    requires item.arg != STAR ==> item.arg in cols
    ensures Aggregate(ar, SpecFor(s, item, cols), ProjectRows(Idxs(s.names, cols), group))
            == ItemCell(ar, s, item, group)
  {
    var spec := SpecFor(s, item, cols);
    if item.arg != STAR || SumsStar(item) {
      Rename(s.names, cols, item.arg);
    }
    AggregateProject(ar, spec.fn, spec.col, ColIdx(s.names, item.arg), Idxs(s.names, cols), group);
  }

  /** Without GROUP BY the one row of results is the SELECT list. */
  lemma ScalarRow(ar: Arith, s: Schema, items: seq<SelectItem>, cols: seq<Text>, rows: seq<Row>)
    requires Resolved(s, items, [], cols) && StarsNamed(items, cols)
    ensures AggRow(ar, SpecList(s, items, cols), ProjectRows(Idxs(s.names, cols), rows)) == OutRow(ar, s, items, rows)
  {
    AllAggs(items, |items|);
    assert items[..|items|] == items;
    SpecListSize(s, items, cols, |items|);
    forall i | 0 <= i < |items|
      ensures AggRow(ar, SpecList(s, items, cols), ProjectRows(Idxs(s.names, cols), rows))[i]
              == ItemCell(ar, s, items[i], rows)
    {
      AllAggs(items, i);
      SpecListAt(s, items, cols, i, |items|);
      AggItem(ar, s, items[i], [], cols, rows);
    }
  }

  lemma {:induction false} AllAggs(items: seq<SelectItem>, i: nat)
    requires i <= |items| && forall j :: 0 <= j < i ==> items[j].Agg?
    ensures AggsBefore(items, i) == i
  {
    if i > 0 {
      AllAggs(items, i - 1);
    }
  }

  /** One cell of a group's output, found where the projection looks for it. */
  lemma GroupItem(ar: Arith, s: Schema, items: seq<SelectItem>, groupBy: seq<Text>, cols: seq<Text>,
                  key: Row, group: seq<Row>, i: nat)
    requires Resolved(s, items, groupBy, cols) && StarsNamed(items, cols) && i < |items|
    requires group != [] && key == ProjectRow(Idxs(s.names, groupBy), group[0])
    ensures var aggs := AggRow(ar, SpecList(s, items, cols), ProjectRows(Idxs(s.names, cols), group));
            CellOf(key + aggs, OutputPos(items, groupBy, i)) == ItemCell(ar, s, items[i], group)
  {
    assert AggItemOk(s, groupBy, items[i]);
    if items[i].Agg? {
      assert items[..|items|] == items;
      SpecListAt(s, items, cols, i, |items|);
      AggItem(ar, s, items[i], groupBy, cols, group);
    }
    GroupCell(ar, SpecList(s, items, cols), key, ProjectRows(Idxs(s.names, cols), group), OutputPos(items, groupBy, i));
  }

  /** One group's output row, reordered into the SELECT list. */
  lemma GroupRow(ar: Arith, s: Schema, items: seq<SelectItem>, groupBy: seq<Text>, cols: seq<Text>,
                 projMap: seq<nat>, key: Row, group: seq<Row>)
    requires Resolved(s, items, groupBy, cols) && StarsNamed(items, cols) && |projMap| == |items|
    requires forall i :: 0 <= i < |items| ==> projMap[i] == OutputPos(items, groupBy, i)
    requires group != [] && key == ProjectRow(Idxs(s.names, groupBy), group[0])
    ensures ProjectRow(projMap, key + AggRow(ar, SpecList(s, items, cols), ProjectRows(Idxs(s.names, cols), group)))
            == OutRow(ar, s, items, group)
  {
    var row := key + AggRow(ar, SpecList(s, items, cols), ProjectRows(Idxs(s.names, cols), group));
    forall i | 0 <= i < |items|
      ensures CellOf(row, projMap[i]) == ItemCell(ar, s, items[i], group)
    {
      GroupItem(ar, s, items, groupBy, cols, key, group, i);
    }
  }

  lemma {:induction false} BucketKey(rows: seq<Row>, kc: seq<nat>, key: Row)
    ensures forall i :: 0 <= i < |Bucket(rows, kc, key)| ==> ProjectRow(kc, Bucket(rows, kc, key)[i]) == key
  {
    if rows != [] {
      BucketKey(rows[..|rows| - 1], kc, key);
    }
  }

  /** The grouped output over the scanned columns, reordered, is the statement's meaning. */
  lemma GroupedOutput(ar: Arith, s: Schema, items: seq<SelectItem>, groupBy: seq<Text>, cols: seq<Text>,
                      projMap: seq<nat>, rows: seq<Row>)
    requires Resolved(s, items, groupBy, cols) && StarsNamed(items, cols) && |projMap| == |items|
    requires forall i :: 0 <= i < |items| ==> projMap[i] == OutputPos(items, groupBy, i)
    ensures ProjectRows(projMap, GroupRows(ar, Idxs(cols, groupBy), SpecList(s, items, cols),
                                           ProjectRows(Idxs(s.names, cols), rows)))
            == GroupedRows(ar, s, items, Idxs(s.names, groupBy), rows)
  {
    var scanned, kc := Idxs(s.names, cols), Idxs(s.names, groupBy);
    var specs, narrow := SpecList(s, items, cols), ProjectRows(scanned, rows);
    RenameAll(s.names, cols, groupBy);
    KeysProject(Idxs(cols, groupBy), scanned, rows);
    var ks := Keys(rows, kc);
    forall g | 0 <= g < |ks|
      ensures ProjectRow(projMap, GroupRows(ar, Idxs(cols, groupBy), specs, narrow)[g])
              == OutRow(ar, s, items, Bucket(rows, kc, ks[g]))
    {
      var group := Bucket(rows, kc, ks[g]);
      BucketProject(Idxs(cols, groupBy), scanned, rows, ks[g]);
      EmptyBucket(rows, kc, ks[g]);
      BucketKey(rows, kc, ks[g]);
      GroupRow(ar, s, items, groupBy, cols, projMap, ks[g], group);
    }
  }

  /** When every position maps to itself, the SELECT list names every output column. */
  lemma IdentityArity(items: seq<SelectItem>, groupBy: seq<Text>)
    requires HasAgg(items)
    requires forall i :: 0 <= i < |items| ==> !items[i].Star? && (items[i].Col? ==> items[i].name in groupBy)
    requires forall i :: 0 <= i < |items| ==> OutputPos(items, groupBy, i) == i
    ensures |items| == |groupBy| + AggsBefore(items, |items|)
  {
    var last := |items| - 1;
    var i :| 0 <= i < |items| && IsAgg(items[i]);
    assert OutputPos(items, groupBy, i) == i;
    assert OutputPos(items, groupBy, last) == last;
    AggsMonotone(items, i, |items|);
  }

  lemma {:induction false} AggsMonotone(items: seq<SelectItem>, i: nat, n: nat)
    requires i <= n <= |items|
    ensures AggsBefore(items, i) <= AggsBefore(items, n)
  {
    if i < n {
      AggsMonotone(items, i, n - 1);
    }
  }
}
