/** The two key modes of exec/groupby.go over one column: the typed hash table and the composite one. */
module KeyModes {
  import opened Types
  import opened Relation
  import opened Storage
  import opened Batches
  import opened Aggregation
  import opened Aggregators
  import opened GroupKeys
  import opened GroupTables
  import opened Exec
  import opened Construct
  import opened Runs
  import AggregateLaws

  /**
   * A typed and a composite table over the same column, having seen the same rows, give every row
   * of the next batch the same ordinal and list the same keys afterwards.
   */
  method AssignBoth(typed: KeyTable, composite: KeyTable, vs: array<Vector?>, sel: Selection,
                    ghost store: set<object>, ghost rows: seq<Row>, ghost part: seq<Row>)
    returns (a: seq<nat>, b: seq<nat>)
    requires typed.OneKey? && composite.ManyKeys? && composite.KeyCols() == typed.KeyCols()
    requires typed.Valid() && typed.Listed() == Keys(rows, typed.KeyCols())
    requires composite.Valid() && composite.Listed() == Keys(rows, typed.KeyCols())
    requires typed.Reads(vs, sel, store, part) && composite.Reads(vs, sel, store, part)
    requires |Keys(rows + part, typed.KeyCols())| <= 0x8000_0000
    modifies typed.Obj(), composite.Obj()
    ensures a == b && |a| == |part|
    ensures forall i, j :: 0 <= i < |part| && 0 <= j < |part| ==>
        (a[i] == a[j] <==> ProjectRow(typed.KeyCols(), part[i]) == ProjectRow(typed.KeyCols(), part[j]))
    ensures typed.Valid() && composite.Valid()
    ensures typed.Listed() == composite.Listed() == Keys(rows + part, typed.KeyCols())
  {
    var n;
    a, n := typed.Assign(vs, sel, store, rows, part);
    b, n := composite.Assign(vs, sel, store, rows, part);
    AggregateLaws.OrdinalsUnique(typed.KeyCols(), rows + part, part, a, b);
    KeysDistinct(rows + part, typed.KeyCols());
    forall i, j | 0 <= i < |part| && 0 <= j < |part|
      ensures a[i] == a[j] <==> ProjectRow(typed.KeyCols(), part[i]) == ProjectRow(typed.KeyCols(), part[j])
    {
      AggregateLaws.OrdinalsSeparate(typed.KeyCols(), typed.Listed(), part, a, i, j);
    }
  }

  /** Every aggregate reads a column that is there and has its type. */
  predicate AggsOk(aggs: seq<AggSpec>, types: seq<ColType>) {
    forall i :: 0 <= i < |aggs| ==>
      FnOk(aggs[i].fn) && aggs[i].col < |types| && (aggs[i].fn.Count? || types[aggs[i].col] == aggs[i].fn.t)
  }

  method NewAggs(aggs: seq<AggSpec>, ar: Arith, types: seq<ColType>)
    returns (specs: seq<AggRef>, ghost own: set<object>)
    requires AggsOk(aggs, types)
    ensures fresh(own) && Blanks(specs, ar, types, own) && SpecsOf(specs) == aggs
  {
    specs, own := [], {};
    for i := 0 to |aggs|
      invariant fresh(own) && Blanks(specs, ar, types, own) && SpecsOf(specs) == aggs[..i]
    {
      var agg := new Aggregator(ar, aggs[i].fn, 0);
      specs, own := specs + [AggRef(aggs[i].col, agg)], own + {agg};
    }
  }

  /** Group a scanned table through a given key table, after any script of calls. */
  method DrainGroups(src: seq<Chunk>, rowCount: nat, keys: KeyTable, aggs: seq<AggSpec>, ar: Arith, script: seq<Call>)
    returns (rows: seq<Row>)
    requires Aligned(src, rowCount, ChunkTypes(src)) && AggsOk(aggs, ChunkTypes(src))
    requires KeysFit(keys, ChunkTypes(src)) && keys.Valid() && keys.Listed() == []
    requires |Keys(TableRows(src, rowCount), keys.KeyCols())| <= 0x8000_0000
    modifies keys.Obj()
    ensures rows == GroupRows(ar, keys.KeyCols(), aggs, TableRows(src, rowCount))
  {
    hide Op.At, Ascending, TableRows, KeyTable.Valid, KeyTable.Listed, KeysFit, AggsOk, ChunkTypes;
    var scan, specs, op;
    ghost var spool, own, pool, more;
    scan, spool := NewScan(src, rowCount);
    specs, own := NewAggs(aggs, ar, ChunkTypes(src));
    NoGroups(specs, ar, keys.KeyCols(), own);
    op, pool, more := NewGroupOver(scan, keys, specs, ar, spool, own);
    rows := Replay(op, script, pool);
  }

  /**
   * Grouping a table by one column answers alike in both key modes, whatever scripts of Next and
   * Reset calls come before the two drains.
   */
  method GroupBothWays(src: seq<Chunk>, rowCount: nat, col: nat, aggs: seq<AggSpec>, ar: Arith,
                       first: seq<Call>, second: seq<Call>)
    returns (typed: seq<Row>, composite: seq<Row>)
    requires Aligned(src, rowCount, ChunkTypes(src)) && AggsOk(aggs, ChunkTypes(src))
    requires col < |src| && KeyType(src[col].typ) && |Keys(TableRows(src, rowCount), [col])| <= 0x8000_0000
    ensures typed == composite == GroupRows(ar, [col], aggs, TableRows(src, rowCount))
  {
    hide TableRows, Keys, GroupRows;
    var single := new SingleTable(src[col].typ);
    typed := DrainGroups(src, rowCount, OneKey(single, col), aggs, ar, first);
    var multi := new TupleTable([src[col].typ]);
    composite := DrainGroups(src, rowCount, ManyKeys(multi, [col]), aggs, ar, second);
  }
}
