/** The operator constructors the planner calls, each with the buffers it allocates. */
module Construct {
  import opened Types
  import opened Storage
  import opened Relation
  import opened Batches
  import opened Aggregation
  import opened Aggregators
  import opened GroupKeys
  import opened GroupTables
  import opened Sorting
  import opened Exec

  /** A fresh tree that will emit rows with the given column types. */
  ghost predicate Delivers(op: Op, pool: set<Selection>, rows: seq<Row>, types: seq<ColType>)
    reads op.Obj(), op.Reach(pool)
  {
    op.Footed() && op.At(pool, 0) && op.All() == rows && op.ColTypes() == types
  }

  method NewScan(src: seq<Chunk>, rowCount: nat) returns (op: Op, ghost pool: set<Selection>)
    requires Aligned(src, rowCount, ChunkTypes(src))
    ensures op.Scan? && Delivers(op, pool, TableRows(src, rowCount), ChunkTypes(src)) && fresh(op.Reach(pool))
  {
    var scan := new ScanOp(src, rowCount);
    op, pool := Scan(scan), {scan.batch.sel};
  }

  method NewFilter(child: Op, col: nat, pred: Pred, ghost cpool: set<Selection>)
    returns (op: Op, ghost pool: set<Selection>, ghost own: set<object>)
    requires child.At(cpool, 0) && child.Direct()
    requires col < |child.ColTypes()| && child.ColTypes()[col] == PredType(pred)
    ensures op.Filter? && Delivers(op, pool, FilterRows(pred, col, child.All()), child.ColTypes())
    ensures fresh(own) && op.Reach(pool) == child.Reach(cpool) + own
  {
    var filter := new FilterOp(child, col, pred, cpool);
    op, pool, own := Filter(filter), cpool + {filter.tempSel}, {filter, filter.tempSel};
  }

  /** Fails without columns. */
  method NewProject(child: Op, cols: seq<nat>, ghost pool: set<Selection>)
    returns (op: Option<Op>, ghost own: set<object>)
    requires child.At(pool, 0)
    requires forall i :: 0 <= i < |cols| ==> cols[i] < |child.ColTypes()|
    ensures op.Some? <==> cols != []
    ensures op.Some? ==> Delivers(op.value, pool, ProjectRows(cols, child.All()), Pick(child.ColTypes(), cols))
    ensures fresh(own) && (op.Some? ==> op.value.Reach(pool) == child.Reach(pool) + own)
  {
    if cols == [] {
      return None, {};
    }
    var project := new ProjectOp(child, cols, pool);
    op, own := Some(Project(project)), {project, project.out, project.out.vectors};
  }

  method NewLimit(child: Op, limit: nat, ghost pool: set<Selection>) returns (op: Op, ghost own: set<object>)
    requires child.At(pool, 0)
    ensures Delivers(op, pool, Take(child.All(), limit), child.ColTypes())
    ensures fresh(own) && op.Reach(pool) == child.Reach(pool) + own
  {
    var l := new LimitOp(child, limit, pool);
    op, own := Limit(l), {l};
  }

  method NewOrderBy(child: Op, types: seq<ColType>, sortCol: nat, ascending: bool, ghost cpool: set<Selection>)
    returns (op: Op, ghost pool: set<Selection>, ghost own: set<object>)
    requires child.At(cpool, 0) && types == child.ColTypes() && sortCol < |types| && Storable(child.All())
    ensures Delivers(op, pool, OrderRows(child.All(), sortCol, ascending), types)
    ensures fresh(own) && op.Reach(pool) == child.Reach(cpool) + own
  {
    hide Op.At, Ascending;
    child.AtFooted(cpool, 0);
    var out, mem := NewOutput(types);
    own := {out, out.vectors, out.sel} + mem;
    assert fresh(own);
    assert own !! child.Reach(cpool);
    var order := new OrderByOp(child, sortCol, ascending, out, mem, cpool);
    op, pool := OrderBy(order), {out.sel};
    own := own + {order, order.table};
    op.AtFooted(pool, 0);
  }

  /** Aggregators of an operator being built: its own, of the right types and without groups yet. */
  ghost predicate Blanks(specs: seq<AggRef>, ar: Arith, types: seq<ColType>, aggs: set<object>)
    reads aggs
  {
    && AggsOwned(specs, aggs) && AggsFit(specs, ar, types)
    && (forall i :: 0 <= i < |specs| ==> specs[i].agg.Valid() && |specs[i].agg.accs| == 0)
  }

  method NewAggregate(child: Op, specs: seq<AggRef>,
                      ghost ar: Arith, ghost cpool: set<Selection>, ghost aggs: set<object>)
    returns (op: Op, ghost pool: set<Selection>, ghost own: set<object>)
    requires child.At(cpool, 0) && Blanks(specs, ar, child.ColTypes(), aggs) && aggs !! child.Reach(cpool)
    modifies aggs
    ensures Delivers(op, pool, [AggRow(ar, SpecsOf(specs), child.All())], OutputTypes(specs))
    ensures fresh(own) && op.Reach(pool) == child.Reach(cpool) + own + aggs
  {
    hide Op.At, Ascending;
    child.AtFooted(cpool, 0);
    InitAll(specs, ar, aggs);
    var out, mem := NewOutput(OutputTypes(specs));
    own := {out, out.vectors, out.sel} + mem;
    assert fresh(own) && own !! aggs;
    assert own !! child.Reach(cpool);
    var agg := new AggregateOp(child, specs, out, ar, mem, cpool, aggs);
    op, pool, own := Aggregate(agg), {out.sel}, own + {agg};
    op.AtFooted(pool, 0);
  }

  /** One key column takes the typed table, several the composite one. */
  method NewKeyTable(cols: seq<nat>, types: seq<ColType>) returns (keys: KeyTable)
    requires |cols| == |types| > 0 && forall c :: 0 <= c < |types| ==> KeyType(types[c])
    ensures keys.KeyCols() == cols && keys.KeyTypes() == types && fresh(keys.Obj())
    ensures keys.Valid() && keys.Listed() == []
  {
    if |cols| == 1 {
      var single := new SingleTable(types[0]);
      keys := OneKey(single, cols[0]);
      assert keys.Listed() == [];
    } else {
      var multi := new TupleTable(types);
      keys := ManyKeys(multi, cols);
    }
  }

  method KeyTypesOk(types: seq<ColType>) returns (ok: bool)
    ensures ok <==> forall c :: 0 <= c < |types| ==> KeyType(types[c])
  {
    for i := 0 to |types|
      invariant forall c :: 0 <= c < i ==> KeyType(types[c])
    {
      if types[i] != TInt64 && types[i] != TString {
        return false;
      }
    }
    ok := true;
  }

  /** The key columns are Int64 or String: KeyTypesOk has said so. */
  method NewGroupBy(child: Op, cols: seq<nat>, types: seq<ColType>, specs: seq<AggRef>,
                    ghost ar: Arith, ghost cpool: set<Selection>, ghost aggs: set<object>)
    returns (op: Op, ghost pool: set<Selection>, ghost own: set<object>)
    requires child.At(cpool, 0) && Blanks(specs, ar, child.ColTypes(), aggs) && aggs !! child.Reach(cpool)
    requires |cols| == |types| > 0 && forall c :: 0 <= c < |types| ==> KeyType(types[c])
    requires forall c :: 0 <= c < |cols| ==> cols[c] < |child.ColTypes()| && child.ColTypes()[cols[c]] == types[c]
    requires |Keys(child.All(), cols)| <= 0x8000_0000
    ensures Delivers(op, pool, GroupRows(ar, cols, SpecsOf(specs), child.All()), types + OutputTypes(specs))
    ensures fresh(own) && op.Reach(pool) == child.Reach(cpool) + own + aggs
  {
    hide Op.At, Ascending;
    child.AtFooted(cpool, 0);
    var keys := NewKeyTable(cols, types);
    NoGroups(specs, ar, cols, aggs);
    op, pool, own := NewGroupOver(child, keys, specs, ar, cpool, aggs);
    own := own + {keys.Obj()};
  }

  method NewGroupOver(child: Op, keys: KeyTable, specs: seq<AggRef>,
                      ghost ar: Arith, ghost cpool: set<Selection>, ghost aggs: set<object>)
    returns (op: Op, ghost pool: set<Selection>, ghost own: set<object>)
    requires child.At(cpool, 0) && AggsOwned(specs, aggs) && AggsFit(specs, ar, child.ColTypes())
    requires keys.Obj() !in aggs && aggs + {keys.Obj()} !! child.Reach(cpool) && KeysFit(keys, child.ColTypes())
    requires Grouped(keys, specs, ar, [], aggs) && |Keys(child.All(), keys.KeyCols())| <= 0x8000_0000
    ensures Delivers(op, pool, GroupRows(ar, keys.KeyCols(), SpecsOf(specs), child.All()),
                     keys.KeyTypes() + OutputTypes(specs))
    ensures fresh(own) && op.Reach(pool) == child.Reach(cpool) + own + {keys.Obj()} + aggs
  {
    hide Op.At, Ascending, Grouped, KeyTable.Valid, KeyTable.Listed, AggsFit, AggsOwned, KeysFit;
    child.AtFooted(cpool, 0);
    var out, mem := NewOutput(keys.KeyTypes() + OutputTypes(specs));
    own := {out, out.vectors, out.sel} + mem;
    assert fresh(own) && own !! aggs + {keys.Obj()};
    assert own !! child.Reach(cpool);
    var group := new GroupByOp(child, keys, specs, out, ar, mem, cpool, aggs);
    op, pool, own := GroupBy(group), {out.sel}, own + {group};
    op.AtFooted(pool, 0);
  }

  lemma NoGroups(specs: seq<AggRef>, ar: Arith, kc: seq<nat>, aggs: set<object>)
    requires AggsOwned(specs, aggs)
    requires forall i :: 0 <= i < |specs| ==> specs[i].agg.ar == ar && specs[i].agg.Valid() && |specs[i].agg.accs| == 0
    ensures AllFolded(specs, ar, kc, [], [], aggs)
  {}
}
