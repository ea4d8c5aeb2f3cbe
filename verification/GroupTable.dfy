/** The two key modes of exec/groupby.go behind one interface, as its multiKey flag selects them. */
module GroupTables {
  import opened Types
  import opened Relation
  import opened Batches
  import opened Aggregation
  import opened Aggregators
  import opened GroupKeys

  /** NewGroupByOp's typed table over one column, or NewGroupByOpMulti's composite table. */
  datatype KeyTable =
    | OneKey(single: SingleTable, col: nat)
    | ManyKeys(multi: TupleTable, cols: seq<nat>)
  {
    ghost function Obj(): object {
      if OneKey? then single else multi
    }

    function KeyCols(): seq<nat> {
      if OneKey? then [col] else cols
    }

    function KeyTypes(): seq<ColType> {
      if OneKey? then [single.typ] else multi.types
    }

    ghost predicate Valid()
      reads Obj()
    {
      |KeyCols()| == |KeyTypes()| && if OneKey? then single.Valid() else multi.Valid()
    }

    /** The keys seen so far, by ordinal. */
    ghost function Listed(): seq<Row>
      requires Valid()
      reads Obj()
    {
      if OneKey? then single.Listed() else multi.Listed()
    }

    /** A batch whose live rows are part, with the key columns in place. */
    ghost predicate Reads(vs: array<Vector?>, sel: Selection, store: set<object>, part: seq<Row>)
      reads store, sel
    {
      && Obj() !in store && Owned(vs, store) && KeyColumns(vs, KeyCols(), KeyTypes())
      && sel.Valid() && Selects(Cols(vs, store), sel.Idx()) && part == LiveRows(Cols(vs, store), sel.Idx())
    }

    /** Route every selected row of a batch to its group's ordinal; rows were routed before. */
    method Assign(vs: array<Vector?>, sel: Selection, ghost store: set<object>,
                  ghost rows: seq<Row>, ghost part: seq<Row>)
      returns (gids: seq<nat>, groups: nat)
      requires Reads(vs, sel, store, part)
      requires Valid() && Listed() == Keys(rows, KeyCols()) && |Keys(rows + part, KeyCols())| <= 0x8000_0000
      modifies Obj()
      ensures Valid() && Listed() == Keys(rows + part, KeyCols())
      ensures groups == |Listed()| && Routed(KeyCols(), Listed(), part, gids)
    {
      match this {
        case OneKey(single, col) =>
          assert KeyCols()[0] == col && KeyTypes()[0] == single.typ;
          OneKeyed(vs, col, store, sel, part);
          gids := single.Assign(vs[col], sel, [col], rows, part);
          groups := single.numGroups;
        case ManyKeys(multi, cols) =>
          gids := multi.Assign(vs, cols, sel, store, rows, part);
          groups := multi.numGroups;
      }
    }

    method NumGroups() returns (n: nat)
      requires Valid()
      ensures n == |Listed()|
    {
      n := if OneKey? then single.numGroups else multi.numGroups;
    }

    /** Forget every key, keeping the table. */
    method Clear()
      requires Valid()
      modifies Obj()
      ensures Valid() && Listed() == []
    {
      match this {
        case OneKey(single, _) => single.Clear();
        case ManyKeys(multi, _) => multi.Clear();
      }
    }

    method EmitKey(c: nat, out: Batch, start: nat, end: nat,
                   ghost mem: set<object>, ghost types: seq<ColType>, ghost rows: seq<Row>)
      requires Valid() && start <= end <= |Listed()| && end - start <= VECTOR_SIZE
      requires Filled(out, mem, types, rows, c) && Obj() !in mem && Obj() != out.vectors && KeyTypes() <= types
      requires c < |KeyTypes()| && Column(Listed()[start..end], c) == Column(rows, c)
      modifies mem
      ensures Filled(out, mem, types, rows, c + 1)
    {
      assert forall i :: 0 <= i < |types| && i != c ==>
          out.vectors[i] != out.vectors[c] && out.vectors[i].nulls != out.vectors[c].nulls;
      match this {
        case OneKey(single, _) => single.EmitKeys(out.vectors[c], start, end);
        case ManyKeys(multi, _) => multi.EmitColumn(c, out.vectors[c], start, end);
      }
    }

    /** Fill the key columns of an output batch with keys start..end. */
    method EmitKeys(out: Batch, start: nat, end: nat,
                    ghost mem: set<object>, ghost types: seq<ColType>, ghost rows: seq<Row>)
      requires Valid() && start <= end <= |Listed()| && end - start <= VECTOR_SIZE
      requires Filled(out, mem, types, rows, 0) && Obj() !in mem && Obj() != out.vectors && KeyTypes() <= types
      requires forall c :: 0 <= c < |KeyTypes()| ==> Column(Listed()[start..end], c) == Column(rows, c)
      modifies mem
      ensures Filled(out, mem, types, rows, |KeyTypes()|)
    {
      ghost var ks := Listed();
      for c := 0 to |KeyTypes()|
        invariant Valid() && Listed() == ks && Filled(out, mem, types, rows, c)
      {
        EmitKey(c, out, start, end, mem, types, rows);
      }
    }
  }

  lemma OneKeyed(vs: array<Vector?>, col: nat, store: set<object>, sel: Selection, part: seq<Row>)
    requires Owned(vs, store) && sel.Valid() && Selects(Cols(vs, store), sel.Idx()) && col < vs.Length
    requires part == LiveRows(Cols(vs, store), sel.Idx())
    ensures KeyedBy([col], part, Gather(vs[col].Cells(), sel.Idx()))
    ensures forall k :: 0 <= k < sel.n ==> sel.Idx()[k] < vs[col].length
  {
    assert Cols(vs, store)[col] == vs[col].Cells();
    PickLive(Cols(vs, store), sel.Idx(), col, []);
    forall k | 0 <= k < |part|
      ensures ProjectRow([col], part[k]) == [Gather(vs[col].Cells(), sel.Idx())[k]]
    {
      assert Gather(vs[col].Cells(), sel.Idx())[k] == Column(part, col)[k];
    }
  }

  /** The table lists the keys, and the aggregators hold the folds, of the rows consumed so far. */
  ghost predicate Grouped(keys: KeyTable, specs: seq<AggRef>, ar: Arith, rows: seq<Row>, aggs: set<object>)
    requires AggsOwned(specs, aggs)
    reads keys.Obj(), aggs
  {
    && keys.Valid() && keys.Listed() == Keys(rows, keys.KeyCols())
    && AllFolded(specs, ar, keys.KeyCols(), Keys(rows, keys.KeyCols()), rows, aggs)
  }

  /** The key columns exist and have the table's key types. */
  ghost predicate KeysFit(keys: KeyTable, types: seq<ColType>) {
    && |keys.KeyCols()| == |keys.KeyTypes()|
    && (forall c :: 0 <= c < |keys.KeyCols()| ==>
          keys.KeyCols()[c] < |types| && types[keys.KeyCols()[c]] == keys.KeyTypes()[c])
  }

  /** Empty the output batch and forget every group; the aggregators keep their room, zeroed. */
  method ResetGroups(keys: KeyTable, specs: seq<AggRef>, out: Batch,
                     ghost ar: Arith, ghost mem: set<object>, ghost aggs: set<object>)
    requires AggsOwned(specs, aggs) && keys.Valid() && keys.Obj() !in aggs
    requires forall i :: 0 <= i < |specs| ==> specs[i].agg.Valid()
    requires Ready(out, mem, keys.KeyTypes() + OutputTypes(specs))
    requires out !in aggs && out.sel !in aggs && out.vectors !in aggs && mem !! aggs
    requires keys.Obj() !in mem && keys.Obj() != out && keys.Obj() != out.vectors && keys.Obj() != out.sel
    modifies keys.Obj(), aggs, mem, out.sel
    ensures Grouped(keys, specs, ar, [], aggs) && Ready(out, mem, keys.KeyTypes() + OutputTypes(specs))
  {
    out.Reset(mem, keys.KeyTypes() + OutputTypes(specs));
    ResetAll(specs, ar, aggs, keys.KeyCols(), []);
    keys.Clear();
  }

  /** Route a batch's rows to their groups, make room, and update every aggregator. */
  method Ingest(keys: KeyTable, specs: seq<AggRef>, vs: array<Vector?>, sel: Selection,
                ghost ar: Arith, ghost types: seq<ColType>, ghost store: set<object>, ghost aggs: set<object>,
                ghost rows: seq<Row>, ghost part: seq<Row>) returns (gids: seq<nat>)
    requires Feeds(specs, ar, vs, sel, types, part, store, aggs) && part != []
    requires KeyColumns(vs, keys.KeyCols(), keys.KeyTypes()) && keys.Obj() !in store + aggs && sel != keys.Obj()
    requires Grouped(keys, specs, ar, rows, aggs) && |Keys(rows + part, keys.KeyCols())| <= 0x8000_0000
    modifies keys.Obj(), aggs
    ensures Grouped(keys, specs, ar, rows + part, aggs)
  {
    var groups;
    gids, groups := keys.Assign(vs, sel, store, rows, part);
    UpdateGroups(specs, vs, sel, gids, groups, ar, types, store, aggs, keys.KeyCols(), rows, part);
  }

  /** The output columns of a window: the key columns, then one column per aggregate. */
  lemma WindowColumns(kc: seq<nat>, kt: seq<ColType>, specs: seq<AggRef>, ar: Arith, rows: seq<Row>,
                      start: nat, end: nat)
    requires start <= end <= |Keys(rows, kc)| && end - start <= VECTOR_SIZE
    requires |kc| == |kt| && forall i :: 0 <= i < |specs| ==> specs[i].agg.ar == ar
    ensures var ks, window := Keys(rows, kc)[start..end], GroupRows(ar, kc, SpecsOf(specs), rows)[start..end];
            && (forall c :: 0 <= c < |kc| ==> Column(ks, c) == Column(window, c))
            && AggColumns(specs, ar, |kc|, kt + OutputTypes(specs), kc, ks, rows, window)
            && (forall k :: 0 <= k < |window| ==> |window[k]| == |kc| + |specs|)
  {
    var aggSpecs, all := SpecsOf(specs), GroupRows(ar, kc, SpecsOf(specs), rows);
    KeysWidth(rows, kc);
    forall c | 0 <= c < |kc|
      ensures Column(all[start..end], c) == Column(Keys(rows, kc)[start..end], c)
    {
      KeyColumn(ar, kc, aggSpecs, rows, c);
      ColumnSlice(all, c, start, end);
      ColumnSlice(Keys(rows, kc), c, start, end);
    }
    forall i | 0 <= i < |specs|
      ensures Column(all[start..end], |kc| + i) == Results(ar, SpecOf(specs[i]), kc, Keys(rows, kc)[start..end], rows)
    {
      AggColumn(ar, kc, aggSpecs, rows, i);
      ColumnSlice(all, |kc| + i, start, end);
      ResultsSlice(ar, SpecOf(specs[i]), kc, Keys(rows, kc), rows, start, end);
    }
  }

  /** Refill an output batch with groups start..end, all selected. */
  method EmitGroups(keys: KeyTable, specs: seq<AggRef>, out: Batch, start: nat, end: nat,
                    ghost ar: Arith, ghost mem: set<object>, ghost aggs: set<object>, ghost rows: seq<Row>)
    requires AggsOwned(specs, aggs) && Grouped(keys, specs, ar, rows, aggs)
    requires forall i :: 0 <= i < |specs| ==> specs[i].agg.ar == ar
    requires start < end <= |Keys(rows, keys.KeyCols())| && end - start <= VECTOR_SIZE
    requires Ready(out, mem, keys.KeyTypes() + OutputTypes(specs))
    requires mem !! aggs && keys.Obj() !in mem && keys.Obj() != out.vectors && keys.Obj() != out.sel && out.sel !in aggs
    modifies mem, out.sel
    ensures Ready(out, mem, keys.KeyTypes() + OutputTypes(specs))
    ensures Shows(out, GroupRows(ar, keys.KeyCols(), SpecsOf(specs), rows)[start..end], mem + {out.vectors})
  {
    ghost var types := keys.KeyTypes() + OutputTypes(specs);
    out.Reset(mem, types);
    FillWindow(keys, specs, out, start, end, ar, mem, aggs, rows);
    SelectAll(out.sel, end - start);
    WindowColumns(keys.KeyCols(), keys.KeyTypes(), specs, ar, rows, start, end);
    ShowWindow(out, mem, types, GroupRows(ar, keys.KeyCols(), SpecsOf(specs), rows)[start..end]);
  }

  method FillWindow(keys: KeyTable, specs: seq<AggRef>, out: Batch, start: nat, end: nat,
                    ghost ar: Arith, ghost mem: set<object>, ghost aggs: set<object>, ghost rows: seq<Row>)
    requires AggsOwned(specs, aggs) && Grouped(keys, specs, ar, rows, aggs)
    requires forall i :: 0 <= i < |specs| ==> specs[i].agg.ar == ar
    requires start < end <= |Keys(rows, keys.KeyCols())| && end - start <= VECTOR_SIZE
    requires Filled(out, mem, keys.KeyTypes() + OutputTypes(specs), [], 0)
    requires mem !! aggs && keys.Obj() !in mem && keys.Obj() != out.vectors
    modifies mem
    ensures var types := keys.KeyTypes() + OutputTypes(specs);
            Filled(out, mem, types, GroupRows(ar, keys.KeyCols(), SpecsOf(specs), rows)[start..end], |types|)
  {
    ghost var types, kc := keys.KeyTypes() + OutputTypes(specs), keys.KeyCols();
    ghost var window := GroupRows(ar, kc, SpecsOf(specs), rows)[start..end];
    WindowColumns(keys.KeyCols(), keys.KeyTypes(), specs, ar, rows, start, end);
    keys.EmitKeys(out, start, end, mem, types, window);
    FinalizeAll(specs, out, |keys.KeyCols()|, start, end, ar, mem, types, aggs, kc, Keys(rows, kc), rows, window);
  }
}
