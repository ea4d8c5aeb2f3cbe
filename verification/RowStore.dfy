/** The materialising half of exec/orderby.go: rows kept column by column, and their sorted order. */
module RowStores {
  import opened Types
  import opened Storage
  import opened Relation
  import opened Batches
  import opened Sorting

  /** collectedCol: the values and null flags of one column; nulls hold a placeholder value. */
  datatype CollectedCol = CollectedCol(typ: ColType, vals: seq<Scalar>, nulls: seq<bool>)

  /** col is column c of rows. */
  ghost predicate ColHolds(col: CollectedCol, rows: seq<Row>, c: nat, t: ColType) {
    && col.typ == t && |col.vals| == |col.nulls| == |rows|
    && Show(col.vals, col.nulls) == Column(rows, c)
    && (forall k :: 0 <= k < |rows| && !col.nulls[k] ==> Fits(col.vals[k], t))
  }

  lemma ColSnoc(col: CollectedCol, rows: seq<Row>, r: Row, c: nat, t: ColType, v: Scalar)
    requires ColHolds(col, rows, c, t) && c < |r|
    requires r[c].Val? ==> v == r[c].v && Fits(v, t)
    ensures ColHolds(CollectedCol(t, col.vals + [v], col.nulls + [r[c].Null?]), rows + [r], c, t)
  {
    assert Column(rows + [r], c) == Column(rows, c) + [r[c]];
  }

  class RowStore {
    var cols: seq<CollectedCol>
    var perm: seq<nat>
    var totalRows: nat

    /** Every column of rows is stored. */
    ghost predicate Table(rows: seq<Row>, types: seq<ColType>)
      reads this
    {
      && totalRows == |rows| && |cols| == |types|
      && (forall k :: 0 <= k < |rows| ==> |rows[k]| == |types|)
      && forall c :: 0 <= c < |types| ==> ColHolds(cols[c], rows, c, types[c])
    }

    /** The same, except that the columns are only set up by the first batch. */
    ghost predicate Holds(rows: seq<Row>, types: seq<ColType>)
      reads this
    {
      Table(rows, types) || (rows == [] && cols == [] && totalRows == 0)
    }

    constructor ()
      ensures cols == [] && perm == [] && totalRows == 0
    {
      cols, perm, totalRows := [], [], 0;
    }

    /** Drop the rows and empty the output batch. */
    method Reset(out: Batch, ghost mem: set<object>, ghost types: seq<ColType>)
      requires Ready(out, mem, types) && this !in mem
      modifies this, mem, out.sel
      ensures Holds([], types) && Ready(out, mem, types)
    {
      cols, perm, totalRows := [], [], 0;
      out.Reset(mem, types);
    }

    /** Append the selected rows of a batch, whose live rows are part. */
    method Collect(vs: array<Vector?>, sel: Selection, ghost store: set<object>, ghost types: seq<ColType>,
                   ghost rows: seq<Row>, ghost part: seq<Row>)
      requires Holds(rows, types) && this !in store && Owned(vs, store) && Typed(vs, types)
      requires sel.Valid() && Selects(Cols(vs, store), sel.Idx()) && part == LiveRows(Cols(vs, store), sel.Idx())
      requires Storable(part)
      modifies this
      ensures Table(rows + part, types)
    {
      if cols == [] {
        cols := seq(vs.Length, c requires 0 <= c < vs.Length && Owned(vs, store) reads store =>
                                 CollectedCol(vs[c].typ, [], []));
      }
      assert rows + part[..0] == rows;
      LiveRowsFit(vs, store, types, sel.Idx());
      for k := 0 to sel.n
        invariant Table(rows + part[..k], types)
      {
        assert Storable([part[k]]);
        CollectRow(vs, sel.buf[k], store, types, rows + part[..k], part[k]);
        assert rows + part[..k] + [part[k]] == rows + part[..k + 1];
      }
      assert part[..sel.n] == part;
    }

    /** Append row i of a batch to every column; a Bool column stores no value. */
    method CollectRow(vs: array<Vector?>, i: nat, ghost store: set<object>, ghost types: seq<ColType>,
                      ghost rows: seq<Row>, ghost r: Row)
      requires Table(rows, types) && this !in store && Owned(vs, store) && Typed(vs, types)
      requires r == RowAt(Cols(vs, store), i) && RowFits(r, types) && Storable([r])
      requires forall c :: 0 <= c < vs.Length ==> i < |Cols(vs, store)[c]|
      modifies this
      ensures Table(rows + [r], types)
    {
      for c := 0 to |cols|
        invariant totalRows == |rows| && |cols| == |types|
        invariant forall d :: 0 <= d < c ==> ColHolds(cols[d], rows + [r], d, types[d])
        invariant forall d :: c <= d < |types| ==> ColHolds(cols[d], rows, d, types[d])
      {
        assert Cols(vs, store)[c] == vs[c].Cells();
        var cell := vs[c].Get(i);
        assert [r][0][c] == cell;
        var col, v := cols[c], if cell.Null? || vs[c].typ == TBool then Zero(vs[c].typ) else cell.v;
        ColSnoc(col, rows, r, c, types[c], v);
        cols := cols[c := CollectedCol(col.typ, col.vals + [v], col.nulls + [cell.Null?])];
      }
      totalRows := totalRows + 1;
    }

    /** Sort the row numbers by one column; an empty store has nothing to sort. */
    method Sort(sortCol: nat, asc: bool, ghost rows: seq<Row>, ghost types: seq<ColType>)
      requires Holds(rows, types) && sortCol < |types|
      modifies `perm
      ensures Holds(rows, types) && perm == SortPerm(LessOf(Column(rows, sortCol), asc), |rows|)
      ensures Sorted(rows, types, OrderRows(rows, sortCol, asc))
    {
      SortPermPermutes(LessOf(Column(rows, sortCol), asc), |rows|);
      if totalRows == 0 {
        perm := [];
      } else {
        var sc := cols[sortCol];
        perm := SliceStable(LessOf(Show(sc.vals, sc.nulls), asc), totalRows);
      }
    }

    /** The stored rows in sorted order are ordered. */
    ghost predicate Sorted(rows: seq<Row>, types: seq<ColType>, ordered: seq<Row>)
      reads this
    {
      && Holds(rows, types) && |perm| == |rows| && (forall i :: 0 <= i < |perm| ==> perm[i] < |rows|)
      && ordered == Arrange(rows, perm)
    }

    /** Append column c of the ordered rows start..end. */
    method EmitColumn(c: nat, out: Vector, start: nat, end: nat,
                      ghost rows: seq<Row>, ghost types: seq<ColType>, ghost ordered: seq<Row>)
      requires Sorted(rows, types, ordered) && start < end <= |ordered| && end - start <= VECTOR_SIZE
      requires c < |types| && out.Valid() && out.length == 0 && out.typ == types[c]
      modifies out, out.nulls
      ensures out.Valid() && out.Cells() == Column(ordered[start..end], c)
    {
      var col := cols[c];
      assert ColHolds(col, rows, c, types[c]);
      ghost var cells := Column(rows, c);
      for ri := start to end
        invariant out.Valid() && out.Cells() == Column(ordered[start..ri], c)
      {
        var srcRow := perm[ri];
        ColumnSnoc(ordered, start, ri, c);
        assert out.length == |out.Cells()|;
        assert CellOf(ordered[ri], c) == cells[srcRow] == Show(col.vals, col.nulls)[srcRow];
        if col.nulls[srcRow] {
          var _ := out.AppendNull();
        } else {
          var _ := out.Append(col.vals[srcRow]);
        }
      }
    }

    method EmitOne(c: nat, out: Batch, start: nat, end: nat, ghost mem: set<object>,
                   ghost rows: seq<Row>, ghost types: seq<ColType>, ghost ordered: seq<Row>)
      requires Sorted(rows, types, ordered) && start < end <= |ordered| && end - start <= VECTOR_SIZE
      requires Filled(out, mem, types, ordered[start..end], c) && this !in mem && c < |types|
      modifies mem
      ensures Filled(out, mem, types, ordered[start..end], c + 1)
    {
      assert forall i :: 0 <= i < |types| && i != c ==>
          out.vectors[i] != out.vectors[c] && out.vectors[i].nulls != out.vectors[c].nulls;
      EmitColumn(c, out.vectors[c], start, end, rows, types, ordered);
    }

    method EmitColumns(out: Batch, start: nat, end: nat, ghost mem: set<object>,
                       ghost rows: seq<Row>, ghost types: seq<ColType>, ghost ordered: seq<Row>)
      requires Sorted(rows, types, ordered) && start < end <= |ordered| && end - start <= VECTOR_SIZE
      requires Filled(out, mem, types, ordered[start..end], 0) && this !in mem
      modifies mem
      ensures Filled(out, mem, types, ordered[start..end], |types|)
    {
      for c := 0 to |cols|
        invariant Sorted(rows, types, ordered) && Filled(out, mem, types, ordered[start..end], c)
      {
        EmitOne(c, out, start, end, mem, rows, types, ordered);
      }
    }

    /** Refill an output batch with the ordered rows start..end, all selected. */
    method EmitWindow(out: Batch, start: nat, end: nat, ghost mem: set<object>,
                      ghost rows: seq<Row>, ghost types: seq<ColType>, ghost ordered: seq<Row>)
      requires Sorted(rows, types, ordered) && start < end <= |ordered| && end - start <= VECTOR_SIZE
      requires Ready(out, mem, types) && this !in mem
      modifies mem, out.sel
      ensures Ready(out, mem, types)
      ensures Shows(out, ordered[start..end], mem + {out.vectors})
    {
      out.Reset(mem, types);
      EmitColumns(out, start, end, mem, rows, types, ordered);
      SelectAll(out.sel, end - start);
      ShowWindow(out, mem, types, ordered[start..end]);
    }
  }
}
