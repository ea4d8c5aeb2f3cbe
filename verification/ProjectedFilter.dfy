/**
 * exec/filter.go over exec/project.go over exec/scan.go: a tree the planner never builds, and what
 * the code does on it. A projection hands the scan's own selection on in a batch of its own, so the
 * filter's swap leaves the scan's selection as its scratch, and from then on both are one object.
 */
module ProjectedFilters {
  import opened Types
  import opened Bitmap
  import opened Storage
  import opened Relation
  import opened Batches
  import opened Predicates
  import opened Exec
  import opened Runs

  /** What the filter keeps of the first batch. */
  function FirstKept(pred: Pred, col: nat, rows: seq<Row>): seq<Row> {
    FilterRows(pred, col, Take(rows, VECTOR_SIZE))
  }

  /** FilterOp with a projection of a scan as its child. */
  class ViewFilter {
    const child: ProjectOp
    const col: nat
    const pred: Pred
    var tempSel: Selection

    ghost predicate Wired() {
      && child.child.Scan? && Project(child).Footed()
      && col < |child.foot.types| && child.foot.types[col] == PredType(pred)
    }

    /** Ready to be called; apart says whether the scratch selection is still one of its own. */
    ghost predicate At(live: Selection, pos: nat, apart: bool)
      reads this, tempSel, child, Project(child).Reach({live})
    {
      && this !in Project(child).Reach({live})
      && Wired() && child.Inv() && Project(child).SelInv({live}) && child.pos == pos <= |child.All()| && tempSel.Valid()
      && (if apart then tempSel !in Project(child).Reach({live}) else tempSel == live)
    }

    constructor (child: ProjectOp, col: nat, pred: Pred, ghost live: Selection)
      requires child.child.Scan? && Project(child).At({live}, 0)
      requires col < |child.foot.types| && child.foot.types[col] == PredType(pred)
      ensures At(live, 0, true) && fresh(tempSel) && this.child == child && this.col == col && this.pred == pred
    {
      this.child, this.col, this.pred := child, col, pred;
      tempSel := new Selection();
    }

    /** The body of the loop: evaluate into the scratch selection and swap it with the batch's. */
    method Step(ghost live: Selection, ghost pos: nat, ghost apart: bool) returns (b: Batch?, ghost after: nat)
      requires At(live, pos, apart) && (apart ==> pos == 0)
      modifies this, tempSel, Project(child).Reach({live})
      ensures b == null ==> pos == after == |child.All()| && At(live, after, apart) && tempSel == old(tempSel)
      ensures b != null ==> pos < after <= |child.All()| && At(live, after, false)
      ensures b != null && apart ==> Shows(b, FirstKept(pred, col, child.All()), child.foot.store)
      ensures b != null && !apart ==> b.sel.n == 0
    {
      hide Op.Valid, Ascending, Selects, LiveRows, FilterRows;
      b := child.Next({live});
      after := child.pos;
      if b != null {
        Swap(b, live, apart, child.All()[pos..after]);
        if apart {
          FilterIsPick(pred, col, child.All()[pos..after]);
          assert child.All()[pos..after] == Take(child.All(), VECTOR_SIZE);
        }
      }
    }

    /** Swap the evaluated selection in; the old one becomes the scratch. */
    method Swap(b: Batch, ghost live: Selection, ghost apart: bool, ghost rows: seq<Row>)
      requires At(live, child.pos, apart) && b == child.out && Live(Project(child), b, rows, {live})
      modifies `tempSel, b, tempSel
      ensures At(live, child.pos, false) && child.pos == old(child.pos)
      ensures apart ==> Shows(b, Pick(rows, Kept(pred, Column(rows, col))), child.foot.store)
      ensures !apart ==> b.sel.n == 0
    {
      hide Op.Valid, Ascending, Selects, LiveRows;
      Evaluate(b, live, apart, rows);
      b.sel, tempSel := tempSel, b.sel;
    }

    /** The first time the scratch selection takes the survivors; afterwards input and output are one object. */
    method Evaluate(b: Batch, ghost live: Selection, ghost apart: bool, ghost rows: seq<Row>)
      requires At(live, child.pos, apart) && b == child.out && Live(Project(child), b, rows, {live})
      modifies tempSel
      ensures At(live, child.pos, apart) && b.sel == live && Owned(b.vectors, child.foot.store)
      ensures var cols, idx := Cols(b.vectors, child.foot.store), tempSel.Idx();
              apart ==> Selects(cols, idx) && LiveRows(cols, idx) == Pick(rows, Kept(pred, Column(rows, col)))
      ensures !apart ==> tempSel.n == 0
    {
      hide Op.Valid, FilterRows;
      ghost var cols := Cols(b.vectors, child.foot.store);
      assert cols[col] == b.vectors[col].Cells();
      PickLive(cols, b.sel.Idx(), col, Kept(pred, Column(rows, col)));
      Eval(pred, b.vectors[col], b.sel, tempSel);
    }

    /** FilterOp.Next: batches that keep no row are skipped. */
    method Next(ghost live: Selection, ghost pos: nat, ghost apart: bool)
      returns (b: Batch?, ghost after: nat, ghost still: bool)
      requires At(live, pos, apart) && (apart ==> pos == 0)
      modifies this, tempSel, Project(child).Reach({live})
      ensures At(live, after, still) && (still ==> apart && b == null && child.All() == [])
      ensures after <= |child.All()| && (b != null ==> pos < after) && tempSel == if still then old(tempSel) else live
      ensures b != null ==> apart && Shows(b, FirstKept(pred, col, child.All()), child.foot.store)
      ensures b != null ==> FirstKept(pred, col, child.All()) != []
      ensures b == null ==> after == |child.All()| && (apart ==> FirstKept(pred, col, child.All()) == [])
    {
      hide Op.Valid, Op.SelInv, ProjectOp.Inv, Ascending, FilterRows;
      after, still := pos, apart;
      while true
        invariant At(live, after, still) && after <= |child.All()| && (still ==> apart && after == 0)
        invariant apart && !still ==> FirstKept(pred, col, child.All()) == []
        invariant tempSel == if still then old(tempSel) else live
        decreases |child.All()| - after
      {
        ghost var before := after;
        b, after := Step(live, before, still);
        if b == null {
          NothingKept(pred, col);
          return;
        }
        if b.sel.n != 0 {
          still := false;
          return;
        }
        still := false;
      }
    }

    /** FilterOp.Reset: rewind the child and clear the scratch selection. */
    method Reset(ghost live: Selection, ghost pos: nat, ghost apart: bool)
      requires At(live, pos, apart)
      modifies this, tempSel, Project(child).Reach({live})
      ensures At(live, 0, apart) && tempSel == old(tempSel)
    {
      hide Op.Valid, Ascending;
      child.Reset({live});
      tempSel.Reset();
    }
  }

  lemma NothingKept(pred: Pred, col: nat)
    ensures FirstKept(pred, col, []) == []
  {}

  /** Call Next until it reports the end. */
  method Drain(f: ViewFilter, ghost live: Selection, ghost apart: bool) returns (rows: seq<Row>, ghost still: bool)
    requires f.At(live, 0, apart)
    modifies f, f.tempSel, Project(f.child).Reach({live})
    ensures rows == if apart then FirstKept(f.pred, f.col, f.child.All()) else []
    ensures f.At(live, |f.child.All()|, still) && (still ==> apart && f.child.All() == [])
    ensures f.tempSel == if still then old(f.tempSel) else live
  {
    hide Op.Valid, Op.SelInv, ProjectOp.Inv, Ascending, FirstKept;
    ghost var pos: nat := 0;
    still := apart;
    rows := [];
    var more := true;
    while more
      invariant f.At(live, pos, still) && pos <= |f.child.All()| && (still ==> apart && pos == 0)
      invariant f.tempSel == if still then old(f.tempSel) else live
      invariant rows == if apart && !still then FirstKept(f.pred, f.col, f.child.All()) else []
      invariant !more ==> pos == |f.child.All()|
      decreases more, |f.child.All()| - pos
    {
      var b;
      b, pos, still := f.Next(live, pos, still);
      more := b != null;
      if more {
        var part := ReadBatch(b, f.child.foot.store, FirstKept(f.pred, f.col, f.child.All()));
        rows := rows + part;
      }
    }
    NothingKept(f.pred, f.col);
  }

  /**
   * A filter above a projection of a scan keeps the matching rows of the first batch and loses all
   * later ones; after a Reset it keeps nothing at all.
   */
  method FilterAboveProject(src: seq<Chunk>, rowCount: nat, cols: seq<nat>, col: nat, pred: Pred)
    returns (first: seq<Row>, again: seq<Row>)
    requires Aligned(src, rowCount, ChunkTypes(src)) && forall i :: 0 <= i < |cols| ==> cols[i] < |src|
    requires col < |cols| && src[cols[col]].typ == PredType(pred)
    ensures first == FirstKept(pred, col, ProjectRows(cols, TableRows(src, rowCount))) && again == []
  {
    hide Op.Valid, Op.Held, Ascending, ViewFilter.At, FirstKept, TableRows;
    var scan := new ScanOp(src, rowCount);
    ghost var live := scan.batch.sel;
    var project := new ProjectOp(Scan(scan), cols, {live});
    var f := new ViewFilter(project, col, pred, live);
    ghost var apart;
    first, apart := Drain(f, live, true);
    f.Reset(live, |project.All()|, apart);
    again, apart := Drain(f, live, apart);
    NothingKept(pred, col);
  }

  /** So the answer is right exactly when no row behind the first batch matches. */
  lemma {:induction false} FirstBatchSuffices(pred: Pred, col: nat, rows: seq<Row>)
    ensures FirstKept(pred, col, rows) == FilterRows(pred, col, rows)
            <==> forall i :: 1024 <= i < |rows| ==> !Match(pred, CellOf(rows[i], col))
  {
    if |rows| > VECTOR_SIZE {
      FilterConcat(pred, col, rows[..VECTOR_SIZE], rows[VECTOR_SIZE..]);
      assert rows[..VECTOR_SIZE] + rows[VECTOR_SIZE..] == rows;
      NoneKept(pred, col, rows[VECTOR_SIZE..]);
    }
  }

  lemma {:induction false} NoneKept(pred: Pred, col: nat, rows: seq<Row>)
    ensures FilterRows(pred, col, rows) == [] <==> forall i :: 0 <= i < |rows| ==> !Match(pred, CellOf(rows[i], col))
  {
    if rows != [] {
      NoneKept(pred, col, rows[..|rows| - 1]);
    }
  }

  /** A column of one value more than a batch holds, each of them 7. */
  function Sevens(): Chunk {
    Chunk("k", TInt64, seq(1025, _ => SInt(7)), seq(129, _ => 0))
  }

  /** Asked for the rows that are 7, the filter loses the last one. */
  lemma {:induction false} RowLost()
    ensures var rows, pred := ProjectRows([0], TableRows([Sevens()], 1025)), IntCmp(Eq, 7);
            && Aligned([Sevens()], 1025, ChunkTypes([Sevens()]))
            && Match(pred, CellOf(rows[1024], 0))
            && FirstKept(pred, 0, rows) != FilterRows(pred, 0, rows)
  {
    hide FilterRows, Bits;
    var c, rows := Sevens(), ProjectRows([0], TableRows([Sevens()], 1025));
    ClearBits(c.nulls);
    assert CellOf(rows[1024], 0) == Cells(c)[1024] == Val(SInt(7));
    FirstBatchSuffices(IntCmp(Eq, 7), 0, rows);
  }
}
