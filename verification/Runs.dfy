/** Whole runs of an operator tree: draining it, interleaving calls, stacking filters. */
module Runs {
  import opened Types
  import opened Storage
  import opened Relation
  import opened Batches
  import opened Exec

  /** Read the live rows out of a batch, as a consumer iterates them. */
  method ReadBatch(b: Batch, ghost store: set<object>, ghost want: seq<Row>) returns (rows: seq<Row>)
    requires Shows(b, want, store)
    ensures rows == want
  {
    rows := [];
    for k := 0 to b.sel.n
      invariant rows == want[..k]
    {
      var row := ReadRow(b.vectors, b.sel.buf[k], store);
      assert want[k] == row;
      rows := rows + [row];
    }
  }

  method ReadRow(vs: array<Vector?>, i: nat, ghost store: set<object>) returns (row: Row)
    requires Owned(vs, store) && forall c :: 0 <= c < vs.Length ==> i < |Cols(vs, store)[c]|
    ensures row == RowAt(Cols(vs, store), i)
  {
    row := [];
    for c := 0 to vs.Length
      invariant row == RowAt(Cols(vs, store), i)[..c]
    {
      assert Cols(vs, store)[c] == vs[c].Cells();
      var cell := vs[c].Get(i);
      row := row + [cell];
    }
  }

  lemma SliceConcat<T>(s: seq<T>, a: nat, b: nat, c: nat)
    requires a <= b <= c <= |s|
    ensures s[a..b] + s[b..c] == s[a..c]
  {}

  /** One call of Next: the rows of the batch it hands over, none at the end. */
  method PullRows(op: Op, ghost pool: set<Selection>, ghost before: nat)
    returns (more: bool, rows: seq<Row>, ghost after: nat)
    requires op.At(pool, before)
    modifies op.Reach(pool)
    ensures op.At(pool, after) && before <= after <= |op.All()| && rows == op.All()[before..after]
    ensures if more then before < after else after == |op.All()|
  {
    hide Op.At, Ascending;
    op.AtFooted(pool, before);
    var b;
    b, after := op.Pull(pool, before);
    more := b != null;
    if more {
      rows := ReadBatch(b, op.Store(), op.All()[before..after]);
    } else {
      rows := [];
    }
  }

  /** Call Next until it reports the end: exactly the rows not emitted yet, however they are cut into batches. */
  method Drain(op: Op, ghost pool: set<Selection>, ghost pos: nat) returns (rows: seq<Row>)
    requires op.At(pool, pos)
    modifies op.Reach(pool)
    ensures op.At(pool, |op.All()|) && pos <= |op.All()| && rows == op.All()[pos..]
  {
    rows := [];
    ghost var now: nat, all := pos, op.All();
    var more := true;
    while more
      invariant op.At(pool, now) && pos <= now <= |all| && rows == all[pos..now]
      invariant !more ==> now == |all|
      decreases more, |all| - now
    {
      var part;
      ghost var before := now;
      more, part, now := PullRows(op, pool, now);
      SliceConcat(all, pos, before, now);
      rows := rows + part;
    }
  }

  datatype Call = CallNext | CallReset

  /**
   * Reset is replay: after any script of calls, a reset and a drain give what a fresh tree
   * gives, although every buffer, hash table and selection has been reused.
   */
  method Replay(op: Op, script: seq<Call>, ghost pool: set<Selection>) returns (rows: seq<Row>)
    requires op.At(pool, 0)
    modifies op.Reach(pool)
    ensures op.At(pool, |op.All()|) && rows == op.All()
  {
    ghost var now: nat := 0;
    for i := 0 to |script|
      invariant op.At(pool, now)
    {
      match script[i] {
        case CallNext =>
          var b;
          b, now := op.Pull(pool, now);
        case CallReset =>
          op.Restart(pool, now);
          now := 0;
      }
    }
    op.Restart(pool, now);
    rows := Drain(op, pool, 0);
  }

  // ----- filters stacked on a scan -----

  /** A row passes a stack of filters when it passes each of them. */
  predicate Passes(preds: seq<(nat, Pred)>, r: Row) {
    forall i :: 0 <= i < |preds| ==> Match(preds[i].1, CellOf(r, preds[i].0))
  }

  function Survivors(preds: seq<(nat, Pred)>, rows: seq<Row>): seq<Row> {
    if rows == [] then []
    else
      var n := |rows| - 1;
      Survivors(preds, rows[..n]) + (if Passes(preds, rows[n]) then [rows[n]] else [])
  }

  lemma {:induction false} FilterSurvivors(preds: seq<(nat, Pred)>, q: (nat, Pred), rows: seq<Row>)
    ensures FilterRows(q.1, q.0, Survivors(preds, rows)) == Survivors(preds + [q], rows)
  {
    if rows != [] {
      var n := |rows| - 1;
      FilterSurvivors(preds, q, rows[..n]);
      PassesSnoc(preds, q, rows[n]);
      var last := if Passes(preds, rows[n]) then [rows[n]] else [];
      FilterConcat(q.1, q.0, Survivors(preds, rows[..n]), last);
      assert FilterRows(q.1, q.0, last) == if Passes(preds + [q], rows[n]) then [rows[n]] else [] by {
        if last != [] {
          assert last[..0] == [];
        }
      }
    }
  }

  lemma PassesSnoc(preds: seq<(nat, Pred)>, q: (nat, Pred), r: Row)
    ensures Passes(preds + [q], r) <==> Passes(preds, r) && Match(q.1, CellOf(r, q.0))
  {
    var all := preds + [q];
    if Passes(all, r) {
      forall i | 0 <= i < |preds|
        ensures Match(preds[i].1, CellOf(r, preds[i].0))
      {
        assert all[i] == preds[i];
      }
      assert all[|preds|] == q;
    }
  }

  lemma {:induction false} SurvivorsOfNone(rows: seq<Row>)
    ensures Survivors([], rows) == rows
  {
    if rows != [] {
      SurvivorsOfNone(rows[..|rows| - 1]);
    }
  }

  /** Put one more filter on a stack. */
  method StackOne(child: Op, col: nat, p: Pred, ghost cpool: set<Selection>)
    returns (op: Op, ghost pool: set<Selection>)
    requires child.At(cpool, 0) && child.Direct()
    requires col < |child.ColTypes()| && child.ColTypes()[col] == PredType(p)
    ensures op.Filter? && op.At(pool, 0) && op.ColTypes() == child.ColTypes()
    ensures op.All() == FilterRows(p, col, child.All()) && fresh(op.Reach(pool) - child.Reach(cpool))
    ensures |pool| == |cpool| + 1
  {
    var filter := new FilterOp(child, col, p, cpool);
    op, pool := Filter(filter), cpool + {filter.tempSel};
  }

  /**
   * Stack one filter per predicate on a scan. The scan's selection and the filters' scratch
   * selections are as many distinct objects, and the stack emits exactly the rows that are
   * non-null and true for every predicate, in table order.
   */
  method StackFilters(src: seq<Chunk>, rowCount: nat, preds: seq<(nat, Pred)>)
    returns (op: Op, ghost pool: set<Selection>)
    requires Aligned(src, rowCount, ChunkTypes(src))
    requires forall i :: 0 <= i < |preds| ==> preds[i].0 < |src| && src[preds[i].0].typ == PredType(preds[i].1)
    ensures (op.Scan? || op.Filter?) && op.ColTypes() == ChunkTypes(src)
    ensures op.At(pool, 0) && fresh(op.Reach(pool)) && |pool| == |preds| + 1
    ensures op.All() == Survivors(preds, TableRows(src, rowCount))
    decreases |preds|
  {
    hide Op.At, Ascending, FilterRows, Survivors, TableRows;
    if preds == [] {
      var scan := new ScanOp(src, rowCount);
      op, pool := Scan(scan), {scan.batch.sel};
      SurvivorsOfNone(TableRows(src, rowCount));
    } else {
      var n := |preds| - 1;
      op, pool := StackFilters(src, rowCount, preds[..n]);
      FilterSurvivors(preds[..n], preds[n], TableRows(src, rowCount));
      SplitLast(preds);
      op, pool := StackOne(op, preds[n].0, preds[n].1, pool);
    }
  }

  /** The scratch selections of the filters of a segment, the lowest first. */
  ghost function Scratch(op: Op): seq<Selection>
    requires op.Valid()
    reads op.Obj(), op.Repr()
    decreases op.Height()
  {
    match op
    case Filter(f) => assert f.Inv(); Scratch(f.child) + [f.tempSel]
    case Project(p) => assert p.Inv(); Scratch(p.child)
    case Limit(l) => assert l.Inv(); Scratch(l.child)
    case _ => []
  }

  /** A segment's selections: the one bound to its batch, and one scratch selection a filter. */
  ghost function StackSelections(op: Op): seq<Selection>
    requires op.Valid()
    reads op.Obj(), op.Repr(), op.Source()
  {
    [op.Source().sel] + Scratch(op)
  }

  ghost predicate AllDistinct<T>(s: seq<T>) {
    forall i, j :: 0 <= i < j < |s| ==> s[i] != s[j]
  }

  lemma {:induction false} HeldDistinct(op: Op, pool: set<Selection>, live: Selection)
    requires op.Valid() && op.Held(pool, live)
    ensures AllDistinct([live] + Scratch(op)) && |pool| == 1 + |Scratch(op)|
    ensures live in pool && forall i :: 0 <= i < |Scratch(op)| ==> Scratch(op)[i] in pool
    decreases op.Height()
  {
    if op.Filter? {
      var f := op.filter;
      var rest := pool - {f.tempSel};
      HeldDistinct(f.child, rest, live);
      DistinctSnoc([live] + Scratch(f.child), f.tempSel);
      assert [live] + Scratch(op) == [live] + Scratch(f.child) + [f.tempSel];
      assert pool == rest + {f.tempSel};
    } else if op.Project? {
      HeldDistinct(op.project.child, pool, live);
    } else if op.Limit? {
      HeldDistinct(op.limit.child, pool, live);
    }
  }

  lemma DistinctSnoc<T>(s: seq<T>, x: T)
    requires AllDistinct(s) && forall i :: 0 <= i < |s| ==> s[i] != x
    ensures AllDistinct(s + [x])
  {}

  /**
   * At every point of every run the k + 1 selections of a segment with k filters are pairwise
   * distinct objects, each with room for a whole batch and with strictly increasing positions
   * inside it, so no predicate ever reads and writes one buffer.
   */
  lemma {:induction false} StackKeepsSelections(op: Op, pool: set<Selection>, pos: nat)
    requires op.At(pool, pos)
    ensures var sels := StackSelections(op);
            && AllDistinct(sels) && |sels| == |pool|
            && forall i :: 0 <= i < |sels| ==>
                 && sels[i] in pool && sels[i].n <= |sels[i].buf| == VECTOR_SIZE
                 && (forall k :: 0 <= k < sels[i].n ==> sels[i].buf[k] < VECTOR_SIZE)
                 && (forall j, k :: 0 <= j < k < sels[i].n ==> sels[i].buf[j] < sels[i].buf[k])
  {
    HeldDistinct(op, pool, op.Source().sel);
  }

  /** Any run of a stack, reset and drained: the rows that are non-null and true for every predicate. */
  method RunStack(src: seq<Chunk>, rowCount: nat, preds: seq<(nat, Pred)>, script: seq<Call>) returns (rows: seq<Row>)
    requires Aligned(src, rowCount, ChunkTypes(src))
    requires forall i :: 0 <= i < |preds| ==> preds[i].0 < |src| && src[preds[i].0].typ == PredType(preds[i].1)
    ensures rows == Survivors(preds, TableRows(src, rowCount))
  {
    var op;
    ghost var pool;
    op, pool := StackFilters(src, rowCount, preds);
    rows := Replay(op, script, pool);
  }
}
