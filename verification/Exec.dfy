/** exec/operator.go and the operators: pull-based, reusing their buffers. */
module Exec {
  import opened Types
  import opened Storage
  import opened Relation
  import opened Batches
  import opened Predicates
  import opened Aggregation
  import opened Aggregators
  import opened GroupKeys
  import opened GroupTables
  import opened Sorting
  import opened RowStores

  /**
   * What is fixed about an operator at construction: repr, the objects it may change besides
   * the batch a segment narrows and that segment's selections; store, the part of repr that
   * holds the vectors of the emitted batches; source, the batch whose selection the segment
   * narrows; the emitted column types; and the height of its tree.
   */
  datatype Foot = Foot(repr: set<object>, store: set<object>, source: Batch, types: seq<ColType>, height: nat)

  /** Go's Operator interface: one case per operator. */
  datatype Op =
    | Scan(scan: ScanOp)
    | Filter(filter: FilterOp)
    | Project(project: ProjectOp)
    | Limit(limit: LimitOp)
    | Aggregate(agg: AggregateOp)
    | GroupBy(group: GroupByOp)
    | OrderBy(order: OrderByOp)
  {
    /** The object behind the interface value. */
    ghost function Obj(): object {
      match this
      case Scan(s) => s
      case Filter(f) => f
      case Project(p) => p
      case Limit(l) => l
      case Aggregate(a) => a
      case GroupBy(g) => g
      case OrderBy(o) => o
    }

    ghost function Foot(): Foot {
      match this
      case Scan(s) => s.foot
      case Filter(f) => f.foot
      case Project(p) => p.foot
      case Limit(l) => l.foot
      case Aggregate(a) => a.foot
      case GroupBy(g) => g.foot
      case OrderBy(o) => o.foot
    }

    ghost function Repr(): set<object> {
      Foot().repr
    }

    ghost function Store(): set<object> {
      Foot().store
    }

    ghost function Source(): Batch {
      Foot().source
    }

    ghost function ColTypes(): seq<ColType> {
      Foot().types
    }

    ghost function Height(): nat {
      Foot().height
    }

    /** Everything a call on this operator may change. */
    ghost function Reach(pool: set<Selection>): set<object> {
      Repr() + {Source()} + pool
    }

    /** The rows a full drain emits. */
    ghost function All(): seq<Row>
      decreases Height(), 1
    {
      match this
      case Scan(s) => s.All()
      case Filter(f) => f.All()
      case Project(p) => p.All()
      case Limit(l) => l.All()
      case Aggregate(a) => a.All()
      case GroupBy(g) => g.All()
      case OrderBy(o) => o.All()
    }

    /** How many rows have been emitted since the last reset. */
    ghost function Pos(): nat
      reads Obj()
    {
      match this
      case Scan(s) => s.offset
      case Filter(f) => f.pos
      case Project(p) => p.pos
      case Limit(l) => l.emitted
      case Aggregate(a) => if a.done then 1 else 0
      case GroupBy(g) => g.emitCursor
      case OrderBy(o) => o.emitCursor
    }

    /** How the footprints of one operator lie to each other; about fixed references only. */
    ghost predicate Footed() {
      Obj() in Repr() && Store() <= Repr() && Source() !in Repr()
    }

    ghost predicate Valid()
      reads Obj(), Repr()
      decreases Height(), 1
    {
      && Footed()
      && match this
         case Scan(s) => s.Inv()
         case Filter(f) => f.Inv()
         case Project(p) => p.Inv()
         case Limit(l) => l.Inv()
         case Aggregate(a) => a.Inv()
         case GroupBy(g) => g.Inv()
         case OrderBy(o) => o.Inv()
    }

    /**
     * The selections of this segment are exactly pool, all distinct: live, bound to the
     * batch, and one scratch per filter. A segment starts at a scan or a blocking operator.
     */
    ghost predicate Held(pool: set<Selection>, live: Selection)
      reads Obj(), Repr()
      decreases Height()
    {
      match this
      case Filter(f) => f.Under() && f.tempSel in pool && f.child.Held(pool - {f.tempSel}, live)
      case Project(p) => p.Under() && p.child.Held(pool, live)
      case Limit(l) => l.Under() && l.child.Held(pool, live)
      case _ => pool == {live}
    }

    /** Whether the batches handed over are the segment's own, and not a projection's view of them. */
    ghost predicate Direct()
      decreases Height()
    {
      match this
      case Project(_) => false
      case Limit(l) => l.Under() && l.child.Direct()
      case _ => true
    }

    ghost predicate SelInv(pool: set<Selection>)
      reads Obj(), Repr(), Source(), pool
    {
      Held(pool, Source().sel) && forall s {:trigger s in pool} :: s in pool ==> s !in Repr() && s.Sound()
    }

    /** Ready to be called, with pos rows emitted. */
    ghost predicate At(pool: set<Selection>, pos: nat)
      reads Obj(), Repr(), Source(), pool
      decreases Height(), 2
    {
      Valid() && SelInv(pool) && Pos() == pos <= |All()|
    }

    lemma AtFooted(pool: set<Selection>, pos: nat)
      requires At(pool, pos)
      ensures Footed()
    {}

    method Next(ghost pool: set<Selection>) returns (b: Batch?)
      requires Valid() && SelInv(pool)
      modifies Repr(), Source(), pool
      ensures Valid() && SelInv(pool)
      ensures Emitted(this, b, old(Pos()), pool)
      ensures Scan? && b != null ==> Pos() == WindowEnd(old(Pos()), |All()|)
      decreases Height(), 1
    {
      match this {
        case Scan(s) => b := s.Next(pool);
        case Filter(f) => b := f.Next(pool);
        case Project(p) => b := p.Next(pool);
        case Limit(l) => b := l.Next(pool);
        case Aggregate(a) => b := a.Next(pool);
        case GroupBy(g) => b := g.Next(pool);
        case OrderBy(o) => b := o.Next(pool);
      }
    }

    method Reset(ghost pool: set<Selection>)
      requires Valid() && SelInv(pool)
      modifies Repr(), Source(), pool
      ensures Valid() && SelInv(pool) && Pos() == 0
      decreases Height(), 1
    {
      match this {
        case Scan(s) => s.Reset(pool);
        case Filter(f) => f.Reset(pool);
        case Project(p) => p.Reset(pool);
        case Limit(l) => l.Reset(pool);
        case Aggregate(a) => a.Reset(pool);
        case GroupBy(g) => g.Reset(pool);
        case OrderBy(o) => o.Reset(pool);
      }
    }

    /** Next, as a blocking operator calls it on its own segment. */
    method Pull(ghost pool: set<Selection>, ghost before: nat) returns (b: Batch?, ghost after: nat)
      requires At(pool, before)
      modifies Reach(pool)
      ensures At(pool, after) && after <= |All()|
      ensures b == null ==> before == after == |All()|
      ensures b != null ==> before < after && Live(this, b, All()[before..after], pool)
      decreases Height(), 2
    {
      b := Next(pool);
      after := Pos();
    }

    /** Reset, as a blocking operator calls it on its own segment. */
    method Restart(ghost pool: set<Selection>, ghost before: nat)
      requires At(pool, before)
      modifies Reach(pool)
      ensures At(pool, 0)
      decreases Height(), 2
    {
      Reset(pool);
    }
  }

  /** Where the batch that starts at row pos of n rows ends. */
  function WindowEnd(pos: nat, n: nat): nat {
    if pos + VECTOR_SIZE < n then pos + VECTOR_SIZE else n
  }

  /** A batch showing rows, with its selection in pool. */
  ghost predicate Live(op: Op, b: Batch, rows: seq<Row>, pool: set<Selection>)
    reads b, op.Store(), pool
  {
    && b.sel in pool && Shows(b, rows, op.Store()) && Typed(b.vectors, op.ColTypes())
    && (op.Direct() ==> b == op.Source())
  }

  /** A call of Next hands over a batch showing the next rows owed, or null at the end. */
  ghost predicate Emitted(op: Op, b: Batch?, before: nat, pool: set<Selection>)
    reads op.Obj(), b, op.Store(), pool
  {
    && before <= op.Pos() <= |op.All()|
    && (b == null ==> before == op.Pos() == |op.All()|)
    && (b != null ==> before < op.Pos() && Live(op, b, op.All()[before..op.Pos()], pool))
  }

  class ScanOp {
    ghost const foot: Foot
    ghost const mem: set<object>

    const srcChunks: seq<Chunk>
    const rowCount: nat
    const batch: Batch
    var offset: nat

    ghost function All(): seq<Row> {
      TableRows(srcChunks, rowCount)
    }

    ghost predicate Inv()
      reads this, foot.repr
      decreases 0, 0
    {
      && foot.repr == {this, batch.vectors} + mem && this !in mem && batch !in foot.repr
      && foot.store == mem + {batch.vectors} && foot.source == batch
      && Buffers(batch, mem, foot.types)
      && Aligned(srcChunks, rowCount, foot.types)
      && offset <= rowCount
    }

    constructor (src: seq<Chunk>, rowCount: nat)
      requires Aligned(src, rowCount, ChunkTypes(src))
      ensures Scan(this).At({batch.sel}, 0) && fresh(Scan(this).Reach({batch.sel}))
      ensures Scan(this).ColTypes() == ChunkTypes(src) && Scan(this).All() == TableRows(src, rowCount)
    {
      var ts := ChunkTypes(src);
      var b, m := NewOutput(ts);
      srcChunks, this.rowCount, batch, offset := src, rowCount, b, 0;
      mem := m;
      foot := Foot({this, b.vectors} + m, m + {b.vectors}, b, ts, 0);
    }

    method Next(ghost pool: set<Selection>) returns (b: Batch?)
      requires Inv() && Scan(this).SelInv(pool)
      modifies foot.repr, batch, pool
      ensures Inv() && Scan(this).SelInv(pool)
      ensures Emitted(Scan(this), b, old(offset), pool)
      ensures b != null ==> offset == WindowEnd(old(offset), rowCount)
      decreases 0, 0
    {
      var remaining := rowCount - offset;
      if remaining <= 0 {
        return null;
      }
      var n := if remaining < VECTOR_SIZE then remaining else VECTOR_SIZE;
      LoadWindow(batch, srcChunks, rowCount, offset, n, mem, foot.types);
      offset := offset + n;
      b := batch;
    }

    method Reset(ghost pool: set<Selection>)
      requires Inv() && Scan(this).SelInv(pool)
      modifies foot.repr, batch, pool
      ensures Inv() && Scan(this).SelInv(pool) && offset == 0
      decreases 0, 0
    {
      offset := 0;
      batch.Reset(mem, foot.types);
    }
  }

  /** Binding another selection to the batch of a segment keeps its selections distinct. */
  lemma {:induction false} Rebind(op: Op, pool: set<Selection>, live: Selection, next: Selection)
    requires op.Direct() && op.Held(pool, live) && next !in pool
    ensures live in pool
    ensures op.Held(pool - {live} + {next}, next)
    decreases op.Height()
  {
    if op.Filter? {
      var temp := op.filter.tempSel;
      Rebind(op.filter.child, pool - {temp}, live, next);
      assert pool - {temp} - {live} + {next} == pool - {live} + {next} - {temp};
    } else if op.Limit? {
      Rebind(op.limit.child, pool, live, next);
    } else {
      assert pool - {live} + {next} == {next};
    }
  }

  /** The scratch selection and the live one can trade places. */
  lemma Exchange(op: Op, pool: set<Selection>, temp: Selection, live: Selection)
    requires op.Direct() && temp in pool && op.Held(pool - {temp}, live)
    ensures live in pool && live != temp && op.Held(pool - {live}, temp)
  {
    Rebind(op, pool - {temp}, live, temp);
    TradePlaces(pool, temp, live);
  }

  lemma TradePlaces<T>(pool: set<T>, a: T, b: T)
    requires a in pool && b in pool - {a}
    ensures pool - {a} - {b} + {a} == pool - {b}
  {}

  class FilterOp {
    ghost const foot: Foot
    ghost var pos: nat

    const child: Op
    const col: nat
    const pred: Pred
    var tempSel: Selection

    ghost function All(): seq<Row>
      decreases foot.height, 0
    {
      if child.Height() < foot.height then FilterRows(pred, col, child.All()) else []
    }

    /** The child hands over its own batches and lies inside this operator's footprint. */
    ghost predicate Under() {
      && child.Direct() && child.Footed() && child.Height() < foot.height
      && foot.repr == {this} + child.Repr() && this !in child.Repr()
      && foot.source == child.Source() && foot.store == child.Store()
    }

    /** What the filter computes does not depend on how far it has run. */
    ghost predicate Wired() {
      && Under() && foot.types == child.ColTypes()
      && col < |foot.types| && foot.types[col] == PredType(pred)
    }

    ghost predicate Inv()
      reads this, foot.repr
      decreases foot.height, 0
    {
      && Wired() && child.Valid()
      && child.Pos() <= |child.All()|
      && pos == KeptOf(pred, col, child.All(), child.Pos())
    }

    constructor (child: Op, col: nat, pred: Pred, ghost pool: set<Selection>)
      requires child.At(pool, 0) && child.Direct()
      requires col < |child.ColTypes()| && child.ColTypes()[col] == PredType(pred)
      ensures Filter(this).At(pool + {tempSel}, 0)
      ensures fresh(tempSel) && Filter(this).Reach(pool + {tempSel}) == child.Reach(pool) + {this, tempSel}
      ensures Filter(this).All() == FilterRows(pred, col, child.All()) && Filter(this).ColTypes() == child.ColTypes()
    {
      this.child, this.col, this.pred := child, col, pred;
      tempSel := new Selection();
      foot := Foot({this} + child.Repr(), child.Store(), child.Source(), child.ColTypes(), child.Height() + 1);
      pos := 0;
      new;
      assert pool + {tempSel} - {tempSel} == pool;
    }

    /** Pull one child batch and narrow it: the body of Next's loop. */
    method Step(ghost pool: set<Selection>) returns (b: Batch?)
      requires Inv() && Filter(this).SelInv(pool)
      modifies foot.repr, foot.source, pool
      ensures Inv() && Filter(this).SelInv(pool)
      ensures old(pos) <= pos <= |All()|
      ensures b == null ==> pos == old(pos) == |All()|
      ensures b != null ==> old(child.Pos()) < child.Pos()
      ensures b != null ==> Live(Filter(this), b, All()[old(pos)..pos], pool)
      decreases foot.height, 0, 0
    {
      ghost var before := child.Pos();
      b := child.Next(pool - {tempSel});
      if b == null {
        assert child.All()[..before] == child.All();
      } else {
        Narrow(b, before, pool);
      }
    }

    /** Narrow one child batch that shows the rows between before and the child's position. */
    method Narrow(b: Batch, ghost before: nat, ghost pool: set<Selection>)
      requires Wired() && child.Valid() && Filter(this).SelInv(pool)
      requires before < child.Pos() <= |child.All()| && pos == KeptOf(pred, col, child.All(), before)
      requires Live(child, b, child.All()[before..child.Pos()], pool - {tempSel})
      modifies this, foot.source, pool
      ensures Inv() && Filter(this).SelInv(pool)
      ensures old(pos) <= pos <= |All()| && Live(Filter(this), b, All()[old(pos)..pos], pool)
      ensures child.Pos() == old(child.Pos())
    {
      hide Op.Valid, Ascending, Selects, LiveRows, Pick, Kept, FilterRows;
      FilterAdvance(pred, col, child.All(), before, child.Pos());
      pos := KeptOf(pred, col, child.All(), child.Pos());
      Swap(b, child.All()[before..child.Pos()], pool);
    }

    /** Evaluate the predicate into the scratch selection and swap it with the batch's. */
    method Swap(b: Batch, ghost rows: seq<Row>, ghost pool: set<Selection>)
      requires Wired() && Filter(this).SelInv(pool)
      requires Live(child, b, rows, pool - {tempSel})
      modifies `tempSel, foot.source, pool
      ensures Filter(this).SelInv(pool)
      ensures Live(Filter(this), b, Pick(rows, Kept(pred, Column(rows, col))), pool)
    {
      hide Op.Valid, Ascending;
      Evaluate(b, rows, pool);
      Exchange(child, pool, tempSel, b.sel);
      b.sel, tempSel := tempSel, b.sel;
    }

    /** The scratch selection becomes what the predicate keeps of the batch's. */
    method Evaluate(b: Batch, ghost rows: seq<Row>, ghost pool: set<Selection>)
      requires Wired() && Filter(this).SelInv(pool)
      requires Live(child, b, rows, pool - {tempSel})
      modifies tempSel
      ensures Filter(this).SelInv(pool) && Live(child, b, rows, pool - {tempSel})
      ensures var cols, idx := Cols(b.vectors, foot.store), tempSel.Idx();
              Selects(cols, idx) && LiveRows(cols, idx) == Pick(rows, Kept(pred, Column(rows, col)))
    {
      hide Op.Valid;
      assert this !in foot.store && b !in foot.store && tempSel !in foot.store && b.sel !in foot.store;
      ghost var cols := Cols(b.vectors, foot.store);
      assert cols[col] == b.vectors[col].Cells();
      PickLive(cols, b.sel.Idx(), col, Kept(pred, Column(rows, col)));
      PickAscending(b.sel.Idx(), Kept(pred, Column(rows, col)));
      Eval(pred, b.vectors[col], b.sel, tempSel);
    }

    method Next(ghost pool: set<Selection>) returns (b: Batch?)
      requires Inv() && Filter(this).SelInv(pool)
      modifies foot.repr, foot.source, pool
      ensures Inv() && Filter(this).SelInv(pool)
      ensures Emitted(Filter(this), b, old(pos), pool)
      decreases foot.height, 0
    {
      while true
        invariant Inv() && Filter(this).SelInv(pool)
        invariant pos == old(pos)
        decreases |child.All()| - child.Pos()
      {
        b := Step(pool);
        if b == null || b.sel.n != 0 {
          return;
        }
      }
    }

    method Reset(ghost pool: set<Selection>)
      requires Inv() && Filter(this).SelInv(pool)
      modifies foot.repr, foot.source, pool
      ensures Inv() && Filter(this).SelInv(pool) && pos == 0
      decreases foot.height, 0
    {
      hide Op.Valid, Ascending;
      child.Reset(pool - {tempSel});
      tempSel.Reset();
      pos := 0;
    }
  }

  class ProjectOp {
    ghost const foot: Foot
    ghost var pos: nat

    const child: Op
    const cols: seq<nat>
    const out: Batch

    ghost function All(): seq<Row>
      decreases foot.height, 0
    {
      if child.Height() < foot.height then ProjectRows(cols, child.All()) else []
    }

    ghost predicate Under() {
      && child.Footed() && child.Height() < foot.height
      && foot.repr == {this, out, out.vectors} + child.Repr()
      && this !in child.Repr() && out !in child.Repr() && out.vectors !in child.Repr()
      && foot.source == child.Source() && foot.source != out && foot.store == child.Store() + {out.vectors}
    }

    ghost predicate Wired() {
      && Under() && out.vectors.Length == |cols| == |foot.types|
      && (forall i :: 0 <= i < |cols| ==> cols[i] < |child.ColTypes()| && foot.types[i] == child.ColTypes()[cols[i]])
    }

    ghost predicate Inv()
      reads this, foot.repr
      decreases foot.height, 0
    {
      Wired() && child.Valid() && pos == child.Pos()
    }

    constructor (child: Op, cols: seq<nat>, ghost pool: set<Selection>)
      requires child.At(pool, 0)
      requires forall i :: 0 <= i < |cols| ==> cols[i] < |child.ColTypes()|
      ensures Project(this).At(pool, 0) && this.child == child
      ensures fresh(out) && fresh(out.vectors)
      ensures Project(this).Reach(pool) == child.Reach(pool) + {this, out, out.vectors}
      ensures Project(this).All() == ProjectRows(cols, child.All())
      ensures Project(this).ColTypes() == Pick(child.ColTypes(), cols)
    {
      hide Op.Valid, Op.Held, Op.All, Ascending;
      child.AtFooted(pool, 0);
      var vs := new Vector?[|cols|];
      var sel := new Selection();
      var o := new Batch(vs, sel);
      this.child, this.cols, out := child, cols, o;
      foot := Foot({this, o, vs} + child.Repr(), child.Store() + {vs}, child.Source(),
                   Pick(child.ColTypes(), cols), child.Height() + 1);
      pos := 0;
      new;
      AtStart(pool);
    }

    /** A valid operator that has emitted nothing is ready to be called. */
    lemma AtStart(pool: set<Selection>)
      requires Inv() && pos == 0 && child.At(pool, 0) && forall s :: s in pool ==> s !in foot.repr
      ensures Project(this).At(pool, 0) && Project(this).All() == All()
    {
    }

    method Next(ghost pool: set<Selection>) returns (b: Batch?)
      requires Inv() && Project(this).SelInv(pool)
      modifies foot.repr, foot.source, pool
      ensures Inv() && Project(this).SelInv(pool)
      ensures Emitted(Project(this), b, old(pos), pool)
      ensures b != null ==> b == out && (child.Scan? ==> pos == WindowEnd(old(pos), |child.All()|))
      decreases foot.height, 0
    {
      b := child.Next(pool);
      if b != null {
        Alias(b, pool);
        b := out;
      }
    }

    /** Show the child's batch, which holds the next rows, through the output batch. */
    method Alias(b: Batch, ghost pool: set<Selection>)
      requires Wired() && child.Valid() && Project(this).SelInv(pool) && pos < child.Pos() <= |child.All()|
      requires Live(child, b, child.All()[pos..child.Pos()], pool) && b != out
      modifies `pos, out, out.vectors
      ensures Inv() && Project(this).SelInv(pool) && child.Pos() == old(child.Pos())
      ensures |All()| == |child.All()| && Live(Project(this), out, All()[old(pos)..pos], pool)
    {
      hide Ascending, Selects, LiveRows;
      ProjectSlice(cols, child.All(), pos, child.Pos());
      Point(b, child.All()[pos..child.Pos()], pool);
      pos := child.Pos();
    }

    /** Point the output at the child's chosen vectors and at its selection. */
    method Point(b: Batch, ghost rows: seq<Row>, ghost pool: set<Selection>)
      requires Wired() && Live(child, b, rows, pool) && b != out
      modifies out, out.vectors
      ensures Live(Project(this), out, ProjectRows(cols, rows), pool)
    {
      hide Op.Valid, Ascending;
      Choose(b.vectors);
      out.sel := b.sel;
      AliasCols(out.vectors, b.vectors, child.Store(), cols);
      ProjectLive(Cols(b.vectors, child.Store()), b.sel.Idx(), cols);
    }

    /** The rebinding loop: output column j becomes the child's column cols[j]. */
    method Choose(vs: array<Vector?>)
      requires out.vectors.Length == |cols| && vs != out.vectors
      requires forall j :: 0 <= j < |cols| ==> cols[j] < vs.Length
      modifies out.vectors
      ensures forall j :: 0 <= j < |cols| ==> out.vectors[j] == vs[cols[j]]
    {
      for i := 0 to |cols|
        invariant forall j :: 0 <= j < i ==> out.vectors[j] == vs[cols[j]]
      {
        out.vectors[i] := vs[cols[i]];
      }
    }

    method Reset(ghost pool: set<Selection>)
      requires Inv() && Project(this).SelInv(pool)
      modifies foot.repr, foot.source, pool
      ensures Inv() && Project(this).SelInv(pool) && pos == 0
      decreases foot.height, 0
    {
      child.Reset(pool);
      pos := 0;
    }
  }

  class LimitOp {
    ghost const foot: Foot

    const child: Op
    const limit: int
    var emitted: nat

    ghost function All(): seq<Row>
      decreases foot.height, 0
    {
      if child.Height() < foot.height then Take(child.All(), limit) else []
    }

    ghost predicate Under() {
      && child.Footed() && child.Height() < foot.height
      && foot.repr == {this} + child.Repr() && this !in child.Repr()
      && foot.source == child.Source() && foot.store == child.Store()
    }

    ghost predicate Inv()
      reads this, foot.repr
      decreases foot.height, 0
    {
      && Under() && foot.types == child.ColTypes() && child.Valid()
      && emitted <= |All()| && (emitted < limit ==> child.Pos() == emitted)
    }

    constructor (child: Op, limit: int, ghost pool: set<Selection>)
      requires child.At(pool, 0)
      ensures Limit(this).At(pool, 0) && Limit(this).Reach(pool) == child.Reach(pool) + {this}
      ensures Limit(this).All() == Take(child.All(), limit) && Limit(this).ColTypes() == child.ColTypes()
    {
      this.child, this.limit, emitted := child, limit, 0;
      foot := Foot({this} + child.Repr(), child.Store(), child.Source(), child.ColTypes(), child.Height() + 1);
    }

    method Next(ghost pool: set<Selection>) returns (b: Batch?)
      requires Inv() && Limit(this).SelInv(pool)
      modifies foot.repr, foot.source, pool
      ensures Inv() && Limit(this).SelInv(pool)
      ensures Emitted(Limit(this), b, old(emitted), pool)
      decreases foot.height, 0
    {
      if emitted >= limit {
        return null;
      }
      b := child.Next(pool);
      if b != null {
        Admit(b, child.All()[emitted..child.Pos()], pool);
      }
    }

    /** Let a child batch through whole, or cut it where the limit falls. */
    method Admit(b: Batch, ghost rows: seq<Row>, ghost pool: set<Selection>)
      requires Under() && foot.types == child.ColTypes() && child.Valid() && Limit(this).SelInv(pool)
      requires emitted < limit && emitted < child.Pos() <= |child.All()|
      requires rows == child.All()[emitted..child.Pos()] && Live(child, b, rows, pool)
      modifies `emitted, pool
      ensures Inv() && Limit(this).SelInv(pool)
      ensures old(emitted) < emitted <= |All()| && Live(Limit(this), b, All()[old(emitted)..emitted], pool)
    {
      hide Op.Valid, Ascending, Selects;
      TakeSlice(child.All(), limit, emitted, child.Pos());
      var remaining := limit - emitted;
      if b.sel.n <= remaining {
        emitted := emitted + b.sel.n;
      } else {
        Shorten(b, remaining, rows, pool);
        emitted := limit;
      }
    }

    method Shorten(b: Batch, m: nat, ghost rows: seq<Row>, ghost pool: set<Selection>)
      requires Under() && Limit(this).SelInv(pool) && foot.types == child.ColTypes()
      requires Live(child, b, rows, pool) && m <= |rows|
      modifies pool
      ensures Limit(this).SelInv(pool) && Live(child, b, rows[..m], pool)
    {
      TakeLive(Cols(b.vectors, foot.store), b.sel.Idx(), m);
      Rewrite(b.sel, m);
    }

    /** Keep the first m entries of a selection, rewriting it over its own backing array. */
    static method Rewrite(sel: Selection, m: nat)
      requires sel.Valid() && m <= sel.n
      modifies sel
      ensures sel.Valid() && sel.Idx() == old(sel.Idx())[..m]
      ensures old(sel.Sound()) ==> sel.Sound()
    {
      if sel.Sound() {
        TakeAscending(sel.Idx(), m);
      }
      sel.Reset();
      for k := 0 to m
        invariant sel.Valid() && sel.n == k && sel.buf == old(sel.buf)
      {
        sel.AppendUnchecked(sel.buf[k]);
      }
    }

    method Reset(ghost pool: set<Selection>)
      requires Inv() && Limit(this).SelInv(pool)
      modifies foot.repr, foot.source, pool
      ensures Inv() && Limit(this).SelInv(pool) && emitted == 0
      decreases foot.height, 0
    {
      child.Reset(pool);
      emitted := 0;
    }
  }

  /**
   * The footprint of a blocking operator: it reads its child through a segment of its own, and
   * its own state and output buffers lie apart from all the child may change.
   */
  ghost predicate Sealed(foot: Foot, me: object, child: Op, cpool: set<Selection>,
                         own: set<object>, out: Batch, mem: set<object>) {
    && child.Footed() && child.Height() < foot.height
    && foot.repr == {me} + own + child.Reach(cpool)
    && me !in own && me !in child.Reach(cpool) && own !! child.Reach(cpool)
    && foot.source == out && out !in foot.repr
    && foot.store == mem + {out.vectors} && foot.store <= own && out.vectors !in mem
  }

  /** The footprint a blocking operator is given at construction is sealed. */
  lemma Seal(foot: Foot, me: object, child: Op, cpool: set<Selection>, own: set<object>, out: Batch, mem: set<object>)
    requires child.Footed() && me !in own && me !in child.Reach(cpool) && own !! child.Reach(cpool)
    requires foot == Foot({me} + own + child.Reach(cpool), mem + {out.vectors}, out, foot.types, child.Height() + 1)
    requires mem + {out.vectors} <= own && out.vectors !in mem && out != me && out !in own && out !in child.Reach(cpool)
    ensures Sealed(foot, me, child, cpool, own, out, mem)
    ensures forall s: Selection :: s != me && s !in own && s !in child.Reach(cpool) ==> s !in foot.repr
  {}

  class AggregateOp {
    ghost const foot: Foot
    ghost const mem: set<object>
    ghost const state: set<object>
    ghost const cpool: set<Selection>
    ghost const ar: Arith
    ghost var consumed: nat

    const child: Op
    const specs: seq<AggRef>
    const out: Batch
    var done: bool

    ghost function All(): seq<Row>
      decreases foot.height, 0
    {
      if child.Height() < foot.height then [AggRow(ar, SpecsOf(specs), child.All())] else []
    }

    ghost predicate Under() {
      && Sealed(foot, this, child, cpool, state + mem + {out.vectors}, out, mem)
      && state !! mem && out.vectors !in state && foot.types == OutputTypes(specs)
      && AggsOwned(specs, state) && AggsFit(specs, ar, child.ColTypes())
    }

    /** The aggregators hold the folds over the rows consumed so far. */
    ghost predicate Inv()
      reads this, foot.repr
      decreases foot.height, 0
    {
      && Under() && child.At(cpool, consumed) && consumed <= |child.All()|
      && Buffers(out, mem, foot.types) && (!done ==> Filled(out, mem, foot.types, [], 0))
      && AllFolded(specs, ar, [], [[]], child.All()[..consumed], state)
    }

    constructor (child: Op, specs: seq<AggRef>, out: Batch, ghost ar: Arith, ghost mem: set<object>,
                 ghost cpool: set<Selection>, ghost state: set<object>)
      requires child.At(cpool, 0)
      requires AggsOwned(specs, state) && AggsFit(specs, ar, child.ColTypes())
      requires AllFolded(specs, ar, [], [[]], [], state)
      requires Ready(out, mem, OutputTypes(specs)) && Filled(out, mem, OutputTypes(specs), [], 0)
      requires out !in state && out !in child.Reach(cpool)
      requires state !! mem && out.vectors !in state && out.vectors !in mem
      requires state + mem + {out.vectors} !! child.Reach(cpool) && out.sel !in state + mem + child.Reach(cpool)
      ensures Aggregate(this).At({out.sel}, 0)
      ensures Aggregate(this).Reach({out.sel}) == child.Reach(cpool) + {this, out, out.vectors, out.sel} + state + mem
      ensures Aggregate(this).ColTypes() == OutputTypes(specs)
      ensures Aggregate(this).All() == [AggRow(ar, SpecsOf(specs), child.All())]
    {
      this.child, this.specs, this.ar, this.out, done := child, specs, ar, out, false;
      this.cpool, this.state, this.mem, consumed := cpool, state, mem, 0;
      foot := Foot({this} + (state + mem + {out.vectors}) + child.Reach(cpool), mem + {out.vectors}, out,
                   OutputTypes(specs), child.Height() + 1);
    }

    /** Consume one child batch; false at the end of the input. */
    method Step() returns (more: bool)
      requires Inv() && !done
      modifies `consumed, child.Reach(cpool), state
      ensures Inv()
      ensures if more then old(consumed) < consumed else consumed == |child.All()|
      decreases foot.height, 0, 0
    {
      hide Op.At, Op.Valid, Ascending, AllFolded, AggsFit, AggsOwned;
      ghost var before := consumed;
      var b;
      b, consumed := child.Pull(cpool, consumed);
      more := b != null;
      if more {
        Consume(b, before);
      }
    }

    method Consume(b: Batch, ghost before: nat)
      requires Under() && child.At(cpool, consumed) && before < consumed <= |child.All()|
      requires Live(child, b, child.All()[before..consumed], cpool)
      requires AllFolded(specs, ar, [], [[]], child.All()[..before], state)
      requires !done && Buffers(out, mem, foot.types) && Filled(out, mem, foot.types, [], 0)
      modifies state
      ensures Inv()
    {
      ghost var rows, part := child.All()[..before], child.All()[before..consumed];
      PrefixKeys(child.All(), before, consumed, []);
      UpdateScalar(specs, b.vectors, b.sel, ar, child.ColTypes(), child.Store(), state, rows, part);
    }

    method Next(ghost pool: set<Selection>) returns (b: Batch?)
      requires Inv() && Aggregate(this).SelInv(pool)
      modifies foot.repr, foot.source, pool
      ensures Inv() && Aggregate(this).SelInv(pool)
      ensures Emitted(Aggregate(this), b, old(Aggregate(this).Pos()), pool)
      decreases foot.height, 0
    {
      hide Op.At, Ascending;
      if done {
        assert Aggregate(this).All() == All();
        return null;
      }
      var more := true;
      while more
        invariant Inv() && Aggregate(this).SelInv(pool) && !done
        invariant !more ==> consumed == |child.All()|
        decreases more, |child.All()| - consumed
      {
        more := Step();
      }
      Emit(pool);
      b := out;
    }

    /** Finalize every aggregator into the one output row. */
    method Emit(ghost pool: set<Selection>)
      requires Inv() && Aggregate(this).SelInv(pool) && !done && consumed == |child.All()|
      modifies `done, mem, pool
      ensures Inv() && Aggregate(this).SelInv(pool) && done
      ensures Live(Aggregate(this), out, All(), pool)
    {
      hide Op.At, Ascending;
      assert child.All()[..consumed] == child.All();
      EmitScalar(specs, out, ar, mem, state, child.All());
      done := true;
    }

    method Reset(ghost pool: set<Selection>)
      requires Inv() && Aggregate(this).SelInv(pool)
      modifies foot.repr, foot.source, pool
      ensures Inv() && Aggregate(this).SelInv(pool) && !done
      decreases foot.height, 0
    {
      child.Restart(cpool, consumed);
      Rewind(pool);
    }

    method Rewind(ghost pool: set<Selection>)
      requires Under() && child.At(cpool, 0)
      requires Aggregate(this).SelInv(pool) && Buffers(out, mem, foot.types)
      requires forall i :: 0 <= i < |specs| ==> specs[i].agg.Valid() && |specs[i].agg.accs| >= 1
      modifies this, state, mem, pool
      ensures Inv() && Aggregate(this).SelInv(pool) && !done
    {
      hide Op.At, Ascending, AggsFit;
      out.Reset(mem, foot.types);
      ResetAll(specs, ar, state, [], [[]]);
      done, consumed := false, 0;
    }
  }

  class GroupByOp {
    ghost const foot: Foot
    ghost const mem: set<object>
    ghost const aggs: set<object>
    ghost const cpool: set<Selection>
    ghost const ar: Arith
    ghost var consumed: nat

    const child: Op
    const keys: KeyTable
    const specs: seq<AggRef>
    const out: Batch
    var groupIDs: seq<nat>
    var ingested: bool
    var emitCursor: nat

    ghost function All(): seq<Row>
      decreases foot.height, 0
    {
      if child.Height() < foot.height then GroupRows(ar, keys.KeyCols(), SpecsOf(specs), child.All()) else []
    }

    ghost predicate Under() {
      && Sealed(foot, this, child, cpool, aggs + {keys.Obj()} + mem + {out.vectors}, out, mem)
      && aggs !! mem && out.vectors !in aggs && keys.Obj() !in aggs && keys.Obj() !in mem && keys.Obj() != out.vectors
      && foot.types == keys.KeyTypes() + OutputTypes(specs)
      && AggsOwned(specs, aggs) && AggsFit(specs, ar, child.ColTypes()) && KeysFit(keys, child.ColTypes())
      && |Keys(child.All(), keys.KeyCols())| <= 0x8000_0000
    }

    ghost predicate Inv()
      reads this, foot.repr
      decreases foot.height, 0
    {
      && Under() && child.At(cpool, consumed) && consumed <= |child.All()|
      && Buffers(out, mem, foot.types)
      && Grouped(keys, specs, ar, child.All()[..consumed], aggs)
      && emitCursor <= |All()|
      && (if ingested then consumed == |child.All()| else emitCursor == 0)
    }

    constructor (child: Op, keys: KeyTable, specs: seq<AggRef>, out: Batch, ghost ar: Arith, ghost mem: set<object>,
                 ghost cpool: set<Selection>, ghost aggs: set<object>)
      requires child.At(cpool, 0)
      requires AggsOwned(specs, aggs) && AggsFit(specs, ar, child.ColTypes()) && KeysFit(keys, child.ColTypes())
      requires Grouped(keys, specs, ar, [], aggs) && |Keys(child.All(), keys.KeyCols())| <= 0x8000_0000
      requires Ready(out, mem, keys.KeyTypes() + OutputTypes(specs))
      requires out !in aggs && out !in child.Reach(cpool) && aggs !! mem && out.vectors !in aggs && out.vectors !in mem
      requires keys.Obj() !in aggs && keys.Obj() !in mem
      requires keys.Obj() != out && keys.Obj() != out.vectors && keys.Obj() != out.sel
      requires aggs + {keys.Obj()} + mem + {out.vectors} !! child.Reach(cpool)
      requires out.sel !in aggs + mem + child.Reach(cpool)
      ensures GroupBy(this).At({out.sel}, 0)
      ensures GroupBy(this).Reach({out.sel})
              == child.Reach(cpool) + {this, out, out.vectors, out.sel, keys.Obj()} + aggs + mem
      ensures GroupBy(this).ColTypes() == keys.KeyTypes() + OutputTypes(specs)
      ensures GroupBy(this).All() == GroupRows(ar, keys.KeyCols(), SpecsOf(specs), child.All())
    {
      hide Op.At, Op.Valid, Op.Held, Op.SelInv, Op.All, Ascending, Sealed, KeyTable.Valid, KeyTable.Listed;
      hide Grouped, GroupRows, Keys, AggsFit, KeysFit, AggsOwned;
      child.AtFooted(cpool, 0);
      this.child, this.keys, this.specs, this.ar, this.out := child, keys, specs, ar, out;
      groupIDs, ingested, emitCursor := [], false, 0;
      this.cpool, this.aggs, this.mem, consumed := cpool, aggs, mem, 0;
      foot := Foot({this} + (aggs + {keys.Obj()} + mem + {out.vectors}) + child.Reach(cpool), mem + {out.vectors}, out,
                   keys.KeyTypes() + OutputTypes(specs), child.Height() + 1);
      new;
      assert child.All()[..0] == [];
      Seal(foot, this, child, cpool, aggs + {keys.Obj()} + mem + {out.vectors}, out, mem);
      AtStart();
    }

    /** A valid operator that has emitted nothing is ready to be called. */
    lemma AtStart()
      requires Inv() && emitCursor == 0 && out.sel !in foot.repr && out.sel.Sound()
      ensures GroupBy(this).At({out.sel}, 0) && GroupBy(this).All() == All()
    {
    }

    /** Consume one child batch; false at the end of the input. */
    method Step() returns (more: bool)
      requires Inv() && !ingested
      modifies `consumed, `groupIDs, child.Reach(cpool), keys.Obj(), aggs
      ensures Inv()
      ensures if more then old(consumed) < consumed else consumed == |child.All()|
      decreases foot.height, 0, 0
    {
      hide Op.At, Op.Valid, KeyTable.Valid, KeyTable.Listed, Ascending, Grouped, AggsFit, AggsOwned, KeysFit;
      ghost var before := consumed;
      var b;
      b, consumed := child.Pull(cpool, consumed);
      more := b != null;
      if more {
        IngestBatch(b, before);
      }
    }

    method IngestBatch(b: Batch, ghost before: nat)
      requires Under() && child.At(cpool, consumed) && before < consumed <= |child.All()|
      requires Live(child, b, child.All()[before..consumed], cpool)
      requires Grouped(keys, specs, ar, child.All()[..before], aggs) && Buffers(out, mem, foot.types)
      requires !ingested && emitCursor == 0
      modifies `groupIDs, keys.Obj(), aggs
      ensures Inv()
    {
      hide Op.At, Feeds, KeyColumns, KeysFit, AggsFit, Ascending, KeyTable.Valid, KeyTable.Listed;
      ghost var rows, part := child.All()[..before], child.All()[before..consumed];
      Fed(b, part);
      PrefixKeys(child.All(), before, consumed, keys.KeyCols());
      groupIDs := Ingest(keys, specs, b.vectors, b.sel, ar, child.ColTypes(), child.Store(), aggs, rows, part);
    }

    /** A child batch has the columns the keys and the aggregates read, apart from their own state. */
    lemma Fed(b: Batch, part: seq<Row>)
      requires Under() && Live(child, b, part, cpool)
      ensures Feeds(specs, ar, b.vectors, b.sel, child.ColTypes(), part, child.Store(), aggs)
      ensures KeyColumns(b.vectors, keys.KeyCols(), keys.KeyTypes())
      ensures keys.Obj() !in child.Store() + aggs && b.sel != keys.Obj()
    {
      hide Op.Valid, KeyTable.Valid, KeyTable.Listed, Ascending;
    }

    method Next(ghost pool: set<Selection>) returns (b: Batch?)
      requires Inv() && GroupBy(this).SelInv(pool)
      modifies foot.repr, foot.source, pool
      ensures Inv() && GroupBy(this).SelInv(pool)
      ensures Emitted(GroupBy(this), b, old(emitCursor), pool)
      decreases foot.height, 0
    {
      if !ingested {
        Drain(pool);
      }
      b := Deliver(pool);
    }

    /** Consume the whole input. */
    method Drain(ghost pool: set<Selection>)
      requires Inv() && GroupBy(this).SelInv(pool) && !ingested
      modifies foot.repr
      ensures Inv() && GroupBy(this).SelInv(pool) && ingested && emitCursor == 0
      decreases foot.height, 0, 1
    {
      hide Op.At, Op.Valid, KeyTable.Valid, KeyTable.Listed, Ascending, Grouped, AggsFit, AggsOwned, KeysFit;
      var more := true;
      while more
        invariant Inv() && GroupBy(this).SelInv(pool) && !ingested
        invariant !more ==> consumed == |child.All()|
        decreases more, |child.All()| - consumed
      {
        more := Step();
      }
      ingested := true;
    }

    /** Emit the next window of groups. */
    method Deliver(ghost pool: set<Selection>) returns (b: Batch?)
      requires Inv() && GroupBy(this).SelInv(pool) && ingested
      modifies `emitCursor, mem, pool
      ensures Inv() && GroupBy(this).SelInv(pool)
      ensures Emitted(GroupBy(this), b, old(emitCursor), pool)
    {
      hide Op.At, KeyTable.Valid, KeyTable.Listed, Ascending;
      assert child.All()[..consumed] == child.All();
      var numGroups := keys.NumGroups();
      if emitCursor >= numGroups {
        return null;
      }
      var end := if emitCursor + VECTOR_SIZE > numGroups then numGroups else emitCursor + VECTOR_SIZE;
      EmitWindow(end, pool);
      emitCursor := end;
      b := out;
    }

    /** Refill the output batch with the groups from the cursor up to end. */
    method EmitWindow(end: nat, ghost pool: set<Selection>)
      requires Inv() && GroupBy(this).SelInv(pool) && ingested
      requires emitCursor < end <= |All()| && end - emitCursor <= VECTOR_SIZE
      modifies mem, pool
      ensures Inv() && GroupBy(this).SelInv(pool)
      ensures Live(GroupBy(this), out, All()[emitCursor..end], pool)
    {
      hide Op.At, KeyTable.Valid, KeyTable.Listed;
      assert child.All()[..consumed] == child.All();
      EmitGroups(keys, specs, out, emitCursor, end, ar, mem, aggs, child.All());
    }

    method Reset(ghost pool: set<Selection>)
      requires Inv() && GroupBy(this).SelInv(pool)
      modifies foot.repr, foot.source, pool
      ensures Inv() && GroupBy(this).SelInv(pool) && emitCursor == 0
      decreases foot.height, 0
    {
      child.Restart(cpool, consumed);
      Rewind(pool);
    }

    method Rewind(ghost pool: set<Selection>)
      requires Under() && child.At(cpool, 0)
      requires GroupBy(this).SelInv(pool) && Buffers(out, mem, foot.types)
      requires keys.Valid() && forall i :: 0 <= i < |specs| ==> specs[i].agg.Valid()
      modifies this, keys.Obj(), aggs, mem, pool
      ensures Inv() && GroupBy(this).SelInv(pool) && emitCursor == 0
    {
      hide Op.At, KeyTable.Valid, KeyTable.Listed, Ascending, AggsFit, KeysFit, GroupRows, Keys, Grouped;
      ResetGroups(keys, specs, out, ar, mem, aggs);
      groupIDs, ingested, emitCursor, consumed := [], false, 0, 0;
    }
  }

  lemma PrefixKeys(all: seq<Row>, before: nat, after: nat, kc: seq<nat>)
    requires before <= after <= |all|
    ensures all[..before] + all[before..after] == all[..after]
    ensures |Keys(all[..after], kc)| <= |Keys(all, kc)|
  {
    KeysExtend(all[..after], all[after..], kc);
    assert all[..after] + all[after..] == all;
  }

  class OrderByOp {
    ghost const foot: Foot
    ghost const mem: set<object>
    ghost const cpool: set<Selection>
    ghost var consumed: nat

    const child: Op
    const sortCol: nat
    const ascending: bool
    const table: RowStore
    const out: Batch
    var ingested: bool
    var emitCursor: nat

    ghost function All(): seq<Row>
      decreases foot.height, 0
    {
      if child.Height() < foot.height then OrderRows(child.All(), sortCol, ascending) else []
    }

    ghost predicate Under() {
      && Sealed(foot, this, child, cpool, {table} + mem + {out.vectors}, out, mem)
      && table !in mem && foot.types == child.ColTypes() && sortCol < |foot.types| && Storable(child.All())
    }

    ghost predicate Inv()
      reads this, foot.repr
      decreases foot.height, 0
    {
      && Under() && child.At(cpool, consumed) && consumed <= |child.All()|
      && Buffers(out, mem, foot.types)
      && table.Holds(child.All()[..consumed], foot.types)
      && emitCursor <= |All()|
      && (if ingested then consumed == |child.All()| && table.Sorted(child.All(), foot.types, All())
          else emitCursor == 0)
    }

    /** out is allocated by the caller, who knows the column types, and not on first use. */
    constructor (child: Op, sortCol: nat, ascending: bool, out: Batch,
                 ghost mem: set<object>, ghost cpool: set<Selection>)
      requires child.At(cpool, 0) && sortCol < |child.ColTypes()|
      requires Storable(child.All())
      requires Ready(out, mem, child.ColTypes()) && out.vectors !in mem
      requires out !in child.Reach(cpool) && mem + {out.vectors} !! child.Reach(cpool) && out.sel !in child.Reach(cpool)
      ensures OrderBy(this).At({out.sel}, 0) && fresh(table)
      ensures OrderBy(this).Reach({out.sel}) == child.Reach(cpool) + {this, table, out, out.vectors, out.sel} + mem
      ensures OrderBy(this).ColTypes() == child.ColTypes()
      ensures OrderBy(this).All() == OrderRows(child.All(), sortCol, ascending)
    {
      hide Op.At, Op.Valid, Op.Held, Op.SelInv, Op.All, Op.Direct, OrderRows, Ascending;
      child.AtFooted(cpool, 0);
      var t := new RowStore();
      this.child, this.sortCol, this.ascending, table, this.out := child, sortCol, ascending, t, out;
      ingested, emitCursor := false, 0;
      this.cpool, this.mem, consumed := cpool, mem, 0;
      foot := Foot({this} + ({t} + mem + {out.vectors}) + child.Reach(cpool), mem + {out.vectors}, out,
                   child.ColTypes(), child.Height() + 1);
      new;
      assert child.All()[..0] == [];
      AtStart();
    }

    /** A valid operator that has emitted nothing is ready to be called. */
    lemma AtStart()
      requires Inv() && emitCursor == 0 && out.sel !in foot.repr && out.sel.Sound()
      ensures OrderBy(this).At({out.sel}, 0) && OrderBy(this).All() == All()
    {
    }

    /** Collect one child batch; false at the end of the input. */
    method Step() returns (more: bool)
      requires Inv() && !ingested
      modifies `consumed, child.Reach(cpool), table
      ensures Inv()
      ensures if more then old(consumed) < consumed else consumed == |child.All()|
      decreases foot.height, 0, 0
    {
      hide Op.At, Op.Valid, Ascending;
      ghost var before := consumed;
      var b;
      b, consumed := child.Pull(cpool, consumed);
      more := b != null;
      if more {
        Collect(b, before);
      }
    }

    method Collect(b: Batch, ghost before: nat)
      requires Under() && child.At(cpool, consumed) && before < consumed <= |child.All()|
      requires Live(child, b, child.All()[before..consumed], cpool)
      requires table.Holds(child.All()[..before], foot.types) && Buffers(out, mem, foot.types)
      requires !ingested && emitCursor == 0
      modifies table
      ensures Inv()
    {
      ghost var rows, part := child.All()[..before], child.All()[before..consumed];
      PrefixKeys(child.All(), before, consumed, []);
      table.Collect(b.vectors, b.sel, child.Store(), foot.types, rows, part);
    }

    method Next(ghost pool: set<Selection>) returns (b: Batch?)
      requires Inv() && OrderBy(this).SelInv(pool)
      modifies foot.repr, foot.source, pool
      ensures Inv() && OrderBy(this).SelInv(pool)
      ensures Emitted(OrderBy(this), b, old(emitCursor), pool)
      decreases foot.height, 0
    {
      if !ingested {
        Ingest(pool);
      }
      b := Deliver(pool);
    }

    /** Drain the child and sort what it delivered. */
    method Ingest(ghost pool: set<Selection>)
      requires Inv() && OrderBy(this).SelInv(pool) && !ingested
      modifies foot.repr
      ensures Inv() && OrderBy(this).SelInv(pool) && ingested && emitCursor == 0
      decreases foot.height, 0, 1
    {
      hide Op.At, Op.Valid, Ascending;
      var more := true;
      while more
        invariant Inv() && OrderBy(this).SelInv(pool) && !ingested
        invariant !more ==> consumed == |child.All()|
        decreases more, |child.All()| - consumed
      {
        more := Step();
      }
      Order(pool);
    }

    method Order(ghost pool: set<Selection>)
      requires Inv() && OrderBy(this).SelInv(pool) && !ingested && consumed == |child.All()|
      modifies `ingested, table
      ensures Inv() && OrderBy(this).SelInv(pool) && ingested && emitCursor == 0
    {
      hide Op.At, Ascending;
      assert child.All()[..consumed] == child.All();
      table.Sort(sortCol, ascending, child.All(), foot.types);
      ingested := true;
    }

    /** Emit the next window of ordered rows. */
    method Deliver(ghost pool: set<Selection>) returns (b: Batch?)
      requires Inv() && OrderBy(this).SelInv(pool) && ingested
      modifies `emitCursor, mem, pool
      ensures Inv() && OrderBy(this).SelInv(pool)
      ensures Emitted(OrderBy(this), b, old(emitCursor), pool)
    {
      hide Op.At;
      if emitCursor >= table.totalRows {
        return null;
      }
      var end := if emitCursor + VECTOR_SIZE > table.totalRows then table.totalRows else emitCursor + VECTOR_SIZE;
      EmitWindow(end, pool);
      emitCursor := end;
      b := out;
    }

    /** Refill the output batch with the ordered rows from the cursor up to end. */
    method EmitWindow(end: nat, ghost pool: set<Selection>)
      requires Inv() && OrderBy(this).SelInv(pool) && ingested
      requires emitCursor < end <= |All()| && end - emitCursor <= VECTOR_SIZE
      modifies mem, pool
      ensures Inv() && OrderBy(this).SelInv(pool)
      ensures Live(OrderBy(this), out, All()[emitCursor..end], pool)
    {
      hide Op.At;
      table.EmitWindow(out, emitCursor, end, mem, child.All(), foot.types, All());
    }

    method Reset(ghost pool: set<Selection>)
      requires Inv() && OrderBy(this).SelInv(pool)
      modifies foot.repr, foot.source, pool
      ensures Inv() && OrderBy(this).SelInv(pool) && emitCursor == 0
      decreases foot.height, 0
    {
      child.Restart(cpool, consumed);
      Rewind(pool);
    }

    method Rewind(ghost pool: set<Selection>)
      requires Under() && child.At(cpool, 0)
      requires OrderBy(this).SelInv(pool) && Buffers(out, mem, foot.types)
      modifies this, table, mem, pool
      ensures Inv() && OrderBy(this).SelInv(pool) && emitCursor == 0
    {
      hide Op.At, Ascending;
      table.Reset(out, mem, foot.types);
      ingested, emitCursor, consumed := false, 0, 0;
    }
  }
}
