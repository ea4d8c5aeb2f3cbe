/** exec/aggregators.go: per-group columnar state, updated batch by batch. */
module Aggregators {
  import opened Types
  import opened Bitmap
  import opened Batches
  import opened Relation
  import opened Predicates
  import opened Aggregation

  function Zip(accs: seq<Scalar>, has: seq<bool>, counts: seq<I64>): seq<Slot>
    requires |accs| == |has| == |counts|
  {
    seq(|accs|, g requires 0 <= g < |accs| => Slot(accs[g], has[g], counts[g]))
  }

  /**
   * The nine Go aggregators in one class: accs is sums, mins or maxs, has is hasValue
   * and counts the counters of COUNT and AVG; fn says which of them a kind uses.
   */
  class Aggregator {
    const ar: Arith
    const fn: AggFn
    var accs: seq<Scalar>
    var has: seq<bool>
    var counts: seq<I64>

    ghost predicate Valid()
      reads this
    {
      && FnOk(fn)
      && |accs| == |has| == |counts|
      && (forall g :: 0 <= g < |accs| ==> TypeOf(accs[g]) == TypeOf(ZeroSlot(fn).acc))
    }

    /** The state of every group. */
    ghost function Slots(): seq<Slot>
      requires Valid()
      reads this
    {
      Zip(accs, has, counts)
    }

    /** The aggregator before any row: groups all-zero slots. */
    constructor (ar: Arith, fn: AggFn, groups: nat)
      requires FnOk(fn)
      ensures Valid() && this.ar == ar && this.fn == fn
      ensures Slots() == seq(groups, _ => ZeroSlot(fn))
    {
      this.ar, this.fn := ar, fn;
      accs := seq(groups, _ => ZeroSlot(fn).acc);
      has, counts := seq(groups, _ => false), seq(groups, _ => 0);
    }

    /** Allocate: groups all-zero slots, whatever was there before. */
    method Init(groups: nat)
      requires FnOk(fn)
      modifies this
      ensures Valid() && Slots() == seq(groups, _ => ZeroSlot(fn))
    {
      accs := seq(groups, _ => ZeroSlot(fn).acc);
      has, counts := seq(groups, _ => false), seq(groups, _ => 0);
    }

    method Grow(groups: nat)
      requires Valid()
      modifies this
      ensures Valid() && old(Slots()) <= Slots()
      ensures |Slots()| == if groups <= |old(Slots())| then |old(Slots())| else groups
      ensures forall g :: |old(Slots())| <= g < |Slots()| ==> Slots()[g] == ZeroSlot(fn)
    {
      if groups > |accs| {
        var more := groups - |accs|;
        accs := accs + seq(more, _ => ZeroSlot(fn).acc);
        has, counts := has + seq(more, _ => false), counts + seq(more, _ => 0);
      }
    }

    /** Zero every slot, keeping their number. */
    method Reset()
      requires Valid()
      modifies this
      ensures Valid() && Slots() == seq(|old(Slots())|, _ => ZeroSlot(fn))
    {
      accs := seq(|accs|, _ => ZeroSlot(fn).acc);
      has, counts := seq(|has|, _ => false), seq(|counts|, _ => 0);
    }

    /** The loop body every typed aggregator repeats: one non-null value for group g. */
    method Accept(g: nat, v: Scalar)
      requires Valid() && !fn.Count? && g < |accs| && TypeOf(v) == fn.t
      modifies this
      ensures Valid()
      ensures Slots() == old(Slots())[g := Step(ar, fn, old(Slots())[g], Val(v))]
    {
      match fn {
        case Sum(_) =>
          accs, has := accs[g := Add(ar, accs[g], v)], has[g := true];
        case Min(_) =>
          if !has[g] || Less(v, accs[g]) {
            accs, has := accs[g := v], has[g := true];
          }
        case Max(_) =>
          if !has[g] || Less(accs[g], v) {
            accs, has := accs[g := v], has[g := true];
          }
        case Avg(_) =>
          var n: int := counts[g];
          accs, counts := accs[g := Add(ar, accs[g], v)], counts[g := Wrap64(n + 1)];
      }
    }

    /** What Update needs: the selection inside the vector, every target group allocated. */
    ghost predicate CanUpdate(vec: Vector, sel: Selection, gids: Option<seq<nat>>)
      reads this, vec, vec.nulls, sel
    {
      && Valid() && Inside(vec, sel) && (fn.Count? || vec.typ == fn.t)
      && match gids
         case None => 0 < |accs|
         case Some(ids) => |ids| == sel.n && forall k :: 0 <= k < |ids| ==> ids[k] < |accs|
    }

    /** The group of each selected row; scalar aggregation sends every row to group 0. */
    ghost function Targets(n: nat, gids: Option<seq<nat>>): seq<nat> {
      if gids.Some? then gids.value else seq(n, _ => 0)
    }

    /** The slots one batch leaves behind, whichever of the loops below ran. */
    ghost function After(slots: seq<Slot>, vec: Vector, sel: Selection, gids: Option<seq<nat>>): seq<Slot>
      requires CanUpdate(vec, sel, gids) && |slots| == |accs|
      reads this, vec, vec.nulls, sel
    {
      Scatter(ar, fn, slots, Gather(vec.Cells(), sel.Idx()), Targets(sel.n, gids))
    }

    method Update(vec: Vector, sel: Selection, gids: Option<seq<nat>>)
      requires CanUpdate(vec, sel, gids)
      modifies this
      ensures Valid() && |accs| == old(|accs|)
      ensures Slots() == After(old(Slots()), vec, sel, gids)
    {
      if fn.Count? {
        if gids.None? {
          UpdateCountScalar(vec, sel);
        } else {
          UpdateCount(vec, sel, gids.value);
        }
        return;
      }
      var hasNulls := HasNulls(vec.nulls.data);
      if hasNulls {
        UpdateNulls(vec, sel, gids);
      } else if gids.None? && fn.Sum? {
        UpdateSumScalar(vec, sel);
      } else if gids.None? && fn.Avg? {
        UpdateAvgScalar(vec, sel);
      } else {
        UpdateNoNulls(vec, sel, gids);
      }
    }

    /** The loops over a vector without nulls, for one group or many. */
    method UpdateNoNulls(vec: Vector, sel: Selection, gids: Option<seq<nat>>)
      requires CanUpdate(vec, sel, gids) && !fn.Count? && true !in Bits(vec.nulls.data)
      modifies this
      ensures Valid() && |accs| == old(|accs|)
      ensures Slots() == After(old(Slots()), vec, sel, gids)
    {
      ghost var slots, cs, ts := Slots(), Gather(vec.Cells(), sel.Idx()), Targets(sel.n, gids);
      for k := 0 to sel.n
        invariant Valid() && |accs| == |slots|
        invariant Slots() == Scatter(ar, fn, slots, cs[..k], ts[..k])
      {
        ScatterStep(ar, fn, slots, cs, ts, k);
        var i := sel.buf[k];
        assert cs[k] == Val(vec.vals[i]);
        Accept(if gids.Some? then gids.value[k] else 0, vec.vals[i]);
      }
      assert cs[..sel.n] == cs && ts[..sel.n] == ts;
    }

    /** The loops that skip null rows. */
    method UpdateNulls(vec: Vector, sel: Selection, gids: Option<seq<nat>>)
      requires CanUpdate(vec, sel, gids) && !fn.Count?
      modifies this
      ensures Valid() && |accs| == old(|accs|)
      ensures Slots() == After(old(Slots()), vec, sel, gids)
    {
      ghost var slots, cs, ts := Slots(), Gather(vec.Cells(), sel.Idx()), Targets(sel.n, gids);
      for k := 0 to sel.n
        invariant Valid() && |accs| == |slots|
        invariant Slots() == Scatter(ar, fn, slots, cs[..k], ts[..k])
      {
        ScatterStep(ar, fn, slots, cs, ts, k);
        var i := sel.buf[k];
        var isNull := IsNull(vec.nulls.data, i);
        assert cs[k] == if isNull then Null else Val(vec.vals[i]);
        if !isNull {
          Accept(if gids.Some? then gids.value[k] else 0, vec.vals[i]);
        }
      }
      assert cs[..sel.n] == cs && ts[..sel.n] == ts;
    }

    /** SUM over one group without nulls: a running local, stored once at the end. */
    method UpdateSumScalar(vec: Vector, sel: Selection)
      requires CanUpdate(vec, sel, None) && fn.Sum? && true !in Bits(vec.nulls.data)
      modifies this
      ensures Valid() && |accs| == old(|accs|)
      ensures Slots() == After(old(Slots()), vec, sel, None)
    {
      ghost var cs := Gather(vec.Cells(), sel.Idx());
      if sel.n == 0 {
        return;
      }
      ghost var slots := Slots();
      var sum := accs[0];
      for k := 0 to sel.n
        invariant Valid() && Slots() == slots && TypeOf(sum) == fn.t
        invariant sum == AddAll(ar, accs[0], cs[..k])
      {
        assert cs[..k + 1][..k] == cs[..k] && cs[k] == Val(vec.vals[sel.buf[k]]);
        sum := Add(ar, sum, vec.vals[sel.buf[k]]);
      }
      assert cs[..sel.n] == cs;
      ScatterSum(ar, fn, slots, cs, Targets(sel.n, None));
      accs, has := accs[0 := sum], has[0 := true];
    }

    /** AVG over one group without nulls: add the values, then the row count at once. */
    method UpdateAvgScalar(vec: Vector, sel: Selection)
      requires CanUpdate(vec, sel, None) && fn.Avg? && true !in Bits(vec.nulls.data)
      modifies this
      ensures Valid() && |accs| == old(|accs|)
      ensures Slots() == After(old(Slots()), vec, sel, None)
    {
      hide Bits, Wrap64;
      ghost var cs := Gather(vec.Cells(), sel.Idx());
      ScatterSum(ar, fn, Slots(), cs, Targets(sel.n, None));
      for k := 0 to sel.n
        invariant Valid() && has == old(has) && counts == old(counts)
        invariant accs == old(accs)[0 := AddAll(ar, old(accs[0]), cs[..k])]
      {
        assert cs[..k + 1][..k] == cs[..k] && cs[k] == Val(vec.vals[sel.buf[k]]);
        accs := accs[0 := Add(ar, accs[0], vec.vals[sel.buf[k]])];
      }
      assert cs[..sel.n] == cs;
      var n: int := counts[0];
      counts := counts[0 := Wrap64(n + sel.n)];
    }

    /** COUNT over one group ignores the column: add the number of selected rows. */
    method UpdateCountScalar(vec: Vector, sel: Selection)
      requires CanUpdate(vec, sel, None) && fn.Count?
      modifies this
      ensures Valid() && |accs| == old(|accs|)
      ensures Slots() == After(old(Slots()), vec, sel, None)
    {
      var n: int := counts[0];
      CountAll(ar, Slots(), Gather(vec.Cells(), sel.Idx()), Targets(sel.n, None), n);
      counts := counts[0 := Wrap64(n + sel.n)];
    }

    /** COUNT per group: every selected row counts, null or not. */
    method UpdateCount(vec: Vector, sel: Selection, gids: seq<nat>)
      requires CanUpdate(vec, sel, Some(gids)) && fn.Count?
      modifies this
      ensures Valid() && |accs| == old(|accs|)
      ensures Slots() == After(old(Slots()), vec, sel, Some(gids))
    {
      ghost var slots, cs := Slots(), Gather(vec.Cells(), sel.Idx());
      for k := 0 to |gids|
        invariant Valid() && |accs| == |slots|
        invariant Slots() == Scatter(ar, fn, slots, cs[..k], gids[..k])
      {
        ScatterStep(ar, fn, slots, cs, gids, k);
        var g := gids[k];
        var n: int := counts[g];
        counts := counts[g := Wrap64(n + 1)];
      }
      assert cs[..sel.n] == cs && gids[..sel.n] == gids;
    }

    /** Append the result of group g. */
    method Finalize(g: nat, out: Vector)
      requires Valid() && g < |accs| && out.Valid() && out.typ == OutputType(fn) && out.length < VECTOR_SIZE
      modifies out, out.nulls
      ensures out.Valid()
      ensures out.Cells() == old(out.Cells()) + [Aggregation.Finalize(ar, fn, Slots()[g])]
    {
      var ok;
      match fn {
        case Count =>
          ok := out.Append(SInt(counts[g]));
        case Avg(_) =>
          if counts[g] == 0 {
            ok := out.AppendNull();
          } else {
            var num := if accs[g].SInt? then ar.ofInt(accs[g].i) else accs[g].bits;
            ok := out.Append(SFloat(ar.div(num, ar.ofInt(counts[g]))));
          }
        case _ =>
          if !has[g] {
            ok := out.AppendNull();
          } else {
            ok := out.Append(accs[g]);
          }
      }
    }
  }

  /** Wrapping after every addition or once at the end is the same. */
  lemma WrapStep(x: int)
    ensures var w: int := Wrap64(x); Wrap64(w + 1) == Wrap64(x + 1)
  {}

  /** The values of null-free cells added onto a. */
  function AddAll(ar: Arith, a: Scalar, cs: seq<Cell>): Scalar
    requires forall k :: 0 <= k < |cs| ==> cs[k].Val?
  {
    if cs == [] then a else Add(ar, AddAll(ar, a, cs[..|cs| - 1]), cs[|cs| - 1].v)
  }

  lemma {:induction false} ScatterSum(ar: Arith, fn: AggFn, slots: seq<Slot>, cs: seq<Cell>, ts: seq<nat>)
    requires fn.Sum? || fn.Avg?
    requires |cs| == |ts| && 0 < |slots| && (forall k :: 0 <= k < |ts| ==> ts[k] == 0)
    requires forall k :: 0 <= k < |cs| ==> cs[k].Val?
    ensures var s := slots[0];
            var sum := AddAll(ar, s.acc, cs);
            var n: int := s.n;
            Scatter(ar, fn, slots, cs, ts)
            == slots[0 := if fn.Sum? then Slot(sum, s.has || cs != [], s.n) else Slot(sum, s.has, Wrap64(n + |cs|))]
  {
    if cs != [] {
      var m := |cs| - 1;
      var n: int := slots[0].n;
      ScatterSum(ar, fn, slots, cs[..m], ts[..m]);
      WrapStep(n + m);
    }
  }

  lemma {:induction false} CountAll(ar: Arith, slots: seq<Slot>, cs: seq<Cell>, ts: seq<nat>, n: int)
    requires |cs| == |ts| && 0 < |slots| && (forall k :: 0 <= k < |ts| ==> ts[k] == 0) && n == slots[0].n
    ensures Scatter(ar, Count, slots, cs, ts) == slots[0 := slots[0].(n := Wrap64(n + |cs|))]
  {
    if cs != [] {
      var m := |cs| - 1;
      CountAll(ar, slots, cs[..m], ts[..m], n);
      WrapStep(n + m);
    }
  }

  /** exec.AggregateSpec: an aggregator and the input column it consumes. */
  datatype AggRef = AggRef(col: nat, agg: Aggregator)

  function SpecOf(s: AggRef): AggSpec {
    AggSpec(s.agg.fn, s.col)
  }

  function SpecsOf(specs: seq<AggRef>): seq<AggSpec> {
    seq(|specs|, i requires 0 <= i < |specs| => SpecOf(specs[i]))
  }

  /** The aggregators of an operator: its own objects, no instance used twice. */
  ghost predicate AggsOwned(specs: seq<AggRef>, state: set<object>) {
    && (forall i :: 0 <= i < |specs| ==> specs[i].agg in state)
    && (forall i, j :: 0 <= i < j < |specs| ==> specs[i].agg != specs[j].agg)
  }

  /** Every column an aggregator reads exists and has the aggregator's type. */
  ghost predicate AggsFit(specs: seq<AggRef>, ar: Arith, types: seq<ColType>) {
    forall i :: 0 <= i < |specs| ==>
      && specs[i].agg.ar == ar && FnOk(specs[i].agg.fn) && specs[i].col < |types|
      && (specs[i].agg.fn.Count? || types[specs[i].col] == specs[i].agg.fn.t)
  }

  ghost predicate OneFolded(s: AggRef, ar: Arith, kc: seq<nat>, ks: seq<Row>, rows: seq<Row>)
    reads s.agg
  {
    s.agg.Valid() && Folded(ar, SpecOf(s), kc, ks, rows, s.agg.Slots())
  }

  /** Every aggregator's slots are the folds over the groups of rows. */
  ghost predicate AllFolded(specs: seq<AggRef>, ar: Arith, kc: seq<nat>, ks: seq<Row>, rows: seq<Row>,
                            state: set<object>)
    requires AggsOwned(specs, state)
    reads state
  {
    forall i :: 0 <= i < |specs| ==> OneFolded(specs[i], ar, kc, ks, rows)
  }

  /** Fold one batch, whose live rows are part, into the groups listed by ks. */
  method UpdateOne(s: AggRef, vs: array<Vector?>, sel: Selection, gids: Option<seq<nat>>,
                   ghost store: set<object>, ghost kc: seq<nat>, ghost ks: seq<Row>,
                   ghost rows: seq<Row>, ghost part: seq<Row>)
    requires Owned(vs, store) && s.agg !in store && sel.Valid() && Selects(Cols(vs, store), sel.Idx())
    requires part == LiveRows(Cols(vs, store), sel.Idx())
    requires s.col < vs.Length && (s.agg.fn.Count? || vs[s.col].typ == s.agg.fn.t)
    requires OneFolded(s, s.agg.ar, kc, ks, rows) && 0 < |ks|
    requires forall i, j :: 0 <= i < j < |ks| ==> ks[i] != ks[j]
    requires Routed(kc, ks, part, s.agg.Targets(sel.n, gids))
    modifies s.agg
    ensures OneFolded(s, s.agg.ar, kc, ks, rows + part)
  {
    ghost var slots := s.agg.Slots();
    assert Cols(vs, store)[s.col] == vs[s.col].Cells();
    PickLive(Cols(vs, store), sel.Idx(), s.col, []);
    s.agg.Update(vs[s.col], sel, gids);
    ScatterFolds(s.agg.ar, SpecOf(s), kc, ks, rows, slots, part, s.agg.Targets(sel.n, gids));
  }

  /** Make room for the groups part adds to rows. */
  method GrowOne(s: AggRef, groups: nat, ghost kc: seq<nat>, ghost rows: seq<Row>, ghost part: seq<Row>)
    requires OneFolded(s, s.agg.ar, kc, Keys(rows, kc), rows) && groups == |Keys(rows + part, kc)|
    modifies s.agg
    ensures OneFolded(s, s.agg.ar, kc, Keys(rows + part, kc), rows)
  {
    ghost var slots := s.agg.Slots();
    s.agg.Grow(groups);
    FoldedGrow(s.agg.ar, SpecOf(s), kc, rows, part, slots, s.agg.Slots());
  }

  /** A batch's live rows part, as every aggregator of an operator sees them. */
  ghost predicate Feeds(specs: seq<AggRef>, ar: Arith, vs: array<Vector?>, sel: Selection, types: seq<ColType>,
                        part: seq<Row>, store: set<object>, state: set<object>)
    reads store, sel
  {
    && AggsOwned(specs, state) && AggsFit(specs, ar, types) && store !! state && sel !in state
    && Owned(vs, store) && vs.Length == |types| && (forall c :: 0 <= c < |types| ==> vs[c].typ == types[c])
    && sel.Valid() && Selects(Cols(vs, store), sel.Idx()) && part == LiveRows(Cols(vs, store), sel.Idx())
  }

  /** Grow, then update: what the grouped loop does for spec i. */
  method GroupOne(specs: seq<AggRef>, i: nat, vs: array<Vector?>, sel: Selection, gids: seq<nat>, groups: nat,
                  ghost ar: Arith, ghost types: seq<ColType>, ghost store: set<object>, ghost state: set<object>,
                  ghost kc: seq<nat>, ghost rows: seq<Row>, ghost part: seq<Row>)
    requires Feeds(specs, ar, vs, sel, types, part, store, state) && part != [] && i < |specs|
    requires OneFolded(specs[i], ar, kc, Keys(rows, kc), rows)
    requires groups == |Keys(rows + part, kc)| && Routed(kc, Keys(rows + part, kc), part, gids)
    modifies specs[i].agg
    ensures OneFolded(specs[i], ar, kc, Keys(rows + part, kc), rows + part)
  {
    KeysDistinct(rows + part, kc);
    GrowOne(specs[i], groups, kc, rows, part);
    UpdateOne(specs[i], vs, sel, Some(gids), store, kc, Keys(rows + part, kc), rows, part);
  }

  /** The grouped loop over the specs. */
  method UpdateGroups(specs: seq<AggRef>, vs: array<Vector?>, sel: Selection, gids: seq<nat>, groups: nat,
                      ghost ar: Arith, ghost types: seq<ColType>, ghost store: set<object>, ghost state: set<object>,
                      ghost kc: seq<nat>, ghost rows: seq<Row>, ghost part: seq<Row>)
    requires Feeds(specs, ar, vs, sel, types, part, store, state) && part != []
    requires AllFolded(specs, ar, kc, Keys(rows, kc), rows, state)
    requires groups == |Keys(rows + part, kc)| && Routed(kc, Keys(rows + part, kc), part, gids)
    modifies state
    ensures AllFolded(specs, ar, kc, Keys(rows + part, kc), rows + part, state)
  {
    for i := 0 to |specs|
      invariant Feeds(specs, ar, vs, sel, types, part, store, state)
      invariant forall j :: 0 <= j < i ==> OneFolded(specs[j], ar, kc, Keys(rows + part, kc), rows + part)
      invariant forall j :: i <= j < |specs| ==> OneFolded(specs[j], ar, kc, Keys(rows, kc), rows)
    {
      assert forall j :: 0 <= j < |specs| && j != i ==> specs[j].agg != specs[i].agg;
      GroupOne(specs, i, vs, sel, gids, groups, ar, types, store, state, kc, rows, part);
    }
  }

  lemma {:induction false} BucketOfAll(rows: seq<Row>)
    ensures Bucket(rows, [], []) == rows
  {
    if rows != [] {
      BucketOfAll(rows[..|rows| - 1]);
    }
  }

  /** Update spec i for a single group, the empty key. */
  method ScalarOne(specs: seq<AggRef>, i: nat, vs: array<Vector?>, sel: Selection,
                   ghost ar: Arith, ghost types: seq<ColType>, ghost store: set<object>, ghost state: set<object>,
                   ghost rows: seq<Row>, ghost part: seq<Row>)
    requires Feeds(specs, ar, vs, sel, types, part, store, state) && i < |specs|
    requires OneFolded(specs[i], ar, [], [[]], rows)
    modifies specs[i].agg
    ensures OneFolded(specs[i], ar, [], [[]], rows + part)
  {
    UpdateOne(specs[i], vs, sel, None, store, [], [[]], rows, part);
  }

  /** The scalar loop over the specs. */
  method UpdateScalar(specs: seq<AggRef>, vs: array<Vector?>, sel: Selection,
                      ghost ar: Arith, ghost types: seq<ColType>, ghost store: set<object>, ghost state: set<object>,
                      ghost rows: seq<Row>, ghost part: seq<Row>)
    requires Feeds(specs, ar, vs, sel, types, part, store, state)
    requires AllFolded(specs, ar, [], [[]], rows, state)
    modifies state
    ensures AllFolded(specs, ar, [], [[]], rows + part, state)
  {
    for i := 0 to |specs|
      invariant Feeds(specs, ar, vs, sel, types, part, store, state)
      invariant forall j :: 0 <= j < i ==> OneFolded(specs[j], ar, [], [[]], rows + part)
      invariant forall j :: i <= j < |specs| ==> OneFolded(specs[j], ar, [], [[]], rows)
    {
      assert forall j :: 0 <= j < |specs| && j != i ==> specs[j].agg != specs[i].agg;
      ScalarOne(specs, i, vs, sel, ar, types, store, state, rows, part);
    }
  }

  /** Append the results of groups start..end to one output column. */
  method FinalizeWindow(s: AggRef, out: Vector, start: nat, end: nat,
                        ghost kc: seq<nat>, ghost ks: seq<Row>, ghost rows: seq<Row>)
    requires OneFolded(s, s.agg.ar, kc, ks, rows) && start <= end <= |ks| && end - start <= VECTOR_SIZE
    requires out.Valid() && out.length == 0 && out.typ == OutputType(s.agg.fn)
    modifies out, out.nulls
    ensures out.Valid() && out.Cells() == Results(s.agg.ar, SpecOf(s), kc, ks[start..end], rows)
  {
    for gid := start to end
      invariant out.Valid() && out.Cells() == Results(s.agg.ar, SpecOf(s), kc, ks[start..gid], rows)
    {
      ResultsSnoc(s.agg.ar, SpecOf(s), kc, ks, rows, start, gid);
      assert out.length == |out.Cells()|;
      s.agg.Finalize(gid, out);
    }
  }

  lemma ResultsSnoc(ar: Arith, agg: AggSpec, kc: seq<nat>, ks: seq<Row>, rows: seq<Row>, start: nat, gid: nat)
    requires start <= gid < |ks|
    ensures Results(ar, agg, kc, ks[start..gid + 1], rows)
            == Results(ar, agg, kc, ks[start..gid], rows) + [Aggregate(ar, agg, Bucket(rows, kc, ks[gid]))]
  {
    var l, r := Results(ar, agg, kc, ks[start..gid + 1], rows), Results(ar, agg, kc, ks[start..gid], rows);
    assert forall g :: 0 <= g < gid - start ==> ks[start..gid + 1][g] == ks[start..gid][g];
    assert l[..gid - start] == r && ks[start..gid + 1][gid - start] == ks[gid];
  }

  /** An aggregate operator's output columns from at on: one per aggregate, spelling out want. */
  ghost predicate AggColumns(specs: seq<AggRef>, ar: Arith, at: nat, types: seq<ColType>,
                             kc: seq<nat>, window: seq<Row>, rows: seq<Row>, want: seq<Row>) {
    && |types| == at + |specs| && |window| <= VECTOR_SIZE
    && (forall i :: 0 <= i < |specs| ==>
          specs[i].agg.ar == ar && types[at + i] == OutputType(specs[i].agg.fn)
          && Column(want, at + i) == Results(ar, SpecOf(specs[i]), kc, window, rows))
  }

  method FinalizeOne(specs: seq<AggRef>, i: nat, out: Batch, at: nat, start: nat, end: nat,
                     ghost ar: Arith, ghost mem: set<object>, ghost types: seq<ColType>,
                     ghost kc: seq<nat>, ghost ks: seq<Row>, ghost rows: seq<Row>, ghost want: seq<Row>)
    requires i < |specs| && start <= end <= |ks| && AggColumns(specs, ar, at, types, kc, ks[start..end], rows, want)
    requires OneFolded(specs[i], ar, kc, ks, rows) && specs[i].agg !in mem
    requires Filled(out, mem, types, want, at + i)
    modifies mem
    ensures Filled(out, mem, types, want, at + i + 1)
  {
    assert forall c :: 0 <= c < |types| && c != at + i ==>
        out.vectors[c] != out.vectors[at + i] && out.vectors[c].nulls != out.vectors[at + i].nulls;
    FinalizeWindow(specs[i], out.vectors[at + i], start, end, kc, ks, rows);
  }

  /** Fill the aggregate columns of an output batch with the results of groups start..end. */
  method FinalizeAll(specs: seq<AggRef>, out: Batch, at: nat, start: nat, end: nat,
                     ghost ar: Arith, ghost mem: set<object>, ghost types: seq<ColType>, ghost state: set<object>,
                     ghost kc: seq<nat>, ghost ks: seq<Row>, ghost rows: seq<Row>, ghost want: seq<Row>)
    requires start <= end <= |ks| && AggColumns(specs, ar, at, types, kc, ks[start..end], rows, want)
    requires AggsOwned(specs, state) && AllFolded(specs, ar, kc, ks, rows, state) && state !! mem
    requires Filled(out, mem, types, want, at)
    modifies mem
    ensures Filled(out, mem, types, want, |types|)
  {
    for i := 0 to |specs|
      invariant AllFolded(specs, ar, kc, ks, rows, state) && Filled(out, mem, types, want, at + i)
    {
      FinalizeOne(specs, i, out, at, start, end, ar, mem, types, kc, ks, rows, want);
    }
  }

  /** One slot per aggregator, for the single group of a query without GROUP BY. */
  method InitAll(specs: seq<AggRef>, ghost ar: Arith, ghost state: set<object>)
    requires AggsOwned(specs, state) && forall i :: 0 <= i < |specs| ==> specs[i].agg.ar == ar && FnOk(specs[i].agg.fn)
    modifies state
    ensures AllFolded(specs, ar, [], [[]], [], state)
  {
    for i := 0 to |specs|
      invariant forall j :: 0 <= j < i ==> OneFolded(specs[j], ar, [], [[]], [])
    {
      assert forall j :: 0 <= j < |specs| && j != i ==> specs[j].agg != specs[i].agg;
      specs[i].agg.Init(1);
      ZeroFolded(specs[i], ar, [], [[]]);
    }
  }

  /** Zero every aggregator for the next run; the groups they have room for stay. */
  method ResetAll(specs: seq<AggRef>, ghost ar: Arith, ghost state: set<object>, ghost kc: seq<nat>, ghost ks: seq<Row>)
    requires AggsOwned(specs, state)
    requires forall i :: 0 <= i < |specs| ==> specs[i].agg.Valid() && |specs[i].agg.accs| >= |ks|
    modifies state
    ensures AllFolded(specs, ar, kc, ks, [], state)
    ensures forall i :: 0 <= i < |specs| ==> |specs[i].agg.accs| == old(|specs[i].agg.accs|)
  {
    for i := 0 to |specs|
      invariant forall j :: 0 <= j < |specs| ==> specs[j].agg.Valid() && |specs[j].agg.accs| == old(|specs[j].agg.accs|)
      invariant forall j :: 0 <= j < i ==> OneFolded(specs[j], ar, kc, ks, [])
    {
      assert forall j :: 0 <= j < |specs| && j != i ==> specs[j].agg != specs[i].agg;
      specs[i].agg.Reset();
      ZeroFolded(specs[i], ar, kc, ks);
    }
  }

  /** All-zero slots are the folds over no rows. */
  lemma ZeroFolded(s: AggRef, ar: Arith, kc: seq<nat>, ks: seq<Row>)
    requires s.agg.Valid() && |ks| <= |s.agg.accs|
    requires s.agg.Slots() == seq(|s.agg.accs|, _ => ZeroSlot(s.agg.fn))
    ensures OneFolded(s, ar, kc, ks, [])
  {}

  function OutputTypes(specs: seq<AggRef>): seq<ColType> {
    seq(|specs|, i requires 0 <= i < |specs| => OutputType(specs[i].agg.fn))
  }

  lemma ScalarColumns(specs: seq<AggRef>, ar: Arith, rows: seq<Row>)
    requires forall i :: 0 <= i < |specs| ==> specs[i].agg.ar == ar
    ensures AggColumns(specs, ar, 0, OutputTypes(specs), [], [[]], rows, [AggRow(ar, SpecsOf(specs), rows)])
  {
    BucketOfAll(rows);
  }

  /** Finalize every aggregator of a query without GROUP BY into its one output row. */
  method EmitScalar(specs: seq<AggRef>, out: Batch, ghost ar: Arith, ghost mem: set<object>,
                    ghost state: set<object>, ghost rows: seq<Row>)
    requires AggsOwned(specs, state) && AllFolded(specs, ar, [], [[]], rows, state) && state !! mem
    requires forall i :: 0 <= i < |specs| ==> specs[i].agg.ar == ar
    requires Ready(out, mem, OutputTypes(specs)) && Filled(out, mem, OutputTypes(specs), [], 0) && out.sel !in state
    modifies mem, out.sel
    ensures Ready(out, mem, OutputTypes(specs))
    ensures Shows(out, [AggRow(ar, SpecsOf(specs), rows)], mem + {out.vectors})
  {
    ghost var types, row := OutputTypes(specs), [AggRow(ar, SpecsOf(specs), rows)];
    ScalarColumns(specs, ar, rows);
    FinalizeAll(specs, out, 0, 0, 1, ar, mem, types, state, [], [[]], rows, row);
    out.sel.Reset();
    SelectAll(out.sel, 1);
    ShowWindow(out, mem, types, row);
  }
}
