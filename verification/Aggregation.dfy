/** Meaning of the aggregate functions and of GROUP BY over rows. */
module Aggregation {
  import opened Types
  import opened Relation

  /** Float64 arithmetic left open: any functions on bit patterns. */
  datatype Arith = Arith(add: (U64, U64) -> U64, div: (U64, U64) -> U64, ofInt: I64 -> U64)

  datatype AggFn = Count | Sum(t: ColType) | Min(t: ColType) | Max(t: ColType) | Avg(t: ColType)

  datatype AggSpec = AggSpec(fn: AggFn, col: nat)

  /** State of one aggregate for one group. */
  datatype Slot = Slot(acc: Scalar, has: bool, n: I64)

  /** SUM, MIN, MAX and AVG are built over numeric columns only. */
  predicate FnOk(fn: AggFn) {
    fn.Count? || fn.t == TInt64 || fn.t == TFloat64
  }

  function OutputType(fn: AggFn): ColType {
    match fn
    case Count => TInt64
    case Sum(t) => t
    case Min(t) => t
    case Max(t) => t
    case Avg(_) => TFloat64
  }

  function ZeroSlot(fn: AggFn): Slot {
    Slot(Zero(if fn.Count? then TInt64 else fn.t), false, 0)
  }

  function Add(ar: Arith, a: Scalar, b: Scalar): Scalar {
    match (a, b)
    case (SInt(x), SInt(y)) => SInt(Wrap64(x + y))
    case (SFloat(x), SFloat(y)) => SFloat(ar.add(x, y))
    case _ => a
  }

  predicate IsNaN(bits: U64) {
    bits % 0x8000_0000_0000_0000 > 0x7FF0_0000_0000_0000
  }

  /** Orders non-NaN bit patterns as the numbers they denote; both zeros have rank 0. */
  function FloatRank(bits: U64): int {
    if bits < 0x8000_0000_0000_0000 then bits else 0x8000_0000_0000_0000 - bits
  }

  predicate TextLess(a: Text, b: Text) {
    if b == [] then false
    else if a == [] then true
    else a[0] < b[0] || (a[0] == b[0] && TextLess(a[1..], b[1..]))
  }

  /** Go's < on two values of one type. */
  predicate Less(a: Scalar, b: Scalar) {
    match (a, b)
    case (SInt(x), SInt(y)) => x < y
    case (SFloat(x), SFloat(y)) => !IsNaN(x) && !IsNaN(y) && FloatRank(x) < FloatRank(y)
    case (SStr(x), SStr(y)) => TextLess(x, y)
    case _ => false
  }

  /** One row's contribution; every function but COUNT skips nulls. */
  function Step(ar: Arith, fn: AggFn, s: Slot, c: Cell): Slot {
    match fn
    case Count => s.(n := Wrap64(s.n + 1))
    case Sum(_) => if c.Null? then s else s.(acc := Add(ar, s.acc, c.v), has := true)
    case Min(_) => if c.Val? && (!s.has || Less(c.v, s.acc)) then s.(acc := c.v, has := true) else s
    case Max(_) => if c.Val? && (!s.has || Less(s.acc, c.v)) then s.(acc := c.v, has := true) else s
    case Avg(_) => if c.Null? then s else s.(acc := Add(ar, s.acc, c.v), n := Wrap64(s.n + 1))
  }

  function Fold(ar: Arith, fn: AggFn, cells: seq<Cell>): Slot {
    if cells == [] then ZeroSlot(fn)
    else Step(ar, fn, Fold(ar, fn, cells[..|cells| - 1]), cells[|cells| - 1])
  }

  /** The result of a group; NULL when no value reached it. */
  function Finalize(ar: Arith, fn: AggFn, s: Slot): Cell {
    match fn
    case Count => Val(SInt(s.n))
    case Avg(_) =>
      if s.n == 0 then Null
      else
        var den := ar.ofInt(s.n);
        (match s.acc
         case SInt(x) => Val(SFloat(ar.div(ar.ofInt(x), den)))
         case SFloat(x) => Val(SFloat(ar.div(x, den)))
         case _ => Null)
    case _ => if s.has then Val(s.acc) else Null
  }

  /** The distinct keys of rows in first-seen order. */
  function Keys(rows: seq<Row>, kc: seq<nat>): seq<Row> {
    if rows == [] then []
    else
      var n := |rows| - 1;
      var before, key := Keys(rows[..n], kc), ProjectRow(kc, rows[n]);
      if key in before then before else before + [key]
  }

  /** The rows of one group, in order. */
  function Bucket(rows: seq<Row>, kc: seq<nat>, key: Row): seq<Row> {
    if rows == [] then []
    else
      var n := |rows| - 1;
      Bucket(rows[..n], kc, key) + (if ProjectRow(kc, rows[n]) == key then [rows[n]] else [])
  }

  /** One aggregate over some rows. */
  function Aggregate(ar: Arith, agg: AggSpec, rows: seq<Row>): Cell {
    Finalize(ar, agg.fn, Fold(ar, agg.fn, Column(rows, agg.col)))
  }

  function AggRow(ar: Arith, aggs: seq<AggSpec>, rows: seq<Row>): Row {
    seq(|aggs|, a requires 0 <= a < |aggs| => Aggregate(ar, aggs[a], rows))
  }

  /** One aggregate of each of some groups. */
  function Results(ar: Arith, agg: AggSpec, kc: seq<nat>, ks: seq<Row>, rows: seq<Row>): seq<Cell> {
    seq(|ks|, g requires 0 <= g < |ks| => Aggregate(ar, agg, Bucket(rows, kc, ks[g])))
  }

  /** GROUP BY kc: one row per distinct key, in first-seen order. */
  function GroupRows(ar: Arith, kc: seq<nat>, aggs: seq<AggSpec>, rows: seq<Row>): seq<Row> {
    var ks := Keys(rows, kc);
    seq(|ks|, g requires 0 <= g < |ks| => ks[g] + AggRow(ar, aggs, Bucket(rows, kc, ks[g])))
  }

  lemma GroupCell(ar: Arith, aggs: seq<AggSpec>, key: Row, part: seq<Row>, c: nat)
    requires c < |key| + |aggs|
    ensures CellOf(key + AggRow(ar, aggs, part), c)
            == if c < |key| then CellOf(key, c) else Aggregate(ar, aggs[c - |key|], part)
  {}

  /** The leading columns of the grouped result are the key columns. */
  lemma KeyColumn(ar: Arith, kc: seq<nat>, aggs: seq<AggSpec>, rows: seq<Row>, c: nat)
    requires c < |kc|
    ensures Column(GroupRows(ar, kc, aggs, rows), c) == Column(Keys(rows, kc), c)
  {
    KeysWidth(rows, kc);
    var ks := Keys(rows, kc);
    forall g | 0 <= g < |ks|
      ensures CellOf(GroupRows(ar, kc, aggs, rows)[g], c) == CellOf(ks[g], c)
    {
      GroupCell(ar, aggs, ks[g], Bucket(rows, kc, ks[g]), c);
    }
  }

  /** Behind them comes one column of results per aggregate. */
  lemma AggColumn(ar: Arith, kc: seq<nat>, aggs: seq<AggSpec>, rows: seq<Row>, i: nat)
    requires i < |aggs|
    ensures Column(GroupRows(ar, kc, aggs, rows), |kc| + i) == Results(ar, aggs[i], kc, Keys(rows, kc), rows)
  {
    KeysWidth(rows, kc);
    var ks := Keys(rows, kc);
    forall g | 0 <= g < |ks|
      ensures CellOf(GroupRows(ar, kc, aggs, rows)[g], |kc| + i) == Aggregate(ar, aggs[i], Bucket(rows, kc, ks[g]))
    {
      GroupCell(ar, aggs, ks[g], Bucket(rows, kc, ks[g]), |kc| + i);
    }
  }

  lemma ResultsSlice(ar: Arith, agg: AggSpec, kc: seq<nat>, ks: seq<Row>, rows: seq<Row>, lo: nat, hi: nat)
    requires lo <= hi <= |ks|
    ensures Results(ar, agg, kc, ks[lo..hi], rows) == Results(ar, agg, kc, ks, rows)[lo..hi]
  {}

  lemma {:induction false} KeysWidth(rows: seq<Row>, kc: seq<nat>)
    ensures forall g :: 0 <= g < |Keys(rows, kc)| ==> |Keys(rows, kc)[g]| == |kc|
  {
    if rows != [] {
      KeysWidth(rows[..|rows| - 1], kc);
    }
  }

  // ----- first-seen keys -----

  lemma {:induction false} KeysDistinct(rows: seq<Row>, kc: seq<nat>)
    ensures forall i, j :: 0 <= i < j < |Keys(rows, kc)| ==> Keys(rows, kc)[i] != Keys(rows, kc)[j]
  {
    if rows != [] {
      KeysDistinct(rows[..|rows| - 1], kc);
    }
  }

  lemma {:induction false} KeysExtend(a: seq<Row>, b: seq<Row>, kc: seq<nat>)
    ensures Keys(a, kc) <= Keys(a + b, kc)
  {
    if b == [] {
      assert a + b == a;
    } else {
      assert (a + b)[..|a + b| - 1] == a + b[..|b| - 1];
      KeysExtend(a, b[..|b| - 1], kc);
    }
  }

  /** The keys are exactly the key tuples of the rows, so a key has a row and a row has a key. */
  lemma {:induction false} KeysAreKeys(rows: seq<Row>, kc: seq<nat>, key: Row)
    ensures key in Keys(rows, kc) <==> exists k :: 0 <= k < |rows| && ProjectRow(kc, rows[k]) == key
  {
    if rows != [] {
      var n := |rows| - 1;
      KeysAreKeys(rows[..n], kc, key);
      if k :| 0 <= k < |rows| && ProjectRow(kc, rows[k]) == key {
        assert k == n || ProjectRow(kc, rows[..n][k]) == key;
      }
      if k :| 0 <= k < n && ProjectRow(kc, rows[..n][k]) == key {
        assert ProjectRow(kc, rows[k]) == key;
      }
    }
  }

  lemma {:induction false} EmptyBucket(rows: seq<Row>, kc: seq<nat>, key: Row)
    ensures key in Keys(rows, kc) <==> Bucket(rows, kc, key) != []
  {
    if rows != [] {
      EmptyBucket(rows[..|rows| - 1], kc, key);
    }
  }

  // ----- batched accumulation -----

  /** The slots after routing cell k of a batch to slot gids[k], for every k. */
  function Scatter(ar: Arith, fn: AggFn, slots: seq<Slot>, cells: seq<Cell>, gids: seq<nat>): (r: seq<Slot>)
    requires |cells| == |gids| && forall k :: 0 <= k < |gids| ==> gids[k] < |slots|
    ensures |r| == |slots|
  {
    if cells == [] then slots
    else
      var n := |cells| - 1;
      var s := Scatter(ar, fn, slots, cells[..n], gids[..n]);
      s[gids[n] := Step(ar, fn, s[gids[n]], cells[n])]
  }

  lemma ScatterStep(ar: Arith, fn: AggFn, slots: seq<Slot>, cells: seq<Cell>, gids: seq<nat>, k: nat)
    requires k < |cells| == |gids| && forall j :: 0 <= j < |gids| ==> gids[j] < |slots|
    ensures var s := Scatter(ar, fn, slots, cells[..k], gids[..k]);
            Scatter(ar, fn, slots, cells[..k + 1], gids[..k + 1]) == s[gids[k] := Step(ar, fn, s[gids[k]], cells[k])]
  {
    assert cells[..k + 1][..k] == cells[..k] && gids[..k + 1][..k] == gids[..k];
  }

  /** Slot g holds the fold over the rows of group g; slots past the last group are untouched. */
  predicate Folded(ar: Arith, agg: AggSpec, kc: seq<nat>, ks: seq<Row>, rows: seq<Row>, slots: seq<Slot>) {
    && |ks| <= |slots|
    && (forall g :: 0 <= g < |ks| ==>
          slots[g] == Fold(ar, agg.fn, Column(Bucket(rows, kc, ks[g]), agg.col)))
    && (forall g :: |ks| <= g < |slots| ==> slots[g] == ZeroSlot(agg.fn))
  }

  /** gids route each row of part to its key in ks. */
  predicate Routed(kc: seq<nat>, ks: seq<Row>, part: seq<Row>, gids: seq<nat>) {
    && |gids| == |part|
    && (forall k :: 0 <= k < |part| ==> gids[k] < |ks| && ks[gids[k]] == ProjectRow(kc, part[k]))
  }

  lemma ScatterSnoc(ar: Arith, fn: AggFn, slots: seq<Slot>, cells: seq<Cell>, c: Cell, gids: seq<nat>, g: nat)
    requires |cells| == |gids| && g < |slots| && forall k :: 0 <= k < |gids| ==> gids[k] < |slots|
    ensures var s := Scatter(ar, fn, slots, cells, gids);
            Scatter(ar, fn, slots, cells + [c], gids + [g]) == s[g := Step(ar, fn, s[g], c)]
  {}

  /** One more row routed to group g keeps every slot the fold of its group. */
  lemma FoldedSnoc(ar: Arith, agg: AggSpec, kc: seq<nat>, ks: seq<Row>, rows: seq<Row>, slots: seq<Slot>,
                   part: seq<Row>, r: Row, gids: seq<nat>, g: nat)
    requires |part| == |gids| && g < |slots| && forall k :: 0 <= k < |gids| ==> gids[k] < |slots|
    requires Folded(ar, agg, kc, ks, rows + part, Scatter(ar, agg.fn, slots, Column(part, agg.col), gids))
    requires g < |ks| && ks[g] == ProjectRow(kc, r)
    requires forall i, j :: 0 <= i < j < |ks| ==> ks[i] != ks[j]
    ensures Folded(ar, agg, kc, ks, rows + (part + [r]),
                   Scatter(ar, agg.fn, slots, Column(part + [r], agg.col), gids + [g]))
  {
    var cells := Column(part, agg.col);
    FoldedStep(ar, agg, kc, ks, rows + part, Scatter(ar, agg.fn, slots, cells, gids), r, g);
    ScatterSnoc(ar, agg.fn, slots, cells, CellOf(r, agg.col), gids, g);
    assert Column(part + [r], agg.col) == cells + [CellOf(r, agg.col)];
    assert rows + (part + [r]) == rows + part + [r];
  }

  lemma {:induction false} ScatterFolds(ar: Arith, agg: AggSpec, kc: seq<nat>, ks: seq<Row>,
                                        rows: seq<Row>, slots: seq<Slot>, part: seq<Row>, gids: seq<nat>)
    requires Folded(ar, agg, kc, ks, rows, slots) && Routed(kc, ks, part, gids)
    requires forall i, j :: 0 <= i < j < |ks| ==> ks[i] != ks[j]
    ensures Folded(ar, agg, kc, ks, rows + part, Scatter(ar, agg.fn, slots, Column(part, agg.col), gids))
  {
    if part == [] {
      assert rows + part == rows;
    } else {
      var n := |part| - 1;
      ScatterFolds(ar, agg, kc, ks, rows, slots, part[..n], gids[..n]);
      FoldedSnoc(ar, agg, kc, ks, rows, slots, part[..n], part[n], gids[..n], gids[n]);
      SplitLast(part);
      SplitLast(gids);
    }
  }

  lemma FoldedStep(ar: Arith, agg: AggSpec, kc: seq<nat>, ks: seq<Row>, rows: seq<Row>, slots: seq<Slot>,
                   r: Row, gid: nat)
    requires Folded(ar, agg, kc, ks, rows, slots) && gid < |ks| && ks[gid] == ProjectRow(kc, r)
    requires forall i, j :: 0 <= i < j < |ks| ==> ks[i] != ks[j]
    ensures Folded(ar, agg, kc, ks, rows + [r], slots[gid := Step(ar, agg.fn, slots[gid], CellOf(r, agg.col))])
  {
    forall g | 0 <= g < |ks|
      ensures slots[gid := Step(ar, agg.fn, slots[gid], CellOf(r, agg.col))][g]
              == Fold(ar, agg.fn, Column(Bucket(rows + [r], kc, ks[g]), agg.col))
    {
      FoldOneMore(ar, agg, kc, ks[g], rows, r);
    }
  }

  lemma FoldOneMore(ar: Arith, agg: AggSpec, kc: seq<nat>, key: Row, rows: seq<Row>, r: Row)
    ensures var before := Fold(ar, agg.fn, Column(Bucket(rows, kc, key), agg.col));
            Fold(ar, agg.fn, Column(Bucket(rows + [r], kc, key), agg.col))
            == if ProjectRow(kc, r) == key then Step(ar, agg.fn, before, CellOf(r, agg.col)) else before
  {
    assert (rows + [r])[..|rows|] == rows;
    var b := Bucket(rows, kc, key);
    if ProjectRow(kc, r) == key {
      assert Bucket(rows + [r], kc, key) == b + [r];
      assert Column(b + [r], agg.col) == Column(b, agg.col) + [CellOf(r, agg.col)];
      FoldSnoc(ar, agg.fn, Column(b, agg.col), CellOf(r, agg.col));
    } else {
      assert Bucket(rows + [r], kc, key) == b;
    }
  }

  lemma FoldSnoc(ar: Arith, fn: AggFn, cells: seq<Cell>, c: Cell)
    ensures Fold(ar, fn, cells + [c]) == Step(ar, fn, Fold(ar, fn, cells), c)
  {}

  /** Groups first seen later have no rows yet. */
  lemma FoldedGrow(ar: Arith, agg: AggSpec, kc: seq<nat>, rows: seq<Row>, more: seq<Row>,
                   slots: seq<Slot>, grown: seq<Slot>)
    requires Folded(ar, agg, kc, Keys(rows, kc), rows, slots)
    requires slots <= grown && |Keys(rows + more, kc)| <= |grown|
    requires forall g :: |slots| <= g < |grown| ==> grown[g] == ZeroSlot(agg.fn)
    ensures Folded(ar, agg, kc, Keys(rows + more, kc), rows, grown)
  {
    var ks, all := Keys(rows, kc), Keys(rows + more, kc);
    KeysExtend(rows, more, kc);
    KeysDistinct(rows + more, kc);
    forall g | |ks| <= g < |all|
      ensures grown[g] == Fold(ar, agg.fn, Column(Bucket(rows, kc, all[g]), agg.col))
    {
      EmptyBucket(rows, kc, all[g]);
      assert grown[g] == ZeroSlot(agg.fn);
    }
  }
}
