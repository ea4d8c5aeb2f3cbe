/** What the folds of exec/aggregators.go compute, and how grouped results relate to scalar ones. */
module AggregateLaws {
  import opened Types
  import opened Relation
  import opened Aggregation
  import opened Floats

  // ----- groups partition the rows -----

  function Weigh(rows: seq<Row>, w: Row -> int): int {
    if rows == [] then 0 else Weigh(rows[..|rows| - 1], w) + w(rows[|rows| - 1])
  }

  /** The weights of the groups of some keys, added up. */
  function GroupWeight(ks: seq<Row>, rows: seq<Row>, kc: seq<nat>, w: Row -> int): int {
    if ks == [] then 0
    else GroupWeight(ks[..|ks| - 1], rows, kc, w) + Weigh(Bucket(rows, kc, ks[|ks| - 1]), w)
  }

  lemma WeighSnoc(rows: seq<Row>, r: Row, w: Row -> int)
    ensures Weigh(rows + [r], w) == Weigh(rows, w) + w(r)
  {}

  lemma BucketSnoc(rows: seq<Row>, r: Row, kc: seq<nat>, key: Row)
    ensures Bucket(rows + [r], kc, key)
            == if ProjectRow(kc, r) == key then Bucket(rows, kc, key) + [r] else Bucket(rows, kc, key)
  {}

  lemma LastIsNew(ks: seq<Row>, key: Row)
    requires ks != [] && forall i, j :: 0 <= i < j < |ks| ==> ks[i] != ks[j]
    ensures var init, last := ks[..|ks| - 1], ks[|ks| - 1];
            last !in init && (key in ks <==> key in init || key == last)
  {}

  /** A further row adds its weight to its own group only. */
  lemma {:induction false} OneMoreRow(ks: seq<Row>, rows: seq<Row>, r: Row, kc: seq<nat>, w: Row -> int)
    requires forall i, j :: 0 <= i < j < |ks| ==> ks[i] != ks[j]
    ensures GroupWeight(ks, rows + [r], kc, w)
            == GroupWeight(ks, rows, kc, w) + (if ProjectRow(kc, r) in ks then w(r) else 0)
  {
    if ks != [] {
      var last := ks[|ks| - 1];
      LastIsNew(ks, ProjectRow(kc, r));
      OneMoreRow(ks[..|ks| - 1], rows, r, kc, w);
      BucketSnoc(rows, r, kc, last);
      WeighSnoc(Bucket(rows, kc, last), r, w);
    }
  }

  lemma PartitionSnoc(rows: seq<Row>, r: Row, kc: seq<nat>, w: Row -> int)
    requires GroupWeight(Keys(rows, kc), rows, kc, w) == Weigh(rows, w)
    ensures GroupWeight(Keys(rows + [r], kc), rows + [r], kc, w) == Weigh(rows + [r], w)
  {
    var ks, key := Keys(rows, kc), ProjectRow(kc, r);
    assert (rows + [r])[..|rows|] == rows;
    KeysDistinct(rows, kc);
    OneMoreRow(ks, rows, r, kc, w);
    WeighSnoc(rows, r, w);
    if key !in ks {
      NewGroup(ks, rows, r, kc, w);
    }
  }

  /** A row of an unseen key opens a group of its own. */
  lemma NewGroup(ks: seq<Row>, rows: seq<Row>, r: Row, kc: seq<nat>, w: Row -> int)
    requires ks == Keys(rows, kc) && ProjectRow(kc, r) !in ks
    ensures GroupWeight(ks + [ProjectRow(kc, r)], rows + [r], kc, w) == GroupWeight(ks, rows + [r], kc, w) + w(r)
  {
    var key := ProjectRow(kc, r);
    EmptyBucket(rows, kc, key);
    BucketSnoc(rows, r, kc, key);
    WeighSnoc([], r, w);
    assert (ks + [key])[..|ks|] == ks && [] + [r] == [r];
  }

  /** Whatever is weighed, the groups add up to the whole table: no row is lost or counted twice. */
  lemma {:induction false} GroupsPartition(rows: seq<Row>, kc: seq<nat>, w: Row -> int)
    ensures GroupWeight(Keys(rows, kc), rows, kc, w) == Weigh(rows, w)
  {
    if rows != [] {
      var n := |rows| - 1;
      GroupsPartition(rows[..n], kc, w);
      PartitionSnoc(rows[..n], rows[n], kc, w);
      SplitLast(rows);
    }
  }

  lemma {:induction false} WeighOnes(rows: seq<Row>)
    ensures Weigh(rows, _ => 1) == |rows|
  {
    if rows != [] {
      WeighOnes(rows[..|rows| - 1]);
    }
  }

  /** The sizes of the groups add up to the number of rows. */
  lemma GroupCountsAddUp(rows: seq<Row>, kc: seq<nat>)
    ensures GroupWeight(Keys(rows, kc), rows, kc, _ => 1) == |rows|
  {
    GroupsPartition(rows, kc, _ => 1);
    WeighOnes(rows);
  }

  // ----- COUNT -----

  lemma {:induction false} CountFold(ar: Arith, cells: seq<Cell>)
    ensures Fold(ar, Count, cells).n == Wrap64(|cells|)
  {
    if cells != [] {
      CountFold(ar, cells[..|cells| - 1]);
      WrapAdd(|cells| - 1, 1);
    }
  }

  function NonNulls(cells: seq<Cell>): nat {
    if cells == [] then 0
    else NonNulls(cells[..|cells| - 1]) + (if cells[|cells| - 1].Val? then 1 else 0)
  }

  lemma {:induction false} NonNullsBound(cells: seq<Cell>)
    ensures NonNulls(cells) <= |cells|
    ensures NonNulls(cells) == |cells| <==> Null !in cells
  {
    if cells != [] {
      var n := |cells| - 1;
      NonNullsBound(cells[..n]);
      SplitLast(cells);
    }
  }

  /**
   * COUNT(col) counts rows, so below 2^63 rows it is the SQL count of the column's non-null
   * values exactly when the column has no null.
   */
  lemma {:induction false} CountColumn(ar: Arith, cells: seq<Cell>)
    requires |cells| < 0x8000_0000_0000_0000
    ensures Finalize(ar, Count, Fold(ar, Count, cells)) == Val(SInt(|cells|))
    ensures NonNulls(cells) <= |cells|
    ensures Finalize(ar, Count, Fold(ar, Count, cells)) == Val(SInt(NonNulls(cells))) <==> Null !in cells
  {
    CountFold(ar, cells);
    NonNullsBound(cells);
  }

  // ----- SUM over Int64 -----

  predicate Ints(cells: seq<Cell>) {
    forall k :: 0 <= k < |cells| ==> cells[k].Null? || cells[k].v.SInt?
  }

  function IntOf(c: Cell): int {
    if c.Val? && c.v.SInt? then c.v.i else 0
  }

  function IntSum(cells: seq<Cell>): int {
    if cells == [] then 0 else IntSum(cells[..|cells| - 1]) + IntOf(cells[|cells| - 1])
  }

  lemma WrapAdd(a: int, b: int)
    ensures var w: int := Wrap64(a); Wrap64(w + b) == Wrap64(a + b)
  {}

  /** SUM is the wrapped sum of the non-null values, and NULL when there is none. */
  lemma {:induction false} SumFold(ar: Arith, cells: seq<Cell>)
    requires Ints(cells)
    ensures var s := Fold(ar, Sum(TInt64), cells);
            s.acc == SInt(Wrap64(IntSum(cells))) && (s.has <==> NonNulls(cells) > 0)
  {
    if cells != [] {
      var n := |cells| - 1;
      SumFold(ar, cells[..n]);
      if cells[n].Val? {
        WrapAdd(IntSum(cells[..n]), cells[n].v.i);
      }
    }
  }

  lemma WrapSmall(x: nat)
    requires x < 0x8000_0000_0000_0000
    ensures Wrap64(x) == x
  {}

  lemma {:induction false} AvgCount(ar: Arith, cells: seq<Cell>)
    requires Ints(cells) && |cells| < 0x8000_0000_0000_0000
    ensures Fold(ar, Avg(TInt64), cells).n == NonNulls(cells)
  {
    if cells != [] {
      var n := |cells| - 1;
      AvgCount(ar, cells[..n]);
      NonNullsBound(cells[..n]);
      WrapSmall(NonNulls(cells[..n]) + 1);
    }
  }

  /** AVG keeps the wrapped sum that SUM keeps. */
  lemma {:induction false} AvgSum(ar: Arith, cells: seq<Cell>)
    requires Ints(cells)
    ensures Fold(ar, Avg(TInt64), cells).acc == Fold(ar, Sum(TInt64), cells).acc
  {
    if cells != [] {
      AvgSum(ar, cells[..|cells| - 1]);
    }
  }

  /**
   * AVG divides the wrapped sum by the number of non-null values, both converted first, and is
   * NULL when there is none.
   */
  lemma AvgResult(ar: Arith, cells: seq<Cell>)
    requires Ints(cells) && |cells| < 0x8000_0000_0000_0000
    ensures NonNulls(cells) <= |cells|
    ensures Finalize(ar, Avg(TInt64), Fold(ar, Avg(TInt64), cells))
            == if NonNulls(cells) == 0 then Null
               else Val(SFloat(ar.div(ar.ofInt(Wrap64(IntSum(cells))), ar.ofInt(NonNulls(cells)))))
  {
    NonNullsBound(cells);
    AvgCount(ar, cells);
    AvgSum(ar, cells);
    SumFold(ar, cells);
  }

  function IntAt(col: nat): Row -> int {
    (r: Row) => IntOf(CellOf(r, col))
  }

  lemma {:induction false} SumIsWeight(rows: seq<Row>, col: nat)
    ensures IntSum(Column(rows, col)) == Weigh(rows, IntAt(col))
  {
    if rows != [] {
      var n := |rows| - 1;
      SumIsWeight(rows[..n], col);
      assert Column(rows, col)[..n] == Column(rows[..n], col);
    }
  }

  /** The SUM results of the groups of some keys, added up. */
  function GroupSums(ar: Arith, ks: seq<Row>, rows: seq<Row>, kc: seq<nat>, col: nat): int {
    if ks == [] then 0
    else
      var s := Fold(ar, Sum(TInt64), Column(Bucket(rows, kc, ks[|ks| - 1]), col));
      GroupSums(ar, ks[..|ks| - 1], rows, kc, col) + (if s.acc.SInt? then s.acc.i else 0)
  }

  lemma IntsSnoc(rows: seq<Row>, r: Row, col: nat)
    ensures Ints(Column(rows + [r], col))
            <==> Ints(Column(rows, col)) && (CellOf(r, col).Val? ==> CellOf(r, col).v.SInt?)
  {
    assert Column(rows + [r], col) == Column(rows, col) + [CellOf(r, col)];
    var cells := Column(rows, col) + [CellOf(r, col)];
    assert cells[|rows|] == CellOf(r, col);
    assert forall k :: 0 <= k < |rows| ==> cells[k] == Column(rows, col)[k];
  }

  lemma {:induction false} BucketInts(rows: seq<Row>, kc: seq<nat>, key: Row, col: nat)
    requires Ints(Column(rows, col))
    ensures Ints(Column(Bucket(rows, kc, key), col))
  {
    if rows != [] {
      var n := |rows| - 1;
      SplitLast(rows);
      IntsSnoc(rows[..n], rows[n], col);
      BucketInts(rows[..n], kc, key, col);
      BucketSnoc(rows[..n], rows[n], kc, key);
      IntsSnoc(Bucket(rows[..n], kc, key), rows[n], col);
    }
  }

  /** Each group's SUM is off its true sum by a multiple of 2^64, and so is their total. */
  lemma {:induction false} GroupSumsCarry(ar: Arith, ks: seq<Row>, rows: seq<Row>, kc: seq<nat>, col: nat)
    returns (k: int)
    requires Ints(Column(rows, col))
    ensures GroupSums(ar, ks, rows, kc, col) == GroupWeight(ks, rows, kc, IntAt(col)) + k * 0x1_0000_0000_0000_0000
  {
    if ks == [] {
      k := 0;
    } else {
      var before := GroupSumsCarry(ar, ks[..|ks| - 1], rows, kc, col);
      var more := BucketCarry(ar, rows, kc, ks[|ks| - 1], col);
      k := before + more;
    }
  }

  lemma BucketCarry(ar: Arith, rows: seq<Row>, kc: seq<nat>, key: Row, col: nat) returns (k: int)
    requires Ints(Column(rows, col))
    ensures var s := Fold(ar, Sum(TInt64), Column(Bucket(rows, kc, key), col));
            s.acc.SInt? && s.acc.i == Weigh(Bucket(rows, kc, key), IntAt(col)) + k * 0x1_0000_0000_0000_0000
  {
    var bucket := Bucket(rows, kc, key);
    BucketInts(rows, kc, key, col);
    SumFold(ar, Column(bucket, col));
    SumIsWeight(bucket, col);
    k := WrapCarry(Weigh(bucket, IntAt(col)));
  }

  lemma WrapCarry(x: int) returns (k: int)
    ensures var w: int := Wrap64(x); w == x + k * 0x1_0000_0000_0000_0000
  {
    var q := x / 0x1_0000_0000_0000_0000;
    k := if x % 0x1_0000_0000_0000_0000 < 0x8000_0000_0000_0000 then -q else -q - 1;
  }

  lemma WrapMultiple(x: int, y: int, k: int)
    requires y == x + k * 0x1_0000_0000_0000_0000
    ensures Wrap64(x) == Wrap64(y)
  {}

  /** The groups' SUMs add up, modulo 2^64, to the SUM of the whole table. */
  lemma GroupSumsAddUp(ar: Arith, rows: seq<Row>, kc: seq<nat>, col: nat)
    requires Ints(Column(rows, col))
    ensures Fold(ar, Sum(TInt64), Column(rows, col)).acc == SInt(Wrap64(GroupSums(ar, Keys(rows, kc), rows, kc, col)))
  {
    var k := GroupSumsCarry(ar, Keys(rows, kc), rows, kc, col);
    GroupsPartition(rows, kc, IntAt(col));
    WrapMultiple(Weigh(rows, IntAt(col)), GroupSums(ar, Keys(rows, kc), rows, kc, col), k);
    SumFold(ar, Column(rows, col));
    SumIsWeight(rows, col);
  }

  // ----- MIN and MAX over Int64 -----

  /** MIN is one of the non-null values and none lies below it; MAX, dually. */
  lemma {:induction false} ExtremeFold(ar: Arith, cells: seq<Cell>)
    requires Ints(cells)
    ensures var lo, hi := Fold(ar, Min(TInt64), cells), Fold(ar, Max(TInt64), cells);
            && (lo.has <==> NonNulls(cells) > 0) && (hi.has <==> NonNulls(cells) > 0)
            && lo.acc.SInt? && hi.acc.SInt?
            && (lo.has ==> Val(lo.acc) in cells && Val(hi.acc) in cells)
            && (forall k :: 0 <= k < |cells| && cells[k].Val? ==> lo.has && lo.acc.i <= cells[k].v.i <= hi.acc.i)
  {
    if cells != [] {
      var n := |cells| - 1;
      ExtremeFold(ar, cells[..n]);
      SplitLast(cells);
    }
  }

  // ----- Float64 -----

  /** MIN and MAX over Float64 keep the extremes of the values. */
  lemma {:induction false} FloatExtremes(ar: Arith, cells: seq<Cell>)
    requires FloatCells(cells)
    ensures var lo, hi, vals := Fold(ar, Min(TFloat64), cells), Fold(ar, Max(TFloat64), cells), Patterns(cells);
            && (lo.has <==> vals != []) && (hi.has <==> vals != []) && lo.acc.SFloat? && hi.acc.SFloat?
            && (vals != [] ==> Extremes(vals, lo.acc.bits, hi.acc.bits))
  {
    hide Extremes, Less;
    if cells != [] {
      var n := |cells| - 1;
      FloatExtremes(ar, cells[..n]);
      if cells[n].Val? {
        var lo, hi := Fold(ar, Min(TFloat64), cells[..n]), Fold(ar, Max(TFloat64), cells[..n]);
        if Patterns(cells[..n]) == [] {
          ExtremesOne(cells[n].v.bits);
          assert Patterns(cells) == [cells[n].v.bits];
        } else {
          ExtremesMore(Patterns(cells[..n]), cells[n].v.bits, lo.acc.bits, hi.acc.bits);
        }
      } else {
        assert Patterns(cells) == Patterns(cells[..n]);
      }
    }
  }

  lemma {:induction false} PatternsCount(cells: seq<Cell>)
    requires FloatCells(cells)
    ensures |Patterns(cells)| == NonNulls(cells)
  {
    if cells != [] {
      PatternsCount(cells[..|cells| - 1]);
    }
  }

  /** AVG over Float64 keeps the sum SUM keeps, and the number of values. */
  lemma {:induction false} FloatAverage(ar: Arith, cells: seq<Cell>)
    requires FloatCells(cells) && |cells| < 0x8000_0000_0000_0000
    ensures var sum, avg := Fold(ar, Sum(TFloat64), cells), Fold(ar, Avg(TFloat64), cells);
            && sum.acc == avg.acc && sum.acc.SFloat? && (sum.has <==> NonNulls(cells) > 0)
            && avg.n == NonNulls(cells) <= |cells|
  {
    if cells != [] {
      FloatAverage(ar, cells[..|cells| - 1]);
    }
  }

  /** Floating-point addition from the left, starting at zero. */
  function FloatTotal(ar: Arith, vals: seq<U64>): U64 {
    if vals == [] then 0 else ar.add(FloatTotal(ar, vals[..|vals| - 1]), vals[|vals| - 1])
  }

  /** SUM and AVG over Float64 both keep that total. */
  lemma {:induction false} FloatSumFold(ar: Arith, cells: seq<Cell>)
    requires FloatCells(cells)
    ensures Fold(ar, Sum(TFloat64), cells).acc == SFloat(FloatTotal(ar, Patterns(cells)))
    ensures Fold(ar, Avg(TFloat64), cells).acc == SFloat(FloatTotal(ar, Patterns(cells)))
  {
    if cells != [] {
      var n := |cells| - 1;
      var before := Patterns(cells[..n]);
      FloatSumFold(ar, cells[..n]);
      if cells[n].Val? {
        assert (before + [cells[n].v.bits])[..|before|] == before;
      } else {
        assert before + [] == before;
      }
    }
  }

  // ----- group ordinals -----

  /** Two rows get one ordinal exactly when their key tuples are equal. */
  lemma {:induction false} OrdinalsSeparate(kc: seq<nat>, ks: seq<Row>, part: seq<Row>, gids: seq<nat>, a: nat, b: nat)
    requires Routed(kc, ks, part, gids) && a < |part| && b < |part|
    requires forall i, j :: 0 <= i < j < |ks| ==> ks[i] != ks[j]
    ensures gids[a] == gids[b] <==> ProjectRow(kc, part[a]) == ProjectRow(kc, part[b])
  {}

  /** The ordinals are fixed by the listed keys, so the typed and the composite table assign the same ones. */
  lemma OrdinalsUnique(kc: seq<nat>, rows: seq<Row>, part: seq<Row>, typed: seq<nat>, composite: seq<nat>)
    requires Routed(kc, Keys(rows, kc), part, typed) && Routed(kc, Keys(rows, kc), part, composite)
    ensures typed == composite
  {
    var ks := Keys(rows, kc);
    KeysDistinct(rows, kc);
    forall k | 0 <= k < |part|
      ensures typed[k] == composite[k]
    {
      assert ks[typed[k]] == ks[composite[k]];
    }
  }

  /** Listing the rows' keys and listing the distinct keys differ as soon as a key repeats. */
  lemma {:induction false} KeysAreRows(rows: seq<Row>, kc: seq<nat>)
    ensures Keys(rows, kc) == ProjectRows(kc, rows)
            <==> forall i, j :: 0 <= i < j < |rows| ==> ProjectRow(kc, rows[i]) != ProjectRow(kc, rows[j])
  {
    var all := ProjectRows(kc, rows);
    if Keys(rows, kc) == all {
      KeysDistinct(rows, kc);
      forall i, j | 0 <= i < j < |rows|
        ensures ProjectRow(kc, rows[i]) != ProjectRow(kc, rows[j])
      {
        assert all[i] != all[j];
      }
    }
    if forall i, j :: 0 <= i < j < |rows| ==> ProjectRow(kc, rows[i]) != ProjectRow(kc, rows[j]) {
      DistinctKeys(rows, kc);
    }
  }

  lemma {:induction false} DistinctKeys(rows: seq<Row>, kc: seq<nat>)
    requires forall i, j :: 0 <= i < j < |rows| ==> ProjectRow(kc, rows[i]) != ProjectRow(kc, rows[j])
    ensures Keys(rows, kc) == ProjectRows(kc, rows)
  {
    if rows != [] {
      var n := |rows| - 1;
      DistinctKeys(rows[..n], kc);
      assert ProjectRow(kc, rows[n]) !in ProjectRows(kc, rows[..n]);
    }
  }
}
