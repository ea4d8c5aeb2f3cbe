/** storage/chunk.go: the summary statistics the footer records for every chunk. */
module ChunkStats {
  import opened Types
  import opened Bitmap
  import opened BitSets
  import opened Storage
  import opened Relation
  import opened Aggregation
  import opened Sorting
  import opened Floats

  datatype Stats = Stats(nullCount: nat, bounds: Option<(Scalar, Scalar)>)

  /** One more value widens the bounds; a null leaves them. */
  function Widen(bounds: Option<(Scalar, Scalar)>, c: Cell): Option<(Scalar, Scalar)> {
    if c.Null? then bounds
    else if bounds.None? then Some((c.v, c.v))
    else
      var (lo, hi) := bounds.value;
      Some((if Less(c.v, lo) then c.v else lo, if Less(hi, c.v) then c.v else hi))
  }

  /** int64Stats, float64Stats and stringStats. */
  function Bounds(cells: seq<Cell>): Option<(Scalar, Scalar)> {
    if cells == [] then None else Widen(Bounds(cells[..|cells| - 1]), cells[|cells| - 1])
  }

  /** boolStats: what the source returns from the two flags. */
  function BoolBounds(cells: seq<Cell>): Option<(Scalar, Scalar)> {
    var hasFalse, hasTrue := Val(SBool(false)) in cells, Val(SBool(true)) in cells;
    if !hasFalse && !hasTrue then None else Some((SBool(hasFalse || !hasTrue), SBool(hasTrue)))
  }

  ghost function StatsOf(c: Chunk): Stats
    requires ChunkOk(c)
  {
    Stats(|Members(Bits(c.nulls))|, if c.typ == TBool then BoolBounds(Cells(c)) else Bounds(Cells(c)))
  }

  method CellAt(c: Chunk, i: nat) returns (cell: Cell)
    requires ChunkOk(c) && i < |c.vals|
    ensures cell == Cells(c)[i]
  {
    var isNull := IsNull(c.nulls, i);
    cell := if isNull then Null else Val(c.vals[i]);
  }

  method ChunkBounds(c: Chunk) returns (bounds: Option<(Scalar, Scalar)>)
    requires ChunkOk(c)
    ensures bounds == Bounds(Cells(c))
  {
    bounds := None;
    for i := 0 to |c.vals|
      invariant bounds == Bounds(Cells(c)[..i])
    {
      var cell := CellAt(c, i);
      assert Cells(c)[..i + 1][..i] == Cells(c)[..i];
      bounds := Widen(bounds, cell);
    }
    assert Cells(c)[..|c.vals|] == Cells(c);
  }

  method ChunkBoolBounds(c: Chunk) returns (bounds: Option<(Scalar, Scalar)>)
    requires ChunkOk(c) && c.typ == TBool
    ensures bounds == BoolBounds(Cells(c))
  {
    var hasFalse, hasTrue := false, false;
    var i := 0;
    while i < |c.vals|
      invariant i <= |c.vals|
      invariant hasFalse <==> Val(SBool(false)) in Cells(c)[..i]
      invariant hasTrue <==> Val(SBool(true)) in Cells(c)[..i]
    {
      var cell := CellAt(c, i);
      TakeSnoc(Cells(c), i);
      if cell == Val(SBool(true)) {
        hasTrue := true;
      } else if cell == Val(SBool(false)) {
        hasFalse := true;
      }
      i := i + 1;
      if hasFalse && hasTrue {
        assert forall x :: x in Cells(c)[..i] ==> x in Cells(c);
        return Some((SBool(true), SBool(true)));
      }
    }
    assert Cells(c)[..|c.vals|] == Cells(c);
    bounds := if !hasFalse && !hasTrue then None else Some((SBool(hasFalse || !hasTrue), SBool(hasTrue)));
  }

  method ComputeStats(c: Chunk) returns (s: Stats)
    requires ChunkOk(c)
    ensures s == StatsOf(c)
  {
    var nullCount := NullCount(c.nulls);
    var bounds;
    if c.typ == TBool {
      bounds := ChunkBoolBounds(c);
    } else {
      bounds := ChunkBounds(c);
    }
    s := Stats(nullCount, bounds);
  }

  // ----- what the statistics mean -----

  function NullRows(cells: seq<Cell>): set<nat> {
    set i: nat | i < |cells| && cells[i].Null?
  }

  /** The recorded null count is the number of NULL rows exactly when the bits behind the last row are clear. */
  lemma {:induction false} NullCountExact(c: Chunk)
    requires ChunkOk(c)
    ensures |NullRows(Cells(c))| <= StatsOf(c).nullCount
    ensures StatsOf(c).nullCount == |NullRows(Cells(c))| <==> PaddingClear(Bits(c.nulls), |c.vals|)
  {
    var bits, n := Bits(c.nulls), |c.vals|;
    var padding := set i: nat | n <= i < |bits| && bits[i];
    assert Members(bits) == NullRows(Cells(c)) + padding by {
      forall i: nat | i < n
        ensures i in NullRows(Cells(c)) <==> bits[i]
      {
        assert Cells(c)[i].Null? <==> bits[i];
      }
    }
    assert NullRows(Cells(c)) !! padding;
    if PaddingClear(bits, n) {
      assert padding == {};
    } else {
      var i :| n <= i < |bits| && bits[i];
      assert i in padding;
    }
  }

  /** One Int64 value, with a padding bit set: the recorded count is not 0, although no row is NULL. */
  lemma {:induction false} PaddingCounted()
    ensures var c := Chunk("c", TInt64, [SInt(0)], [2]);
            ChunkOk(c) && NullRows(Cells(c)) == {} && StatsOf(c).nullCount > 0
  {
    var c := Chunk("c", TInt64, [SInt(0)], [2]);
    BitsAt(c.nulls, 0);
    BitsAt(c.nulls, 1);
    assert 1 in Members(Bits(c.nulls));
  }

  lemma LessIsWeakOrder(t: ColType, a: Scalar, b: Scalar, c: Scalar)
    requires Sortable(Val(a), t) && Sortable(Val(b), t) && Sortable(Val(c), t)
    ensures !Less(a, a) && !(Less(a, b) && Less(b, a))
    ensures !Less(a, b) && !Less(b, c) ==> !Less(a, c)
  {
    if t == TString {
      TextWeakOrder(a.s, b.s, c.s);
    }
  }

  predicate Between(bounds: (Scalar, Scalar), v: Scalar) {
    !Less(v, bounds.0) && !Less(bounds.1, v)
  }

  /**
   * For Int64, String and Float64 without NaN: bounds exist exactly when some row is non-null,
   * both are values of the column, and every non-null value lies between them.
   */
  lemma {:induction false} BoundsHold(cells: seq<Cell>, t: ColType)
    requires AllSortable(cells, t)
    ensures Bounds(cells).Some? <==> exists k :: 0 <= k < |cells| && cells[k].Val?
    ensures Bounds(cells).Some? ==>
        && Sortable(Val(Bounds(cells).value.0), t) && Sortable(Val(Bounds(cells).value.1), t)
        && Val(Bounds(cells).value.0) in cells && Val(Bounds(cells).value.1) in cells
        && forall k :: 0 <= k < |cells| && cells[k].Val? ==> Between(Bounds(cells).value, cells[k].v)
  {
    if cells != [] {
      var n := |cells| - 1;
      var before := Bounds(cells[..n]);
      BoundsHold(cells[..n], t);
      SplitLast(cells);
      if cells[n].Val? {
        LessIsWeakOrder(t, cells[n].v, cells[n].v, cells[n].v);
        if before.Some? {
          forall k | 0 <= k < |cells| && cells[k].Val?
            ensures Between(Bounds(cells).value, cells[k].v)
          {
            WidenKeeps(t, before.value, cells[n].v, cells[k].v, k < n);
          }
        }
      }
    }
  }

  /** Widening by v keeps every value inside, and takes v in. */
  lemma WidenKeeps(t: ColType, bounds: (Scalar, Scalar), v: Scalar, x: Scalar, inside: bool)
    requires Sortable(Val(bounds.0), t) && Sortable(Val(bounds.1), t) && Sortable(Val(v), t) && Sortable(Val(x), t)
    requires if inside then Between(bounds, x) else x == v
    ensures Between(Widen(Some(bounds), Val(v)).value, x)
  {
    LessIsWeakOrder(t, x, bounds.0, v);
    LessIsWeakOrder(t, v, bounds.0, x);
    LessIsWeakOrder(t, v, bounds.1, x);
  }

  /**
   * For Float64 with NaN: the bounds are what comparing from the left leaves, which is the first
   * value when that is NaN and else leaves the other NaNs out.
   */
  lemma {:induction false} FloatBoundsHold(cells: seq<Cell>)
    requires FloatCells(cells)
    ensures var vals, bounds := Patterns(cells), Bounds(cells);
            if vals == [] then bounds.None?
            else bounds.Some? && bounds.value.0.SFloat? && bounds.value.1.SFloat?
                 && Extremes(vals, bounds.value.0.bits, bounds.value.1.bits)
  {
    hide Extremes, Less;
    if cells != [] {
      var n := |cells| - 1;
      FloatBoundsHold(cells[..n]);
      if cells[n].Val? {
        var before := Bounds(cells[..n]);
        if before.None? {
          ExtremesOne(cells[n].v.bits);
          assert Patterns(cells) == [cells[n].v.bits];
        } else {
          ExtremesMore(Patterns(cells[..n]), cells[n].v.bits, before.value.0.bits, before.value.1.bits);
        }
      } else {
        assert Patterns(cells) == Patterns(cells[..n]);
      }
    }
  }

  /** Whether recorded Bool bounds let a value through, false before true. */
  predicate BoolBetween(bounds: (Scalar, Scalar), v: Scalar) {
    bounds.0.SBool? && bounds.1.SBool? && v.SBool? && (bounds.0.b ==> v.b) && (v.b ==> bounds.1.b)
  }

  /** The recorded minimum says whether some value is false, the maximum whether some value is true. */
  lemma BoolBoundsSay(cells: seq<Cell>)
    requires forall k :: 0 <= k < |cells| ==> CellFits(cells[k], TBool)
    ensures BoolBounds(cells).Some? <==> exists k :: 0 <= k < |cells| && cells[k].Val?
    ensures BoolBounds(cells).Some? ==>
        BoolBounds(cells).value == (SBool(Val(SBool(false)) in cells), SBool(Val(SBool(true)) in cells))
  {
    if k :| 0 <= k < |cells| && cells[k].Val? {
      assert cells[k] == Val(SBool(cells[k].v.b));
    }
  }

  /**
   * For a Bool chunk the recorded minimum is the negation of the least value, and so the bounds
   * enclose the chunk's values exactly when none of them is false.
   */
  lemma {:induction false} BoolBoundsHold(c: Chunk)
    requires ChunkOk(c) && c.typ == TBool
    ensures StatsOf(c).bounds.Some? <==> exists i :: 0 <= i < |c.vals| && !Bits(c.nulls)[i]
    ensures StatsOf(c).bounds.Some? ==>
        && (StatsOf(c).bounds.value.0 == SBool(true)
            <==> exists i :: 0 <= i < |c.vals| && !Bits(c.nulls)[i] && c.vals[i] == SBool(false))
        && ((forall i :: 0 <= i < |c.vals| && !Bits(c.nulls)[i] ==> BoolBetween(StatsOf(c).bounds.value, c.vals[i]))
            <==> forall i :: 0 <= i < |c.vals| && !Bits(c.nulls)[i] ==> c.vals[i] == SBool(true))
  {
    hide Bits, BoolBounds;
    BoolBoundsSay(Cells(c));
    HoldsBool(c, false);
    HoldsBool(c, true);
    SomeBool(c);
    forall i | 0 <= i < |c.vals|
      ensures c.vals[i] == SBool(false) || c.vals[i] == SBool(true)
    {
      assert Fits(c.vals[i], TBool);
    }
  }

  /** A value is among the cells when a row that is not NULL holds it. */
  lemma HoldsBool(c: Chunk, b: bool)
    requires ChunkOk(c)
    ensures Val(SBool(b)) in Cells(c) <==> exists i :: 0 <= i < |c.vals| && !Bits(c.nulls)[i] && c.vals[i] == SBool(b)
  {
    if Val(SBool(b)) in Cells(c) {
      var i :| 0 <= i < |Cells(c)| && Cells(c)[i] == Val(SBool(b));
      assert !Bits(c.nulls)[i] && c.vals[i] == SBool(b);
    }
    if i :| 0 <= i < |c.vals| && !Bits(c.nulls)[i] && c.vals[i] == SBool(b) {
      assert Cells(c)[i] == Val(SBool(b));
    }
  }

  /** Some cell is a value when some null bit is clear. */
  lemma SomeBool(c: Chunk)
    requires ChunkOk(c)
    ensures (exists k :: 0 <= k < |Cells(c)| && Cells(c)[k].Val?)
            <==> exists i :: 0 <= i < |c.vals| && !Bits(c.nulls)[i]
  {
    var cells, bits := Cells(c), Bits(c.nulls);
    assert forall i :: 0 <= i < |c.vals| ==> (cells[i].Val? <==> !bits[i]);
    if exists k :: 0 <= k < |cells| && cells[k].Val? {
      var k :| 0 <= k < |cells| && cells[k].Val?;
      assert !bits[k];
      assert exists i :: 0 <= i < |c.vals| && !Bits(c.nulls)[i];
    } else {
      assert forall i :: 0 <= i < |c.vals| ==> bits[i];
    }
  }

  /** The chunk that holds false alone: the recorded minimum is true, and the value lies outside the bounds. */
  lemma {:induction false} FalseOutside()
    ensures var c := Chunk("c", TBool, [SBool(false)], [0]);
            && ChunkOk(c) && StatsOf(c).bounds == Some((SBool(true), SBool(false)))
            && !BoolBetween(StatsOf(c).bounds.value, SBool(false))
  {
    var c := Chunk("c", TBool, [SBool(false)], [0]);
    BitsAt(c.nulls, 0);
    assert Cells(c) == [Val(SBool(false))];
  }
}
