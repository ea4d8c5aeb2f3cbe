/** storage/bitmap.go and encoding/plain.go: a bitmap as a set of row numbers, its size, and packed bools. */
module BitSets {
  import opened Types
  import opened Bitmap

  // ----- counting -----

  function Count(bits: seq<bool>): nat {
    if bits == [] then 0
    else Count(bits[..|bits| - 1]) + (if bits[|bits| - 1] then 1 else 0)
  }

  /** The row numbers whose bit is set. */
  function Members(bits: seq<bool>): set<nat> {
    set i: nat | i < |bits| && bits[i]
  }

  lemma {:induction false} CountIsCardinality(bits: seq<bool>)
    ensures Count(bits) == |Members(bits)|
  {
    if bits != [] {
      var n := |bits| - 1;
      CountIsCardinality(bits[..n]);
      assert Members(bits) == Members(bits[..n]) + if bits[n] then {n} else {};
    }
  }

  lemma {:induction false} CountConcat(a: seq<bool>, b: seq<bool>)
    ensures Count(a + b) == Count(a) + Count(b)
  {
    if b == [] {
      assert a + b == a;
    } else {
      CountConcat(a, b[..|b| - 1]);
      assert (a + b)[..|a + b| - 1] == a + b[..|b| - 1];
    }
  }

  lemma {:induction false} CountClear(bits: seq<bool>, k: nat)
    requires k < |bits| && bits[k]
    ensures Count(bits[k := false]) + 1 == Count(bits)
  {
    var n := |bits| - 1;
    if k < n {
      CountClear(bits[..n], k);
      assert bits[k := false][..n] == bits[..n][k := false];
    } else {
      assert bits[k := false][..n] == bits[..n];
    }
  }

  /** The lowest set bit of a non-zero byte. */
  function Lowest(x: bv8): (k: nat)
    requires x != 0
    ensures k < 8
  {
    if Bit(x, 0) then 0 else if Bit(x, 1) then 1 else if Bit(x, 2) then 2 else if Bit(x, 3) then 3
    else if Bit(x, 4) then 4 else if Bit(x, 5) then 5 else if Bit(x, 6) then 6 else 7
  }

  /** x & (x - 1) drops exactly the lowest set bit. */
  lemma DropLowest(x: bv8)
    requires x != 0
    ensures Bit(x, Lowest(x)) && x & (x - 1) == x & !Mask(Lowest(x))
  {}

  lemma DropLowestBits(x: bv8)
    requires x != 0
    ensures ByteBits(x, 8)[Lowest(x)]
    ensures ByteBits(x & (x - 1), 8) == ByteBits(x, 8)[Lowest(x) := false]
  {
    var k := Lowest(x);
    DropLowest(x);
    ByteBitsAt(x, 8, k);
    var after, before := ByteBits(x & !Mask(k), 8), ByteBits(x, 8);
    forall j | 0 <= j < 8
      ensures after[j] == before[k := false][j]
    {
      ByteBitsAt(x & !Mask(k), 8, j);
      ByteBitsAt(x, 8, j);
      AndNotMask(x, k, j);
    }
  }

  lemma NoBits(bits: seq<bool>)
    requires forall i :: 0 <= i < |bits| ==> !bits[i]
    ensures Count(bits) == 0
  {}

  lemma ZeroBits()
    ensures Count(ByteBits(0, 8)) == 0
  {
    forall k | 0 <= k < 8
      ensures !ByteBits(0, 8)[k]
    {
      ByteBitsAt(0, 8, k);
    }
    NoBits(ByteBits(0, 8));
  }

  /** Kernighan's loop: one turn per set bit. */
  method Popcount(b: bv8) returns (count: nat)
    ensures count == Count(ByteBits(b, 8))
  {
    var x := b;
    count := 0;
    while x != 0
      invariant count + Count(ByteBits(x, 8)) == Count(ByteBits(b, 8))
      decreases Count(ByteBits(x, 8))
    {
      DropLowestBits(x);
      CountClear(ByteBits(x, 8), Lowest(x));
      x := x & (x - 1);
      count := count + 1;
    }
    ZeroBits();
  }

  /** The number of null rows. */
  method NullCount(data: seq<bv8>) returns (count: nat)
    ensures count == |Members(Bits(data))|
  {
    count := 0;
    for i := 0 to |data|
      invariant count == Count(Bits(data[..i]))
    {
      assert data[..i + 1][..i] == data[..i];
      CountConcat(Bits(data[..i]), ByteBits(data[i], 8));
      var ones := Popcount(data[i]);
      count := count + ones;
    }
    assert data[..|data|] == data;
    CountIsCardinality(Bits(data));
  }

  // ----- runs of updates -----

  datatype BitOp = MarkNull(row: nat) | MarkValue(row: nat) | ClearAll

  predicate InRange(op: BitOp, n: nat) {
    op.ClearAll? || op.row < n
  }

  /** The same run on a plain set of row numbers. */
  function RunOn(rows: set<nat>, ops: seq<BitOp>): set<nat> {
    if ops == [] then rows
    else
      var before := RunOn(rows, ops[..|ops| - 1]);
      match ops[|ops| - 1]
      case MarkNull(i) => before + {i}
      case MarkValue(i) => before - {i}
      case ClearAll => {}
  }

  /** Padding: the bits behind the last row. */
  predicate PaddingClear(bits: seq<bool>, n: nat) {
    forall i :: n <= i < |bits| ==> !bits[i]
  }

  /**
   * Over any run of in-range updates the bitmap refines a set of row numbers: membership is
   * IsNull, cardinality is NullCount, and the padding bits stay zero.
   */
  method RunUpdates(b: NullBitmap, ops: seq<BitOp>)
    requires b.Valid() && PaddingClear(Bits(b.data), b.len)
    requires forall k :: 0 <= k < |ops| ==> InRange(ops[k], b.len)
    modifies b
    ensures b.Valid() && PaddingClear(Bits(b.data), b.len)
    ensures Members(Bits(b.data)) == RunOn(old(Members(Bits(b.data))), ops)
  {
    for k := 0 to |ops|
      invariant b.Valid() && PaddingClear(Bits(b.data), b.len)
      invariant Members(Bits(b.data)) == RunOn(old(Members(Bits(b.data))), ops[..k])
    {
      ghost var before := Bits(b.data);
      match ops[k] {
        case MarkNull(i) => b.SetNull(i);
        case MarkValue(i) => b.ClearNull(i);
        case ClearAll => b.Reset();
      }
      MembersUpdate(before, Bits(b.data), ops[k]);
      assert ops[..k + 1][..k] == ops[..k];
    }
    assert ops[..|ops|] == ops;
  }

  lemma MembersUpdate(before: seq<bool>, after: seq<bool>, op: BitOp)
    requires op.MarkNull? ==> op.row < |before| && after == before[op.row := true]
    requires op.MarkValue? ==> op.row < |before| && after == before[op.row := false]
    requires op.ClearAll? ==> forall i :: 0 <= i < |after| ==> !after[i]
    ensures Members(after)
            == match op
               case MarkNull(i) => Members(before) + {i}
               case MarkValue(i) => Members(before) - {i}
               case ClearAll => {}
  {}

  // ----- packed bools -----

  /** Some bytes are the packed form of data: its bits in order, then zero padding. */
  predicate Packs(buf: seq<bv8>, data: seq<bool>) {
    && |buf| == (|data| + 7) / 8
    && (forall i :: 0 <= i < |data| ==> Bits(buf)[i] == data[i])
    && PaddingClear(Bits(buf), |data|)
  }

  lemma BitsDetermineByte(a: bv8, b: bv8)
    requires forall k :: 0 <= k < 8 ==> Bit(a, k) == Bit(b, k)
    ensures a == b
  {
    assert Bit(a, 0) == Bit(b, 0) && Bit(a, 1) == Bit(b, 1) && Bit(a, 2) == Bit(b, 2) && Bit(a, 3) == Bit(b, 3);
    assert Bit(a, 4) == Bit(b, 4) && Bit(a, 5) == Bit(b, 5) && Bit(a, 6) == Bit(b, 6) && Bit(a, 7) == Bit(b, 7);
  }

  /** A row set has one byte form, so a bitmap and the packed bools of its null flags are the same bytes. */
  lemma PackedOnce(a: seq<bv8>, b: seq<bv8>, data: seq<bool>)
    requires Packs(a, data) && Packs(b, data)
    ensures a == b
  {
    forall i | 0 <= i < |a|
      ensures a[i] == b[i]
    {
      forall k | 0 <= k < 8
        ensures Bit(a[i], k) == Bit(b[i], k)
      {
        BitsAt(a, 8 * i + k);
        BitsAt(b, 8 * i + k);
        assert Bits(a)[8 * i + k] == Bits(b)[8 * i + k];
      }
      BitsDetermineByte(a[i], b[i]);
    }
  }

  /** buf[i/8] |= 1 << (i%8). */
  method OrBit(buf: seq<bv8>, i: nat) returns (r: seq<bv8>)
    requires i < 8 * |buf|
    ensures |r| == |buf| && Bits(r) == Bits(buf)[i := true]
  {
    var byteIdx, bitIdx := i / 8, i % 8;
    SetBit(buf, i);
    r := buf[byteIdx := buf[byteIdx] | Mask(bitIdx)];
  }

  method EncodeBool(data: seq<bool>) returns (buf: seq<bv8>)
    ensures Packs(buf, data)
  {
    buf := seq((|data| + 7) / 8, _ => 0);
    ClearBits(buf);
    for i := 0 to |data|
      invariant |buf| == (|data| + 7) / 8
      invariant forall j :: 0 <= j < i ==> Bits(buf)[j] == data[j]
      invariant PaddingClear(Bits(buf), i)
    {
      if data[i] {
        buf := OrBit(buf, i);
      }
    }
  }

  /** Fails exactly when there are too few bytes. */
  method DecodeBool(encoded: seq<bv8>, count: nat) returns (r: Option<seq<bool>>)
    ensures r == if |encoded| < (count + 7) / 8 then None else Some(Bits(encoded)[..count])
  {
    if |encoded| < (count + 7) / 8 {
      return None;
    }
    var result: seq<bool> := [];
    for i := 0 to count
      invariant result == Bits(encoded)[..i]
    {
      var bit := IsNull(encoded, i);
      result := result + [bit];
    }
    r := Some(result);
  }

  /** The null flags a row set stands for. */
  function Flags(rows: set<nat>, n: nat): (flags: seq<bool>)
    ensures |flags| == n
  {
    seq(n, i requires 0 <= i < n => i in rows)
  }

  /** A bitmap with clear padding is the packed form of its own null flags. */
  lemma {:induction false} BitmapPacks(data: seq<bv8>, n: nat)
    requires |data| == (n + 7) / 8 && PaddingClear(Bits(data), n)
    ensures Packs(data, Flags(Members(Bits(data)), n))
  {
    forall i | 0 <= i < n
      ensures Bits(data)[i] == Flags(Members(Bits(data)), n)[i]
    {
      assert Bits(data)[i] <==> i in Members(Bits(data));
    }
  }

  /** Whatever updates a new bitmap has gone through, its bytes are those encodeBool writes for the null flags. */
  method UpdatedPacks(n: nat, ops: seq<BitOp>) returns (data: seq<bv8>, packed: seq<bv8>)
    requires forall k :: 0 <= k < |ops| ==> InRange(ops[k], n)
    ensures data == packed && Packs(data, Flags(RunOn({}, ops), n))
  {
    var b := new NullBitmap(n);
    assert Members(Bits(b.data)) == {};
    RunUpdates(b, ops);
    data := b.data;
    BitmapPacks(data, n);
    packed := EncodeBool(Flags(RunOn({}, ops), n));
    PackedOnce(data, packed, Flags(RunOn({}, ops), n));
  }

  lemma UnpackPrefix(buf: seq<bv8>, data: seq<bool>, k: nat)
    requires Packs(buf, data) && k <= |data|
    ensures Bits(buf)[..k] == data[..k]
  {}

  /** Decoding returns the first k bools, for every k up to their number. */
  method BoolRoundTrip(data: seq<bool>, k: nat) returns (r: Option<seq<bool>>)
    requires k <= |data|
    ensures r == Some(data[..k])
  {
    var buf := EncodeBool(data);
    UnpackPrefix(buf, data, k);
    r := DecodeBool(buf, k);
  }
}
