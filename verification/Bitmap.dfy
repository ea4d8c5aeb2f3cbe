/** storage/bitmap.go: a bit-packed set of null rows, bit i%8 of byte i/8. */
module Bitmap {

  /** 1 << k for a bit index k of a byte. */
  function Mask(k: nat): bv8
    requires k < 8
  {
    if k == 0 then 1 else if k == 1 then 2 else if k == 2 then 4 else if k == 3 then 8
    else if k == 4 then 16 else if k == 5 then 32 else if k == 6 then 64 else 128
  }

  predicate Bit(b: bv8, k: nat)
    requires k < 8
  {
    b & Mask(k) != 0
  }

  predicate BitAt(data: seq<bv8>, i: nat)
    requires i < 8 * |data|
  {
    Bit(data[i / 8], i % 8)
  }

  /** The low n bits of b, lowest first. */
  function ByteBits(b: bv8, n: nat): (bits: seq<bool>)
    requires n <= 8
    ensures |bits| == n
  {
    if n == 0 then [] else ByteBits(b, n - 1) + [Bit(b, n - 1)]
  }

  /** The meaning of a bitmap: entry i is true exactly when row i is null (padding included). */
  function Bits(data: seq<bv8>): (bits: seq<bool>)
    ensures |bits| == 8 * |data|
  {
    if data == [] then []
    else
      var n := |data| - 1;
      Bits(data[..n]) + ByteBits(data[n], 8)
  }

  lemma {:induction false} ByteBitsAt(b: bv8, n: nat, k: nat)
    requires k < n <= 8
    ensures ByteBits(b, n)[k] == Bit(b, k)
  {
    if k < n - 1 {
      ByteBitsAt(b, n - 1, k);
    }
  }

  lemma {:induction false} BitsAt(data: seq<bv8>, i: nat)
    requires i < 8 * |data|
    ensures Bits(data)[i] == BitAt(data, i)
  {
    var n := |data| - 1;
    if i < 8 * n {
      BitsAt(data[..n], i);
    } else {
      ByteBitsAt(data[n], 8, i - 8 * n);
    }
  }

  /** Entry i is bit i mod 8, counted from the lowest, of byte i / 8. */
  lemma {:induction false} BitIsShift(data: seq<bv8>, i: nat)
    requires i < 8 * |data|
    ensures Bits(data)[i] <==> (data[i / 8] >> (i % 8)) & 1 == 1
  {
    BitsAt(data, i);
    ByteShift(data[i / 8], i % 8);
  }

  lemma ByteShift(b: bv8, k: nat)
    requires k < 8
    ensures Bit(b, k) <==> (b >> k) & 1 == 1
  {}

  method IsNull(data: seq<bv8>, i: nat) returns (r: bool)
    requires i < 8 * |data|
    ensures r == Bits(data)[i]
  {
    BitsAt(data, i);
    var byteIdx, bitIdx := i / 8, i % 8;
    r := data[byteIdx] & Mask(bitIdx) != 0;
  }

  /** 0xFF << s and 0xFF >> s for s < 8. */
  function HighMask(s: nat): bv8
    requires s < 8
  {
    if s == 0 then 0xFF else if s == 1 then 0xFE else if s == 2 then 0xFC else if s == 3 then 0xF8
    else if s == 4 then 0xF0 else if s == 5 then 0xE0 else if s == 6 then 0xC0 else 0x80
  }

  function LowMask(s: nat): bv8
    requires s <= 8
  {
    if s == 0 then 0xFF else if s == 1 then 0x7F else if s == 2 then 0x3F else if s == 3 then 0x1F
    else if s == 4 then 0x0F else if s == 5 then 0x07 else if s == 6 then 0x03 else if s == 7 then 0x01 else 0
  }

  lemma ShiftTables(k: nat)
    requires k < 8
    ensures Mask(k) == (1 as bv8) << k
    ensures HighMask(k) == (0xFF as bv8) << k
    ensures LowMask(k) == (0xFF as bv8) >> k && LowMask(8) == (0xFF as bv8) >> 8
  {}

  class NullBitmap {
    var data: seq<bv8>
    const len: nat

    ghost predicate Valid()
      reads this
    {
      |data| == (len + 7) / 8
    }

    constructor (n: nat)
      ensures Valid() && len == n
      ensures forall i :: 0 <= i < |Bits(data)| ==> !Bits(data)[i]
    {
      data := seq((n + 7) / 8, _ => 0);
      len := n;
      new;
      ClearBits(data);
    }

    method SetNull(i: nat)
      requires Valid() && i < len
      modifies this
      ensures Valid() && Bits(data) == old(Bits(data))[i := true]
    {
      var byteIdx, bitIdx := i / 8, i % 8;
      data := data[byteIdx := data[byteIdx] | Mask(bitIdx)];
      SetBit(old(data), i);
    }

    method ClearNull(i: nat)
      requires Valid() && i < len
      modifies this
      ensures Valid() && Bits(data) == old(Bits(data))[i := false]
    {
      var byteIdx, bitIdx := i / 8, i % 8;
      data := data[byteIdx := data[byteIdx] & !Mask(bitIdx)];
      ClearBit(old(data), i);
    }

    method Reset()
      requires Valid()
      modifies this
      ensures Valid() && |data| == |old(data)|
      ensures forall i :: 0 <= i < |Bits(data)| ==> !Bits(data)[i]
    {
      for i := 0 to |data|
        invariant |data| == |old(data)|
        invariant forall j :: 0 <= j < i ==> data[j] == 0
      {
        data := data[i := 0];
      }
      ClearBits(data);
    }
  }

  lemma ClearBits(data: seq<bv8>)
    requires forall j :: 0 <= j < |data| ==> data[j] == 0
    ensures forall i :: 0 <= i < |Bits(data)| ==> !Bits(data)[i]
  {}

  /** Replacing one byte changes only the bits of that byte. */
  lemma PutByte(data: seq<bv8>, b: nat, x: bv8, j: nat)
    requires b < |data| && j < 8 * |data|
    ensures Bits(data[b := x])[j] == if j / 8 == b then Bit(x, j % 8) else Bits(data)[j]
  {
    BitsAt(data, j);
    BitsAt(data[b := x], j);
  }

  lemma SetBitAt(data: seq<bv8>, i: nat, j: nat)
    requires i < 8 * |data| && j < 8 * |data|
    ensures Bits(data[i / 8 := data[i / 8] | Mask(i % 8)])[j] == Bits(data)[i := true][j]
  {
    PutByte(data, i / 8, data[i / 8] | Mask(i % 8), j);
    BitsAt(data, j);
    OrMask(data[i / 8], i % 8, j % 8);
  }

  lemma SetBit(data: seq<bv8>, i: nat)
    requires i < 8 * |data|
    ensures Bits(data[i / 8 := data[i / 8] | Mask(i % 8)]) == Bits(data)[i := true]
  {
    var before, after := Bits(data), Bits(data[i / 8 := data[i / 8] | Mask(i % 8)]);
    forall j | 0 <= j < |before|
      ensures after[j] == before[i := true][j]
    {
      SetBitAt(data, i, j);
    }
  }

  lemma ClearBitAt(data: seq<bv8>, i: nat, j: nat)
    requires i < 8 * |data| && j < 8 * |data|
    ensures Bits(data[i / 8 := data[i / 8] & !Mask(i % 8)])[j] == Bits(data)[i := false][j]
  {
    PutByte(data, i / 8, data[i / 8] & !Mask(i % 8), j);
    BitsAt(data, j);
    AndNotMask(data[i / 8], i % 8, j % 8);
  }

  lemma ClearBit(data: seq<bv8>, i: nat)
    requires i < 8 * |data|
    ensures Bits(data[i / 8 := data[i / 8] & !Mask(i % 8)]) == Bits(data)[i := false]
  {
    var before, after := Bits(data), Bits(data[i / 8 := data[i / 8] & !Mask(i % 8)]);
    forall j | 0 <= j < |before|
      ensures after[j] == before[i := false][j]
    {
      ClearBitAt(data, i, j);
    }
  }

  lemma OrMask(b: bv8, k: nat, j: nat)
    requires k < 8 && j < 8
    ensures Bit(b | Mask(k), j) <==> j == k || Bit(b, j)
  {}

  lemma AndNotMask(b: bv8, k: nat, j: nat)
    requires k < 8 && j < 8
    ensures Bit(b & !Mask(k), j) <==> j != k && Bit(b, j)
  {}

  /** A byte is zero exactly when none of its bits is set. */
  lemma ZeroByte(b: bv8)
    ensures b == 0 <==> forall k :: 0 <= k < 8 ==> !Bit(b, k)
  {
    if b != 0 {
      assert Bit(b, 0) || Bit(b, 1) || Bit(b, 2) || Bit(b, 3) || Bit(b, 4) || Bit(b, 5) || Bit(b, 6) || Bit(b, 7);
    }
  }

  lemma MaskedByte(b: bv8, s: nat, e: nat)
    requires s < 8 && 0 < e <= 8
    ensures b & HighMask(s) & LowMask(8 - e) != 0 <==> exists k :: s <= k < e && Bit(b, k)
  {
    var m := b & HighMask(s) & LowMask(8 - e);
    ZeroByte(m);
    forall k | 0 <= k < 8
      ensures Bit(m, k) <==> s <= k < e && Bit(b, k)
    {
      MaskBit(s, e, k);
      assert m & Mask(k) == b & (HighMask(s) & LowMask(8 - e) & Mask(k));
    }
  }

  lemma MaskBit(s: nat, e: nat, k: nat)
    requires s < 8 && 0 < e <= 8 && k < 8
    ensures HighMask(s) & LowMask(8 - e) & Mask(k) == if s <= k < e then Mask(k) else 0
  {}

  /** Some row of [lo, hi) is null. */
  ghost predicate AnyNull(data: seq<bv8>, lo: nat, hi: nat)
    requires lo <= hi <= 8 * |data|
  {
    true in Bits(data)[lo..hi]
  }

  lemma AnyNullSplit(data: seq<bv8>, lo: nat, mid: nat, hi: nat)
    requires lo <= mid <= hi <= 8 * |data|
    ensures AnyNull(data, lo, hi) <==> AnyNull(data, lo, mid) || AnyNull(data, mid, hi)
  {
    assert Bits(data)[lo..hi] == Bits(data)[lo..mid] + Bits(data)[mid..hi];
  }

  /** The bits of end's last byte that lie before end. */
  function LastMask(end: nat): (m: bv8)
    requires 0 < end
    ensures m == LowMask(8 - (end - 8 * ((end - 1) / 8)))
  {
    if end % 8 == 0 then 0xFF else LowMask(8 - end % 8)
  }

  lemma ByteSlice(b: bv8, s: nat, e: nat)
    requires s < e <= 8
    ensures b & HighMask(s) & LowMask(8 - e) != 0 <==> true in ByteBits(b, 8)[s..e]
  {
    MaskedByte(b, s, e);
    forall k | s <= k < e
      ensures ByteBits(b, 8)[s..e][k - s] == Bit(b, k)
    {
      ByteBitsAt(b, 8, k);
    }
    if k :| s <= k < e && Bit(b, k) {
      assert ByteBits(b, 8)[s..e][k - s];
    }
    if true in ByteBits(b, 8)[s..e] {
      var i :| 0 <= i < e - s && ByteBits(b, 8)[s..e][i];
      assert Bit(b, s + i);
    }
  }

  lemma {:induction false} BitsOfByte(data: seq<bv8>, b: nat)
    requires b < |data|
    ensures Bits(data)[8 * b..8 * b + 8] == ByteBits(data[b], 8)
  {
    var n := |data| - 1;
    var prefix, last := Bits(data[..n]), ByteBits(data[n], 8);
    if b < n {
      BitsOfByte(data[..n], b);
      assert (prefix + last)[8 * b..8 * b + 8] == prefix[8 * b..8 * b + 8];
    } else {
      assert (prefix + last)[8 * n..8 * n + 8] == last;
    }
  }

  /** The part [s, e) of byte b. */
  lemma {:induction false} RangeInByte(data: seq<bv8>, b: nat, s: nat, e: nat)
    requires b < |data| && s < e <= 8
    ensures data[b] & HighMask(s) & LowMask(8 - e) != 0 <==> AnyNull(data, 8 * b + s, 8 * b + e)
  {
    ByteSlice(data[b], s, e);
    PartOfByte(data, b, s, e);
  }

  lemma {:induction false} PartOfByte(data: seq<bv8>, b: nat, s: nat, e: nat)
    requires b < |data| && s < e <= 8
    ensures Bits(data)[8 * b + s..8 * b + e] == ByteBits(data[b], 8)[s..e]
  {
    hide Bits, ByteBits;
    BitsOfByte(data, b);
    SliceOfSlice(Bits(data), ByteBits(data[b], 8), 8 * b, s, e);
  }

  lemma {:induction false} SliceOfSlice<T>(x: seq<T>, y: seq<T>, at: nat, s: nat, e: nat)
    requires at + |y| <= |x| && x[at..at + |y|] == y && s <= e <= |y|
    ensures x[at + s..at + e] == y[s..e]
  {
    forall i | 0 <= i < e - s
      ensures x[at + s..at + e][i] == y[s..e][i]
    {
      assert x[at..at + |y|][s + i] == x[at + (s + i)];
    }
  }

  lemma WholeByte(data: seq<bv8>, b: nat)
    requires b < |data|
    ensures data[b] != 0 <==> AnyNull(data, 8 * b, 8 * b + 8)
  {
    RangeInByte(data, b, 0, 8);
  }

  lemma OneByte(data: seq<bv8>, start: nat, end: nat)
    requires start < end <= 8 * |data| && start / 8 == (end - 1) / 8
    ensures data[start / 8] & HighMask(start % 8) & LastMask(end) != 0 <==> AnyNull(data, start, end)
  {
    RangeInByte(data, start / 8, start % 8, end - 8 * (start / 8));
  }

  lemma HeadByte(data: seq<bv8>, start: nat)
    requires start < 8 * |data|
    ensures data[start / 8] & HighMask(start % 8) != 0 <==> AnyNull(data, start, 8 * (start / 8) + 8)
  {
    RangeInByte(data, start / 8, start % 8, 8);
  }

  lemma TailByte(data: seq<bv8>, end: nat)
    requires 0 < end <= 8 * |data|
    ensures data[(end - 1) / 8] & LastMask(end) != 0 <==> AnyNull(data, 8 * ((end - 1) / 8), end)
  {
    RangeInByte(data, (end - 1) / 8, 0, end - 8 * ((end - 1) / 8));
    assert data[(end - 1) / 8] & 0xFF == data[(end - 1) / 8];
  }

  /** Whether a byte in [from, to) is non-zero. */
  method AnyByte(data: seq<bv8>, from: nat, to: nat) returns (r: bool)
    requires from <= to <= |data|
    ensures r <==> AnyNull(data, 8 * from, 8 * to)
  {
    var i := from;
    while i < to
      invariant from <= i <= to
      invariant !AnyNull(data, 8 * from, 8 * i)
    {
      WholeByte(data, i);
      AnyNullSplit(data, 8 * from, 8 * i, 8 * i + 8);
      if data[i] != 0 {
        AnyNullSplit(data, 8 * from, 8 * i + 8, 8 * to);
        return true;
      }
      i := i + 1;
    }
    return false;
  }

  method HasNulls(data: seq<bv8>) returns (r: bool)
    ensures r <==> true in Bits(data)
  {
    assert Bits(data)[0..8 * |data|] == Bits(data);
    r := AnyByte(data, 0, |data|);
  }

  /** Exactly whether some row of [start, start+n) is null, reading only the bytes that cover the range. */
  method HasNullsInRange(data: seq<bv8>, start: nat, n: int) returns (r: bool)
    requires start + n <= 8 * |data|
    ensures r <==> 0 < n && AnyNull(data, start, start + n)
  {
    if n <= 0 {
      return false;
    }
    var end := start + n;
    var firstByte, lastByte := start / 8, (end - 1) / 8;
    if start % 8 == 0 && end % 8 == 0 {
      r := AnyByte(data, firstByte, lastByte + 1);
      return;
    }
    if firstByte == lastByte {
      r := OneByteHasNull(data, start, end);
    } else {
      r := EdgesHaveNull(data, start, end);
    }
  }

  /** A range inside one byte: mask off the bits before start and those from end on. */
  method OneByteHasNull(data: seq<bv8>, start: nat, end: nat) returns (r: bool)
    requires start < end <= 8 * |data| && start / 8 == (end - 1) / 8
    ensures r <==> AnyNull(data, start, end)
  {
    OneByte(data, start, end);
    r := data[start / 8] & HighMask(start % 8) & LastMask(end) != 0;
  }

  /** A range over several bytes: its masked first byte, the whole bytes between, its masked last byte. */
  method EdgesHaveNull(data: seq<bv8>, start: nat, end: nat) returns (r: bool)
    requires start < end <= 8 * |data| && start / 8 < (end - 1) / 8
    ensures r <==> AnyNull(data, start, end)
  {
    var firstByte, lastByte := start / 8, (end - 1) / 8;
    HeadByte(data, start);
    AnyNullSplit(data, start, 8 * firstByte + 8, end);
    if data[firstByte] & HighMask(start % 8) != 0 {
      return true;
    }
    AnyNullSplit(data, 8 * firstByte + 8, 8 * lastByte, end);
    TailByte(data, end);
    r := AnyByte(data, firstByte + 1, lastByte);
    if !r {
      r := data[lastByte] & LastMask(end) != 0;
    }
  }
}
