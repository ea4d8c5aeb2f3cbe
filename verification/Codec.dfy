/** The value formats shared by encoding/plain.go, rle.go and dictionary.go. */
module Codecs {
  import opened Types
  import opened Relation
  import opened LittleEndian

  /** One value: 8 bytes, a length and its bytes, or a single byte for a bool. */
  function ValueBytes(v: Scalar): (b: seq<Byte>)
    ensures |b| > 0
  {
    match v
    case SInt(i) => U64Bytes(ToU64(i))
    case SFloat(bits) => U64Bytes(bits)
    case SStr(s) => U32Bytes(|s| % 0x1_0000_0000) + TextBytes(s)
    case SBool(x) => [if x then 1 else 0]
  }

  /** A 32-bit integer at an offset, or None when it would run past the end. */
  function ReadU32At(b: seq<Byte>, off: nat): (r: Option<nat>)
    ensures r.Some? <==> off + 4 <= |b|
    ensures r.Some? ==> r.value < 0x1_0000_0000
  {
    if off + 4 > |b| then None else Some(ReadU32(b[off..off + 4]))
  }

  /** One value of type t at an offset and the offset behind it, or None when the bytes run out. */
  function ReadValue(t: ColType, b: seq<Byte>, off: nat): (r: Option<(Scalar, nat)>)
    ensures r.Some? ==> off < r.value.1 <= |b| && TypeOf(r.value.0) == t
  {
    match t
    case TInt64 => if off + 8 > |b| then None else Some((SInt(ToI64(ReadU64(b[off..off + 8]))), off + 8))
    case TFloat64 => if off + 8 > |b| then None else Some((SFloat(ReadU64(b[off..off + 8])), off + 8))
    case TBool => if off + 1 > |b| then None else Some((SBool(b[off] != 0), off + 1))
    case TString =>
      var n := ReadU32At(b, off);
      if n.None? || off + 4 + n.value > |b| then None
      else Some((SStr(BytesText(b[off + 4..off + 4 + n.value])), off + 4 + n.value))
  }

  /** The bytes x stand in b at an offset. */
  predicate Holds(b: seq<Byte>, off: nat, x: seq<Byte>)
    decreases |x|
  {
    if x == [] then off <= |b|
    else off < |b| && b[off] == x[0] && Holds(b, off + 1, x[1..])
  }

  lemma {:induction false} HoldsSlice(b: seq<Byte>, off: nat, x: seq<Byte>)
    ensures Holds(b, off, x) <==> off + |x| <= |b| && b[off..off + |x|] == x
    decreases |x|
  {
    if x != [] {
      HoldsSlice(b, off + 1, x[1..]);
      if off + |x| <= |b| {
        var cut := b[off..off + |x|];
        assert cut[0] == b[off] && cut[1..] == b[off + 1..off + |x|];
        assert x == [x[0]] + x[1..] && cut == [cut[0]] + cut[1..];
      }
    }
  }

  lemma {:induction false} HoldsConcat(b: seq<Byte>, off: nat, x: seq<Byte>, y: seq<Byte>)
    ensures Holds(b, off, x + y) <==> Holds(b, off, x) && Holds(b, off + |x|, y)
    decreases |x|
  {
    if x == [] {
      assert x + y == y;
      HoldsSlice(b, off, y);
    } else {
      assert (x + y)[1..] == x[1..] + y;
      HoldsConcat(b, off + 1, x[1..], y);
    }
  }

  /** Four pieces written one after another stand one after another. */
  lemma HoldsFour(b: seq<Byte>, off: nat, w: seq<Byte>, x: seq<Byte>, y: seq<Byte>, z: seq<Byte>)
    requires Holds(b, off, w + (x + (y + z)))
    ensures Holds(b, off, w) && Holds(b, off + |w|, x)
    ensures Holds(b, off + |w| + |x|, y) && Holds(b, off + |w| + |x| + |y|, z)
  {
    hide Holds;
    HoldsConcat(b, off, w, x + (y + z));
    HoldsConcat(b, off + |w|, x, y + z);
    HoldsConcat(b, off + |w| + |x|, y, z);
  }

  lemma HoldsWhole(b: seq<Byte>)
    ensures Holds(b, 0, b)
  {
    HoldsSlice(b, 0, b);
    assert b[0..|b|] == b;
  }

  /** A 32-bit integer read where it was written. */
  lemma ReadU32Back(b: seq<Byte>, off: nat, n: nat)
    requires n < 0x1_0000_0000 && Holds(b, off, U32Bytes(n))
    ensures ReadU32At(b, off) == Some(n)
  {
    hide Holds, FromLe, LittleEndian.Le;
    HoldsSlice(b, off, U32Bytes(n));
  }

  lemma ReadTextBack(b: seq<Byte>, off: nat, s: Text)
    requires |s| < 0x1_0000_0000 && Holds(b, off, U32Bytes(|s|) + TextBytes(s))
    ensures ReadValue(TString, b, off) == Some((SStr(s), off + 4 + |s|))
  {
    hide Holds, FromLe, LittleEndian.Le, TextBytes, BytesText;
    HoldsConcat(b, off, U32Bytes(|s|), TextBytes(s));
    HoldsSlice(b, off, U32Bytes(|s|));
    HoldsSlice(b, off + 4, TextBytes(s));
    TextRoundTrip(s);
  }

  /** Reading where a value was written gives it back and stops behind it. */
  lemma ReadBack(t: ColType, b: seq<Byte>, off: nat, v: Scalar)
    requires Fits(v, t) && Holds(b, off, ValueBytes(v))
    ensures ReadValue(t, b, off) == Some((v, off + |ValueBytes(v)|))
  {
    hide Holds, FromLe, LittleEndian.Le, TextBytes, BytesText;
    match v {
      case SStr(s) => ReadTextBack(b, off, s);
      case SInt(i) => HoldsSlice(b, off, U64Bytes(ToU64(i)));
      case SFloat(bits) => HoldsSlice(b, off, U64Bytes(bits));
      case SBool(x) =>
        HoldsSlice(b, off, [if x then 1 else 0]);
        assert b[off] == b[off..off + 1][0];
    }
  }

  // ----- sequences of values -----

  function AllBytes(vals: seq<Scalar>): seq<Byte> {
    if vals == [] then [] else AllBytes(vals[..|vals| - 1]) + ValueBytes(vals[|vals| - 1])
  }

  predicate FitAll(vals: seq<Scalar>, t: ColType) {
    forall i :: 0 <= i < |vals| ==> Fits(vals[i], t)
  }

  /** n values one after another and the offset behind them; None when the bytes run out. */
  function ReadAll(t: ColType, b: seq<Byte>, off: nat, n: nat): (r: Option<(seq<Scalar>, nat)>)
    ensures r.Some? ==> |r.value.0| == n && off <= r.value.1
    ensures r.Some? && off <= |b| ==> r.value.1 <= |b|
  {
    if n == 0 then Some(([], off))
    else
      var init := ReadAll(t, b, off, n - 1);
      if init.None? then None
      else
        var last := ReadValue(t, b, init.value.1);
        if last.None? then None else Some((init.value.0 + [last.value.0], last.value.1))
  }

  lemma AllBytesSnoc(vals: seq<Scalar>, v: Scalar)
    ensures AllBytes(vals + [v]) == AllBytes(vals) + ValueBytes(v)
  {}

  lemma ReadOneMore(t: ColType, b: seq<Byte>, off: nat, vals: seq<Scalar>, v: Scalar)
    requires Fits(v, t) && Holds(b, off + |AllBytes(vals)|, ValueBytes(v))
    requires ReadAll(t, b, off, |vals|) == Some((vals, off + |AllBytes(vals)|))
    ensures ReadAll(t, b, off, |vals| + 1) == Some((vals + [v], off + |AllBytes(vals)| + |ValueBytes(v)|))
  {
    hide Holds, ReadValue, ValueBytes;
    ReadBack(t, b, off + |AllBytes(vals)|, v);
  }

  lemma {:induction false} ReadAllBack(t: ColType, b: seq<Byte>, off: nat, vals: seq<Scalar>)
    requires FitAll(vals, t) && Holds(b, off, AllBytes(vals))
    ensures ReadAll(t, b, off, |vals|) == Some((vals, off + |AllBytes(vals)|))
  {
    hide Holds, ReadValue, ValueBytes;
    if vals != [] {
      var init, v := vals[..|vals| - 1], vals[|vals| - 1];
      SplitLast(vals);
      AllBytesSnoc(init, v);
      HoldsConcat(b, off, AllBytes(init), ValueBytes(v));
      ReadAllBack(t, b, off, init);
      ReadOneMore(t, b, off, init, v);
    }
  }

  /** Reading fewer values gives a prefix. */
  lemma {:induction false} ReadFewer(t: ColType, b: seq<Byte>, off: nat, n: nat, k: nat)
    requires k <= n && ReadAll(t, b, off, n).Some?
    ensures ReadAll(t, b, off, k).Some? && ReadAll(t, b, off, k).value.0 == ReadAll(t, b, off, n).value.0[..k]
  {
    if k < n {
      ReadFewer(t, b, off, n - 1, k);
    }
  }
}
