/** encoding/binary's little-endian integers: PutUint16/32/64 and Uint16/32/64. */
module LittleEndian {
  import opened Types

  function Pow256(k: nat): (p: nat)
    ensures p > 0
  {
    if k == 0 then 1 else 256 * Pow256(k - 1)
  }

  /** The low k bytes of n, least significant first. */
  function Le(n: nat, k: nat): (b: seq<Byte>)
    ensures |b| == k
  {
    if k == 0 then [] else [n % 256] + Le(n / 256, k - 1)
  }

  function FromLe(b: seq<Byte>): nat {
    if b == [] then 0 else b[0] + 256 * FromLe(b[1..])
  }

  lemma {:induction false} LeRoundTrip(n: nat, k: nat)
    requires n < Pow256(k)
    ensures FromLe(Le(n, k)) == n
  {
    if k > 0 {
      LeRoundTrip(n / 256, k - 1);
      assert Le(n, k)[1..] == Le(n / 256, k - 1);
    }
  }

  lemma {:induction false} FromLeBound(b: seq<Byte>)
    ensures FromLe(b) < Pow256(|b|)
  {
    if b != [] {
      FromLeBound(b[1..]);
    }
  }

  lemma Widths()
    ensures Pow256(2) == 0x1_0000 && Pow256(4) == 0x1_0000_0000 && Pow256(8) == 0x1_0000_0000_0000_0000
  {}

  /** uint64(x) of a signed value and back. */
  function ToU64(x: I64): U64 {
    if x < 0 then x + 0x1_0000_0000_0000_0000 else x
  }

  function ToI64(u: U64): I64 {
    if u < 0x8000_0000_0000_0000 then u else u - 0x1_0000_0000_0000_0000
  }

  function U16Bytes(n: nat): (b: seq<Byte>)
    requires n < 0x1_0000
    ensures |b| == 2 && FromLe(b) == n
  {
    Widths();
    LeRoundTrip(n, 2);
    Le(n, 2)
  }

  function U32Bytes(n: nat): (b: seq<Byte>)
    requires n < 0x1_0000_0000
    ensures |b| == 4 && FromLe(b) == n
  {
    Widths();
    LeRoundTrip(n, 4);
    Le(n, 4)
  }

  function U64Bytes(n: U64): (b: seq<Byte>)
    ensures |b| == 8 && FromLe(b) == n
  {
    Widths();
    LeRoundTrip(n, 8);
    Le(n, 8)
  }

  function ReadU16(b: seq<Byte>): (n: nat)
    requires |b| == 2
    ensures n < 0x1_0000
  {
    Widths();
    FromLeBound(b);
    FromLe(b)
  }

  function ReadU32(b: seq<Byte>): (n: nat)
    requires |b| == 4
    ensures n < 0x1_0000_0000
  {
    Widths();
    FromLeBound(b);
    FromLe(b)
  }

  function ReadU64(b: seq<Byte>): (n: U64)
    requires |b| == 8
  {
    Widths();
    FromLeBound(b);
    FromLe(b)
  }

  /** The bytes of a string and the string of some bytes. */
  function TextBytes(s: Text): (b: seq<Byte>)
    ensures |b| == |s|
  {
    seq(|s|, i requires 0 <= i < |s| => s[i] as int)
  }

  function BytesText(b: seq<Byte>): (s: Text)
    ensures |s| == |b|
  {
    seq(|b|, i requires 0 <= i < |b| => b[i] as char)
  }

  lemma TextRoundTrip(s: Text)
    ensures BytesText(TextBytes(s)) == s
  {}
}
