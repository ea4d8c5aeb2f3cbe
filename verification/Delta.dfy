/** encoding/delta.go: a base value and wrapped differences. */
module Delta {
  import opened Types
  import opened Relation
  import opened LittleEndian
  import opened Codecs

  /** The difference of two neighbours, as 64-bit subtraction computes it. */
  function Diff(a: I64, b: I64): I64 {
    var x: int, y: int := a, b;
    Wrap64(y - x)
  }

  function Plus(a: I64, d: I64): I64 {
    var x: int, y: int := a, d;
    Wrap64(x + y)
  }

  /** Overflow on the way out is undone by overflow on the way back. */
  lemma DiffUndone(a: I64, b: I64)
    ensures Plus(a, Diff(a, b)) == b
  {}

  function DeltaBytes(data: seq<I64>): seq<Byte> {
    if |data| <= 1 then []
    else
      var n := |data| - 1;
      DeltaBytes(data[..n]) + U64Bytes(ToU64(Diff(data[n - 1], data[n])))
  }

  /** Eight bytes of base, four of count, eight per difference; four zero bytes for no values. */
  function Encoded(data: seq<I64>): seq<Byte> {
    if data == [] then U32Bytes(0)
    else U64Bytes(ToU64(data[0])) + U32Bytes(|data| % 0x1_0000_0000) + DeltaBytes(data)
  }

  method EncodeDelta(data: seq<I64>) returns (buf: seq<Byte>)
    ensures buf == Encoded(data)
  {
    hide FromLe, LittleEndian.Le;
    if |data| == 0 {
      return U32Bytes(0);
    }
    var head := U64Bytes(ToU64(data[0])) + U32Bytes(|data| % 0x1_0000_0000);
    var deltas: seq<Byte>, prev := [], data[0];
    for i := 1 to |data|
      invariant deltas == DeltaBytes(data[..i]) && prev == data[i - 1]
    {
      assert data[..i + 1][..i] == data[..i];
      deltas := deltas + U64Bytes(ToU64(Diff(prev, data[i])));
      prev := data[i];
    }
    assert data[..|data|] == data;
    buf := head + deltas;
  }

  /** Value i is the one before plus difference i. */
  function Resum(b: seq<Byte>, count: nat): (r: seq<I64>)
    requires count > 0 ==> 12 + 8 * (count - 1) <= |b|
    ensures |r| == count
  {
    if count == 0 then []
    else if count == 1 then [ToI64(ReadU64(b[0..8]))]
    else
      var at, init := 12 + 8 * (count - 2), Resum(b, count - 1);
      init + [Plus(init[count - 2], ToI64(ReadU64(b[at..at + 8])))]
  }

  /**
   * Total on any bytes: no value is read for a zero count; otherwise an error for a short
   * header, for more values than stored and for missing differences.
   */
  function Decoded(b: seq<Byte>, count: nat): (r: Option<seq<I64>>)
    ensures r.Some? ==> |r.value| == count
  {
    if count == 0 then Some([])
    else if |b| < 12 then None
    else
      var stored := ReadU32(b[8..12]);
      if count > stored || |b| < 12 + 8 * (stored - 1) then None else Some(Resum(b, count))
  }

  method DecodeDelta(encoded: seq<Byte>, count: nat) returns (r: Option<seq<I64>>)
    ensures r == Decoded(encoded, count)
  {
    hide FromLe;
    if count == 0 {
      return Some([]);
    }
    if |encoded| < 12 {
      return None;
    }
    var base := ToI64(ReadU64(encoded[0..8]));
    var numValues := ReadU32(encoded[8..12]);
    if count > numValues {
      return None;
    }
    if |encoded| < 12 + 8 * (numValues - 1) {
      return None;
    }
    var result, current := [base], base;
    for i := 1 to count
      invariant result == Resum(encoded, i) && current == result[i - 1]
    {
      current := Plus(current, ToI64(ReadU64(encoded[12 + 8 * (i - 1)..12 + 8 * (i - 1) + 8])));
      result := result + [current];
    }
    r := Some(result);
  }

  lemma {:induction false} DeltaSize(data: seq<I64>)
    ensures |DeltaBytes(data)| == if data == [] then 0 else 8 * (|data| - 1)
  {
    hide FromLe;
    if |data| > 1 {
      DeltaSize(data[..|data| - 1]);
    }
  }

  /** The differences of a prefix stand at the front of the differences. */
  lemma {:induction false} DeltaPrefix(b: seq<Byte>, off: nat, data: seq<I64>, k: nat)
    requires 0 < k <= |data| && Holds(b, off, DeltaBytes(data))
    ensures Holds(b, off, DeltaBytes(data[..k]))
  {
    hide Holds, FromLe;
    if k == |data| {
      assert data[..k] == data;
    } else {
      var n := |data| - 1;
      HoldsConcat(b, off, DeltaBytes(data[..n]), U64Bytes(ToU64(Diff(data[n - 1], data[n]))));
      DeltaPrefix(b, off, data[..n], k);
      assert data[..n][..k] == data[..k];
    }
  }

  lemma {:induction false} ResumBack(b: seq<Byte>, data: seq<I64>, k: nat)
    requires 0 < k <= |data| && 12 + 8 * (|data| - 1) <= |b|
    requires Holds(b, 0, U64Bytes(ToU64(data[0]))) && Holds(b, 12, DeltaBytes(data))
    ensures Resum(b, k) == data[..k]
  {
    hide Holds, FromLe, LittleEndian.Le, DeltaBytes;
    if k == 1 {
      HoldsSlice(b, 0, U64Bytes(ToU64(data[0])));
    } else {
      ResumBack(b, data, k - 1);
      DeltaPrefix(b, 12, data, k);
      LastDelta(b, data[..k]);
      DiffUndone(data[k - 2], data[k - 1]);
      TakeSnoc(data, k - 1);
    }
  }

  lemma LastDelta(b: seq<Byte>, data: seq<I64>)
    requires |data| > 1 && Holds(b, 12, DeltaBytes(data))
    ensures var n, at := |data| - 1, 12 + 8 * (|data| - 2);
            at + 8 <= |b| && ToI64(ReadU64(b[at..at + 8])) == Diff(data[n - 1], data[n])
  {
    hide Holds, FromLe, LittleEndian.Le;
    var n := |data| - 1;
    var last := U64Bytes(ToU64(Diff(data[n - 1], data[n])));
    HoldsConcat(b, 12, DeltaBytes(data[..n]), last);
    DeltaSize(data[..n]);
    HoldsSlice(b, 12 + 8 * (n - 1), last);
  }

  /** Decoding gives back the first k values, for every k up to their number, overflow or not. */
  lemma DeltaRoundTrip(data: seq<I64>, k: nat)
    requires |data| < 0x1_0000_0000 && k <= |data|
    ensures Decoded(Encoded(data), k) == Some(data[..k])
  {
    hide Holds, FromLe, LittleEndian.Le, DeltaBytes;
    if k > 0 {
      var b, base, count := Encoded(data), U64Bytes(ToU64(data[0])), U32Bytes(|data|);
      HoldsWhole(b);
      HoldsConcat(b, 0, base + count, DeltaBytes(data));
      HoldsConcat(b, 0, base, count);
      HoldsSlice(b, 8, count);
      DeltaSize(data);
      ResumBack(b, data, k);
    }
  }
}
