/** encoding/plain.go: values one after another. */
module Plain {
  import opened Types
  import opened Relation
  import opened LittleEndian
  import opened Codecs

  /** encodeInt64, encodeFloat64 and encodeString. */
  method EncodePlain(data: seq<Scalar>) returns (buf: seq<Byte>)
    ensures buf == AllBytes(data)
  {
    buf := [];
    for i := 0 to |data|
      invariant buf == AllBytes(data[..i])
    {
      hide ValueBytes;
      TakeSnoc(data, i);
      AllBytesSnoc(data[..i], data[i]);
      buf := buf + ValueBytes(data[i]);
    }
    assert data[..|data|] == data;
  }

  /** The values a sequential read yields. */
  function Values(r: Option<(seq<Scalar>, nat)>): Option<seq<Scalar>> {
    if r.None? then None else Some(r.value.0)
  }

  /** Fixed-width values can be read exactly when their bytes are there. */
  lemma {:induction false} FixedWidth(t: ColType, b: seq<Byte>, off: nat, n: nat)
    requires t == TInt64 || t == TFloat64
    ensures ReadAll(t, b, off, n).Some? <==> n == 0 || off + 8 * n <= |b|
    ensures ReadAll(t, b, off, n).Some? ==> ReadAll(t, b, off, n).value.1 == off + 8 * n
  {
    if n > 0 {
      FixedWidth(t, b, off, n - 1);
    }
  }

  /** DecodeInt64 and DecodeFloat64: one length check, then count reads. */
  method DecodeFixed(t: ColType, encoded: seq<Byte>, count: nat) returns (r: Option<seq<Scalar>>)
    requires t == TInt64 || t == TFloat64
    ensures r == Values(ReadAll(t, encoded, 0, count))
    ensures r.Some? <==> 8 * count <= |encoded|
  {
    hide FromLe;
    FixedWidth(t, encoded, 0, count);
    if |encoded| < 8 * count {
      return None;
    }
    var result: seq<Scalar> := [];
    for i := 0 to count
      invariant ReadAll(t, encoded, 0, i) == Some((result, 8 * i))
    {
      FixedWidth(t, encoded, 0, i + 1);
      var u := ReadU64(encoded[8 * i..8 * i + 8]);
      result := result + [if t == TInt64 then SInt(ToI64(u)) else SFloat(u)];
    }
    r := Some(result);
  }

  /** DecodeString: the offset moves behind each length and each body. */
  method DecodeString(encoded: seq<Byte>, count: nat) returns (r: Option<seq<Scalar>>)
    ensures r == Values(ReadAll(TString, encoded, 0, count))
  {
    var result: seq<Scalar>, offset := [], 0;
    for i := 0 to count
      invariant ReadAll(TString, encoded, 0, i) == Some((result, offset)) && offset <= |encoded|
    {
      var step := ReadValue(TString, encoded, offset);
      if step.None? {
        ReadPrefix(TString, encoded, 0, count, i + 1);
        return None;
      }
      result, offset := result + [step.value.0], step.value.1;
    }
    r := Some(result);
  }

  /** A read that fails early fails. */
  lemma ReadPrefix(t: ColType, b: seq<Byte>, off: nat, n: nat, k: nat)
    requires k <= n && ReadAll(t, b, off, k).None?
    ensures ReadAll(t, b, off, n).None?
  {}

  /** Decoding gives back the first k values, for every k up to their number. */
  lemma PlainRoundTrip(t: ColType, data: seq<Scalar>, k: nat)
    requires FitAll(data, t) && k <= |data|
    ensures Values(ReadAll(t, AllBytes(data), 0, k)) == Some(data[..k])
  {
    HoldsWhole(AllBytes(data));
    ReadAllBack(t, AllBytes(data), 0, data);
    ReadFewer(t, AllBytes(data), 0, |data|, k);
  }
}
