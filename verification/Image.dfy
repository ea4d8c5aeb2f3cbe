/**
 * The bytes of numbers and values as the file and codec formats document them, next to the functions
 * the writers and readers use.
 */
module Images {
  import opened Types
  import opened LittleEndian
  import opened Codecs

  // ----- numbers, least significant byte first -----

  function Two(n: int): seq<Byte> {
    [n % 0x100, n / 0x100 % 0x100]
  }

  function Four(n: int): seq<Byte> {
    [n % 0x100, n / 0x100 % 0x100, n / 0x1_0000 % 0x100, n / 0x100_0000 % 0x100]
  }

  /** A negative number in two's complement. */
  function Eight(n: int): seq<Byte> {
    Four(n) + Four(n / 0x1_0000_0000)
  }

  function Num2(b: seq<Byte>, at: nat): (n: nat)
    requires at + 2 <= |b|
  {
    (b[at] as int) + 0x100 * (b[at + 1] as int)
  }

  function Num4(b: seq<Byte>, at: nat): (n: nat)
    requires at + 4 <= |b|
    ensures n < 0x1_0000_0000
  {
    (b[at] as int) + 0x100 * (b[at + 1] as int) + 0x1_0000 * (b[at + 2] as int) + 0x100_0000 * (b[at + 3] as int)
  }

  function Num8(b: seq<Byte>, at: nat): (n: nat)
    requires at + 8 <= |b|
    ensures n < 0x1_0000_0000_0000_0000
  {
    Num4(b, at) + 0x1_0000_0000 * Num4(b, at + 4)
  }

  /** The sign is the top bit of the last byte. */
  function Signed8(b: seq<Byte>, at: nat): (n: int)
    requires at + 8 <= |b|
  {
    if b[at + 7] < 128 then Num8(b, at) else Num8(b, at) - 0x1_0000_0000_0000_0000
  }

  lemma Halves(n: nat)
    ensures n / 0x100 / 0x100 == n / 0x1_0000
  {}

  lemma Quarters(n: nat)
    ensures n / 0x1_0000 / 0x1_0000 == n / 0x1_0000_0000
    ensures n / 0x1_0000 / 0x100 == n / 0x100_0000
  {}

  lemma {:induction false} LeTwo(n: nat, k: nat)
    ensures LittleEndian.Le(n, k + 2) == Two(n) + LittleEndian.Le(n / 0x1_0000, k)
  {
    Halves(n);
    var m := n / 0x100;
    assert LittleEndian.Le(m, k + 1) == [m % 0x100] + LittleEndian.Le(m / 0x100, k);
  }

  lemma {:induction false} LeFour(n: nat, k: nat)
    ensures LittleEndian.Le(n, k + 4) == Four(n) + LittleEndian.Le(n / 0x1_0000_0000, k)
  {
    hide LittleEndian.Le;
    Quarters(n);
    LeTwo(n, k + 2);
    LeTwo(n / 0x1_0000, k);
  }

  lemma LeNone(n: nat)
    ensures LittleEndian.Le(n, 0) == []
  {}

  /** Adding a multiple of the fifth place leaves the low four bytes. */
  lemma {:induction false} FourShifts(m: int, t: int)
    ensures Four(m + 0x1_0000_0000 * t) == Four(m)
  {
    var n := m + 0x1_0000_0000 * t;
    assert n / 0x100 == m / 0x100 + 0x100_0000 * t;
    assert n / 0x1_0000 == m / 0x1_0000 + 0x1_0000 * t;
    assert n / 0x100_0000 == m / 0x100_0000 + 0x100 * t;
    LowByte(m, 0x100_0000 * t);
    LowByte(m / 0x100, 0x1_0000 * t);
    LowByte(m / 0x1_0000, 0x100 * t);
    LowByte(m / 0x100_0000, t);
  }

  lemma LowByte(y: int, u: int)
    ensures (y + 0x100 * u) % 0x100 == y % 0x100
  {}

  lemma {:induction false} FourWraps(n: int)
    ensures Four(n % 0x1_0000_0000) == Four(n)
  {
    hide Four;
    FourShifts(n % 0x1_0000_0000, n / 0x1_0000_0000);
  }

  lemma {:induction false} TwoWraps(n: int)
    ensures Two(n % 0x1_0000) == Two(n)
  {
    var m, t := n % 0x1_0000, n / 0x1_0000;
    assert n == m + 0x1_0000 * t;
    assert n / 0x100 == m / 0x100 + 0x100 * t;
    LowByte(m, 0x100 * t);
    LowByte(m / 0x100, t);
  }

  /** The writers' numbers are these bytes. */
  lemma {:induction false} FieldBytesAre(n: nat)
    ensures U16Bytes(n % 0x1_0000) == Two(n) && U32Bytes(n % 0x1_0000_0000) == Four(n)
  {
    hide LittleEndian.Le, FromLe, Two, Four;
    LeTwo(n % 0x1_0000, 0);
    TwoWraps(n);
    LeNone(n % 0x1_0000 / 0x1_0000);
    LeFour(n % 0x1_0000_0000, 0);
    FourWraps(n);
    LeNone(n % 0x1_0000_0000 / 0x1_0000_0000);
  }

  lemma {:induction false} LongBytesAre(n: U64)
    ensures U64Bytes(n) == Eight(n)
  {
    hide LittleEndian.Le, FromLe, Four;
    LeFour(n, 4);
    LeFour(n / 0x1_0000_0000, 0);
    LeNone(n / 0x1_0000_0000 / 0x1_0000_0000);
  }

  lemma {:induction false} SignedBytesAre(i: I64)
    ensures U64Bytes(ToU64(i)) == Eight(i)
  {
    hide LittleEndian.Le, FromLe, Four;
    LongBytesAre(ToU64(i));
    if i < 0 {
      FourShifts(i, 0x1_0000_0000);
      FourShifts(i / 0x1_0000_0000, 1);
      assert (i + 0x1_0000_0000_0000_0000) / 0x1_0000_0000 == i / 0x1_0000_0000 + 0x1_0000_0000;
    }
  }

  /** The readers' numbers are those of these bytes. */
  lemma {:induction false} ReadFour(b: seq<Byte>, at: nat)
    requires at + 4 <= |b|
    ensures ReadU32(b[at..at + 4]) == Num4(b, at)
  {
    FromFour(b[at..at + 4]);
  }

  lemma {:induction false} FromFour(x: seq<Byte>)
    requires |x| >= 4
    ensures FromLe(x) == Num4(x, 0) + 0x1_0000_0000 * FromLe(x[4..])
  {
    var y, z, w := x[1..], x[2..], x[3..];
    assert y[1..] == z && z[1..] == w && w[1..] == x[4..];
    assert FromLe(y) == y[0] + 0x100 * FromLe(z);
    assert FromLe(z) == z[0] + 0x100 * FromLe(w);
    assert FromLe(w) == w[0] + 0x100 * FromLe(x[4..]);
  }

  lemma {:induction false} ReadTwo(b: seq<Byte>, at: nat)
    requires at + 2 <= |b|
    ensures ReadU16(b[at..at + 2]) == Num2(b, at)
  {
    var x := b[at..at + 2];
    assert FromLe(x[1..]) == x[1] + 0x100 * FromLe([]);
  }

  lemma {:induction false} ReadEight(b: seq<Byte>, at: nat)
    requires at + 8 <= |b|
    ensures ReadU64(b[at..at + 8]) == Num8(b, at) && ToI64(ReadU64(b[at..at + 8])) == Signed8(b, at)
  {
    var x := b[at..at + 8];
    FromFour(x);
    FromFour(x[4..]);
    assert Num4(x, 0) == Num4(b, at) && Num4(x[4..], 0) == Num4(b, at + 4);
    assert FromLe(x[4..][4..]) == 0;
  }

  // ----- values -----

  function Chars(s: Text): (b: seq<Byte>)
    ensures |b| == |s|
  {
    seq(|s|, i requires 0 <= i < |s| => s[i] as int)
  }

  /** Eight bytes, a 4-byte length and its characters, or one byte. */
  function ValueImage(v: Scalar): seq<Byte> {
    match v
    case SInt(i) => Eight(i)
    case SFloat(bits) => Eight(bits)
    case SStr(s) => Four(|s|) + Chars(s)
    case SBool(x) => [if x then 1 else 0]
  }

  lemma {:induction false} ValueBytesAre(v: Scalar)
    ensures ValueBytes(v) == ValueImage(v)
  {
    hide FromLe, LittleEndian.Le, Four, Eight;
    match v
    case SInt(i) => SignedBytesAre(i);
    case SFloat(bits) => LongBytesAre(bits);
    case SStr(s) =>
      FieldBytesAre(|s|);
      assert TextBytes(s) == Chars(s);
    case SBool(_) =>
  }

  /** The bytes of b from at to end are those of a value of type t; any byte but 0 is true. */
  predicate Stands(t: ColType, v: Scalar, b: seq<Byte>, at: nat, end: nat) {
    at <= end <= |b| &&
    match t
    case TInt64 => v.SInt? && end == at + 8 && v.i == Signed8(b, at)
    case TFloat64 => v.SFloat? && end == at + 8 && v.bits == Num8(b, at)
    case TBool => v.SBool? && end == at + 1 && (v.b <==> b[at] != 0)
    case TString =>
      v.SStr? && end == at + 4 + |v.s| && |v.s| == Num4(b, at) && Chars(v.s) == b[at + 4..end]
  }

  /** A value is read exactly where its bytes stand. */
  lemma {:induction false} ReadIff(t: ColType, b: seq<Byte>, at: nat, v: Scalar, end: nat)
    ensures ReadValue(t, b, at) == Some((v, end)) <==> Stands(t, v, b, at, end)
  {
    hide FromLe, Num4, Num8, Signed8, ReadU32, ReadU64, ToI64;
    match t
    case TInt64 =>
      if at + 8 <= |b| {
        ReadEight(b, at);
      }
    case TFloat64 =>
      if at + 8 <= |b| {
        ReadEight(b, at);
      }
    case TBool =>
    case TString =>
      if at + 4 <= |b| {
        ReadFour(b, at);
        if v.SStr? && at + 4 + |v.s| <= |b| {
          SameText(v.s, b[at + 4..at + 4 + |v.s|]);
        }
      }
  }

  lemma SameText(s: Text, b: seq<Byte>)
    ensures BytesText(b) == s <==> Chars(s) == b
  {
    if BytesText(b) == s {
      assert forall i :: 0 <= i < |s| ==> s[i] == b[i] as char;
    }
    if Chars(s) == b {
      assert forall i :: 0 <= i < |s| ==> b[i] == s[i] as int;
    }
  }

  /** The values stand one behind the other, value i from ends[i] to ends[i + 1]. */
  predicate StandAll(t: ColType, vals: seq<Scalar>, b: seq<Byte>, ends: seq<nat>) {
    |ends| == |vals| + 1 && forall i :: 0 <= i < |vals| ==> Stands(t, vals[i], b, ends[i], ends[i + 1])
  }

  /** Values are read one after another exactly where their bytes stand so. */
  lemma {:induction false} ReadAllIff(t: ColType, b: seq<Byte>, at: nat, n: nat, vals: seq<Scalar>, end: nat)
    ensures ReadAll(t, b, at, n) == Some((vals, end))
            <==> |vals| == n && exists ends :: StandAll(t, vals, b, ends) && ends[0] == at && ends[n] == end
  {
    hide Stands, ReadValue;
    if ReadAll(t, b, at, n) == Some((vals, end)) {
      var ends := ReadStands(t, b, at, n);
      assert StandAll(t, vals, b, ends);
    }
    if |vals| == n && exists ends :: StandAll(t, vals, b, ends) && ends[0] == at && ends[n] == end {
      var ends :| StandAll(t, vals, b, ends) && ends[0] == at && ends[n] == end;
      StandsRead(t, b, ends, vals);
    }
  }

  lemma {:induction false} ReadStands(t: ColType, b: seq<Byte>, at: nat, n: nat) returns (ends: seq<nat>)
    requires ReadAll(t, b, at, n).Some?
    ensures StandAll(t, ReadAll(t, b, at, n).value.0, b, ends)
    ensures ends[0] == at && ends[n] == ReadAll(t, b, at, n).value.1
  {
    hide Stands, ReadValue;
    if n == 0 {
      ends := [at];
    } else {
      var before := ReadStands(t, b, at, n - 1);
      var r := ReadAll(t, b, at, n).value;
      ReadIff(t, b, before[n - 1], r.0[n - 1], r.1);
      ends := before + [r.1];
    }
  }

  lemma {:induction false} StandsRead(t: ColType, b: seq<Byte>, ends: seq<nat>, vals: seq<Scalar>)
    requires StandAll(t, vals, b, ends)
    ensures ReadAll(t, b, ends[0], |vals|) == Some((vals, ends[|vals|]))
  {
    hide Stands, ReadValue;
    if vals != [] {
      var n := |vals| - 1;
      StandsRead(t, b, ends[..n + 1], vals[..n]);
      ReadIff(t, b, ends[n], vals[n], ends[n + 1]);
      assert vals[..n] + [vals[n]] == vals;
    }
  }

  // ----- parts -----

  /** The parts one behind the other. */
  function Join(parts: seq<seq<Byte>>): seq<Byte> {
    if parts == [] then [] else parts[0] + Join(parts[1..])
  }

  function ValueParts(vals: seq<Scalar>): seq<seq<Byte>> {
    seq(|vals|, i requires 0 <= i < |vals| => ValueImage(vals[i]))
  }

  lemma {:induction false} JoinSnoc(parts: seq<seq<Byte>>)
    requires parts != []
    ensures Join(parts) == Join(parts[..|parts| - 1]) + parts[|parts| - 1]
  {
    var n := |parts| - 1;
    if n > 0 {
      var rest, init := parts[1..], parts[..n];
      JoinSnoc(rest);
      assert rest[..n - 1] == init[1..];
      assert Join(init) == parts[0] + Join(init[1..]);
      Associate(parts[0], Join(init[1..]), parts[n]);
    } else {
      assert parts == [parts[0]];
      assert Join(parts[1..]) == [];
    }
  }

  lemma JoinNone()
    ensures Join([]) == []
  {}

  lemma Associate(a: seq<Byte>, b: seq<Byte>, c: seq<Byte>)
    ensures a + (b + c) == (a + b) + c
  {}

  lemma {:induction false} AllBytesAre(vals: seq<Scalar>)
    ensures AllBytes(vals) == Join(ValueParts(vals))
  {
    hide ValueBytes, ValueImage;
    if vals != [] {
      var n := |vals| - 1;
      AllBytesAre(vals[..n]);
      ValueBytesAre(vals[n]);
      JoinSnoc(ValueParts(vals));
      assert ValueParts(vals)[..n] == ValueParts(vals[..n]);
    }
  }
}
