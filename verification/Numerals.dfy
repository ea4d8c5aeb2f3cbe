/** Decimal numerals: reading them back (strconv.ParseInt) and writing them. */
module Numerals {
  import opened Types

  predicate IsDigit(c: Ch) {
    '0' <= c <= '9'
  }

  predicate AllDigits(s: Text) {
    s != [] && forall i :: 0 <= i < |s| ==> IsDigit(s[i])
  }

  function Digits(s: Text): nat
    requires forall i :: 0 <= i < |s| ==> IsDigit(s[i])
  {
    if s == [] then 0
    else
      var d := s[|s| - 1];
      assert IsDigit(d);
      10 * Digits(s[..|s| - 1]) + (d as int - '0' as int)
  }

  /** strconv.ParseInt in base 10: an optional sign, digits, and a value that fits 64 bits. */
  function ParseI64(s: Text): Option<I64> {
    var signed := s != [] && (s[0] == '-' || s[0] == '+');
    var digits := if signed then s[1..] else s;
    if !AllDigits(digits) then None
    else
      var d: int := Digits(digits);
      var n := if signed && s[0] == '-' then -d else d;
      if -0x8000_0000_0000_0000 <= n < 0x8000_0000_0000_0000 then Some(n) else None
  }

  /** The decimal text of a number, without leading zeros. */
  function Decimal(n: nat): (s: Text)
    ensures AllDigits(s)
  {
    var d := [('0' as int + n % 10) as char];
    if n < 10 then d else Decimal(n / 10) + d
  }

  lemma {:induction false} DecimalReadsBack(n: nat)
    ensures Digits(Decimal(n)) == n
  {
    var s := Decimal(n);
    if 10 <= n {
      assert s[..|s| - 1] == Decimal(n / 10);
      DecimalReadsBack(n / 10);
    }
  }

  lemma ParseDecimal(n: nat)
    requires n < 0x8000_0000_0000_0000
    ensures ParseI64(Decimal(n)) == Some(n)
  {
    DecimalReadsBack(n);
    assert IsDigit(Decimal(n)[0]);
  }

  /** A sign in front of a numeral, over the whole 64-bit range. */
  lemma {:induction false} ParseSigned(n: nat)
    ensures var m: int := n; ParseI64(['-'] + Decimal(n)) == if m <= 0x8000_0000_0000_0000 then Some(-m) else None
    ensures ParseI64(['+'] + Decimal(n)) == if n < 0x8000_0000_0000_0000 then Some(n) else None
  {
    DecimalReadsBack(n);
    assert (['-'] + Decimal(n))[1..] == Decimal(n) && (['+'] + Decimal(n))[1..] == Decimal(n);
  }
}
