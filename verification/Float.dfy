/** IEEE 754 binary64: the number a bit pattern denotes, and the order of patterns by their numbers. */
module Floats {
  import opened Types
  import opened Aggregation

  function Pow2(k: nat): (p: nat)
    ensures p > 0
  {
    if k == 0 then 1 else 2 * Pow2(k - 1)
  }

  /** The sign bit, the 11 exponent bits and the 52 fraction bits of section 3.4 of IEEE 754-2019. */
  predicate Negative(bits: U64) {
    bits / 0x8000_0000_0000_0000 == 1
  }

  function Exponent(bits: U64): nat {
    bits / 0x10_0000_0000_0000 % 2048
  }

  function Fraction(bits: U64): (f: nat)
    ensures f < 0x10_0000_0000_0000
  {
    bits % 0x10_0000_0000_0000
  }

  predicate NotANumber(bits: U64) {
    Exponent(bits) == 2047 && Fraction(bits) != 0
  }

  /**
   * The absolute value in units of 2^-1074, the least positive one. The all-ones exponent with no
   * fraction is infinity, which this scale puts behind every finite number.
   */
  function Magnitude(bits: U64): nat {
    if Exponent(bits) == 0 then Fraction(bits)
    else (0x10_0000_0000_0000 + Fraction(bits)) * Pow2(Exponent(bits) - 1)
  }

  function Number(bits: U64): int {
    var m: int := Magnitude(bits);
    if Negative(bits) then -m else m
  }

  lemma {:induction false} Pow2Grows(a: nat, b: nat)
    requires a <= b
    ensures Pow2(a) <= Pow2(b)
  {
    if a < b {
      Pow2Grows(a, b - 1);
    }
  }

  lemma MulGrows(a: nat, b: nat, p: nat, q: nat)
    requires a <= b && p <= q
    ensures a * p <= b * q
  {}

  lemma MulStrict(a: nat, b: nat, p: nat)
    requires a < b && p > 0
    ensures a * p < b * p
  {}

  /** A pattern's value below the sign bit, split into exponent and fraction. */
  lemma Parts(bits: U64)
    ensures bits % 0x8000_0000_0000_0000 == Exponent(bits) * 0x10_0000_0000_0000 + Fraction(bits)
  {}

  /** Of two exponents the larger has the larger numbers, whatever the fractions. */
  lemma {:induction false} LargerExponent(x: U64, y: U64)
    requires Exponent(x) < Exponent(y)
    ensures Magnitude(x) < Magnitude(y)
  {
    var e, f := Exponent(x), Exponent(y);
    var unit := 0x10_0000_0000_0000;
    Pow2Grows(e, f - 1);
    MulGrows(unit, unit + Fraction(y), Pow2(e), Pow2(f - 1));
    if e > 0 {
      MulStrict(unit + Fraction(x), 2 * unit, Pow2(e - 1));
      assert 2 * unit * Pow2(e - 1) == unit * Pow2(e);
    }
  }

  /** Patterns of one sign are ordered like the numbers they denote. */
  lemma {:induction false} MagnitudeOrder(x: U64, y: U64)
    ensures Magnitude(x) < Magnitude(y) <==> x % 0x8000_0000_0000_0000 < y % 0x8000_0000_0000_0000
    ensures Magnitude(x) == 0 <==> x % 0x8000_0000_0000_0000 == 0
  {
    hide Magnitude, Exponent, Fraction;
    Parts(x);
    Parts(y);
    if Exponent(x) < Exponent(y) {
      LargerExponent(x, y);
    } else if Exponent(y) < Exponent(x) {
      LargerExponent(y, x);
    } else {
      SameExponent(x, y);
    }
    OnlyZero(x);
  }

  lemma SameExponent(x: U64, y: U64)
    requires Exponent(x) == Exponent(y)
    ensures Magnitude(x) < Magnitude(y) <==> Fraction(x) < Fraction(y)
  {
    if Exponent(x) > 0 {
      var p := Pow2(Exponent(x) - 1);
      if Fraction(x) < Fraction(y) {
        MulStrict(0x10_0000_0000_0000 + Fraction(x), 0x10_0000_0000_0000 + Fraction(y), p);
      } else {
        MulGrows(0x10_0000_0000_0000 + Fraction(y), 0x10_0000_0000_0000 + Fraction(x), p, p);
      }
    }
  }

  lemma OnlyZero(x: U64)
    ensures Magnitude(x) == 0 <==> Exponent(x) == 0 && Fraction(x) == 0
  {
    if Exponent(x) > 0 {
      MulGrows(1, 0x10_0000_0000_0000 + Fraction(x), 1, Pow2(Exponent(x) - 1));
    }
  }

  lemma NaNPatterns(bits: U64)
    ensures IsNaN(bits) <==> NotANumber(bits)
  {}

  /** The order of the engine is the order of the numbers, both zeros being one; NaN is below and above nothing. */
  lemma {:induction false} LessIsSmaller(x: U64, y: U64)
    ensures Less(SFloat(x), SFloat(y)) <==> !NotANumber(x) && !NotANumber(y) && Number(x) < Number(y)
  {
    hide Magnitude, Exponent, Fraction;
    NaNPatterns(x);
    NaNPatterns(y);
    MagnitudeOrder(x, y);
    MagnitudeOrder(y, x);
  }

  // ----- the values of a column -----

  predicate FloatCells(cells: seq<Cell>) {
    forall k :: 0 <= k < |cells| && cells[k].Val? ==> cells[k].v.SFloat?
  }

  /** The bit patterns of the non-null Float64 cells, in order. */
  function Patterns(cells: seq<Cell>): seq<U64>
    requires FloatCells(cells)
  {
    if cells == [] then []
    else
      var n := |cells| - 1;
      Patterns(cells[..n]) + (if cells[n].Val? then [cells[n].v.bits] else [])
  }

  /**
   * What comparing from the left with < leaves as least and greatest: a NaN that comes first stays
   * both, and otherwise NaNs are passed over and the others' numbers lie between.
   */
  predicate Extremes(vals: seq<U64>, lo: U64, hi: U64)
    requires vals != []
  {
    if NotANumber(vals[0]) then lo == hi == vals[0]
    else
      && lo in vals && hi in vals && !NotANumber(lo) && !NotANumber(hi)
      && forall k :: 0 <= k < |vals| && !NotANumber(vals[k]) ==> Number(lo) <= Number(vals[k]) <= Number(hi)
  }

  lemma ExtremesOne(v: U64)
    ensures Extremes([v], v, v)
  {
    hide Number, NotANumber;
  }

  lemma {:induction false} ExtremesMore(vals: seq<U64>, v: U64, lo: U64, hi: U64)
    requires vals != [] && Extremes(vals, lo, hi)
    ensures Extremes(vals + [v], if Less(SFloat(v), SFloat(lo)) then v else lo,
                                 if Less(SFloat(hi), SFloat(v)) then v else hi)
  {
    hide Number, NotANumber, Less;
    LessIsSmaller(v, lo);
    LessIsSmaller(hi, v);
  }
}
