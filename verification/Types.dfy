/** The value model shared by storage, execution and SQL: typed scalars, nullable cells, rows. */
module Types {
  const VECTOR_SIZE: nat := 1024

  type Byte = x: int | 0 <= x < 256
  type I64 = x: int | -0x8000_0000_0000_0000 <= x < 0x8000_0000_0000_0000
  type U64 = x: int | 0 <= x < 0x1_0000_0000_0000_0000

  /** A Go string is a sequence of bytes; a byte is written as the character with its code. */
  type Ch = c: char | c as int < 256 witness 'a'
  type Text = seq<Ch>

  datatype Option<+T> = None | Some(value: T) {
    predicate IsFailure() {
      None?
    }

    function PropagateFailure<U>(): Option<U>
      requires None?
    {
      None
    }

    function Extract(): T
      requires Some?
    {
      value
    }
  }

  datatype ColType = TInt64 | TFloat64 | TString | TBool

  /** One non-null value; a Float64 is its IEEE 754 bit pattern. */
  datatype Scalar =
    | SInt(i: I64)
    | SFloat(bits: U64)
    | SStr(s: Text)
    | SBool(b: bool)

  datatype Cell = Null | Val(v: Scalar)

  type Row = seq<Cell>

  function TypeOf(v: Scalar): ColType {
    match v
    case SInt(_) => TInt64
    case SFloat(_) => TFloat64
    case SStr(_) => TString
    case SBool(_) => TBool
  }

  /** The placeholder a null row leaves in a typed column. */
  function Zero(t: ColType): (v: Scalar)
    ensures TypeOf(v) == t
  {
    match t
    case TInt64 => SInt(0)
    case TFloat64 => SFloat(0)
    case TString => SStr([])
    case TBool => SBool(false)
  }

  /** A value a column of type t can hold; string lengths fit the 32-bit length fields. */
  predicate Fits(v: Scalar, t: ColType) {
    TypeOf(v) == t && (v.SStr? ==> |v.s| < 0x1_0000_0000)
  }

  predicate CellFits(c: Cell, t: ColType) {
    c.Val? ==> Fits(c.v, t)
  }

  predicate RowFits(r: Row, types: seq<ColType>) {
    |r| == |types| && forall i :: 0 <= i < |r| ==> CellFits(r[i], types[i])
  }

  /** Two's-complement wrap-around of a 64-bit signed result. */
  function Wrap64(x: int): I64 {
    var m := x % 0x1_0000_0000_0000_0000;
    if m < 0x8000_0000_0000_0000 then m else m - 0x1_0000_0000_0000_0000
  }
}
