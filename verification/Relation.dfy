/** Row-at-a-time meaning of the operators: what a pipeline must compute. */
module Relation {
  import opened Types

  datatype Cmp = Eq | Ne | Lt | Le | Gt | Ge

  /** The predicates of exec/predicate.go. */
  datatype Pred = IntCmp(op: Cmp, x: I64) | StrEq(s: Text)

  function PredType(p: Pred): ColType {
    if p.IntCmp? then TInt64 else TString
  }

  predicate Test(p: Pred, v: Scalar)
    requires TypeOf(v) == PredType(p)
  {
    match p
    case StrEq(s) => v.s == s
    case IntCmp(op, x) =>
      match op
      case Eq => v.i == x
      case Ne => v.i != x
      case Lt => v.i < x
      case Le => v.i <= x
      case Gt => v.i > x
      case Ge => v.i >= x
  }

  /** NULL satisfies no predicate. */
  predicate Match(p: Pred, c: Cell) {
    c.Val? && TypeOf(c.v) == PredType(p) && Test(p, c.v)
  }

  lemma SplitLast<T>(s: seq<T>)
    requires s != []
    ensures s == s[..|s| - 1] + [s[|s| - 1]]
  {}

  lemma SliceSnoc<T>(s: seq<T>, lo: nat, hi: nat)
    requires lo <= hi < |s|
    ensures s[lo..hi + 1] == s[lo..hi] + [s[hi]]
  {}

  lemma TakeSnoc<T>(s: seq<T>, i: nat)
    requires i < |s|
    ensures s[..i + 1] == s[..i] + [s[i]]
  {}

  function CellOf(r: Row, col: nat): Cell {
    if col < |r| then r[col] else Null
  }

  function FilterRows(p: Pred, col: nat, rows: seq<Row>): seq<Row> {
    if rows == [] then []
    else
      var n := |rows| - 1;
      FilterRows(p, col, rows[..n]) + (if Match(p, CellOf(rows[n], col)) then [rows[n]] else [])
  }

  function ProjectRow(cols: seq<nat>, r: Row): Row {
    seq(|cols|, i requires 0 <= i < |cols| => CellOf(r, cols[i]))
  }

  function ProjectRows(cols: seq<nat>, rows: seq<Row>): seq<Row> {
    seq(|rows|, k requires 0 <= k < |rows| => ProjectRow(cols, rows[k]))
  }

  lemma ProjectSlice(cols: seq<nat>, rows: seq<Row>, lo: nat, hi: nat)
    requires lo <= hi <= |rows|
    ensures ProjectRows(cols, rows)[lo..hi] == ProjectRows(cols, rows[lo..hi])
  {}

  function Take<T>(s: seq<T>, n: int): seq<T> {
    if n <= 0 then [] else if n < |s| then s[..n] else s
  }

  /** The rows a limit lets through of a stretch that starts below it. */
  lemma TakeSlice<T>(s: seq<T>, n: int, lo: nat, hi: nat)
    requires lo <= hi <= |s| && lo < n
    ensures lo <= |Take(s, hi)| <= |s|
    ensures hi <= n ==> hi <= |Take(s, n)| && Take(s, n)[lo..hi] == s[lo..hi]
    ensures n <= hi ==> |Take(s, n)| == n && Take(s, n)[lo..n] == s[lo..hi][..n - lo]
  {
    assert n <= hi ==> s[lo..hi][..n - lo] == s[lo..n];
  }

  function Column(rows: seq<Row>, col: nat): seq<Cell> {
    seq(|rows|, k requires 0 <= k < |rows| => CellOf(rows[k], col))
  }

  lemma ColumnSnoc(rows: seq<Row>, lo: nat, hi: nat, col: nat)
    requires lo <= hi < |rows|
    ensures Column(rows[lo..hi + 1], col) == Column(rows[lo..hi], col) + [CellOf(rows[hi], col)]
  {}

  lemma ColumnSlice(rows: seq<Row>, col: nat, lo: nat, hi: nat)
    requires lo <= hi <= |rows|
    ensures Column(rows[lo..hi], col) == Column(rows, col)[lo..hi]
  {}

  /** Positions of the cells that satisfy p. */
  function Kept(p: Pred, cells: seq<Cell>): (pos: seq<nat>)
    ensures |pos| <= |cells|
    ensures forall m :: 0 <= m < |pos| ==> pos[m] < |cells|
    ensures forall a, b :: 0 <= a < b < |pos| ==> pos[a] < pos[b]
  {
    if cells == [] then []
    else
      var n := |cells| - 1;
      Kept(p, cells[..n]) + (if Match(p, cells[n]) then [n] else [])
  }

  function Pick<T>(s: seq<T>, pos: seq<nat>): seq<T>
    requires forall m :: 0 <= m < |pos| ==> pos[m] < |s|
  {
    seq(|pos|, m requires 0 <= m < |pos| => s[pos[m]])
  }

  function Iota(n: nat): seq<nat> {
    seq(n, i => i)
  }

  /** The cells at the given row numbers. */
  function Gather(cells: seq<Cell>, idx: seq<nat>): seq<Cell> {
    seq(|idx|, k requires 0 <= k < |idx| => if idx[k] < |cells| then cells[idx[k]] else Null)
  }

  lemma PickSnoc<T>(s: seq<T>, x: T, pos: seq<nat>, more: bool)
    requires forall m :: 0 <= m < |pos| ==> pos[m] < |s|
    ensures Pick(s + [x], pos + (if more then [|s|] else [])) == Pick(s, pos) + (if more then [x] else [])
  {}

  lemma {:induction false} FilterConcat(p: Pred, col: nat, a: seq<Row>, b: seq<Row>)
    ensures FilterRows(p, col, a + b) == FilterRows(p, col, a) + FilterRows(p, col, b)
  {
    if b == [] {
      assert a + b == a;
    } else {
      var n := |b| - 1;
      assert (a + b)[..|a| + n] == a + b[..n];
      FilterConcat(p, col, a, b[..n]);
    }
  }

  lemma {:induction false} FilterIsPick(p: Pred, col: nat, rows: seq<Row>)
    ensures FilterRows(p, col, rows) == Pick(rows, Kept(p, Column(rows, col)))
  {
    if rows != [] {
      var n := |rows| - 1;
      var init := rows[..n];
      FilterIsPick(p, col, init);
      assert Column(rows, col)[..n] == Column(init, col);
      PickSnoc(init, rows[n], Kept(p, Column(init, col)), Match(p, CellOf(rows[n], col)));
      assert rows == init + [rows[n]];
    }
  }

  /** How many of the first k rows the filter keeps. */
  function KeptOf(p: Pred, col: nat, all: seq<Row>, k: nat): nat
    requires k <= |all|
  {
    |FilterRows(p, col, all[..k])|
  }

  /** Filtering on from row before to row after extends the result by the kept rows between. */
  lemma FilterAdvance(p: Pred, col: nat, all: seq<Row>, before: nat, after: nat)
    requires before <= after <= |all|
    ensures KeptOf(p, col, all, before) <= KeptOf(p, col, all, after) <= |FilterRows(p, col, all)|
    ensures FilterRows(p, col, all)[KeptOf(p, col, all, before)..KeptOf(p, col, all, after)]
            == Pick(all[before..after], Kept(p, Column(all[before..after], col)))
  {
    var rows := all[before..after];
    FilterIsPick(p, col, rows);
    FilterSplit(p, col, all, before, after);
    FilterSplit(p, col, all, after, |all|);
    assert all[..|all|] == all;
  }

  lemma FilterSplit(p: Pred, col: nat, all: seq<Row>, before: nat, after: nat)
    requires before <= after <= |all|
    ensures FilterRows(p, col, all[..after])
            == FilterRows(p, col, all[..before]) + FilterRows(p, col, all[before..after])
  {
    FilterConcat(p, col, all[..before], all[before..after]);
    assert all[..before] + all[before..after] == all[..after];
  }

  /** first lists, in increasing order, where each member of ks first occurs in all, and ks has all of them. */
  predicate FirstPlaces<T(==)>(first: seq<nat>, ks: seq<T>, all: seq<T>) {
    && |first| == |ks|
    && (forall g :: 0 <= g < |first| ==> first[g] < |all| && all[first[g]] == ks[g])
    && (forall g, h :: 0 <= g < h < |first| ==> first[g] < first[h])
    && (forall g, i :: 0 <= g < |first| && 0 <= i < first[g] ==> all[i] != ks[g])
    && (forall i :: 0 <= i < |all| ==> all[i] in ks)
  }

  lemma {:induction false} FirstPlacesSnoc<T>(first: seq<nat>, ks: seq<T>, all: seq<T>, key: T)
    requires FirstPlaces(first, ks, all)
    ensures key in ks ==> FirstPlaces(first, ks, all + [key])
    ensures key !in ks ==> FirstPlaces(first + [|all|], ks + [key], all + [key])
  {}
}
