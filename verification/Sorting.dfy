/** ORDER BY: the stable permutation that sorts a column, nulls last in both directions. */
module Sorting {
  import opened Types
  import opened Relation
  import opened Aggregation

  /** The comparison exec/orderby.go hands to sort.SliceStable. */
  predicate Before(asc: bool, a: Cell, b: Cell) {
    if a.Null? != b.Null? then b.Null?
    else if a.Null? then false
    else if asc then Less(a.v, b.v)
    else Less(b.v, a.v)
  }

  /** A sort key the comparison orders totally: NULL, or a value of a type that has an order, and no NaN. */
  predicate Sortable(c: Cell, t: ColType) {
    CellFits(c, t) && (c.Val? ==> !c.v.SBool? && (c.v.SFloat? ==> !IsNaN(c.v.bits)))
  }

  /** Rows the operator can store: it keeps no values of Bool columns, only their null flags. */
  predicate Storable(rows: seq<Row>) {
    forall k, c :: 0 <= k < |rows| && 0 <= c < |rows[k]| && rows[k][c].Val? ==> !rows[k][c].v.SBool?
  }

  predicate AllSortable(cells: seq<Cell>, t: ColType) {
    forall i :: 0 <= i < |cells| ==> Sortable(cells[i], t)
  }

  lemma {:induction false} TextLessTotal(a: Text, b: Text)
    ensures !(TextLess(a, b) && TextLess(b, a))
    ensures !TextLess(a, b) && !TextLess(b, a) ==> a == b
  {
    if a != [] && b != [] {
      TextLessTotal(a[1..], b[1..]);
      assert a == [a[0]] + a[1..] && b == [b[0]] + b[1..];
    }
  }

  lemma {:induction false} TextLessTransitive(a: Text, b: Text, c: Text)
    requires TextLess(a, b) && TextLess(b, c)
    ensures TextLess(a, c)
  {
    if a != [] && b[0] == a[0] && c[0] == b[0] {
      TextLessTransitive(a[1..], b[1..], c[1..]);
    }
  }

  /** The comparison is a strict weak order on sort keys of one type. */
  lemma BeforeIsWeakOrder(asc: bool, t: ColType, a: Cell, b: Cell, c: Cell)
    requires Sortable(a, t) && Sortable(b, t) && Sortable(c, t)
    ensures !Before(asc, a, a) && !(Before(asc, a, b) && Before(asc, b, a))
    ensures Before(asc, a, b) && Before(asc, b, c) ==> Before(asc, a, c)
    ensures !Before(asc, a, b) && !Before(asc, b, c) ==> !Before(asc, a, c)
  {
    if t == TString && a.Val? && b.Val? && c.Val? {
      TextWeakOrder(a.v.s, b.v.s, c.v.s);
      TextWeakOrder(c.v.s, b.v.s, a.v.s);
    } else if t == TString {
      if a.Val? { TextLessTotal(a.v.s, a.v.s); }
      if a.Val? && b.Val? { TextLessTotal(a.v.s, b.v.s); }
    }
  }

  lemma TextWeakOrder(a: Text, b: Text, c: Text)
    ensures !TextLess(a, a) && !(TextLess(a, b) && TextLess(b, a))
    ensures TextLess(a, b) && TextLess(b, c) ==> TextLess(a, c)
    ensures !TextLess(a, b) && !TextLess(b, c) ==> !TextLess(a, c)
  {
    TextLessTotal(a, a);
    TextLessTotal(a, b);
    TextLessTotal(b, c);
    TextLessTotal(a, c);
    if TextLess(a, b) && TextLess(b, c) {
      TextLessTransitive(a, b, c);
    }
    if !TextLess(a, b) && !TextLess(b, c) && TextLess(a, c) {
      if a != b && b != c {
        TextLessTransitive(c, b, a);
      }
    }
  }

  /** The less function sort.SliceStable calls, on row numbers. */
  type LessFn = (nat, nat) -> bool

  function LessOf(cells: seq<Cell>, asc: bool): LessFn {
    (i: nat, j: nat) => i < |cells| && j < |cells| && Before(asc, cells[i], cells[j])
  }

  ghost predicate Asymmetric(less: LessFn, n: nat) {
    forall a, b :: 0 <= a < n && 0 <= b < n && less(a, b) ==> !less(b, a)
  }

  /** What sort.SliceStable demands of less on the rows below n. */
  ghost predicate WeakOrder(less: LessFn, n: nat) {
    && Asymmetric(less, n)
    && (forall a, b, c :: 0 <= a < n && 0 <= b < n && 0 <= c < n && less(a, b) && less(b, c) ==> less(a, c))
    && (forall a, b, c :: 0 <= a < n && 0 <= b < n && 0 <= c < n && !less(a, b) && !less(b, c) ==> !less(a, c))
  }

  lemma LessOfIsWeakOrder(cells: seq<Cell>, asc: bool, t: ColType)
    requires AllSortable(cells, t)
    ensures WeakOrder(LessOf(cells, asc), |cells|)
  {
    var less := LessOf(cells, asc);
    forall a, b, c | 0 <= a < |cells| && 0 <= b < |cells| && 0 <= c < |cells|
      ensures less(a, b) ==> !less(b, a)
      ensures less(a, b) && less(b, c) ==> less(a, c)
      ensures !less(a, b) && !less(b, c) ==> !less(a, c)
    {
      BeforeIsWeakOrder(asc, t, cells[a], cells[b], cells[c]);
    }
  }

  /** Row i is emitted before row j: by key, and by input order among equal keys. */
  ghost predicate Precedes(less: LessFn, i: nat, j: nat) {
    less(i, j) || (!less(j, i) && i < j)
  }

  ghost predicate Ordered(less: LessFn, perm: seq<nat>) {
    forall i, j :: 0 <= i < j < |perm| ==> Precedes(less, perm[i], perm[j])
  }

  /** perm lists every row once, in the order of Precedes: the contract of a stable sort. */
  ghost predicate IsStableSort(less: LessFn, perm: seq<nat>, n: nat) {
    Ordered(less, perm) && multiset(perm) == multiset(Iota(n))
  }

  /** Insert row x, later than every row of perm, behind its equals. */
  function Insert(less: LessFn, perm: seq<nat>, x: nat): seq<nat> {
    if perm == [] then [x]
    else
      var n := |perm| - 1;
      if less(x, perm[n]) then Insert(less, perm[..n], x) + [perm[n]] else perm + [x]
  }

  /** The permutation a stable sort of rows 0..n computes. */
  function SortPerm(less: LessFn, n: nat): seq<nat> {
    if n == 0 then [] else Insert(less, SortPerm(less, n - 1), n - 1)
  }

  lemma {:induction false} InsertPermutes(less: LessFn, perm: seq<nat>, x: nat)
    ensures multiset(Insert(less, perm, x)) == multiset(perm) + multiset{x}
  {
    if perm != [] {
      var n := |perm| - 1;
      InsertPermutes(less, perm[..n], x);
      assert perm == perm[..n] + [perm[n]];
    }
  }

  lemma IotaSnoc(n: nat)
    ensures multiset(Iota(n + 1)) == multiset(Iota(n)) + multiset{n}
  {
    assert Iota(n + 1) == Iota(n) + [n];
  }

  lemma InsertIota(less: LessFn, perm: seq<nat>, x: nat)
    requires multiset(perm) == multiset(Iota(x))
    ensures multiset(Insert(less, perm, x)) == multiset(Iota(x + 1))
  {
    InsertPermutes(less, perm, x);
    IotaSnoc(x);
  }

  lemma {:induction false} SortPermMultiset(less: LessFn, n: nat)
    ensures multiset(SortPerm(less, n)) == multiset(Iota(n))
  {
    if n > 0 {
      SortPermMultiset(less, n - 1);
      InsertIota(less, SortPerm(less, n - 1), n - 1);
    }
  }

  /** Every row is listed once. */
  lemma SortPermPermutes(less: LessFn, n: nat)
    ensures multiset(SortPerm(less, n)) == multiset(Iota(n))
    ensures |SortPerm(less, n)| == n && forall i :: 0 <= i < n ==> SortPerm(less, n)[i] < n
  {
    SortPermMultiset(less, n);
    Below(SortPerm(less, n), n);
  }

  lemma Below(perm: seq<nat>, n: nat)
    requires multiset(perm) == multiset(Iota(n))
    ensures |perm| == n && forall i :: 0 <= i < |perm| ==> perm[i] < n
  {
    assert |multiset(perm)| == |perm| && |multiset(Iota(n))| == |Iota(n)|;
    forall i | 0 <= i < |perm|
      ensures perm[i] < n
    {
      assert perm[i] in multiset(Iota(n));
    }
  }

  /** Row x goes to the end when the last row does not come after it. */
  lemma AppendOrdered(less: LessFn, perm: seq<nat>, x: nat, n: nat)
    requires WeakOrder(less, n) && x < n && Ordered(less, perm) && perm != []
    requires forall i :: 0 <= i < |perm| ==> perm[i] < x
    requires !less(x, perm[|perm| - 1])
    ensures Ordered(less, perm + [x])
  {}

  lemma {:induction false} InsertOrdered(less: LessFn, perm: seq<nat>, x: nat, n: nat)
    requires WeakOrder(less, n) && x < n && Ordered(less, perm)
    requires forall i :: 0 <= i < |perm| ==> perm[i] < x
    ensures Ordered(less, Insert(less, perm, x))
  {
    if perm != [] {
      var m := |perm| - 1;
      if less(x, perm[m]) {
        InsertOrdered(less, perm[..m], x, n);
        InsertPermutes(less, perm[..m], x);
        var r := Insert(less, perm[..m], x);
        forall i | 0 <= i < |r|
          ensures Precedes(less, r[i], perm[m])
        {
          assert r[i] in multiset(perm[..m]) + multiset{x};
        }
      } else {
        AppendOrdered(less, perm, x, n);
      }
    }
  }

  lemma InsertNext(less: LessFn, perm: seq<nat>, x: nat, size: nat)
    requires WeakOrder(less, size) && x < size && IsStableSort(less, perm, x)
    ensures Ordered(less, Insert(less, perm, x))
  {
    Below(perm, x);
    InsertOrdered(less, perm, x, size);
  }

  lemma NothingOrdered(less: LessFn)
    ensures Ordered(less, [])
  {}

  lemma {:induction false} SortPermOrdered(less: LessFn, n: nat, size: nat)
    requires WeakOrder(less, size) && n <= size
    ensures Ordered(less, SortPerm(less, n))
  {
    hide WeakOrder, Ordered, Insert;
    if n == 0 {
      assert Ordered(less, []) by {
        NothingOrdered(less);
      }
    } else {
      SortPermMultiset(less, n - 1);
      SortPermOrdered(less, n - 1, size);
      InsertNext(less, SortPerm(less, n - 1), n - 1, size);
    }
  }

  /** SortPerm meets the contract of a stable sort. */
  lemma SortPermIsStable(less: LessFn, n: nat)
    requires WeakOrder(less, n)
    ensures IsStableSort(less, SortPerm(less, n), n)
  {
    SortPermOrdered(less, n, n);
    SortPermPermutes(less, n);
  }

  /** The contract has one solution, so any stable sort computes SortPerm. */
  lemma {:induction false} OrderedUnique(less: LessFn, p: seq<nat>, q: seq<nat>, n: nat)
    requires Asymmetric(less, n) && Ordered(less, p) && Ordered(less, q)
    requires multiset(p) == multiset(q) && forall i :: 0 <= i < |p| ==> p[i] < n
    ensures p == q
  {
    assert |p| == |multiset(p)| == |multiset(q)| == |q|;
    if p != [] {
      FirstUnique(less, p, q, n);
      DropFirst(p, q);
      OrderedUnique(less, p[1..], q[1..], n);
      ConsEqual(p, q);
    }
  }

  /** Removing one occurrence of the same element on both sides. */
  lemma DropEqual<T>(p: seq<T>, q: seq<T>, i: nat)
    requires multiset(p) == multiset(q) && p != [] && i < |q| && q[i] == p[0]
    ensures multiset(p[1..]) == multiset(q[..i] + q[i + 1..])
  {
    RemoveAt(p, 0);
    RemoveAt(q, i);
    assert p[..0] + p[1..] == p[1..];
    SameRest(multiset(p[1..]), multiset(q[..i] + q[i + 1..]), p[0]);
  }

  lemma DropFirst<T>(p: seq<T>, q: seq<T>)
    requires multiset(p) == multiset(q) && p != [] && q != [] && q[0] == p[0]
    ensures multiset(p[1..]) == multiset(q[1..])
  {
    DropEqual(p, q, 0);
    assert q[..0] + q[1..] == q[1..];
  }

  lemma ConsEqual<T>(p: seq<T>, q: seq<T>)
    requires p != [] && q != [] && p[0] == q[0] && p[1..] == q[1..]
    ensures p == q
  {}

  lemma FirstUnique(less: LessFn, p: seq<nat>, q: seq<nat>, n: nat)
    requires Asymmetric(less, n) && Ordered(less, p) && Ordered(less, q)
    requires multiset(p) == multiset(q) && p != [] && q != [] && forall i :: 0 <= i < |p| ==> p[i] < n
    ensures p[0] == q[0]
  {
    assert p[0] in multiset(q) && q[0] in multiset(p);
    var i :| 0 <= i < |q| && q[i] == p[0];
    var j :| 0 <= j < |p| && p[j] == q[0];
    if i > 0 && j > 0 {
      assert false;
    }
  }

  lemma SameRest<T>(a: multiset<T>, b: multiset<T>, x: T)
    requires a + multiset{x} == b + multiset{x}
    ensures a == b
  {
    assert a == a + multiset{x} - multiset{x} && b == b + multiset{x} - multiset{x};
  }

  lemma RemoveAt<T>(q: seq<T>, i: nat)
    requires i < |q|
    ensures multiset(q) == multiset(q[..i] + q[i + 1..]) + multiset{q[i]}
  {
    assert q == q[..i] + [q[i]] + q[i + 1..];
  }

  lemma StableSortUnique(less: LessFn, perm: seq<nat>, n: nat)
    requires WeakOrder(less, n) && IsStableSort(less, perm, n)
    ensures perm == SortPerm(less, n)
  {
    SortPermIsStable(less, n);
    Below(perm, n);
    SortPermPermutes(less, n);
    OrderedUnique(less, perm, SortPerm(less, n), n);
  }

  /** The rows at the given positions. */
  function Arrange(rows: seq<Row>, perm: seq<nat>): seq<Row> {
    seq(|perm|, i requires 0 <= i < |perm| => if perm[i] < |rows| then rows[perm[i]] else [])
  }

  /** ORDER BY: the rows in the order of the stable permutation. */
  function OrderRows(rows: seq<Row>, col: nat, asc: bool): seq<Row> {
    Arrange(rows, SortPerm(LessOf(Column(rows, col), asc), |rows|))
  }

  /** ORDER BY keeps whole rows and their multiplicity. */
  lemma OrderRowsPermutes(rows: seq<Row>, col: nat, asc: bool)
    ensures multiset(OrderRows(rows, col, asc)) == multiset(rows)
  {
    var perm := SortPerm(LessOf(Column(rows, col), asc), |rows|);
    SortPermPermutes(LessOf(Column(rows, col), asc), |rows|);
    assert Arrange(rows, perm) == Pick(rows, perm);
    PickMultiset(rows, perm, Iota(|rows|));
    assert Pick(rows, Iota(|rows|)) == rows;
  }

  lemma {:induction false} PickMultiset<T>(s: seq<T>, p: seq<nat>, q: seq<nat>)
    requires multiset(p) == multiset(q)
    requires forall i :: 0 <= i < |p| ==> p[i] < |s|
    requires forall i :: 0 <= i < |q| ==> q[i] < |s|
    ensures multiset(Pick(s, p)) == multiset(Pick(s, q))
  {
    assert |p| == |multiset(p)| == |multiset(q)| == |q|;
    if p != [] {
      assert p[0] in multiset(q);
      var i :| 0 <= i < |q| && q[i] == p[0];
      DropEqual(p, q, i);
      PickMultiset(s, p[1..], q[..i] + q[i + 1..]);
      assert p[..0] + p[1..] == p[1..];
      PickRemove(s, p, 0);
      PickRemove(s, q, i);
    }
  }

  lemma PickRemove<T>(s: seq<T>, q: seq<nat>, i: nat)
    requires i < |q| && forall i :: 0 <= i < |q| ==> q[i] < |s|
    ensures multiset(Pick(s, q)) == multiset(Pick(s, q[..i] + q[i + 1..])) + multiset{s[q[i]]}
  {
    RemoveAt(Pick(s, q), i);
    assert Pick(s, q)[..i] + Pick(s, q)[i + 1..] == Pick(s, q[..i] + q[i + 1..]);
  }

  lemma InsertSkip(less: LessFn, perm: seq<nat>, j: nat, x: nat)
    requires 0 < j <= |perm| && less(x, perm[j - 1])
    ensures Insert(less, perm[..j], x) == Insert(less, perm[..j - 1], x) + [perm[j - 1]]
  {
    assert perm[..j][..j - 1] == perm[..j - 1];
  }

  /** Move x forward past every row that must come after it. */
  method InsertRow(less: LessFn, perm: seq<nat>, x: nat) returns (r: seq<nat>)
    ensures r == Insert(less, perm, x)
  {
    var j := |perm|;
    assert perm[..j] == perm;
    while 0 < j && less(x, perm[j - 1])
      invariant j <= |perm|
      invariant Insert(less, perm, x) == Insert(less, perm[..j], x) + perm[j..]
    {
      InsertSkip(less, perm, j, x);
      assert perm[j - 1..] == [perm[j - 1]] + perm[j..];
      j := j - 1;
    }
    r := perm[..j] + [x] + perm[j..];
  }

  /** sort.SliceStable on the identity permutation: insertion from the back. */
  method SliceStable(less: LessFn, n: nat) returns (perm: seq<nat>)
    ensures perm == SortPerm(less, n)
  {
    perm := [];
    for x := 0 to n
      invariant perm == SortPerm(less, x)
    {
      perm := InsertRow(less, perm, x);
    }
  }
}
