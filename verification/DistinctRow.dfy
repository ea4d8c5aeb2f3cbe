/** Listing each row once: what it does to sorted rows and to a prefix of them. */
module DistinctRows {
  import opened Types
  import opened Relation
  import opened Aggregation
  import opened Sorting
  import opened QueryLaws

  /** The rows in first-seen order, each once. */
  function Distinct(rows: seq<Row>): seq<Row> {
    if rows == [] then []
    else
      var before, last := Distinct(rows[..|rows| - 1]), rows[|rows| - 1];
      if last in before then before else before + [last]
  }

  predicate NoRepeats(rows: seq<Row>) {
    forall i, j :: 0 <= i < j < |rows| ==> rows[i] != rows[j]
  }

  lemma {:induction false} DistinctFacts(rows: seq<Row>)
    ensures forall r :: r in Distinct(rows) <==> r in rows
    ensures NoRepeats(Distinct(rows)) && |Distinct(rows)| <= |rows|
    ensures NoRepeats(rows) ==> Distinct(rows) == rows
  {
    if rows != [] {
      DistinctFacts(rows[..|rows| - 1]);
      SplitLast(rows);
    }
  }

  lemma {:induction false} DistinctExtend(a: seq<Row>, b: seq<Row>)
    ensures Distinct(a) <= Distinct(a + b)
  {
    if b == [] {
      assert a + b == a;
    } else {
      assert (a + b)[..|a + b| - 1] == a + b[..|b| - 1];
      DistinctExtend(a, b[..|b| - 1]);
    }
  }

  /** The first n rows are the first n distinct ones exactly when none of them repeats. */
  lemma {:induction false} TakeDistinct(rows: seq<Row>, n: nat)
    ensures Take(rows, n) == Take(Distinct(rows), n) <==> NoRepeats(Take(rows, n))
  {
    hide Distinct;
    var part := Take(rows, n);
    DistinctFacts(rows);
    if NoRepeats(part) {
      DistinctFacts(part);
      DistinctExtend(part, rows[|part|..]);
      assert part + rows[|part|..] == rows;
      assert Distinct(rows)[..|part|] == part;
    }
    if part == Take(Distinct(rows), n) {
      forall i, j | 0 <= i < j < |part|
        ensures part[i] != part[j]
      {
        assert Distinct(rows)[i] != Distinct(rows)[j];
      }
    }
  }

  lemma DistinctSnoc(rows: seq<Row>, x: Row)
    ensures Distinct(rows + [x]) == if x in rows then Distinct(rows) else Distinct(rows) + [x]
  {
    DistinctFacts(rows);
    assert (rows + [x])[..|rows|] == rows;
  }

  /** The keys of some rows are their key tuples, each once. */
  lemma {:induction false} KeysDistinctRows(rows: seq<Row>, kc: seq<nat>)
    ensures Keys(rows, kc) == Distinct(ProjectRows(kc, rows))
  {
    if rows != [] {
      var n := |rows| - 1;
      KeysDistinctRows(rows[..n], kc);
      assert ProjectRows(kc, rows)[..n] == ProjectRows(kc, rows[..n]);
    }
  }

  // ----- sorting whole rows -----

  /** Insert r behind the rows it does not come before. */
  function InsertInto(rows: seq<Row>, r: Row, col: nat, asc: bool): seq<Row> {
    if rows == [] then [r]
    else
      var n := |rows| - 1;
      if Before(asc, CellOf(r, col), CellOf(rows[n], col)) then InsertInto(rows[..n], r, col, asc) + [rows[n]]
      else rows + [r]
  }

  function SortRows(rows: seq<Row>, col: nat, asc: bool): seq<Row> {
    if rows == [] then []
    else InsertInto(SortRows(rows[..|rows| - 1], col, asc), rows[|rows| - 1], col, asc)
  }

  lemma InsertSnoc(rows: seq<Row>, x: Row, r: Row, col: nat, asc: bool)
    ensures InsertInto(rows + [x], r, col, asc)
            == if Before(asc, CellOf(r, col), CellOf(x, col)) then InsertInto(rows, r, col, asc) + [x]
               else rows + [x] + [r]
  {
    assert (rows + [x])[..|rows|] == rows;
  }

  lemma ArrangeSnoc(rows: seq<Row>, perm: seq<nat>, x: nat)
    requires x < |rows|
    ensures Arrange(rows, perm + [x]) == Arrange(rows, perm) + [rows[x]] && Arrange(rows, []) == []
  {}

  lemma InsertFirst(r: Row, col: nat, asc: bool)
    ensures InsertInto([], r, col, asc) == [r]
  {}

  lemma {:induction false} ArrangeInsert(rows: seq<Row>, perm: seq<nat>, x: nat, col: nat, asc: bool)
    requires x < |rows| && forall i :: 0 <= i < |perm| ==> perm[i] < |rows|
    ensures Arrange(rows, Insert(LessOf(Column(rows, col), asc), perm, x))
            == InsertInto(Arrange(rows, perm), rows[x], col, asc)
  {
    hide Before, Arrange, InsertInto;
    var less := LessOf(Column(rows, col), asc);
    if perm == [] {
      ArrangeSnoc(rows, [], x);
      assert [] + [x] == [x];
      InsertFirst(rows[x], col, asc);
    } else {
      var n := |perm| - 1;
      ArrangeInsert(rows, perm[..n], x, col, asc);
      SplitLast(perm);
      ArrangeSnoc(rows, perm[..n], perm[n]);
      ArrangeSnoc(rows, perm, x);
      ArrangeSnoc(rows, Insert(less, perm[..n], x), perm[n]);
      InsertSnoc(Arrange(rows, perm[..n]), rows[perm[n]], rows[x], col, asc);
    }
  }

  lemma {:induction false} SortPrefix(rows: seq<Row>, k: nat, col: nat, asc: bool)
    requires k <= |rows|
    ensures Arrange(rows, SortPerm(LessOf(Column(rows, col), asc), k)) == SortRows(rows[..k], col, asc)
  {
    if k > 0 {
      SortPrefix(rows, k - 1, col, asc);
      SortPermPermutes(LessOf(Column(rows, col), asc), k - 1);
      ArrangeInsert(rows, SortPerm(LessOf(Column(rows, col), asc), k - 1), k - 1, col, asc);
      assert rows[..k][..k - 1] == rows[..k - 1];
    }
  }

  /** The stable permutation arranges the rows as inserting them one by one does. */
  lemma {:induction false} OrderRowsInserts(rows: seq<Row>, col: nat, asc: bool)
    ensures OrderRows(rows, col, asc) == SortRows(rows, col, asc)
  {
    SortPrefix(rows, |rows|, col, asc);
    assert rows[..|rows|] == rows;
  }

  lemma {:induction false} InsertKeeps(rows: seq<Row>, r: Row, col: nat, asc: bool)
    ensures forall x :: x in InsertInto(rows, r, col, asc) <==> x in rows || x == r
  {
    if rows != [] {
      InsertKeeps(rows[..|rows| - 1], r, col, asc);
      SplitLast(rows);
    }
  }

  lemma {:induction false} SortKeeps(rows: seq<Row>, col: nat, asc: bool)
    ensures forall x :: x in SortRows(rows, col, asc) <==> x in rows
  {
    if rows != [] {
      SortKeeps(rows[..|rows| - 1], col, asc);
      InsertKeeps(SortRows(rows[..|rows| - 1], col, asc), rows[|rows| - 1], col, asc);
      SplitLast(rows);
    }
  }

  /** Every row's key can be compared with the others'. */
  predicate KeysSortable(rows: seq<Row>, col: nat, t: ColType) {
    forall i :: 0 <= i < |rows| ==> Sortable(CellOf(rows[i], col), t)
  }

  /** Inserting a row and dropping repetitions commute on ordered rows. */
  lemma {:induction false} DistinctInsert(rows: seq<Row>, r: Row, col: nat, asc: bool, t: ColType)
    requires InOrder(rows, col, asc) && KeysSortable(rows, col, t) && Sortable(CellOf(r, col), t)
    ensures Distinct(InsertInto(rows, r, col, asc))
            == if r in rows then Distinct(rows) else InsertInto(Distinct(rows), r, col, asc)
  {
    hide Before, Sortable, Distinct, InsertInto;
    if rows == [] {
      InsertNone(r, col, asc);
    } else {
      var init, last := rows[..|rows| - 1], rows[|rows| - 1];
      SplitLast(rows);
      InsertSnoc(init, last, r, col, asc);
      DistinctSnoc(init, last);
      if Before(asc, CellOf(r, col), CellOf(last, col)) {
        BeforeIsWeakOrder(asc, t, CellOf(r, col), CellOf(r, col), CellOf(r, col));
        DistinctInsert(init, r, col, asc, t);
        InsertKeeps(init, r, col, asc);
        DistinctSnoc(InsertInto(init, r, col, asc), last);
        InsertSnoc(Distinct(init), last, r, col, asc);
      } else {
        DistinctSnoc(rows, r);
        LastDistinct(rows, r, col, asc, t);
      }
    }
  }

  lemma InsertNone(r: Row, col: nat, asc: bool)
    ensures Distinct(InsertInto([], r, col, asc)) == InsertInto(Distinct([]), r, col, asc)
  {
    DistinctSnoc([], r);
    assert [] + [r] == [r];
  }

  /** A row that goes behind ordered rows goes behind the distinct ones. */
  lemma {:induction false} LastDistinct(rows: seq<Row>, r: Row, col: nat, asc: bool, t: ColType)
    requires InOrder(rows, col, asc) && KeysSortable(rows, col, t) && Sortable(CellOf(r, col), t)
    requires rows != [] && !Before(asc, CellOf(r, col), CellOf(rows[|rows| - 1], col))
    ensures InsertInto(Distinct(rows), r, col, asc) == Distinct(rows) + [r]
  {
    hide Before, Sortable, Distinct;
    DistinctFacts(rows);
    assert rows[0] in Distinct(rows);
    var d, last := Distinct(rows)[|Distinct(rows)| - 1], rows[|rows| - 1];
    assert d in Distinct(rows);
    var i :| 0 <= i < |rows| && rows[i] == d;
    if i < |rows| - 1 {
      assert !Before(asc, CellOf(rows[|rows| - 1], col), CellOf(rows[i], col));
      BeforeIsWeakOrder(asc, t, CellOf(r, col), CellOf(last, col), CellOf(d, col));
    }
  }

  /** Sorting and dropping repetitions commute. */
  lemma {:induction false} DistinctSort(rows: seq<Row>, col: nat, asc: bool, t: ColType)
    requires KeysSortable(rows, col, t)
    ensures Distinct(SortRows(rows, col, asc)) == SortRows(Distinct(rows), col, asc)
  {
    hide Before, Sortable, Distinct, InsertInto, InOrder;
    if rows == [] {
      DistinctFacts([]);
    } else {
      var init, last := rows[..|rows| - 1], rows[|rows| - 1];
      SplitLast(rows);
      DistinctSort(init, col, asc, t);
      SortedInOrder(init, col, asc, t);
      SortKeeps(init, col, asc);
      DistinctInsert(SortRows(init, col, asc), last, col, asc, t);
      DistinctSnoc(init, last);
      SortSnoc(Distinct(init), last, col, asc);
    }
  }

  lemma SortSnoc(rows: seq<Row>, x: Row, col: nat, asc: bool)
    ensures SortRows(rows + [x], col, asc) == InsertInto(SortRows(rows, col, asc), x, col, asc)
  {
    assert (rows + [x])[..|rows|] == rows;
  }

  lemma {:induction false} SortedInOrder(rows: seq<Row>, col: nat, asc: bool, t: ColType)
    requires KeysSortable(rows, col, t)
    ensures InOrder(SortRows(rows, col, asc), col, asc) && KeysSortable(SortRows(rows, col, asc), col, t)
  {
    hide Before, Sortable, SortRows, SortPerm;
    OrderRowsInserts(rows, col, asc);
    SortKeeps(rows, col, asc);
    var perm := OrderBySorts(rows, col, asc, t);
  }

  /** ORDER BY over the distinct rows lists the distinct rows of the ordered ones. */
  lemma {:induction false} DistinctOrder(rows: seq<Row>, col: nat, asc: bool, t: ColType)
    requires AllSortable(Column(rows, col), t)
    ensures Distinct(OrderRows(rows, col, asc)) == OrderRows(Distinct(rows), col, asc)
  {
    OrderRowsInserts(rows, col, asc);
    OrderRowsInserts(Distinct(rows), col, asc);
    assert forall i :: 0 <= i < |rows| ==> Column(rows, col)[i] == CellOf(rows[i], col);
    DistinctSort(rows, col, asc, t);
  }
}
