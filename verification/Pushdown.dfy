/** Why a plan may scan only the columns it needs: every operator commutes with dropping columns. */
module Pushdown {
  import opened Types
  import opened Storage
  import opened Relation
  import opened Aggregation
  import opened Sorting

  lemma PickRow(cols: seq<nat>, r: Row, j: nat)
    requires j < |cols|
    ensures CellOf(ProjectRow(cols, r), j) == CellOf(r, cols[j])
  {}

  /** Scanning some of the chunks is scanning them all and projecting. */
  lemma ScanColumns(all: seq<Chunk>, n: nat, cols: seq<nat>, chosen: seq<Chunk>)
    requires |chosen| == |cols| && forall c :: 0 <= c < |cols| ==> cols[c] < |all| && chosen[c] == all[cols[c]]
    ensures TableRows(chosen, n) == ProjectRows(cols, TableRows(all, n))
  {
    forall i | 0 <= i < n
      ensures TableRows(chosen, n)[i] == ProjectRow(cols, TableRows(all, n)[i])
    {}
  }

  lemma {:induction false} FilterProject(p: Pred, j: nat, cols: seq<nat>, rows: seq<Row>)
    requires j < |cols|
    ensures FilterRows(p, j, ProjectRows(cols, rows)) == ProjectRows(cols, FilterRows(p, cols[j], rows))
  {
    if rows == [] {
    } else {
      var n := |rows| - 1;
      FilterProject(p, j, cols, rows[..n]);
      assert ProjectRows(cols, rows)[..n] == ProjectRows(cols, rows[..n]);
      PickRow(cols, rows[n], j);
    }
  }

  lemma ColumnProject(cols: seq<nat>, j: nat, rows: seq<Row>)
    requires j < |cols|
    ensures Column(ProjectRows(cols, rows), j) == Column(rows, cols[j])
  {}

  /** Sorting projected rows is projecting sorted rows. */
  lemma {:induction false} OrderProject(cols: seq<nat>, j: nat, asc: bool, rows: seq<Row>)
    requires j < |cols|
    ensures OrderRows(ProjectRows(cols, rows), j, asc) == ProjectRows(cols, OrderRows(rows, cols[j], asc))
  {
    hide SortPerm, ProjectRow, LessOf, Column;
    ColumnProject(cols, j, rows);
    SortPermPermutes(LessOf(Column(rows, cols[j]), asc), |rows|);
  }

  lemma ProjectRowTwice(outer: seq<nat>, inner: seq<nat>, r: Row)
    requires forall i :: 0 <= i < |outer| ==> outer[i] < |inner|
    ensures ProjectRow(outer, ProjectRow(inner, r)) == ProjectRow(Pick(inner, outer), r)
  {}

  lemma ProjectTwice(outer: seq<nat>, inner: seq<nat>, rows: seq<Row>)
    requires forall i :: 0 <= i < |outer| ==> outer[i] < |inner|
    ensures ProjectRows(outer, ProjectRows(inner, rows)) == ProjectRows(Pick(inner, outer), rows)
  {
    forall k | 0 <= k < |rows|
      ensures ProjectRows(outer, ProjectRows(inner, rows))[k] == ProjectRow(Pick(inner, outer), rows[k])
    {
      ProjectRowTwice(outer, inner, rows[k]);
    }
  }

  lemma {:induction false} KeysProject(kc: seq<nat>, cols: seq<nat>, rows: seq<Row>)
    requires forall i :: 0 <= i < |kc| ==> kc[i] < |cols|
    ensures Keys(ProjectRows(cols, rows), kc) == Keys(rows, Pick(cols, kc))
  {
    if rows != [] {
      var n := |rows| - 1;
      KeysProject(kc, cols, rows[..n]);
      assert ProjectRows(cols, rows)[..n] == ProjectRows(cols, rows[..n]);
      ProjectRowTwice(kc, cols, rows[n]);
    }
  }

  lemma {:induction false} BucketProject(kc: seq<nat>, cols: seq<nat>, rows: seq<Row>, key: Row)
    requires forall i :: 0 <= i < |kc| ==> kc[i] < |cols|
    ensures Bucket(ProjectRows(cols, rows), kc, key) == ProjectRows(cols, Bucket(rows, Pick(cols, kc), key))
  {
    if rows != [] {
      var n := |rows| - 1;
      BucketProject(kc, cols, rows[..n], key);
      assert ProjectRows(cols, rows)[..n] == ProjectRows(cols, rows[..n]);
      ProjectRowTwice(kc, cols, rows[n]);
      ProjectSnoc(cols, Bucket(rows[..n], Pick(cols, kc), key), rows[n]);
    }
  }

  lemma ProjectSnoc(cols: seq<nat>, rows: seq<Row>, r: Row)
    ensures ProjectRows(cols, rows + [r]) == ProjectRows(cols, rows) + [ProjectRow(cols, r)]
  {}

  /** COUNT looks at no cell. */
  lemma {:induction false} CountIgnoresCells(ar: Arith, a: seq<Cell>, b: seq<Cell>)
    requires |a| == |b|
    ensures Fold(ar, Count, a) == Fold(ar, Count, b)
  {
    if a != [] {
      CountIgnoresCells(ar, a[..|a| - 1], b[..|b| - 1]);
    }
  }

  /** An aggregate reads one column, wherever the plan has put it. */
  lemma AggregateProject(ar: Arith, fn: AggFn, j: nat, col: nat, cols: seq<nat>, rows: seq<Row>)
    requires fn.Count? || (j < |cols| && cols[j] == col)
    ensures Aggregate(ar, AggSpec(fn, j), ProjectRows(cols, rows)) == Aggregate(ar, AggSpec(fn, col), rows)
  {
    if fn.Count? {
      CountIgnoresCells(ar, Column(ProjectRows(cols, rows), j), Column(rows, col));
    } else {
      ColumnProject(cols, j, rows);
    }
  }
}
