/** What the clauses of a statement do to its result. */
module QueryLaws {
  import opened Types
  import opened Storage
  import opened Relation
  import opened Aggregation
  import opened Sorting
  import opened Ast
  import opened Semantics
  import opened Numerals
  import opened Floats
  import AggregateLaws

  // ----- ORDER BY -----

  /** Row i of the sorted result may precede row j: no smaller key behind a larger one, nulls behind all. */
  predicate InOrder(rows: seq<Row>, col: nat, asc: bool) {
    forall i, j :: 0 <= i < j < |rows| ==> !Before(asc, CellOf(rows[j], col), CellOf(rows[i], col))
  }

  /**
   * ORDER BY arranges whole rows by a permutation that puts them in key order, with nulls last in
   * both directions, and leaves rows with equal keys in their input order.
   */
  lemma {:induction false} OrderBySorts(rows: seq<Row>, col: nat, asc: bool, t: ColType) returns (perm: seq<nat>)
    requires AllSortable(Column(rows, col), t)
    ensures multiset(perm) == multiset(Iota(|rows|)) && OrderRows(rows, col, asc) == Arrange(rows, perm)
    ensures |perm| == |rows| && forall i :: 0 <= i < |rows| ==> perm[i] < |rows|
    ensures InOrder(OrderRows(rows, col, asc), col, asc)
    ensures forall i, j :: 0 <= i < j < |rows| ==>
        var a, b := CellOf(rows[perm[i]], col), CellOf(rows[perm[j]], col);
        (a.Null? ==> b.Null?) && (!Before(asc, a, b) ==> perm[i] < perm[j])
  {
    hide SortPerm, Sortable, Before;
    var less := LessOf(Column(rows, col), asc);
    perm := SortPerm(less, |rows|);
    LessOfIsWeakOrder(Column(rows, col), asc, t);
    SortPermIsStable(less, |rows|);
    SortPermPermutes(less, |rows|);
    forall i, j | 0 <= i < j < |rows|
      ensures var a, b := CellOf(rows[perm[i]], col), CellOf(rows[perm[j]], col);
              !Before(asc, b, a) && (a.Null? ==> b.Null?) && (!Before(asc, a, b) ==> perm[i] < perm[j])
    {
      var a, b := CellOf(rows[perm[i]], col), CellOf(rows[perm[j]], col);
      assert Precedes(less, perm[i], perm[j]);
      NullsLast(asc, a, b);
    }
  }

  lemma NullsLast(asc: bool, a: Cell, b: Cell)
    ensures a.Null? && b.Val? ==> Before(asc, b, a)
  {}

  /** Sorting the already sorted rows changes nothing. */
  lemma {:induction false} OrderByIdempotent(rows: seq<Row>, col: nat, asc: bool, t: ColType)
    requires AllSortable(Column(rows, col), t)
    ensures InOrder(rows, col, asc) ==> OrderRows(rows, col, asc) == rows
  {
    hide SortPerm, Sortable, Before;
    if InOrder(rows, col, asc) {
      var less := LessOf(Column(rows, col), asc);
      LessOfIsWeakOrder(Column(rows, col), asc, t);
      forall i, j | 0 <= i < j < |rows|
        ensures Precedes(less, Iota(|rows|)[i], Iota(|rows|)[j])
      {
        assert !Before(asc, CellOf(rows[j], col), CellOf(rows[i], col));
      }
      StableSortUnique(less, Iota(|rows|), |rows|);
    }
  }

  /** On an Int64 column the sorted values rise, or fall with DESC, with NULLs behind them. */
  lemma {:induction false} IntsSorted(rows: seq<Row>, col: nat, asc: bool)
    requires AllSortable(Column(rows, col), TInt64)
    ensures var out := Column(OrderRows(rows, col, asc), col);
            && |out| == |rows|
            && (forall i :: 0 <= i < |out| ==> CellFits(out[i], TInt64))
            && forall i, j :: 0 <= i < j < |out| && out[j].Val? ==>
                 out[i].Val? && if asc then out[i].v.i <= out[j].v.i else out[j].v.i <= out[i].v.i
  {
    hide SortPerm, Before;
    var out := Column(OrderRows(rows, col, asc), col);
    SortedCells(rows, col, asc, TInt64);
    forall i, j | 0 <= i < j < |out| && out[j].Val?
      ensures out[i].Val? && if asc then out[i].v.i <= out[j].v.i else out[j].v.i <= out[i].v.i
    {
      NotBefore(asc, out[i], out[j], TInt64);
    }
  }

  /** Strings compare byte by byte from the front, a proper prefix first. */
  lemma {:induction false} TextOrder(a: Text, b: Text)
    ensures TextLess(a, b) <==> exists k: nat :: FirstDifference(a, b, k)
  {
    if a != [] && b != [] && a[0] == b[0] {
      TextOrder(a[1..], b[1..]);
      if TextLess(a, b) {
        var k: nat :| FirstDifference(a[1..], b[1..], k);
        assert FirstDifference(a, b, k + 1);
      }
      if k: nat :| FirstDifference(a, b, k) {
        assert FirstDifference(a[1..], b[1..], k - 1);
      }
    } else if b != [] {
      assert FirstDifference(a, b, 0) <==> a == [] || a[0] < b[0];
    }
  }

  /** The texts agree before k, where a ends or has the smaller byte. */
  predicate FirstDifference(a: Text, b: Text, k: nat) {
    && k <= |a| && k < |b| && (forall i :: 0 <= i < k ==> a[i] == b[i])
    && (k < |a| ==> a[k] < b[k])
  }

  /**
   * On a String column the sorted texts are equal or part at a first byte, where with ASC the
   * earlier one ends or has the smaller byte, and with DESC the later one; NULLs come behind.
   */
  lemma {:induction false} TextsSorted(rows: seq<Row>, col: nat, asc: bool)
    requires forall i :: 0 <= i < |rows| ==> CellFits(CellOf(rows[i], col), TString)
    ensures var out := Column(OrderRows(rows, col, asc), col);
            && |out| == |rows|
            && (forall i :: 0 <= i < |out| ==> CellFits(out[i], TString))
            && forall i, j :: 0 <= i < j < |out| && out[j].Val? ==>
                 && out[i].Val?
                 && var (a, b) := if asc then (out[i].v.s, out[j].v.s) else (out[j].v.s, out[i].v.s);
                    a == b || exists k: nat :: FirstDifference(a, b, k)
  {
    hide SortPerm, Before, TextLess;
    var out := Column(OrderRows(rows, col, asc), col);
    assert forall i :: 0 <= i < |rows| ==> Column(rows, col)[i] == CellOf(rows[i], col);
    SortedCells(rows, col, asc, TString);
    forall i, j | 0 <= i < j < |out| && out[j].Val?
      ensures out[i].Val?
              && var (a, b) := if asc then (out[i].v.s, out[j].v.s) else (out[j].v.s, out[i].v.s);
                 a == b || exists k: nat :: FirstDifference(a, b, k)
    {
      NotBefore(asc, out[i], out[j], TString);
      var (a, b) := if asc then (out[i].v.s, out[j].v.s) else (out[j].v.s, out[i].v.s);
      TextLessTotal(a, b);
      TextOrder(a, b);
    }
  }

  /** On a Float64 column without NaN the numbers rise, or fall with DESC, with NULLs behind them. */
  lemma {:induction false} FloatsSorted(rows: seq<Row>, col: nat, asc: bool)
    requires forall i :: 0 <= i < |rows| ==> FloatCell(CellOf(rows[i], col))
    ensures var out := Column(OrderRows(rows, col, asc), col);
            && |out| == |rows|
            && (forall i :: 0 <= i < |out| ==> FloatCell(out[i]))
            && forall i, j :: 0 <= i < j < |out| && out[j].Val? ==>
                 && out[i].Val?
                 && if asc then Number(out[i].v.bits) <= Number(out[j].v.bits)
                    else Number(out[j].v.bits) <= Number(out[i].v.bits)
  {
    hide SortPerm, Before, Number, NotANumber, IsNaN;
    var out := Column(OrderRows(rows, col, asc), col);
    FloatCellsSortable(Column(rows, col));
    SortedCells(rows, col, asc, TFloat64);
    FloatCellsSortable(out);
    forall i, j | 0 <= i < j < |out| && out[j].Val?
      ensures out[i].Val?
              && if asc then Number(out[i].v.bits) <= Number(out[j].v.bits)
                 else Number(out[j].v.bits) <= Number(out[i].v.bits)
    {
      NotBefore(asc, out[i], out[j], TFloat64);
      LessIsSmaller(out[i].v.bits, out[j].v.bits);
      LessIsSmaller(out[j].v.bits, out[i].v.bits);
    }
  }

  /** NULL, or a Float64 value that is a number. */
  predicate FloatCell(c: Cell) {
    c.Val? ==> c.v.SFloat? && !NotANumber(c.v.bits)
  }

  lemma FloatCellsSortable(cells: seq<Cell>)
    ensures AllSortable(cells, TFloat64) <==> forall i :: 0 <= i < |cells| ==> FloatCell(cells[i])
  {
    forall i | 0 <= i < |cells|
      ensures Sortable(cells[i], TFloat64) <==> FloatCell(cells[i])
    {
      if cells[i].Val? && cells[i].v.SFloat? {
        NaNPatterns(cells[i].v.bits);
      }
    }
  }

  /** The sorted column has the cells of the unsorted one, and none behind one it comes before. */
  lemma {:induction false} SortedCells(rows: seq<Row>, col: nat, asc: bool, t: ColType)
    requires AllSortable(Column(rows, col), t)
    ensures var out := Column(OrderRows(rows, col, asc), col);
            && |out| == |rows| && AllSortable(out, t)
            && forall i, j :: 0 <= i < j < |out| ==> !Before(asc, out[j], out[i])
  {
    hide SortPerm, Before, Sortable;
    var perm := OrderBySorts(rows, col, asc, t);
    var sorted := OrderRows(rows, col, asc);
    forall i | 0 <= i < |rows|
      ensures Column(sorted, col)[i] == Column(rows, col)[perm[i]] && Sortable(Column(sorted, col)[i], t)
    {
      assert sorted[i] == rows[perm[i]];
    }
    assert forall i :: 0 <= i < |rows| ==> Column(sorted, col)[i] == CellOf(sorted[i], col);
  }

  lemma NotBefore(asc: bool, a: Cell, b: Cell, t: ColType)
    requires !Before(asc, b, a) && b.Val? && CellFits(a, t) && CellFits(b, t)
    ensures a.Val? && if asc then !Less(b.v, a.v) else !Less(a.v, b.v)
  {}

  // ----- LIMIT -----

  lemma {:induction false} Unlimited(ar: Arith, rg: RowGroup, stmt: SelectStmt)
    requires OrderOk(stmt.items, stmt.orderBy)
    ensures Meaning(ar, rg, stmt.(limit := -1)) == Semantics.Ordered(ar, rg, stmt)
  {
    assert Body(ar, rg, stmt.(limit := -1)) == Body(ar, rg, stmt);
  }

  /** A limited statement answers with a prefix of what it answers without the limit, as long as allowed. */
  lemma {:induction false} LimitTakesPrefix(ar: Arith, rg: RowGroup, stmt: SelectStmt)
    requires OrderOk(stmt.items, stmt.orderBy) && stmt.limit >= 0
    ensures var all, some := Meaning(ar, rg, stmt.(limit := -1)), Meaning(ar, rg, stmt);
            some <= all && |some| == if stmt.limit < |all| then stmt.limit else |all|
  {
    hide Semantics.Ordered;
    Unlimited(ar, rg, stmt);
  }

  /**
   * ORDER BY with LIMIT n answers with the first n rows of the whole order: no row that is left out
   * comes before one that is kept.
   */
  lemma {:induction false} LimitKeepsFirst(ar: Arith, rg: RowGroup, stmt: SelectStmt)
    requires WellFormed(SchemaOf(rg), stmt) && Supported(ar, rg, stmt) && stmt.limit >= 0 && stmt.orderBy.Some?
    ensures var all, some := Meaning(ar, rg, stmt.(limit := -1)), Meaning(ar, rg, stmt);
            var asc, col := stmt.orderBy.value.ascending, OrderCol(stmt);
            && |some| == (if stmt.limit < |all| then stmt.limit else |all|) && some + all[|some|..] == all
            && InOrder(some, col, asc)
            && forall i, j :: 0 <= i < |some| <= j < |all| ==> !Before(asc, CellOf(all[j], col), CellOf(some[i], col))
  {
    hide Body, Keys, Filtered, Before, Meaning, OrderCol, OrderRows, TypeAt, AllSortable, Supported, WellFormed;
    OrderSupported(ar, rg, stmt);
    LimitTakesPrefix(ar, rg, stmt);
    Unlimited(ar, rg, stmt);
    var rows, asc, col := Body(ar, rg, stmt), stmt.orderBy.value.ascending, OrderCol(stmt);
    var perm := OrderBySorts(rows, col, asc, TypeAt(SchemaOf(rg), stmt.orderBy.value.column));
  }

  lemma OrderSupported(ar: Arith, rg: RowGroup, stmt: SelectStmt)
    requires WellFormed(SchemaOf(rg), stmt) && Supported(ar, rg, stmt) && stmt.orderBy.Some?
    ensures OrderOk(stmt.items, stmt.orderBy)
    ensures AllSortable(Column(Body(ar, rg, stmt), OrderCol(stmt)),
                        TypeAt(SchemaOf(rg), stmt.orderBy.value.column))
  {
    hide Body, Keys, Filtered, OrderCol, TypeAt, AllSortable;
  }

  // ----- WHERE -----

  predicate Compares(op: TokenKind, i: I64, n: I64) {
    || (op == TokEq && i == n) || (op == TokNe && i != n) || (op == TokLt && i < n)
    || (op == TokLe && i <= n) || (op == TokGt && i > n) || (op == TokGe && i >= n)
  }

  /** An Int64 value compares with the number the literal spells, a String value equals its text. */
  predicate Satisfies(w: Where, c: Cell) {
    c.Val? &&
    match c.v
    case SInt(i) => ParseI64(w.literal.value).Some? && Compares(w.op, i, ParseI64(w.literal.value).value)
    case SStr(text) => text == w.literal.value
    case _ => false
  }

  lemma WhereCompares(t: ColType, w: Where, c: Cell)
    requires PredOf(t, w).Some? && CellFits(c, t)
    ensures Match(PredOf(t, w).value, c) <==> Satisfies(w, c)
  {}

  /**
   * An accepted WHERE clause keeps exactly the rows of the table whose cell satisfies the
   * comparison as it is written, in table order; NULL never does.
   */
  lemma {:induction false} WhereKeeps(rg: RowGroup, w: Where) returns (pos: seq<nat>)
    requires GroupOk(rg) && WhereOk(SchemaOf(rg), Some(w))
    ensures forall m :: 0 <= m < |pos| ==> pos[m] < rg.rowCount
    ensures forall a, b :: 0 <= a < b < |pos| ==> pos[a] < pos[b]
    ensures var rows := TableRows(rg.columns, rg.rowCount);
            && Filtered(rg, Some(w)) == Pick(rows, pos)
            && forall i :: 0 <= i < rg.rowCount ==>
                 (i in pos <==> Satisfies(w, CellOf(rows[i], ColIdx(SchemaOf(rg).names, w.column))))
  {
    hide Match, Satisfies, PredOf, FilterRows, ColIdx, GroupOk;
    var rows, col := TableRows(rg.columns, rg.rowCount), ColIdx(SchemaOf(rg).names, w.column);
    var t := TypeAt(SchemaOf(rg), w.column);
    pos := FilterKeeps(PredOf(t, w).value, col, rows);
    ColumnFits(rg, w.column, rows);
    forall i | 0 <= i < rg.rowCount
      ensures i in pos <==> Satisfies(w, CellOf(rows[i], col))
    {
      assert Column(rows, col)[i] == CellOf(rows[i], col);
      WhereCompares(t, w, CellOf(rows[i], col));
    }
  }

  /** WHERE keeps exactly the rows that satisfy its predicate, in table order. */
  lemma {:induction false} FilterKeeps(p: Pred, col: nat, rows: seq<Row>) returns (pos: seq<nat>)
    ensures forall m :: 0 <= m < |pos| ==> pos[m] < |rows|
    ensures forall a, b :: 0 <= a < b < |pos| ==> pos[a] < pos[b]
    ensures FilterRows(p, col, rows) == Pick(rows, pos)
    ensures forall i :: 0 <= i < |rows| ==> (i in pos <==> Match(p, CellOf(rows[i], col)))
  {
    FilterIsPick(p, col, rows);
    pos := Kept(p, Column(rows, col));
    KeptExactly(p, Column(rows, col));
    forall i | 0 <= i < |rows|
      ensures i in pos <==> Match(p, CellOf(rows[i], col))
    {
      assert Column(rows, col)[i] == CellOf(rows[i], col);
    }
  }

  lemma {:induction false} KeptExactly(p: Pred, cells: seq<Cell>)
    ensures forall i :: 0 <= i < |cells| ==> (i in Kept(p, cells) <==> Match(p, cells[i]))
  {
    if cells != [] {
      var n := |cells| - 1;
      var kept := Kept(p, cells[..n]);
      KeptExactly(p, cells[..n]);
      forall i | 0 <= i < |cells|
        ensures i in Kept(p, cells) <==> Match(p, cells[i])
      {
        if i < n {
          assert cells[..n][i] == cells[i];
        } else {
          assert forall m :: 0 <= m < |kept| ==> kept[m] < n;
        }
      }
    }
  }

  // ----- aggregates -----

  /** A group of rows of a table, as WHERE and GROUP BY make them. */
  ghost predicate FromTable(rg: RowGroup, group: seq<Row>) {
    forall k :: 0 <= k < |group| ==> group[k] in TableRows(rg.columns, rg.rowCount)
  }

  lemma {:induction false} FilterFromTable(rg: RowGroup, p: Pred, col: nat, rows: seq<Row>)
    requires FromTable(rg, rows)
    ensures FromTable(rg, FilterRows(p, col, rows))
  {
    if rows != [] {
      FilterFromTable(rg, p, col, rows[..|rows| - 1]);
    }
  }

  lemma {:induction false} BucketFromTable(rg: RowGroup, rows: seq<Row>, kc: seq<nat>, key: Row)
    requires FromTable(rg, rows)
    ensures FromTable(rg, Bucket(rows, kc, key))
  {
    if rows != [] {
      BucketFromTable(rg, rows[..|rows| - 1], kc, key);
    }
  }

  /** The groups a statement aggregates over are made of table rows. */
  lemma GroupsFromTable(rg: RowGroup, w: Option<Where>, kc: seq<nat>, key: Row)
    ensures FromTable(rg, Filtered(rg, w)) && FromTable(rg, Bucket(Filtered(rg, w), kc, key))
  {
    var all, s := TableRows(rg.columns, rg.rowCount), SchemaOf(rg);
    if w.Some? && PredOf(TypeAt(s, w.value.column), w.value).Some? {
      FilterFromTable(rg, PredOf(TypeAt(s, w.value.column), w.value).value, ColIdx(s.names, w.value.column), all);
    }
    BucketFromTable(rg, Filtered(rg, w), kc, key);
  }

  /** The cells of a named column over table rows have the column's type. */
  lemma ColumnFits(rg: RowGroup, col: Text, group: seq<Row>)
    requires GroupOk(rg) && col in SchemaOf(rg).names && FromTable(rg, group)
    ensures var s := SchemaOf(rg);
            forall k :: 0 <= k < |group| ==> CellFits(Column(group, ColIdx(s.names, col))[k], TypeAt(s, col))
  {
    var s := SchemaOf(rg);
    TableRowsFit(rg.columns, rg.rowCount, s.types);
    forall k | 0 <= k < |group|
      ensures CellFits(Column(group, ColIdx(s.names, col))[k], TypeAt(s, col))
    {
      assert RowFits(group[k], s.types);
    }
  }

  /** The cells of a named column over a group. */
  ghost function CellsOf(rg: RowGroup, col: Text, group: seq<Row>): (cells: seq<Cell>)
    ensures |cells| == |group|
  {
    Column(group, ColIdx(SchemaOf(rg).names, col))
  }

  /** What an aggregate item shows for a group. */
  ghost function Shown(ar: Arith, rg: RowGroup, fn: AggName, col: Text, group: seq<Row>): Cell {
    ItemCell(ar, SchemaOf(rg), Agg(fn, col), group)
  }

  /**
   * COUNT of a column of any type shows the number of rows; it is the number of non-null values
   * exactly when the group has no NULL in the column.
   */
  lemma {:induction false} CountItem(ar: Arith, rg: RowGroup, col: Text, group: seq<Row>)
    requires |group| < 0x8000_0000_0000_0000
    ensures Shown(ar, rg, CountFn, col, group) == Val(SInt(|group|))
    ensures var cells := CellsOf(rg, col, group);
            && AggregateLaws.NonNulls(cells) <= |group|
            && (Shown(ar, rg, CountFn, col, group) == Val(SInt(AggregateLaws.NonNulls(cells))) <==> Null !in cells)
  {
    AggregateLaws.CountColumn(ar, CellsOf(rg, col, group));
  }

  /**
   * On an Int64 column SUM shows the sum of the non-null values wrapped to 64 bits and AVG that sum
   * divided by their number; both are NULL without any.
   */
  lemma {:induction false} IntSums(ar: Arith, rg: RowGroup, col: Text, group: seq<Row>)
    requires GroupOk(rg) && col in SchemaOf(rg).names && TypeAt(SchemaOf(rg), col) == TInt64
    requires FromTable(rg, group) && |group| < 0x8000_0000_0000_0000
    ensures var cells := CellsOf(rg, col, group);
            var n, sum := AggregateLaws.NonNulls(cells), Wrap64(AggregateLaws.IntSum(cells));
            && n <= |group|
            && Shown(ar, rg, SumFn, col, group) == (if n > 0 then Val(SInt(sum)) else Null)
            && Shown(ar, rg, AvgFn, col, group)
               == (if n > 0 then Val(SFloat(ar.div(ar.ofInt(sum), ar.ofInt(n)))) else Null)
  {
    hide Wrap64, Fold, AggregateLaws.IntSum, FromTable;
    var cells := CellsOf(rg, col, group);
    ColumnFits(rg, col, group);
    AggregateLaws.SumFold(ar, cells);
    AggregateLaws.AvgResult(ar, cells);
  }

  /** On an Int64 column MIN and MAX show members that bound all non-null values, NULL without any. */
  lemma {:induction false} IntExtremes(ar: Arith, rg: RowGroup, col: Text, group: seq<Row>)
    requires GroupOk(rg) && col in SchemaOf(rg).names && TypeAt(SchemaOf(rg), col) == TInt64
    requires FromTable(rg, group)
    ensures var cells := CellsOf(rg, col, group);
            var least, most := Shown(ar, rg, MinFn, col, group), Shown(ar, rg, MaxFn, col, group);
            && (if AggregateLaws.NonNulls(cells) > 0
                then least in cells && most in cells && least.Val? && most.Val?
                else least == most == Null)
            && (forall k :: 0 <= k < |cells| && cells[k].Val? ==>
                  least.Val? && most.Val? && least.v.SInt? && most.v.SInt? && least.v.i <= cells[k].v.i <= most.v.i)
  {
    hide Fold, FromTable;
    var cells := CellsOf(rg, col, group);
    ColumnFits(rg, col, group);
    AggregateLaws.ExtremeFold(ar, cells);
  }

  /**
   * On a Float64 column SUM shows the floating-point total of the non-null values from the left,
   * AVG that total divided by their number; both are NULL without any.
   */
  lemma {:induction false} FloatSums(ar: Arith, rg: RowGroup, col: Text, group: seq<Row>)
    requires GroupOk(rg) && col in SchemaOf(rg).names && col != STAR && TypeAt(SchemaOf(rg), col) == TFloat64
    requires FromTable(rg, group) && |group| < 0x8000_0000_0000_0000
    ensures FloatCells(CellsOf(rg, col, group))
    ensures var vals := Patterns(CellsOf(rg, col, group));
            var total := AggregateLaws.FloatTotal(ar, vals);
            && |vals| <= |group|
            && Shown(ar, rg, SumFn, col, group) == (if vals != [] then Val(SFloat(total)) else Null)
            && Shown(ar, rg, AvgFn, col, group)
               == (if vals != [] then Val(SFloat(ar.div(total, ar.ofInt(|vals|)))) else Null)
  {
    hide Fold, FromTable, AggregateLaws.FloatTotal, Patterns;
    var cells := CellsOf(rg, col, group);
    ColumnFits(rg, col, group);
    AggregateLaws.FloatAverage(ar, cells);
    AggregateLaws.FloatSumFold(ar, cells);
    AggregateLaws.PatternsCount(cells);
  }

  /**
   * On a Float64 column MIN and MAX show values of the group. When the first value is NaN both show
   * it; else neither is NaN, and the numbers of all values but NaN lie between theirs. Both are NULL
   * exactly without values.
   */
  lemma {:induction false} FloatItems(ar: Arith, rg: RowGroup, col: Text, group: seq<Row>)
    requires GroupOk(rg) && col in SchemaOf(rg).names && col != STAR && TypeAt(SchemaOf(rg), col) == TFloat64
    requires FromTable(rg, group)
    ensures FloatCells(CellsOf(rg, col, group))
    ensures var vals := Patterns(CellsOf(rg, col, group));
            var least, most := Shown(ar, rg, MinFn, col, group), Shown(ar, rg, MaxFn, col, group);
            if vals == [] then least == most == Null
            else
              && least.Val? && most.Val? && least.v.SFloat? && most.v.SFloat?
              && Extremes(vals, least.v.bits, most.v.bits)
  {
    hide Fold, FromTable, Extremes, Patterns;
    var cells := CellsOf(rg, col, group);
    ColumnFits(rg, col, group);
    AggregateLaws.FloatExtremes(ar, cells);
  }

  // ----- GROUP BY -----

  /**
   * The groups are the distinct key tuples of the rows, NULL being a value like any other, in the
   * order of their first rows.
   */
  lemma {:induction false} GroupsInFirstSeenOrder(rows: seq<Row>, kc: seq<nat>) returns (first: seq<nat>)
    ensures FirstPlaces(first, Keys(rows, kc), ProjectRows(kc, rows))
  {
    hide FirstPlaces, ProjectRow;
    if rows == [] {
      first := NoRows(kc);
    } else {
      var n := |rows| - 1;
      var key := ProjectRow(kc, rows[n]);
      first := GroupsInFirstSeenOrder(rows[..n], kc);
      FirstPlacesSnoc(first, Keys(rows[..n], kc), ProjectRows(kc, rows[..n]), key);
      assert ProjectRows(kc, rows) == ProjectRows(kc, rows[..n]) + [key];
      if key !in Keys(rows[..n], kc) {
        first := first + [|ProjectRows(kc, rows[..n])|];
      }
    }
  }

  lemma NoRows(kc: seq<nat>) returns (first: seq<nat>)
    ensures FirstPlaces(first, Keys([], kc), ProjectRows(kc, []))
  {
    first := [];
  }

  lemma PickMore(rows: seq<Row>, n: nat, pos: seq<nat>)
    requires n < |rows| && forall m :: 0 <= m < |pos| ==> pos[m] < n
    ensures Pick(rows[..n], pos) == Pick(rows, pos)
    ensures Pick(rows, pos + [n]) == Pick(rows, pos) + [rows[n]]
  {}

  /** A group is made of exactly the rows with its key, in their order. */
  lemma {:induction false} GroupRowsAre(rows: seq<Row>, kc: seq<nat>, key: Row) returns (pos: seq<nat>)
    ensures forall m :: 0 <= m < |pos| ==> pos[m] < |rows|
    ensures forall a, b :: 0 <= a < b < |pos| ==> pos[a] < pos[b]
    ensures Bucket(rows, kc, key) == Pick(rows, pos)
    ensures forall i :: 0 <= i < |rows| ==> (i in pos <==> ProjectRow(kc, rows[i]) == key)
  {
    hide ProjectRow, Pick;
    pos := [];
    if rows == [] {
      NonePicked();
    } else {
      var n := |rows| - 1;
      var before := GroupRowsAre(rows[..n], kc, key);
      PickMore(rows, n, before);
      assert forall i :: 0 <= i < n ==> rows[..n][i] == rows[i];
      pos := if ProjectRow(kc, rows[n]) == key then before + [n] else before;
      assert forall i :: i < n ==> (i in pos <==> i in before);
    }
  }

  lemma NonePicked()
    ensures Pick<Row>([], []) == []
  {}
}
