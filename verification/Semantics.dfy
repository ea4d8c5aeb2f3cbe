/** What a SELECT statement means over a table, by column names and whole rows. */
module Semantics {
  import opened Types
  import opened Storage
  import opened Relation
  import opened Aggregation
  import opened Sorting
  import opened Ast
  import opened Numerals

  datatype Schema = Schema(names: seq<Text>, types: seq<ColType>)

  function SchemaOf(rg: RowGroup): (s: Schema)
    ensures |s.names| == |s.types| == |rg.columns|
  {
    Schema(seq(|rg.columns|, i requires 0 <= i < |rg.columns| => rg.columns[i].name), ChunkTypes(rg.columns))
  }

  /** The first position of x, or -1. */
  function Index<T(==)>(s: seq<T>, x: T): (i: int)
    ensures -1 <= i < |s|
    ensures i < 0 <==> x !in s
    ensures 0 <= i ==> s[i] == x && forall j :: 0 <= j < i ==> s[j] != x
  {
    if s == [] then -1
    else if s[0] == x then 0
    else
      var i := Index(s[1..], x);
      assert s == [s[0]] + s[1..];
      if i < 0 then -1 else i + 1
  }

  /** The column a name denotes: the first of that name. */
  function ColIdx(names: seq<Text>, name: Text): nat {
    if name in names then Index(names, name) else |names|
  }

  function Idxs(names: seq<Text>, cols: seq<Text>): (idxs: seq<nat>)
    ensures |idxs| == |cols|
  {
    seq(|cols|, i requires 0 <= i < |cols| => ColIdx(names, cols[i]))
  }

  /** The declared type of a column; Int64 stands in for a name that is not there. */
  function TypeAt(s: Schema, name: Text): ColType
    requires |s.names| == |s.types|
  {
    if name in s.names then s.types[Index(s.names, name)] else TInt64
  }

  // ----- clauses -----

  predicate IsAgg(item: SelectItem) {
    item.Agg?
  }

  predicate HasAgg(items: seq<SelectItem>) {
    exists i :: 0 <= i < |items| && IsAgg(items[i])
  }

  /** The names a plain SELECT list asks for; a lone * is every column. */
  function PlainCols(s: Schema, items: seq<SelectItem>): seq<Text> {
    if items == [Star] then s.names
    else seq(|items|, i requires 0 <= i < |items| => if items[i].Col? then items[i].name else [])
  }

  function CmpOf(op: TokenKind): Cmp
    requires op.IsComparator()
  {
    match op
    case TokEq => Eq
    case TokNe => Ne
    case TokLt => Lt
    case TokLe => Le
    case TokGt => Gt
    case TokGe => Ge
  }

  /**
   * The predicate a WHERE clause builds on a column of type t. An Int64 column reads the
   * literal's text whatever kind of token it is; a String column takes = and a string only.
   */
  function PredOf(t: ColType, w: Where): (p: Option<Pred>)
    ensures p.Some? ==> PredType(p.value) == t
  {
    match t
    case TInt64 =>
      var v := ParseI64(w.literal.value);
      if v.Some? && w.op.IsComparator() then Some(IntCmp(CmpOf(w.op), v.value)) else None
    case TString =>
      if w.literal.kind == TokString && w.op == TokEq then Some(StrEq(w.literal.value)) else None
    case _ => None
  }

  /** The type an aggregate takes its argument to have; a * is taken for an Int64 column. */
  function ArgType(s: Schema, arg: Text): ColType
    requires |s.names| == |s.types|
  {
    if arg == STAR then TInt64 else TypeAt(s, arg)
  }

  /** The aggregate function an item builds; COUNT counts rows whatever its argument. */
  function FnOf(s: Schema, item: SelectItem): (fn: Option<AggFn>)
    requires |s.names| == |s.types| && item.Agg?
    ensures fn.Some? ==> FnOk(fn.value) && (fn.value.Count? <==> item.fn == CountFn)
    ensures fn.Some? && !fn.value.Count? ==> fn.value.t == ArgType(s, item.arg)
  {
    var t := ArgType(s, item.arg);
    if item.fn == CountFn then Some(Count)
    else if t != TInt64 && t != TFloat64 then None
    else match item.fn
      case SumFn => Some(Sum(t))
      case MinFn => Some(Min(t))
      case MaxFn => Some(Max(t))
      case AvgFn => Some(Avg(t))
  }

  /** The first named argument of an aggregate. */
  function FirstArg(items: seq<SelectItem>): Option<Text> {
    if items == [] then None
    else
      var before, last := FirstArg(items[..|items| - 1]), items[|items| - 1];
      if before.Some? then before else if last.Agg? && last.arg != STAR then Some(last.arg) else None
  }

  /** The first column an aggregate query scans: a key, an argument, or the first of the table. */
  function FirstScanned(s: Schema, items: seq<SelectItem>, groupBy: seq<Text>): Text {
    if groupBy != [] then groupBy[0]
    else if FirstArg(items).Some? then FirstArg(items).value
    else if s.names != [] then s.names[0]
    else []
  }

  predicate SumsStar(item: SelectItem) {
    item.Agg? && item.arg == STAR && item.fn != CountFn
  }

  /** SUM(*), MIN(*), MAX(*) and AVG(*) are accepted and read the first scanned column. */
  function ReadItem(item: SelectItem, first: Text): SelectItem {
    if SumsStar(item) then Agg(item.fn, first) else item
  }

  function ReadItems(s: Schema, items: seq<SelectItem>, groupBy: seq<Text>): (r: seq<SelectItem>)
    ensures |r| == |items|
  {
    seq(|items|, i requires 0 <= i < |items| => ReadItem(items[i], FirstScanned(s, items, groupBy)))
  }

  // ----- which statements can be planned -----

  predicate WhereOk(s: Schema, w: Option<Where>)
    requires |s.names| == |s.types|
  {
    w.Some? ==> w.value.column in s.names && PredOf(TypeAt(s, w.value.column), w.value).Some?
  }

  predicate PlainItemsOk(s: Schema, items: seq<SelectItem>) {
    items != [] && (items == [Star] || forall i :: 0 <= i < |items| ==> items[i].Col? && items[i].name in s.names)
  }

  /** Plain columns are grouped by, and an aggregate's column exists and suits the function. */
  predicate AggItemOk(s: Schema, groupBy: seq<Text>, item: SelectItem)
    requires |s.names| == |s.types|
  {
    match item
    case Star => false
    case Col(name) => name in groupBy
    case Agg(_, arg) => (arg == STAR || arg in s.names) && FnOf(s, item).Some?
  }

  predicate KeyTypeOk(t: ColType) {
    t == TInt64 || t == TString
  }

  predicate AggItemsOk(s: Schema, items: seq<SelectItem>, groupBy: seq<Text>)
    requires |s.names| == |s.types|
  {
    && (forall i :: 0 <= i < |items| ==> AggItemOk(s, groupBy, items[i]))
    && (forall k :: 0 <= k < |groupBy| ==> groupBy[k] in s.names && KeyTypeOk(TypeAt(s, groupBy[k])))
  }

  /** ORDER BY names a plain item of the SELECT list; a * lists none. */
  predicate OrderOk(items: seq<SelectItem>, o: Option<OrderBy>) {
    o.Some? ==> Col(o.value.column) in items
  }

  /** The statements the planner accepts. */
  predicate WellFormed(s: Schema, stmt: SelectStmt)
    requires |s.names| == |s.types|
  {
    && WhereOk(s, stmt.filter) && OrderOk(stmt.items, stmt.orderBy)
    && if HasAgg(stmt.items) then AggItemsOk(s, stmt.items, stmt.groupBy) else PlainItemsOk(s, stmt.items)
  }

  // ----- meaning -----

  /** The rows WHERE keeps, with every column of the table. */
  ghost function Filtered(rg: RowGroup, w: Option<Where>): seq<Row> {
    var all, s := TableRows(rg.columns, rg.rowCount), SchemaOf(rg);
    if w.None? then all
    else
      var p := PredOf(TypeAt(s, w.value.column), w.value);
      if p.None? then all else FilterRows(p.value, ColIdx(s.names, w.value.column), all)
  }

  /** The cell one SELECT item shows for a group of rows. */
  function ItemCell(ar: Arith, s: Schema, item: SelectItem, group: seq<Row>): Cell
    requires |s.names| == |s.types|
  {
    match item
    case Star => Null
    case Col(name) => if group == [] then Null else CellOf(group[0], ColIdx(s.names, name))
    case Agg(_, arg) =>
      var fn := FnOf(s, item);
      if fn.None? then Null else Aggregate(ar, AggSpec(fn.value, ColIdx(s.names, arg)), group)
  }

  function OutRow(ar: Arith, s: Schema, items: seq<SelectItem>, group: seq<Row>): Row
    requires |s.names| == |s.types|
  {
    seq(|items|, i requires 0 <= i < |items| => ItemCell(ar, s, items[i], group))
  }

  /** One output row per distinct key, in first-seen order. */
  function GroupedRows(ar: Arith, s: Schema, items: seq<SelectItem>, kc: seq<nat>, rows: seq<Row>): seq<Row>
    requires |s.names| == |s.types|
  {
    var ks := Keys(rows, kc);
    seq(|ks|, g requires 0 <= g < |ks| => OutRow(ar, s, items, Bucket(rows, kc, ks[g])))
  }

  /** The statement before ORDER BY and LIMIT. */
  ghost function Body(ar: Arith, rg: RowGroup, stmt: SelectStmt): seq<Row> {
    var s, rows := SchemaOf(rg), Filtered(rg, stmt.filter);
    var items := ReadItems(s, stmt.items, stmt.groupBy);
    if !HasAgg(stmt.items) then ProjectRows(Idxs(s.names, PlainCols(s, stmt.items)), rows)
    else if stmt.groupBy == [] then [OutRow(ar, s, items, rows)]
    else GroupedRows(ar, s, items, Idxs(s.names, stmt.groupBy), rows)
  }

  ghost function OrderCol(stmt: SelectStmt): nat
    requires stmt.orderBy.Some? && OrderOk(stmt.items, stmt.orderBy)
  {
    Index(stmt.items, Col(stmt.orderBy.value.column))
  }

  ghost function Ordered(ar: Arith, rg: RowGroup, stmt: SelectStmt): seq<Row>
    requires OrderOk(stmt.items, stmt.orderBy)
  {
    var rows := Body(ar, rg, stmt);
    if stmt.orderBy.None? then rows else OrderRows(rows, OrderCol(stmt), stmt.orderBy.value.ascending)
  }

  /** WHERE, then grouping and aggregates, then the SELECT list, then ORDER BY, then LIMIT. */
  ghost function Meaning(ar: Arith, rg: RowGroup, stmt: SelectStmt): seq<Row>
    requires OrderOk(stmt.items, stmt.orderBy)
  {
    if stmt.limit < 0 then Ordered(ar, rg, stmt) else Take(Ordered(ar, rg, stmt), stmt.limit)
  }

  function ItemType(s: Schema, item: SelectItem): ColType
    requires |s.names| == |s.types|
  {
    match item
    case Star => TInt64
    case Col(name) => TypeAt(s, name)
    case Agg(_, _) =>
      var fn := FnOf(s, item);
      if fn.None? then TInt64 else OutputType(fn.value)
  }

  /** The column types of the result. */
  function OutTypes(s: Schema, stmt: SelectStmt): seq<ColType>
    requires |s.names| == |s.types|
  {
    if stmt.items == [Star] then s.types
    else seq(|stmt.items|, i requires 0 <= i < |stmt.items| => ItemType(s, stmt.items[i]))
  }

  /**
   * What is described of grouping and aggregating: the column a star reads is an Int64 one, and the
   * groups fit 31 bits. Over another column the code panics on the first row that passes WHERE.
   */
  ghost predicate Countable(rg: RowGroup, stmt: SelectStmt) {
    var s := SchemaOf(rg);
    && (forall i :: 0 <= i < |stmt.items| && SumsStar(stmt.items[i]) ==>
          TypeAt(s, FirstScanned(s, stmt.items, stmt.groupBy)) == TInt64)
    && |Keys(Filtered(rg, stmt.filter), Idxs(s.names, stmt.groupBy))| <= 0x8000_0000
  }

  /**
   * The statements whose answer is described: besides, ORDER BY meets no NaN key, for which the order
   * is open, and no Bool value, on which the code panics unless a LIMIT 0 keeps it from sorting.
   */
  ghost predicate Supported(ar: Arith, rg: RowGroup, stmt: SelectStmt) {
    var s := SchemaOf(rg);
    && Countable(rg, stmt)
    && (stmt.orderBy.Some? && WellFormed(s, stmt) ==>
          Storable(Body(ar, rg, stmt))
          && AllSortable(Column(Body(ar, rg, stmt), OrderCol(stmt)), TypeAt(s, stmt.orderBy.value.column)))
  }
}
