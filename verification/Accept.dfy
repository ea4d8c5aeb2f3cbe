/** Which statements the planner accepts over a table, by the types of the columns they name. */
module Acceptance {
  import opened Types
  import opened Storage
  import opened Numerals
  import opened Ast
  import opened Semantics
  import opened QueryTexts

  /** The text is a numeral, with or without a sign, of a number that fits 64 bits. */
  ghost predicate Numeral(text: Text, n: int) {
    && -0x8000_0000_0000_0000 <= n < 0x8000_0000_0000_0000
    && exists digits :: PlainInt(digits)
         && ((text == digits && n == PlaceValue(digits)) || (text == "+" + digits && n == PlaceValue(digits))
             || (text == "-" + digits && n + PlaceValue(digits) == 0))
  }

  lemma {:induction false} NumeralIff(text: Text, n: int)
    ensures Numeral(text, n) <==> ParseI64(text).Some? && ParseI64(text).value == n
  {
    hide PlaceValue, Digits;
    if Numeral(text, n) {
      var digits :| PlainInt(digits)
        && ((text == digits && n == PlaceValue(digits)) || (text == "+" + digits && n == PlaceValue(digits))
            || (text == "-" + digits && n + PlaceValue(digits) == 0));
      NumeralIs(digits);
    }
    if ParseI64(text).Some? && ParseI64(text).value == n {
      var signed := text != [] && (text[0] == '-' || text[0] == '+');
      var digits := if signed then text[1..] else text;
      DigitsAre(digits);
      NumeralIs(digits);
      assert signed ==> text == [text[0]] + digits;
    }
  }

  /** Column k is the table's first of that name. */
  predicate FirstColumn(rg: RowGroup, name: Text, k: nat) {
    k < |rg.columns| && rg.columns[k].name == name && forall j :: 0 <= j < k ==> rg.columns[j].name != name
  }

  lemma FirstColumnAt(rg: RowGroup, name: Text, k: nat)
    requires FirstColumn(rg, name, k)
    ensures ColIdx(SchemaOf(rg).names, name) == k
  {
    assert SchemaOf(rg).names[k] == name;
    var i := Index(SchemaOf(rg).names, name);
    assert rg.columns[i].name == SchemaOf(rg).names[i];
    assert forall j :: 0 <= j < k ==> SchemaOf(rg).names[j] == rg.columns[j].name;
  }

  /** The table has a column of this name, and its first one is of one of these types. */
  ghost predicate Named(rg: RowGroup, name: Text, types: set<ColType>) {
    exists k: nat :: FirstColumn(rg, name, k) && rg.columns[k].typ in types
  }

  const ANY: set<ColType> := {TInt64, TFloat64, TString, TBool}

  lemma {:induction false} NamedIs(rg: RowGroup, name: Text, types: set<ColType>)
    ensures var s := SchemaOf(rg); Named(rg, name, types) <==> name in s.names && TypeAt(s, name) in types
  {
    var s := SchemaOf(rg);
    if k: nat :| FirstColumn(rg, name, k) && rg.columns[k].typ in types {
      assert s.names[k] == name;
      FirstColumnAt(rg, name, k);
    }
    if name in s.names {
      var k := Index(s.names, name);
      assert forall j :: 0 <= j < k ==> rg.columns[j].name == s.names[j];
      assert FirstColumn(rg, name, k);
      assert TypeAt(s, name) == rg.columns[k].typ;
    }
  }

  /**
   * WHERE compares an Int64 column by one of the six operators with a literal that spells a 64-bit
   * integer, or a String column by = with a quoted string.
   */
  ghost predicate WhereAccepted(rg: RowGroup, w: Where) {
    || (Named(rg, w.column, {TInt64}) && (exists n :: Numeral(w.literal.value, n))
        && (w.op == TokEq || w.op == TokNe || w.op == TokLt || w.op == TokLe || w.op == TokGt || w.op == TokGe))
    || (Named(rg, w.column, {TString}) && w.op == TokEq && w.literal.kind == TokString)
  }

  /** SUM(*), MIN(*), MAX(*) or AVG(*). */
  predicate TakesStar(item: SelectItem) {
    item.Agg? && item.arg == "*" && item.fn != CountFn
  }

  /** With aggregates: COUNT of any column or *, the others of an Int64 or Float64 column or *, and key columns. */
  ghost predicate ItemAccepted(rg: RowGroup, groupBy: seq<Text>, item: SelectItem) {
    match item
    case Star => false
    case Col(name) => name in groupBy
    case Agg(fn, arg) => arg == "*" || Named(rg, arg, if fn == CountFn then ANY else {TInt64, TFloat64})
  }

  ghost predicate Accepted(rg: RowGroup, stmt: SelectStmt) {
    && (stmt.filter.Some? ==> WhereAccepted(rg, stmt.filter.value))
    && (stmt.orderBy.Some? ==> Col(stmt.orderBy.value.column) in stmt.items)
    && if exists i :: 0 <= i < |stmt.items| && stmt.items[i].Agg? then
         && (forall i :: 0 <= i < |stmt.items| ==> ItemAccepted(rg, stmt.groupBy, stmt.items[i]))
         && (forall k :: 0 <= k < |stmt.groupBy| ==> Named(rg, stmt.groupBy[k], {TInt64, TString}))
       else
         stmt.items == [Star]
         || (stmt.items != []
             && forall i :: 0 <= i < |stmt.items| ==> stmt.items[i].Col? && Named(rg, stmt.items[i].name, ANY))
  }

  lemma AnyType(t: ColType)
    ensures t in ANY
  {}

  lemma {:induction false} WhereIff(rg: RowGroup, w: Where)
    ensures WhereOk(SchemaOf(rg), Some(w)) <==> WhereAccepted(rg, w)
  {
    hide SchemaOf, TypeAt, ParseI64, Named, Numeral;
    NamedIs(rg, w.column, {TInt64});
    NamedIs(rg, w.column, {TString});
    if ParseI64(w.literal.value).Some? {
      NumeralIff(w.literal.value, ParseI64(w.literal.value).value);
    }
    forall n
      ensures Numeral(w.literal.value, n) ==> ParseI64(w.literal.value).Some?
    {
      NumeralIff(w.literal.value, n);
    }
  }

  lemma {:induction false} ItemIff(rg: RowGroup, groupBy: seq<Text>, item: SelectItem)
    ensures AggItemOk(SchemaOf(rg), groupBy, item) <==> ItemAccepted(rg, groupBy, item)
  {
    hide SchemaOf, TypeAt, Named;
    assert "*" == STAR;
    if item.Agg? {
      NamedIs(rg, item.arg, {TInt64, TFloat64});
      NamedIs(rg, item.arg, ANY);
      AnyType(TypeAt(SchemaOf(rg), item.arg));
    }
  }

  /** The planner accepts exactly these statements, by the columns' types and the clauses' kinds. */
  lemma {:induction false} AcceptedIff(rg: RowGroup, stmt: SelectStmt)
    ensures WellFormed(SchemaOf(rg), stmt) <==> Accepted(rg, stmt)
  {
    hide SchemaOf, TypeAt, Named, WhereAccepted, ItemAccepted, AggItemOk;
    var s := SchemaOf(rg);
    if stmt.filter.Some? {
      WhereIff(rg, stmt.filter.value);
    }
    forall i | 0 <= i < |stmt.items|
      ensures AggItemOk(s, stmt.groupBy, stmt.items[i]) <==> ItemAccepted(rg, stmt.groupBy, stmt.items[i])
      ensures stmt.items[i].Col? ==> (stmt.items[i].name in s.names <==> Named(rg, stmt.items[i].name, ANY))
    {
      ItemIff(rg, stmt.groupBy, stmt.items[i]);
      if stmt.items[i].Col? {
        NamedIs(rg, stmt.items[i].name, ANY);
        AnyType(TypeAt(s, stmt.items[i].name));
      }
    }
    forall k | 0 <= k < |stmt.groupBy|
      ensures stmt.groupBy[k] in s.names && KeyTypeOk(TypeAt(s, stmt.groupBy[k]))
              <==> Named(rg, stmt.groupBy[k], {TInt64, TString})
    {
      NamedIs(rg, stmt.groupBy[k], {TInt64, TString});
    }
    assert HasAgg(stmt.items) <==> exists i :: 0 <= i < |stmt.items| && stmt.items[i].Agg?;
  }
}
