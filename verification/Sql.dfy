/** sql/sql.go: a query text over a table, from lexing to the operator tree and its rows. */
module Sql {
  import opened Types
  import opened Storage
  import opened Relation
  import opened Batches
  import opened Aggregation
  import opened Exec
  import opened Runs
  import opened Ast
  import opened Semantics
  import opened Planner
  import Lexer
  import Parser
  import Printer
  import QueryTexts
  import Acceptance

  /** The statement a query text says, if it says one. */
  function Statement(query: Text): (r: Option<SelectStmt>) {
    var toks :- Lexer.Lex(query, 0);
    Parser.ParseOf(toks)
  }

  /** Execute: an empty query, a malformed one and one the planner refuses all fail. */
  method Execute(rg: RowGroup, query: Text, ar: Arith) returns (op: Option<Op>, ghost pool: set<Selection>)
    requires GroupOk(rg)
    requires Statement(query).Some? ==> Supported(ar, rg, Statement(query).value)
    ensures op.Some? <==> Statement(query).Some? && WellFormed(SchemaOf(rg), Statement(query).value)
    ensures op.Some? ==> op.value.At(pool, 0) && fresh(op.value.Reach(pool))
    ensures op.Some? ==> op.value.All() == Meaning(ar, rg, Statement(query).value)
  {
    hide WellFormed, Supported, Meaning, Parser.ParseOf, GroupOk;
    if query == [] {
      EmptyQuery();
      return None, {};
    }
    var tokens := Lexer.Tokenize(query);
    if tokens.None? {
      return None, {};
    }
    var stmt := Parser.Parse(tokens.value);
    if stmt.None? {
      return None, {};
    }
    op, pool := Plan(rg, stmt.value, ar);
  }

  lemma EmptyQuery()
    ensures Statement([]).None?
  {}

  /**
   * Run a query: execute it, call Next and Reset as the script says, reset, and drain. The rows
   * are the meaning of the statement whatever the script.
   */
  method Query(rg: RowGroup, query: Text, script: seq<Call>, ar: Arith) returns (rows: Option<seq<Row>>)
    requires GroupOk(rg)
    requires Statement(query).Some? ==> Supported(ar, rg, Statement(query).value)
    ensures rows.Some? <==> Statement(query).Some? && WellFormed(SchemaOf(rg), Statement(query).value)
    ensures rows.Some? ==> rows.value == Meaning(ar, rg, Statement(query).value)
  {
    hide WellFormed, Supported, Meaning, Statement, GroupOk;
    var op;
    ghost var pool;
    op, pool := Execute(rg, query, ar);
    if op.None? {
      return None;
    }
    var all := Replay(op.value, script, pool);
    rows := Some(all);
  }

  // ----- the meaning of a printed statement -----

  /** The position of a literal plays no part in what a statement means. */
  lemma {:induction false} MeaningIgnoresPositions(ar: Arith, rg: RowGroup, a: SelectStmt, b: SelectStmt)
    requires Printer.Unplaced(a) == Printer.Unplaced(b)
    ensures WellFormed(SchemaOf(rg), a) <==> WellFormed(SchemaOf(rg), b)
    ensures Supported(ar, rg, a) <==> Supported(ar, rg, b)
    ensures OrderOk(a.items, a.orderBy) ==> Meaning(ar, rg, a) == Meaning(ar, rg, b)
  {
    hide FilterRows, Keys, OrderOk, AggItemsOk, PlainItemsOk;
    assert Filtered(rg, a.filter) == Filtered(rg, b.filter);
    assert Body(ar, rg, a) == Body(ar, rg, b);
    assert WhereOk(SchemaOf(rg), a.filter) <==> WhereOk(SchemaOf(rg), b.filter);
    assert OutTypes(SchemaOf(rg), a) == OutTypes(SchemaOf(rg), b);
  }

  /** Printing a statement and querying the text answers with the statement's meaning. */
  lemma {:induction false} PrintedMeaning(ar: Arith, rg: RowGroup, s: SelectStmt)
    requires Printer.PrintableStmt(s)
    ensures s.items != [] && Statement(Printer.Printed(s)).Some?
    ensures var t := Statement(Printer.Printed(s)).value;
            && (WellFormed(SchemaOf(rg), t) <==> WellFormed(SchemaOf(rg), s))
            && (Supported(ar, rg, t) <==> Supported(ar, rg, s))
            && (OrderOk(s.items, s.orderBy) ==> OrderOk(t.items, t.orderBy) && Meaning(ar, rg, t) == Meaning(ar, rg, s))
  {
    hide WellFormed, Supported, Meaning, OrderOk, Printer.PrintableStmt, Lexer.Lex, Printer.Printed;
    Printer.RoundTrip(s);
    var t := Statement(Printer.Printed(s)).value;
    assert Printer.Unplaced(s).items == s.items && Printer.Unplaced(t).items == t.items;
    MeaningIgnoresPositions(ar, rg, s, t);
  }

  /**
   * A statement written out, keywords in any letter case and any white space between the words, is
   * refused exactly when its columns' types refuse it, and else answers with the statement's meaning.
   */
  lemma {:induction false} WrittenMeaning(ar: Arith, rg: RowGroup, text: Text, s: SelectStmt, style: QueryTexts.Style,
                                          words: seq<Text>, lead: Text, gaps: seq<Text>)
    requires QueryTexts.WrittenAs(text, s, style, words, lead, gaps)
    ensures Statement(text).Some?
    ensures var t := Statement(text).value;
            && (WellFormed(SchemaOf(rg), t) <==> Acceptance.Accepted(rg, s))
            && (Supported(ar, rg, t) <==> Supported(ar, rg, s))
            && (OrderOk(s.items, s.orderBy) ==> OrderOk(t.items, t.orderBy) && Meaning(ar, rg, t) == Meaning(ar, rg, s))
  {
    hide *;
    QueryTexts.TextSays(text, s, style, words, lead, gaps);
    Said(text);
    var t := Statement(text).value;
    MeaningIgnoresPositions(ar, rg, s, t);
    SameClauses(s, t);
    Acceptance.AcceptedIff(rg, s);
  }

  lemma Said(text: Text)
    requires Lexer.Lex(text, 0).Some? && Parser.ParseOf(Lexer.Lex(text, 0).value).Some?
    ensures Statement(text) == Parser.ParseOf(Lexer.Lex(text, 0).value)
  {}

  lemma SameClauses(a: SelectStmt, b: SelectStmt)
    requires Printer.Unplaced(a) == Printer.Unplaced(b)
    ensures a.items == b.items && a.orderBy == b.orderBy
  {
    assert Printer.Unplaced(a).items == a.items && Printer.Unplaced(b).items == b.items;
  }
}
