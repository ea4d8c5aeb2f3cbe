/** sql/parser.go: the recursive-descent parser, a cursor over the tokens. */
module Parser {
  import opened Types
  import opened Numerals
  import opened Ast
  import opened Grammar

  /** The statement of the derivation tree, when there is one. */
  function ParseOf(toks: seq<Token>): (r: Option<SelectStmt>)
    ensures r.Some? <==> ReadTree(toks).Some?
    ensures r.Some? ==> OkTree(ReadTree(toks).value) && r.value == StmtOf(ReadTree(toks).value)
  {
    var t :- ReadTree(toks);
    ReadSound(toks);
    Some(StmtOf(t))
  }

  /**
   * The parser accepts a token list exactly when the grammar derives it, and returns the
   * statement of its one derivation.
   */
  lemma {:induction false} ParseIffDerives(toks: seq<Token>)
    ensures ParseOf(toks).Some? <==> exists t :: Derives(toks, t)
    ensures forall t :: Derives(toks, t) ==> ParseOf(toks) == Some(StmtOf(t))
  {
    hide ReadTree, StmtOf;
    if ReadTree(toks).Some? {
      ReadIffDerives(toks, ReadTree(toks).value);
    }
    forall t | Derives(toks, t)
      ensures ReadTree(toks) == Some(t)
    {
      ReadIffDerives(toks, t);
    }
  }

  class Parser {
    const tokens: seq<Token>
    var pos: nat

    constructor (tokens: seq<Token>)
      ensures this.tokens == tokens && pos == 0
    {
      this.tokens := tokens;
      pos := 0;
    }

    /** peek: the end marker stands beyond the last token. */
    function Look(): (t: Token)
      reads this`pos
      ensures t == Peek(tokens, pos)
    {
      if pos >= |tokens| then Token(TokEOF, [], 0) else tokens[pos]
    }

    method Advance()
      modifies this`pos
      ensures pos == if old(pos) < |tokens| then old(pos) + 1 else old(pos)
      ensures Peek(tokens, old(pos)).kind != TokEOF ==> old(pos) < |tokens|
    {
      if pos < |tokens| {
        pos := pos + 1;
      }
    }

    method Expect(kind: TokenKind) returns (ok: bool)
      requires kind != TokEOF
      modifies this`pos
      ensures ok <==> Peek(tokens, old(pos)).kind == kind
      ensures if ok then old(pos) < |tokens| && pos == old(pos) + 1 else pos == old(pos)
    {
      ok := Look().kind == kind;
      if ok {
        Advance();
      }
    }

    method ParseSelectItem() returns (item: Option<SelectItem>)
      modifies this`pos
      ensures var r := ReadItem(tokens, old(pos));
              && (item.Some? <==> r.Some?)
              && (item.Some? ==> item.value == ItemOf(r.value.0) && pos == r.value.1)
    {
      var tok := Look();
      if tok.kind.IsAggKeyword() {
        Advance();
        var ok := Expect(TokLParen);
        if !ok {
          return None;
        }
        var argTok := Look();
        var arg: Text;
        if argTok.kind == TokStar {
          arg := STAR;
          Advance();
        } else if argTok.kind == TokIdent {
          arg := argTok.value;
          Advance();
        } else {
          return None;
        }
        ok := Expect(TokRParen);
        if !ok {
          return None;
        }
        return Some(Agg(FnOfKind(tok.kind), arg));
      }
      if tok.kind != TokIdent {
        return None;
      }
      Advance();
      item := Some(Col(tok.value));
    }

    /** A lone star, or items with commas between. */
    method ParseSelectList() returns (items: Option<seq<SelectItem>>)
      modifies this`pos
      ensures var r := ReadList(tokens, old(pos));
              && (items.Some? <==> r.Some?)
              && (items.Some? ==> items.value == ItemsOf(r.value.0) && pos == r.value.1)
    {
      hide ReadItem;
      if Look().kind == TokStar {
        Advance();
        return Some([Star]);
      }
      var acc: seq<SelectItem> := [];
      ghost var trees: seq<ItemTree> := [];
      ghost var start := pos;
      InFrontOfNone(ReadItems(tokens, pos));
      while true
        invariant acc == ItemsOf(trees) && start == old(pos)
        invariant ReadItems(tokens, start) == InFront(trees, ReadItems(tokens, pos))
        decreases |tokens| - pos
      {
        ghost var here := pos;
        var item := ParseSelectItem();
        if item.None? {
          return None;
        }
        ghost var tree := ReadItem(tokens, here).value.0;
        acc := acc + [item.value];
        if Look().kind != TokComma {
          InFrontOne(trees, tree, Some(([], pos)));
          trees := trees + [tree];
          break;
        }
        Advance();
        InFrontOne(trees, tree, ReadItems(tokens, pos));
        trees := trees + [tree];
      }
      items := Some(acc);
    }

    method ParsePredicate() returns (w: Option<Where>)
      requires Peek(tokens, pos).kind == TokWhere
      modifies this`pos
      ensures var r := ReadFilter(tokens, old(pos));
              && (w.Some? <==> r.Some?)
              && (w.Some? ==> w == r.value.0 && pos == r.value.1)
    {
      Advance();
      var col := Look();
      if col.kind != TokIdent {
        return None;
      }
      Advance();
      var op := Look();
      if !op.kind.IsComparator() {
        return None;
      }
      Advance();
      var lit := Look();
      if !lit.kind.IsLiteral() {
        return None;
      }
      Advance();
      w := Some(Where(col.value, op.kind, lit));
    }

    method ParseGroupBy() returns (cols: Option<seq<Text>>)
      requires Peek(tokens, pos).kind == TokGroup
      modifies this`pos
      ensures var r := ReadGroup(tokens, old(pos));
              && (cols.Some? <==> r.Some?)
              && (cols.Some? ==> cols.value == r.value.0 && pos == r.value.1)
    {
      Advance();
      var ok := Expect(TokBy);
      if !ok {
        return None;
      }
      var acc: seq<Text> := [];
      ghost var start := pos;
      InFrontOfNone(ReadNames(tokens, pos));
      while true
        invariant start == old(pos) + 2
        invariant ReadNames(tokens, start) == InFront(acc, ReadNames(tokens, pos))
        decreases |tokens| - pos
      {
        var tok := Look();
        if tok.kind != TokIdent {
          return None;
        }
        Advance();
        if Look().kind != TokComma {
          InFrontOne(acc, tok.value, Some(([], pos)));
          acc := acc + [tok.value];
          break;
        }
        Advance();
        InFrontOne(acc, tok.value, ReadNames(tokens, pos));
        acc := acc + [tok.value];
      }
      cols := Some(acc);
    }

    method ParseOrderBy() returns (o: Option<OrderBy>)
      requires Peek(tokens, pos).kind == TokOrder
      modifies this`pos
      ensures var r := ReadOrder(tokens, old(pos));
              && (o.Some? <==> r.Some?)
              && (o.Some? ==> r.value.0.Some? && pos == r.value.1)
              && (o.Some? ==> o.value == OrderBy(r.value.0.value.0, r.value.0.value.1 != Descending))
    {
      Advance();
      var ok := Expect(TokBy);
      if !ok {
        return None;
      }
      var col := Look();
      if col.kind != TokIdent {
        return None;
      }
      Advance();
      var ascending := true;
      if Look().kind == TokAsc {
        Advance();
      } else if Look().kind == TokDesc {
        ascending := false;
        Advance();
      }
      o := Some(OrderBy(col.value, ascending));
    }

    /** LIMIT n: the number must be an integer that strconv.Atoi takes, and not negative. */
    method ParseLimit() returns (n: Option<int>)
      requires Peek(tokens, pos).kind == TokLimit
      modifies this`pos
      ensures var r := ReadLimit(tokens, old(pos));
              && (n.Some? <==> r.Some?)
              && (n.Some? ==> r.value.0.Some? && pos == r.value.1)
              && (n.Some? ==> LimitOf(r.value.0.value) == Some(n.value))
    {
      hide ParseI64;
      Advance();
      var tok := Look();
      if tok.kind != TokInt {
        return None;
      }
      Advance();
      n := ParseI64(tok.value);
      if n.None? || n.value < 0 {
        return None;
      }
    }

    method ParseSelect() returns (stmt: Option<SelectStmt>)
      requires pos == 0
      modifies this`pos
      ensures var r := ReadSelect(tokens);
              && (stmt.Some? <==> r.Some?)
              && (stmt.Some? ==> OkTree(r.value.0) && stmt.value == StmtOf(r.value.0) && pos == r.value.1)
    {
      hide ReadList, ReadFilter, ReadGroup, ReadOrder, ReadLimit, LimitOf, OkTree, ItemsOf, OrderOf, CapOf, Peek;
      if ReadSelect(tokens).Some? {
        SelectOk(tokens);
      }
      var ok := Expect(TokSelect);
      if !ok {
        return None;
      }
      var items :- ParseSelectList();
      var table :- ParseTable();
      var filter :- ParseFilterClause();
      var cols :- ParseGroupClause();
      var order :- ParseOrderClause();
      var limit :- ParseLimitClause();
      stmt := Some(SelectStmt(items, table, filter, cols, order, limit));
    }

    /** FROM and the table's name. */
    method ParseTable() returns (table: Option<Text>)
      modifies this`pos
      ensures table.Some? <==> Peek(tokens, old(pos)).kind == TokFrom && Peek(tokens, old(pos) + 1).kind == TokIdent
      ensures table.Some? ==> table.value == Peek(tokens, old(pos) + 1).value && pos == old(pos) + 2 <= |tokens|
    {
      var ok := Expect(TokFrom);
      if !ok {
        return None;
      }
      var tok := Look();
      if tok.kind != TokIdent {
        return None;
      }
      Advance();
      table := Some(tok.value);
    }

    method ParseFilterClause() returns (filter: Option<Option<Where>>)
      requires pos <= |tokens|
      modifies this`pos
      ensures var r := ReadFilter(tokens, old(pos));
              && (filter.Some? <==> r.Some?)
              && (filter.Some? ==> filter.value == r.value.0 && pos == r.value.1)
    {
      filter := Some(None);
      if Look().kind == TokWhere {
        var w :- ParsePredicate();
        filter := Some(Some(w));
      }
    }

    method ParseGroupClause() returns (cols: Option<seq<Text>>)
      requires pos <= |tokens|
      modifies this`pos
      ensures var r := ReadGroup(tokens, old(pos));
              && (cols.Some? <==> r.Some?)
              && (cols.Some? ==> cols.value == r.value.0 && pos == r.value.1)
    {
      cols := Some([]);
      if Look().kind == TokGroup {
        cols := ParseGroupBy();
      }
    }

    method ParseOrderClause() returns (order: Option<Option<OrderBy>>)
      requires pos <= |tokens|
      modifies this`pos
      ensures var r := ReadOrder(tokens, old(pos));
              && (order.Some? <==> r.Some?)
              && (order.Some? ==> order.value == OrderOf(r.value.0) && pos == r.value.1)
    {
      order := Some(None);
      if Look().kind == TokOrder {
        var o :- ParseOrderBy();
        order := Some(Some(o));
      }
    }

    method ParseLimitClause() returns (limit: Option<int>)
      requires pos <= |tokens|
      modifies this`pos
      ensures var r := ReadLimit(tokens, old(pos));
              && (limit.Some? <==> r.Some?)
              && (limit.Some? ==> (r.value.0.Some? ==> LimitOf(r.value.0.value).Some?))
              && (limit.Some? ==> limit.value == CapOf(r.value.0) && pos == r.value.1)
    {
      hide ParseI64;
      limit := Some(-1);
      if Look().kind == TokLimit {
        limit := ParseLimit();
      }
    }

    /** The whole token list: a statement, an optional semicolon, the end. */
    method ParseTokens() returns (stmt: Option<SelectStmt>)
      requires pos == 0
      modifies this`pos
      ensures stmt == ParseOf(tokens)
    {
      hide ReadSelect, OkTree;
      stmt := ParseSelect();
      if stmt.None? {
        return None;
      }
      if Look().kind == TokSemi {
        Advance();
      }
      if Look().kind != TokEOF {
        return None;
      }
    }
  }

  /**
   * Parse: the statement exactly when the grammar derives the tokens, and then the statement of
   * every derivation they have.
   */
  method Parse(tokens: seq<Token>) returns (stmt: Option<SelectStmt>)
    ensures stmt == ParseOf(tokens)
    ensures stmt.Some? <==> exists t :: Derives(tokens, t)
    ensures forall t :: Derives(tokens, t) ==> stmt == Some(StmtOf(t))
  {
    var p := new Parser(tokens);
    stmt := p.ParseTokens();
    ParseIffDerives(tokens);
  }

  lemma {:induction false} SelectOk(toks: seq<Token>)
    requires ReadSelect(toks).Some?
    ensures OkTree(ReadSelect(toks).value.0)
  {
    hide ReadList, ReadFilter, ReadGroup, ReadOrder, ReadLimit, OkItems, OkFilter, LimitOf, Starts;
    var items := ReadList(toks, 1).value;
    var filter := ReadFilter(toks, items.1 + 2).value;
    var group := ReadGroup(toks, filter.1).value;
    var order := ReadOrder(toks, group.1).value;
    ListSound(toks, 1);
    FilterSound(toks, items.1 + 2);
    LimitSound(toks, order.1);
  }

  /** List elements read so far in front of what the rest of the list gives. */
  function InFront<T>(acc: seq<T>, rest: Option<(seq<T>, nat)>): Option<(seq<T>, nat)> {
    if rest.None? then None else Some((acc + rest.value.0, rest.value.1))
  }

  lemma InFrontOfNone<T>(rest: Option<(seq<T>, nat)>)
    ensures InFront([], rest) == rest
  {
    if rest.Some? {
      assert [] + rest.value.0 == rest.value.0;
    }
  }

  lemma InFrontOne<T>(acc: seq<T>, x: T, rest: Option<(seq<T>, nat)>)
    ensures InFront(acc, InFront([x], rest)) == InFront(acc + [x], rest)
  {
    if rest.Some? {
      assert acc + ([x] + rest.value.0) == (acc + [x]) + rest.value.0;
    }
  }
}
