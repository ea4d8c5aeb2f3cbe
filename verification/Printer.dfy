/** Printing statements, and the round trip through lexer and parser. */
module Printer {
  import opened Types
  import opened Numerals
  import opened Ast
  import opened Lexer
  import opened Grammar
  import opened Parser

  // ----- printing symbols -----

  function KindOf(s: Sym): TokenKind {
    match s
    case Key(kind) => kind
    case Name(_) => TokIdent
    case Lit(t) => t.kind
  }

  function ValueOf(s: Sym): Text {
    match s
    case Key(kind) => Spelling(kind)
    case Name(text) => text
    case Lit(t) => t.value
  }

  predicate IsName(w: Text) {
    IsWord(w) && WordKind(w) == TokIdent
  }

  /** A symbol with a spelling of its own. */
  predicate Printable(s: Sym) {
    match s
    case Key(kind) => IsKeyword(kind) || IsSymbol(kind)
    case Name(text) => IsName(text)
    case Lit(t) => t.kind.IsLiteral() && WellSpelled(t.kind, t.value)
  }

  predicate AllPrintable(y: seq<Sym>) {
    forall k :: 0 <= k < |y| ==> Printable(y[k])
  }

  /** The spelled symbols with one space between. */
  function Print(y: seq<Sym>): Text
    requires y != []
  {
    var first := Lexeme(KindOf(y[0]), ValueOf(y[0]));
    if |y| == 1 then first else first + [' '] + Print(y[1..])
  }

  /** The tokens the printed symbols become, from a position on, and the end marker. */
  function Placed(y: seq<Sym>, pos: nat): (toks: seq<Token>)
    requires y != []
    ensures |toks| == |y| + 1
  {
    var t := Token(KindOf(y[0]), ValueOf(y[0]), pos);
    var end := pos + |Lexeme(t.kind, t.value)|;
    if |y| == 1 then [t, Token(TokEOF, [], end)] else [t] + Placed(y[1..], end + 1)
  }

  lemma {:induction false} PlacedTokens(y: seq<Sym>, pos: nat, k: nat)
    requires k < |y|
    ensures Placed(y, pos)[k].kind == KindOf(y[k]) && Placed(y, pos)[k].value == ValueOf(y[k])
    ensures Placed(y, pos)[|y|].kind == TokEOF && Placed(y, pos)[|y|].value == []
  {
    hide KindOf, ValueOf, Lexeme;
    if |y| > 1 {
      var end := pos + |Lexeme(KindOf(y[0]), ValueOf(y[0]))|;
      PlacedTokens(y[1..], end + 1, if k == 0 then 0 else k - 1);
    }
  }

  lemma {:induction false} KeywordIsWord(kind: TokenKind)
    requires IsKeyword(kind)
    ensures IsWord(Spelling(kind))
  {}

  lemma {:induction false} PrintableSpelled(s: Sym)
    requires Printable(s)
    ensures WellSpelled(KindOf(s), ValueOf(s)) && Separates(KindOf(s), ' ')
  {
    hide WordKind, AllDigits, IsFloat, IsWord;
    if s.Key? && IsKeyword(s.kind) {
      KeywordIsWord(s.kind);
      KeywordUpToCase(Spelling(s.kind), s.kind);
    }
  }

  lemma {:induction false} ReadsFirst(input: Text, t: Token, end: nat, rest: seq<Token>)
    requires Occupies(input, t, end) && Reads(input, end, rest) && end == t.pos + |Lexeme(t.kind, t.value)|
    ensures Reads(input, t.pos, [t] + rest)
  {
    hide Occupies, Lexeme;
    assert ([t] + rest)[1..] == rest;
  }

  /** A symbol printed at a position, with a space or the end behind it, stands there as a token. */
  lemma {:induction false} PrintedOccupies(input: Text, pos: nat, s: Sym, tail: Text)
    requires Printable(s) && pos <= |input| && input[pos..] == Lexeme(KindOf(s), ValueOf(s)) + tail
    requires tail == [] || tail[0] == ' '
    ensures var end := pos + |Lexeme(KindOf(s), ValueOf(s))|;
            end <= |input| && input[end..] == tail && Occupies(input, Token(KindOf(s), ValueOf(s), pos), end)
  {
    PrintableSpelled(s);
    hide WellSpelled, Separates, Lexeme, Printable, KindOf, ValueOf;
    SliceTail(input, pos, Lexeme(KindOf(s), ValueOf(s)), tail);
    var end := pos + |Lexeme(KindOf(s), ValueOf(s))|;
    if end < |input| {
      assert input[end] == input[end..][0];
    }
  }

  /** Printed symbols read as the tokens placed where they were printed. */
  lemma {:induction false} PrintReads(input: Text, pos: nat, y: seq<Sym>)
    requires y != [] && AllPrintable(y) && pos <= |input| && input[pos..] == Print(y)
    ensures Reads(input, pos, Placed(y, pos))
    decreases |y|
  {
    hide Lexeme, Printable, KindOf, ValueOf, Occupies, Reads;
    var t := Token(KindOf(y[0]), ValueOf(y[0]), pos);
    var lexeme := Lexeme(t.kind, t.value);
    var end := pos + |lexeme|;
    if |y| == 1 {
      assert lexeme + [] == lexeme;
      PrintedOccupies(input, pos, y[0], []);
      ReadsEnd(input, end);
      ReadsFirst(input, t, end, [Token(TokEOF, [], end)]);
      assert [t] + [Token(TokEOF, [], end)] == [t, Token(TokEOF, [], end)];
    } else {
      var rest := Print(y[1..]);
      assert lexeme + [' '] + rest == lexeme + ([' '] + rest);
      PrintedOccupies(input, pos, y[0], [' '] + rest);
      SliceTail(input, end, [' '], rest);
      assert input[end] == input[end..][0];
      PrintReads(input, end + 1, y[1..]);
      OneSpace(input, end, Placed(y[1..], end + 1));
      ReadsFirst(input, t, end, Placed(y[1..], end + 1));
    }
  }

  lemma ReadsEnd(input: Text, end: nat)
    requires end <= |input| && input[end..] == []
    ensures Reads(input, end, [Token(TokEOF, [], end)])
  {}

  lemma SliceTail(input: Text, pos: nat, a: Text, b: Text)
    requires pos <= |input| && input[pos..] == a + b
    ensures pos + |a| <= |input| && input[pos..pos + |a|] == a && input[pos + |a|..] == b
  {}

  lemma {:induction false} OneSpace(input: Text, pos: nat, toks: seq<Token>)
    requires pos < |input| && input[pos] == ' ' && Reads(input, pos + 1, toks)
    ensures Reads(input, pos, toks)
  {
    hide Occupies;
  }

  // ----- positions do not matter to the parser -----

  /** The statement with the position of its literal forgotten. */
  function Unplaced(stmt: SelectStmt): SelectStmt {
    if stmt.filter.None? then stmt
    else stmt.(filter := Some(stmt.filter.value.(literal := stmt.filter.value.literal.(pos := 0))))
  }

  predicate SameTokens(a: seq<Token>, b: seq<Token>) {
    |a| == |b| && forall k :: 0 <= k < |a| ==> a[k].kind == b[k].kind && a[k].value == b[k].value
  }

  /** The tree with the literals of another token list. */
  function Moved(t: Tree, toks: seq<Token>): Tree
    requires t.items != []
  {
    var e := EndsOf(t);
    t.(filter := if t.filter.Some? then Some(t.filter.value.(literal := Peek(toks, e.items + 5))) else None,
       limit := if t.limit.Some? then Some(Peek(toks, e.order + 1)) else None)
  }

  lemma {:induction false} DerivesMoved(a: seq<Token>, b: seq<Token>, t: Tree)
    requires SameTokens(a, b) && Derives(a, t)
    ensures t.items != [] && Derives(b, Moved(t, b))
    ensures Unplaced(StmtOf(Moved(t, b))) == Unplaced(StmtOf(t))
  {
    hide Yield, ItemsYield, FilterYield, GroupYield, OrderYield, LimitYield, Starts, ItemsOf, LimitOf;
    ItemsThere(t.items);
    var e, u := EndsOf(t), Moved(t, b);
    YieldLaid(a, t);
    YieldLaid(b, u);
    KeysMoved(a, b, 0, [Key(TokSelect)]);
    ItemsMoved(a, b, 1, t.items);
    KeysMoved(a, b, e.items, [Key(TokFrom), Name(t.table)]);
    FilterMoved(a, b, e.items + 2, t.filter);
    GroupMoved(a, b, e.filter, t.groupBy);
    OrderMoved(a, b, e.group, t.orderBy);
    LimitMoved(a, b, e.order, t.limit);
    KeysMoved(a, b, e.limit, SemiYield(t.semi));
  }

  lemma KeysMoved(a: seq<Token>, b: seq<Token>, i: nat, y: seq<Sym>)
    requires SameTokens(a, b) && Starts(a, i, y) && forall k :: 0 <= k < |y| ==> !y[k].Lit?
    ensures Starts(b, i, y)
  {}

  lemma {:induction false} ItemsMoved(a: seq<Token>, b: seq<Token>, i: nat, items: seq<ItemTree>)
    requires items != [] && SameTokens(a, b) && Starts(a, i, ItemsYield(items))
    ensures Starts(b, i, ItemsYield(items))
  {
    ItemsBare(items);
    KeysMoved(a, b, i, ItemsYield(items));
  }

  lemma {:induction false} ItemsBare(items: seq<ItemTree>)
    requires items != []
    ensures forall k :: 0 <= k < |ItemsYield(items)| ==> !ItemsYield(items)[k].Lit?
  {
    if |items| > 1 {
      ItemsBare(items[1..]);
    }
  }

  lemma {:induction false} NamesBare(names: seq<Text>)
    requires names != []
    ensures forall k :: 0 <= k < |NamesYield(names)| ==> !NamesYield(names)[k].Lit?
  {
    if |names| > 1 {
      NamesBare(names[1..]);
    }
  }

  lemma {:induction false} GroupMoved(a: seq<Token>, b: seq<Token>, i: nat, names: seq<Text>)
    requires SameTokens(a, b) && Starts(a, i, GroupYield(names))
    ensures Starts(b, i, GroupYield(names))
  {
    if names != [] {
      NamesBare(names);
    }
    KeysMoved(a, b, i, GroupYield(names));
  }

  lemma {:induction false} OrderMoved(a: seq<Token>, b: seq<Token>, i: nat, o: Option<(Text, Dir)>)
    requires SameTokens(a, b) && Starts(a, i, OrderYield(o))
    ensures Starts(b, i, OrderYield(o))
  {
    KeysMoved(a, b, i, OrderYield(o));
  }

  lemma {:induction false} FilterMoved(a: seq<Token>, b: seq<Token>, i: nat, w: Option<Where>)
    requires SameTokens(a, b) && Starts(a, i, FilterYield(w)) && OkFilter(w)
    ensures var v := if w.Some? then Some(w.value.(literal := Peek(b, i + 3))) else None;
            && Starts(b, i, FilterYield(v)) && OkFilter(v) && |FilterYield(v)| == |FilterYield(w)|
            && (w.Some? ==>
                  && v.value.literal.kind == w.value.literal.kind
                  && v.value.literal.value == w.value.literal.value)
  {
    if w.Some? {
      var y := FilterYield(w);
      var z := FilterYield(Some(w.value.(literal := Peek(b, i + 3))));
      StartsAt(a, i, y, 3);
      forall k | 0 <= k < 4
        ensures i + k < |b| && SymOf(b[i + k]) == z[k]
      {
        StartsAt(a, i, y, k);
      }
    }
  }

  lemma {:induction false} LimitMoved(a: seq<Token>, b: seq<Token>, i: nat, limit: Option<Token>)
    requires SameTokens(a, b) && Starts(a, i, LimitYield(limit)) && (limit.Some? ==> LimitOf(limit.value).Some?)
    ensures var v := if limit.Some? then Some(Peek(b, i + 1)) else None;
            && Starts(b, i, LimitYield(v)) && |LimitYield(v)| == |LimitYield(limit)|
            && (limit.Some? ==> LimitOf(v.value) == LimitOf(limit.value))
  {
    hide ParseI64;
    if limit.Some? {
      StartsAt(a, i, LimitYield(limit), 0);
      StartsAt(a, i, LimitYield(limit), 1);
    }
  }

  /** Token lists that differ in positions only parse alike. */
  lemma {:induction false} ParseIgnoresPositions(a: seq<Token>, b: seq<Token>)
    requires SameTokens(a, b)
    ensures ParseOf(a).Some? <==> ParseOf(b).Some?
    ensures ParseOf(a).Some? ==> Unplaced(ParseOf(a).value) == Unplaced(ParseOf(b).value)
  {
    hide Derives, StmtOf, ReadTree;
    ParseIffDerives(a);
    ParseIffDerives(b);
    if ParseOf(a).Some? {
      var t :| Derives(a, t);
      DerivesMoved(a, b, t);
    }
    if ParseOf(b).Some? {
      var t :| Derives(b, t);
      DerivesMoved(b, a, t);
    }
  }

  // ----- sentences -----

  /** A derivation tree whose names are non-keyword words and whose literals are spelled as their kind says. */
  predicate PrintableTree(t: Tree) {
    && OkTree(t) && IsName(t.table)
    && (forall i :: 0 <= i < |t.items| ==> PrintableItem(t.items[i]))
    && (t.filter.Some? ==> IsName(t.filter.value.column))
    && (t.filter.Some? ==> WellSpelled(t.filter.value.literal.kind, t.filter.value.literal.value))
    && (forall i :: 0 <= i < |t.groupBy| ==> IsName(t.groupBy[i]))
    && (t.orderBy.Some? ==> IsName(t.orderBy.value.0))
    && (t.limit.Some? ==> WellSpelled(t.limit.value.kind, t.limit.value.value))
  }

  predicate PrintableItem(item: ItemTree) {
    match item
    case AllCols => true
    case ColRef(name) => IsName(name)
    case Call(_, arg) => arg.Some? ==> IsName(arg.value)
  }

  lemma {:induction false} ItemsPrintable(items: seq<ItemTree>)
    requires items != [] && forall i :: 0 <= i < |items| ==> PrintableItem(items[i])
    ensures AllPrintable(ItemsYield(items))
  {
    hide IsName;
    assert PrintableItem(items[0]);
    if |items| > 1 {
      ItemsPrintable(items[1..]);
    }
  }

  lemma {:induction false} NamesPrintable(names: seq<Text>)
    requires names != [] && forall i :: 0 <= i < |names| ==> IsName(names[i])
    ensures AllPrintable(NamesYield(names))
  {
    hide IsName;
    if |names| > 1 {
      NamesPrintable(names[1..]);
    }
  }

  lemma AllConcat(a: seq<Sym>, b: seq<Sym>)
    requires AllPrintable(a) && AllPrintable(b)
    ensures AllPrintable(a + b)
  {}

  lemma {:induction false} ClausesPrintable(t: Tree)
    requires PrintableTree(t)
    ensures AllPrintable(FilterYield(t.filter)) && AllPrintable(OrderYield(t.orderBy))
    ensures AllPrintable(LimitYield(t.limit)) && AllPrintable(SemiYield(t.semi))
  {
    hide IsName, ParseI64, WellSpelled, OkItems;
  }

  lemma {:induction false} GroupPrintable(names: seq<Text>)
    requires forall i :: 0 <= i < |names| ==> IsName(names[i])
    ensures AllPrintable(GroupYield(names))
  {
    hide IsName, NamesYield;
    if names != [] {
      NamesPrintable(names);
      AllConcat([Key(TokGroup), Key(TokBy)], NamesYield(names));
    }
  }

  lemma WordsPrintable(table: Text)
    requires IsName(table)
    ensures AllPrintable([Key(TokSelect)]) && AllPrintable([Key(TokFrom), Name(table)])
  {
    hide IsName;
  }

  lemma {:induction false} YieldPrintable(t: Tree)
    requires PrintableTree(t) && t.items != []
    ensures AllPrintable(Yield(t))
  {
    ItemsPrintable(t.items);
    ClausesPrintable(t);
    GroupPrintable(t.groupBy);
    WordsPrintable(t.table);
    hide *;
    AllConcat(LimitYield(t.limit), SemiYield(t.semi));
    AllConcat(OrderYield(t.orderBy), AfterOrder(t));
    AllConcat(GroupYield(t.groupBy), AfterGroup(t));
    AllConcat(FilterYield(t.filter), AfterFilter(t));
    AllConcat([Key(TokFrom), Name(t.table)], AfterTable(t));
    AllConcat(ItemsYield(t.items), AfterItems(t));
    AllConcat([Key(TokSelect)], ItemsYield(t.items) + AfterItems(t));
  }

  /** The tokens of a sentence that carry the very literals of its tree. */
  function Bare(y: seq<Sym>): (toks: seq<Token>)
    ensures |toks| == |y| + 1
  {
    seq(|y|, k requires 0 <= k < |y| => if y[k].Lit? then y[k].tok else Token(KindOf(y[k]), ValueOf(y[k]), 0))
    + [Token(TokEOF, [], 0)]
  }

  lemma {:induction false} BareDerives(t: Tree)
    requires PrintableTree(t) && t.items != []
    ensures Derives(Bare(Yield(t)), t)
  {
    YieldPrintable(t);
    hide Yield, PrintableTree, Spelling;
    var y := Yield(t);
    forall k | 0 <= k < |y|
      ensures SymOf(Bare(y)[0 + k]) == y[k]
    {
      assert Printable(y[k]);
    }
    assert OkTree(t) by {
      PrintableOk(t);
    }
  }

  lemma PrintableOk(t: Tree)
    requires PrintableTree(t)
    ensures OkTree(t)
  {}

  /**
   * Any sentence of the grammar, printed, tokenized and parsed, gives back its statement, up to
   * the position of the literal.
   */
  lemma {:induction false} SentenceRoundTrip(t: Tree)
    requires PrintableTree(t)
    ensures t.items != [] && OkTree(t)
    ensures var toks := Lex(Print(Yield(t)), 0);
            && toks.Some? && ParseOf(toks.value).Some?
            && Unplaced(ParseOf(toks.value).value) == Unplaced(StmtOf(t))
  {
    PrintableOk(t);
    ItemsThere(t.items);
    hide *;
    SentenceLexes(t);
    BareDerives(t);
    BareSame(Yield(t));
    ParseIffDerives(Bare(Yield(t)));
    ParseIgnoresPositions(Bare(Yield(t)), Placed(Yield(t), 0));
  }

  lemma {:induction false} SentenceLexes(t: Tree)
    requires PrintableTree(t) && t.items != []
    ensures Lex(Print(Yield(t)), 0) == Some(Placed(Yield(t), 0))
  {
    hide *;
    YieldPrintable(t);
    var text := Print(Yield(t));
    assert text[0..] == text;
    PrintReads(text, 0, Yield(t));
    LexIffReads(text, Placed(Yield(t), 0));
  }

  lemma {:induction false} BareSame(y: seq<Sym>)
    requires y != []
    ensures SameTokens(Bare(y), Placed(y, 0))
  {
    hide Spelling, Placed, Lexeme;
    forall k | 0 <= k < |y| + 1
      ensures Bare(y)[k].kind == Placed(y, 0)[k].kind && Bare(y)[k].value == Placed(y, 0)[k].value
    {
      PlacedTokens(y, 0, if k < |y| then k else 0);
    }
  }

  // ----- statements -----

  /** A statement as a query text can say it. */
  predicate PrintableStmt(s: SelectStmt) {
    && (s.items == [Star] || (s.items != [] && Star !in s.items)) && IsName(s.fromTable)
    && (forall i :: 0 <= i < |s.items| ==> PrintableSelectItem(s.items[i]))
    && (s.filter.Some? ==> IsName(s.filter.value.column) && s.filter.value.op.IsComparator())
    && (s.filter.Some? ==> s.filter.value.literal.kind.IsLiteral())
    && (s.filter.Some? ==> WellSpelled(s.filter.value.literal.kind, s.filter.value.literal.value))
    && (forall i :: 0 <= i < |s.groupBy| ==> IsName(s.groupBy[i]))
    && (s.orderBy.Some? ==> IsName(s.orderBy.value.column))
    && -1 <= s.limit < 0x8000_0000_0000_0000
  }

  predicate PrintableSelectItem(item: SelectItem) {
    match item
    case Star => true
    case Col(name) => IsName(name)
    case Agg(_, arg) => arg == STAR || IsName(arg)
  }

  function TreeItem(item: SelectItem): ItemTree {
    match item
    case Star => AllCols
    case Col(name) => ColRef(name)
    case Agg(fn, arg) => Call(fn, if arg == STAR then None else Some(arg))
  }

  /** A derivation of the statement: a direction is stated when it is DESC, LIMIT is in plain decimal. */
  function TreeOf(s: SelectStmt): Tree {
    Tree(seq(|s.items|, i requires 0 <= i < |s.items| => TreeItem(s.items[i])), s.fromTable, s.filter, s.groupBy,
         if s.orderBy.None? then None
         else Some((s.orderBy.value.column, if s.orderBy.value.ascending then Unstated else Descending)),
         if s.limit < 0 then None else Some(Token(TokInt, Decimal(s.limit), 0)), false)
  }

  lemma {:induction false} TreeOfPrintable(s: SelectStmt)
    requires PrintableStmt(s)
    ensures PrintableTree(TreeOf(s)) && OkTree(TreeOf(s)) && StmtOf(TreeOf(s)) == s
  {
    hide IsName, ParseI64, IsFloat;
    var t := TreeOf(s);
    if 0 <= s.limit {
      ParseDecimal(s.limit);
    }
    forall i | 0 <= i < |s.items|
      ensures ItemOf(t.items[i]) == s.items[i] && PrintableItem(t.items[i])
    {
      assert PrintableSelectItem(s.items[i]);
    }
    if s.items == [Star] {
      assert t.items == [AllCols];
    } else {
      forall i | 0 <= i < |t.items|
        ensures t.items[i] != AllCols
      {
        assert s.items[i] in s.items;
      }
    }
    assert ItemsOf(t.items) == s.items;
  }

  /** The text of a statement. */
  function Printed(s: SelectStmt): Text
    requires s.items != []
  {
    Print(Yield(TreeOf(s)))
  }

  /**
   * Printing, tokenizing and parsing any statement a query can say returns that statement, up to
   * the position of its literal.
   */
  lemma {:induction false} RoundTrip(s: SelectStmt)
    requires PrintableStmt(s)
    ensures s.items != []
    ensures var toks := Lex(Printed(s), 0);
            && toks.Some? && ParseOf(toks.value).Some?
            && Unplaced(ParseOf(toks.value).value) == Unplaced(s)
  {
    hide PrintableTree, OkTree, Yield;
    TreeOfPrintable(s);
    SentenceRoundTrip(TreeOf(s));
  }
}
