/** The converse of QueryTexts: an accepted text is a statement written out, and nothing else is. */
module QueryForms {
  import opened Types
  import opened Numerals
  import opened Ast
  import opened Lexer
  import opened Grammar
  import opened Parser
  import opened Printer
  import opened QueryTexts

  // ----- only white space is skipped -----

  /** The symbols as they are written; the text of anything else is empty. */
  function SymbolText(kind: TokenKind): Text {
    match kind
    case TokStar => "*"
    case TokMinus => "-"
    case TokPlus => "+"
    case TokComma => ","
    case TokLParen => "("
    case TokRParen => ")"
    case TokSemi => ";"
    case _ => OpText(kind)
  }

  /** The word w is a token of this kind and value. */
  ghost predicate IsToken(w: Text, t: Token) {
    match t.kind
    case TokIdent => w == t.value && PlainName(w)
    case TokInt => w == t.value && PlainInt(w)
    case TokFloat => w == t.value && PlainFloat(w)
    case TokString => w == "'" + t.value + "'" && PlainString(t.value)
    case TokEOF => false
    case _ =>
      w == t.value && if SymbolText(t.kind) != "" then w == SymbolText(t.kind)
                      else exists x :: Keyword(x) && UpToCase(w, x) && KindOfKeyword(x) == t.kind
  }

  /** The tokens are the words of the text, between white space. */
  ghost predicate LaidOut(input: Text, toks: seq<Token>, words: seq<Text>, lead: Text, gaps: seq<Text>) {
    && AllWhite(lead) && Gaps(words, gaps) && input == lead + Spread(words, gaps)
    && |toks| == |words| + 1 && forall k :: 0 <= k < |words| ==> IsToken(words[k], toks[k])
  }

  lemma {:induction false} SymbolsAre(kind: TokenKind)
    ensures SymbolText(kind) != "" <==> IsSymbol(kind)
    ensures IsSymbol(kind) ==> SymbolText(kind) == Spelling(kind)
  {}

  lemma {:induction false} TokenIs(t: Token)
    requires WellSpelled(t.kind, t.value)
    ensures IsToken(Lexeme(t.kind, t.value), t) && Spells(Lexeme(t.kind, t.value), SymOf(t))
  {
    if t.kind == TokIdent {
      NameIs(t.value);
    } else if t.kind.IsLiteral() {
      LiteralToken(t);
    } else {
      SignToken(t);
    }
    hide WordKind, UpToCase, Keyword, KindOfKeyword, IsWord, AllDigits, PlainInt, IsFloat, PlainFloat, PlainName;
    hide SymbolText, Spelling, IsName, IsSymbol, IsKeyword, PlainString;
  }

  lemma {:induction false} LiteralToken(t: Token)
    requires WellSpelled(t.kind, t.value) && t.kind.IsLiteral()
    ensures IsToken(Lexeme(t.kind, t.value), t) && Spells(Lexeme(t.kind, t.value), SymOf(t))
  {
    DigitsAre(t.value);
    FloatIs(t.value);
    assert "'" == ['\''];
    hide WordKind, UpToCase, Keyword, KindOfKeyword, AllDigits, PlainInt, IsFloat, PlainFloat, Spelling, SymbolText;
  }

  /** A keyword or a symbol. */
  lemma {:induction false} SignToken(t: Token)
    requires WellSpelled(t.kind, t.value) && !t.kind.IsLiteral() && t.kind != TokIdent
    ensures IsToken(Lexeme(t.kind, t.value), t) && Spells(Lexeme(t.kind, t.value), SymOf(t))
  {
    SymbolsAre(t.kind);
    if !IsSymbol(t.kind) {
      KeywordIs(t.value);
    }
    hide WordKind, UpToCase, Keyword, KindOfKeyword, IsWord, SymbolText, Spelling, IsSymbol, IsKeyword;
  }

  lemma {:induction false} KeywordIs(w: Text)
    ensures WordKind(w) != TokIdent ==>
        IsKeyword(WordKind(w)) && exists x :: Keyword(x) && UpToCase(w, x) && KindOfKeyword(x) == WordKind(w)
  {
    hide WordKind, UpToCase, Keyword, KindOfKeyword, Lowered;
    WordKindIs(w);
    KindIsKeyword(Lowered(w));
    if WordKind(w) != TokIdent {
      var x :| Keyword(x) && UpToCase(w, x);
    }
  }

  lemma BlankIsWhite(input: Text, lo: nat, hi: nat)
    requires lo <= hi <= |input| && Blank(input, lo, hi)
    ensures AllWhite(input[lo..hi])
  {
    forall i | lo <= i < hi
      ensures White(input[i])
    {
      CharClasses(input[i]);
    }
  }

  /** The word of a token may stand before what follows it in the text. */
  lemma {:induction false} FirstWord(input: Text, t: Token, end: nat, words: seq<Text>, lead: Text, gaps: seq<Text>)
    requires Occupies(input, t, end) && Gaps(words, gaps) && input[end..] == lead + Spread(words, gaps)
    ensures var w := Lexeme(t.kind, t.value); w != "" && (lead == [] && words != [] ==> Apart(w, words[0]))
  {
    var w := Lexeme(t.kind, t.value);
    TokenIs(t);
    KindKept(w, t);
    StartsWord(w, SymOf(t));
    hide IsToken, Spells, WellSpelled, Separates, Lexeme, TokenFor, SymOf, AllWhite, Letter, Digit, PlainInt;
    if lead == [] && words != [] {
      assert words[0] != "" && input[end..][0] == words[0][0] == input[end];
      EndsToken(w, SymOf(t), input[end]);
    }
  }

  lemma KindKept(w: Text, t: Token)
    ensures TokenFor(w, SymOf(t), 0).kind == t.kind
  {}

  lemma Placed(input: Text, pos: nat, t: Token, end: nat)
    requires pos <= t.pos && Occupies(input, t, end)
    ensures end <= |input| && input[pos..] == input[pos..t.pos] + (Lexeme(t.kind, t.value) + input[end..])
  {
    hide WellSpelled, Separates, Lexeme;
  }

  lemma GapsCons(w: Text, words: seq<Text>, lead: Text, gaps: seq<Text>)
    requires Gaps(words, gaps) && AllWhite(lead) && w != "" && (lead == [] && words != [] ==> Apart(w, words[0]))
    ensures Gaps([w] + words, [lead] + gaps)
  {
    hide AllWhite, Apart;
  }

  /** A text that reads as tokens is laid out in their words. */
  lemma {:induction false} ReadsLaidOut(input: Text, pos: nat, toks: seq<Token>)
    returns (words: seq<Text>, lead: Text, gaps: seq<Text>)
    requires Reads(input, pos, toks)
    ensures LaidOut(input[pos..], toks, words, lead, gaps)
    ensures forall k :: 0 <= k < |words| ==> Spells(words[k], SymOf(toks[k]))
    decreases |toks|
  {
    hide IsToken, Spells, WellSpelled, Separates, Lexeme, Apart, SymOf;
    if |toks| == 1 {
      words, lead, gaps := [], input[pos..], [];
      BlankIsWhite(input, pos, |input|);
    } else {
      var t := toks[0];
      var w := Lexeme(t.kind, t.value);
      var end := t.pos + |w|;
      var words', lead', gaps' := ReadsLaidOut(input, end, toks[1..]);
      words, lead, gaps := [w] + words', input[pos..t.pos], [lead'] + gaps';
      TokenIs(t);
      BlankIsWhite(input, pos, t.pos);
      FirstWord(input, t, end, words', lead', gaps');
      Placed(input, pos, t, end);
      GapsCons(w, words', lead', gaps');
      SpreadStep(words, gaps);
      assert words[1..] == words' && gaps[1..] == gaps';
    }
  }

  /**
   * The tokens of an accepted text are its words: a keyword in any letter case, a name, a numeral,
   * a quoted string or a symbol each, and every character outside them is a tab, a line feed, a
   * carriage return or a blank.
   */
  lemma {:induction false} OnlyWhiteSkipped(input: Text)
    requires Lex(input, 0).Some?
    ensures exists words, lead, gaps :: LaidOut(input, Lex(input, 0).value, words, lead, gaps)
  {
    hide *;
    var toks := Lex(input, 0).value;
    LexIffReads(input, toks);
    var words, lead, gaps := ReadsLaidOut(input, 0, toks);
    assert input[0..] == input;
  }

  /** A word that is a token is spelled as one. */
  lemma {:induction false} TokenSpelled(w: Text, t: Token)
    requires IsToken(w, t)
    ensures Spells(w, SymOf(t)) && t.kind != TokEOF
    ensures TokenFor(w, SymOf(t), 0).kind == t.kind && TokenFor(w, SymOf(t), 0).value == t.value
  {
    if t.kind == TokIdent {
      NameIs(w);
    } else if t.kind.IsLiteral() {
      DigitsAre(t.value);
      FloatIs(t.value);
      LiteralIs(t);
    } else {
      SymbolsAre(t.kind);
      if !IsSymbol(t.kind) {
        KeywordSpelled(w, t.kind);
      }
    }
    hide WordKind, UpToCase, Keyword, KindOfKeyword, IsWord, AllDigits, PlainInt, IsFloat, PlainFloat, PlainName;
    hide SymbolText, Spelling, IsName, IsSymbol, IsKeyword;
  }

  lemma {:induction false} KeywordSpelled(w: Text, kind: TokenKind)
    requires exists x :: Keyword(x) && UpToCase(w, x) && KindOfKeyword(x) == kind
    ensures IsKeyword(kind) && IsWord(w) && WordKind(w) == kind
  {
    hide WordKind, UpToCase, Keyword, KindOfKeyword, IsWord;
    var x :| Keyword(x) && UpToCase(w, x) && KindOfKeyword(x) == kind;
    WordKindIs(w);
    KeywordLetters(x);
    KeywordsHaveKinds(x);
    KindIsKeyword(x);
    CasesAreWords(w, x);
  }

  /** Words laid out with white space between are lexed to their tokens. */
  lemma {:induction false} LaidOutLexes(input: Text, toks: seq<Token>, words: seq<Text>, lead: Text, gaps: seq<Text>)
    requires LaidOut(input, toks, words, lead, gaps)
    ensures var r := Lex(input, 0);
            && r.Some? && |r.value| == |toks|
            && forall k :: 0 <= k < |words| ==> r.value[k].kind == toks[k].kind && r.value[k].value == toks[k].value
  {
    hide IsToken, Gaps, AllWhite, Spread, Spells, SymOf, TokenFor, Placing, Lex, Reads;
    var y := seq(|words|, k requires 0 <= k < |words| => SymOf(toks[k]));
    assert AllSpell(words, y) by {
      forall k | 0 <= k < |words|
        ensures Spells(words[k], y[k])
      {
        TokenSpelled(words[k], toks[k]);
      }
    }
    GapsMatch(words, gaps);
    assert input[|lead|..] == Spread(words, gaps) && input[0..|lead|] == lead;
    SpreadReads(input, |lead|, words, y, gaps);
    var placed := Placing(words, y, gaps, |lead|);
    SkipWhite(input, 0, |lead|, placed);
    LexIffReads(input, placed);
    forall k | 0 <= k < |words|
      ensures placed[k].kind == toks[k].kind && placed[k].value == toks[k].value
    {
      PlacingAt(words, y, gaps, |lead|, k);
      TokenSpelled(words[k], toks[k]);
      SameToken(words[k], y[k], placed[k].pos);
    }
  }

  lemma SameToken(w: Text, s: Sym, pos: nat)
    ensures TokenFor(w, s, pos).kind == TokenFor(w, s, 0).kind && TokenFor(w, s, pos).value == TokenFor(w, s, 0).value
  {}

  /** The texts the lexer accepts are the tokens' words, spread over white space. */
  lemma {:induction false} TokensIff(input: Text)
    ensures Lex(input, 0).Some? <==> exists toks, words, lead, gaps :: LaidOut(input, toks, words, lead, gaps)
  {
    hide *;
    if Lex(input, 0).Some? {
      OnlyWhiteSkipped(input);
      var words, lead, gaps :| LaidOut(input, Lex(input, 0).value, words, lead, gaps);
    }
    if toks, words, lead, gaps :| LaidOut(input, toks, words, lead, gaps) {
      LaidOutLexes(input, toks, words, lead, gaps);
    }
  }

  // ----- the statement of an accepted text -----

  predicate NoEnd(y: seq<Sym>) {
    forall k :: 0 <= k < |y| ==> y[k] != Key(TokEOF)
  }

  lemma {:induction false} ItemsNoEnd(items: seq<ItemTree>)
    requires items != []
    ensures NoEnd(ItemsYield(items))
  {
    if |items| > 1 {
      ItemsNoEnd(items[1..]);
    }
  }

  lemma {:induction false} NamesNoEnd(names: seq<Text>)
    requires names != []
    ensures NoEnd(NamesYield(names))
  {
    if |names| > 1 {
      NamesNoEnd(names[1..]);
    }
  }

  lemma {:induction false} YieldNoEnd(t: Tree)
    requires OkTree(t) && t.items != []
    ensures NoEnd(Yield(t))
  {
    ItemsNoEnd(t.items);
    ClausesNoEnd(t);
    hide *;
    NoEndConcat(LimitYield(t.limit), SemiYield(t.semi));
    NoEndConcat(OrderYield(t.orderBy), AfterOrder(t));
    NoEndConcat(GroupYield(t.groupBy), AfterGroup(t));
    NoEndConcat(FilterYield(t.filter), AfterFilter(t));
    NoEndConcat([Key(TokFrom), Name(t.table)], AfterTable(t));
    NoEndConcat(ItemsYield(t.items), AfterItems(t));
    NoEndConcat([Key(TokSelect)], ItemsYield(t.items) + AfterItems(t));
  }

  lemma NoEndConcat(a: seq<Sym>, b: seq<Sym>)
    requires NoEnd(a) && NoEnd(b)
    ensures NoEnd(a + b)
  {}

  lemma {:induction false} ClausesNoEnd(t: Tree)
    requires OkFilter(t.filter)
    ensures NoEnd([Key(TokSelect)]) && NoEnd([Key(TokFrom), Name(t.table)]) && NoEnd(FilterYield(t.filter))
    ensures NoEnd(GroupYield(t.groupBy)) && NoEnd(OrderYield(t.orderBy))
    ensures NoEnd(LimitYield(t.limit)) && NoEnd(SemiYield(t.semi))
  {
    hide NamesYield;
    if t.groupBy != [] {
      NamesNoEnd(t.groupBy);
    }
  }

  lemma AllParts(a: seq<Sym>, b: seq<Sym>)
    requires AllPrintable(a + b)
    ensures AllPrintable(a) && AllPrintable(b)
  {
    assert forall k :: 0 <= k < |a| ==> (a + b)[k] == a[k];
    assert forall k :: 0 <= k < |b| ==> (a + b)[|a| + k] == b[k];
  }

  lemma {:induction false} ItemsFrom(items: seq<ItemTree>)
    requires items != [] && AllPrintable(ItemsYield(items))
    ensures forall i :: 0 <= i < |items| ==> PrintableItem(items[i])
  {
    hide IsName, AllPrintable, ItemYield, PrintableItem;
    if |items| > 1 {
      AllParts(ItemYield(items[0]) + [Key(TokComma)], ItemsYield(items[1..]));
      AllParts(ItemYield(items[0]), [Key(TokComma)]);
      ItemsFrom(items[1..]);
    }
    ItemFrom(items[0]);
  }

  lemma ItemFrom(item: ItemTree)
    requires AllPrintable(ItemYield(item))
    ensures PrintableItem(item)
  {
    hide IsName;
    if item.Call? && item.arg.Some? {
      assert Printable(ItemYield(item)[2]);
    } else if item.ColRef? {
      assert Printable(ItemYield(item)[0]);
    }
  }

  lemma {:induction false} NamesFrom(names: seq<Text>)
    requires names != [] && AllPrintable(NamesYield(names))
    ensures forall i :: 0 <= i < |names| ==> IsName(names[i])
  {
    hide IsName;
    assert Printable(NamesYield(names)[0]);
    if |names| > 1 {
      AllParts([Name(names[0])] + [Key(TokComma)], NamesYield(names[1..]));
      NamesFrom(names[1..]);
    }
  }

  /** A tree whose sentence has a spelling has words that have one. */
  lemma {:induction false} TreeFrom(t: Tree)
    requires OkTree(t) && t.items != [] && AllPrintable(Yield(t))
    ensures PrintableTree(t)
  {
    AllParts([Key(TokSelect)], ItemsYield(t.items) + AfterItems(t));
    AllParts(ItemsYield(t.items), AfterItems(t));
    AllParts([Key(TokFrom), Name(t.table)], AfterTable(t));
    AllParts(FilterYield(t.filter), AfterFilter(t));
    AllParts(GroupYield(t.groupBy), AfterGroup(t));
    AllParts(OrderYield(t.orderBy), AfterOrder(t));
    AllParts(LimitYield(t.limit), SemiYield(t.semi));
    ItemsFrom(t.items);
    if t.groupBy != [] {
      AllParts([Key(TokGroup), Key(TokBy)], NamesYield(t.groupBy));
      NamesFrom(t.groupBy);
    }
    ClausesFrom(t);
    hide IsName, OkItems, OkFilter, LimitOf, AllPrintable, Yield, WellSpelled, PrintableItem;
  }

  lemma {:induction false} ClausesFrom(t: Tree)
    requires AllPrintable([Key(TokFrom), Name(t.table)]) && AllPrintable(FilterYield(t.filter))
    requires AllPrintable(OrderYield(t.orderBy)) && AllPrintable(LimitYield(t.limit))
    ensures IsName(t.table)
    ensures t.filter.Some? ==> IsName(t.filter.value.column)
    ensures t.filter.Some? ==> WellSpelled(t.filter.value.literal.kind, t.filter.value.literal.value)
    ensures t.orderBy.Some? ==> IsName(t.orderBy.value.0)
    ensures t.limit.Some? ==> WellSpelled(t.limit.value.kind, t.limit.value.value)
  {
    hide IsName, WellSpelled, Spelling;
    assert Printable([Key(TokFrom), Name(t.table)][1]);
    if t.filter.Some? {
      assert Printable(FilterYield(t.filter)[1]) && Printable(FilterYield(t.filter)[3]);
    }
    if t.orderBy.Some? {
      assert Printable(OrderYield(t.orderBy)[2]);
    }
    if t.limit.Some? {
      assert Printable(LimitYield(t.limit)[1]);
    }
  }

  function StyleOf(t: Tree): Style {
    Style(t.orderBy.Some? && t.orderBy.value.1 == Ascending, if t.limit.Some? then t.limit.value.value else "", t.semi)
  }

  /** The statement of a tree with spelled words is one a text can say, in the tree's own style. */
  lemma {:induction false} TreeSays(t: Tree)
    requires PrintableTree(t) && OkTree(t)
    ensures PlainStmt(StmtOf(t), StyleOf(t)) && StandsFor(t, StmtOf(t), StyleOf(t))
  {
    hide IsName, PlainName, ParseI64, IsFloat, PlainLiteral, PlaceValue, PlainInt, AllDigits;
    var s, style := StmtOf(t), StyleOf(t);
    NameIs(s.fromTable);
    if s.filter.Some? {
      NameIs(s.filter.value.column);
      LiteralIs(s.filter.value.literal);
      OperatorIs(s.filter.value.op);
    }
    if s.orderBy.Some? {
      NameIs(s.orderBy.value.column);
    }
    if t.limit.Some? {
      DigitsAre(style.cap);
      NumeralIs(style.cap);
    }
    forall k | 0 <= k < |s.groupBy|
      ensures PlainName(s.groupBy[k])
    {
      NameIs(s.groupBy[k]);
    }
    ItemsSay(t.items);
    assert TreeIn(s, style).items == t.items;
  }

  lemma {:induction false} ItemsSay(items: seq<ItemTree>)
    requires OkItems(items) && forall i :: 0 <= i < |items| ==> PrintableItem(items[i])
    ensures var list := ItemsOf(items);
            && (list == [Star] || (list != [] && forall i :: 0 <= i < |list| ==> PlainItem(list[i])))
            && forall i :: 0 <= i < |items| ==> TreeItem(list[i]) == items[i]
  {
    hide IsName, PlainName;
    var list := ItemsOf(items);
    forall i | 0 <= i < |items|
      ensures TreeItem(list[i]) == items[i] && (items[i] != AllCols ==> PlainItem(list[i]))
    {
      assert PrintableItem(items[i]);
      match items[i]
      case AllCols =>
      case ColRef(name) => NameIs(name);
      case Call(fn, arg) =>
        assert "*" == STAR;
        if arg.Some? {
          NameIs(arg.value);
          StarNoName();
        }
    }
    if items == [AllCols] {
      assert list == [Star];
    }
  }

  lemma StarNoName()
    ensures !IsName("*")
  {}

  lemma {:induction false} SpelledPrintable(w: Text, s: Sym)
    requires Spells(w, s)
    ensures Printable(s)
  {
    hide WordKind, WellSpelled;
  }

  /** Two words for one symbol, the second with keywords in lower case: the first is that word in some letter case. */
  lemma {:induction false} SameWord(w: Text, x: Text, s: Sym)
    requires Spells(w, s) && Says(x, s)
    ensures Writes(w, x)
  {
    WordKindIs(w);
    WordKindIs(x);
    if s.Key? && IsKeyword(s.kind) {
      KeywordLetters(x);
      CaseIs(x, x);
      CaseIs(w, x);
      KindsDiffer(Lowered(w), x);
    }
    hide UpToCase, KindOfKeyword, Keyword, Lowered, IsWord, WordKind, WellSpelled, IsName;
  }

  lemma KindsDiffer(a: Text, b: Text)
    requires Keyword(b) && KindOfKeyword(a) == KindOfKeyword(b)
    ensures a == b
  {}

  /** As many tokens as symbols, before the end marker. */
  lemma SymbolsCount(toks: seq<Token>, y: seq<Sym>)
    requires toks != [] && Starts(toks, 0, y) && Peek(toks, |y|).kind == TokEOF && NoEnd(y)
    requires forall k :: 0 <= k < |toks| - 1 ==> toks[k].kind != TokEOF
    requires toks[|toks| - 1].kind == TokEOF
    ensures |toks| == |y| + 1
  {
    forall k | 0 <= k < |y|
      ensures toks[k].kind != TokEOF
    {
      assert SymOf(toks[0 + k]) == y[k];
    }
  }

  /** The tokens of laid-out words that derive a tree: the words are those of the tree's statement. */
  lemma {:induction false} DerivedWords(toks: seq<Token>, t: Tree, words: seq<Text>)
    requires Derives(toks, t) && t.items != [] && |toks| == |words| + 1 && toks[|words|].kind == TokEOF
    requires forall k :: 0 <= k < |words| ==> Spells(words[k], SymOf(toks[k])) && toks[k].kind != TokEOF
    ensures var s, style := StmtOf(t), StyleOf(t);
            && PlainStmt(s, style) && |words| == |Words(s, style)|
            && forall k :: 0 <= k < |words| ==> Writes(words[k], Words(s, style)[k])
  {
    hide OkTree, Yield, Spells, Printable, PrintableTree, StmtOf, StyleOf, PlainStmt, Words, Says, Writes, StandsFor;
    var y := Yield(t);
    YieldNoEnd(t);
    SymbolsCount(toks, y);
    forall k | 0 <= k < |y|
      ensures Printable(y[k]) && Spells(words[k], y[k])
    {
      assert SymOf(toks[0 + k]) == y[k];
      SpelledPrintable(words[k], y[k]);
    }
    TreeFrom(t);
    TreeSays(t);
    var s, style := StmtOf(t), StyleOf(t);
    WordsSpell(s, style, t);
    forall k | 0 <= k < |words|
      ensures Writes(words[k], Words(s, style)[k])
    {
      assert Says(Words(s, style)[k], y[k]);
      SameWord(words[k], Words(s, style)[k], y[k]);
    }
  }

  /** Every text that is lexed and parsed says the statement it is parsed to. */
  lemma {:induction false} SaidByText(text: Text)
    returns (style: Style, words: seq<Text>, lead: Text, gaps: seq<Text>)
    requires Lex(text, 0).Some? && ParseOf(Lex(text, 0).value).Some?
    ensures WrittenAs(text, ParseOf(Lex(text, 0).value).value, style, words, lead, gaps)
  {
    hide *;
    var toks := Lex(text, 0).value;
    LexIffReads(text, toks);
    words, lead, gaps := ReadsLaidOut(text, 0, toks);
    assert text[0..] == text;
    LastEnds(text, 0, toks);
    ParseIffDerives(toks);
    var t :| Derives(toks, t);
    DerivedItems(toks, t);
    style := StyleOf(t);
    LaidWords(text, toks, words, lead, gaps);
    DerivedWords(toks, t, words);
    Written(text, StmtOf(t), style, words, lead, gaps);
  }

  lemma DerivedItems(toks: seq<Token>, t: Tree)
    requires Derives(toks, t)
    ensures OkTree(t) && t.items != [] && StmtOf(t).items != []
  {}

  lemma LaidWords(input: Text, toks: seq<Token>, words: seq<Text>, lead: Text, gaps: seq<Text>)
    requires LaidOut(input, toks, words, lead, gaps)
    ensures |toks| == |words| + 1 && |words| == |gaps|
    ensures AllWhite(lead) && Gaps(words, gaps) && input == lead + Spread(words, gaps)
  {
    hide IsToken, Spread;
  }

  lemma Written(text: Text, s: SelectStmt, style: Style, words: seq<Text>, lead: Text, gaps: seq<Text>)
    requires PlainStmt(s, style) && s.items != [] && |words| == |Words(s, style)| && |gaps| == |words|
    requires forall k :: 0 <= k < |words| ==> Writes(words[k], Words(s, style)[k])
    requires AllWhite(lead) && Gaps(words, gaps) && text == lead + Spread(words, gaps)
    ensures WrittenAs(text, s, style, words, lead, gaps)
  {
    hide PlainStmt, Words, Writes, Gaps, Spread;
  }

  lemma {:induction false} LastEnds(input: Text, pos: nat, toks: seq<Token>)
    requires Reads(input, pos, toks)
    ensures toks[|toks| - 1].kind == TokEOF && forall k :: 0 <= k < |toks| - 1 ==> toks[k].kind != TokEOF
    decreases |toks|
  {
    hide Lexeme, Occupies, Blank;
    if |toks| > 1 {
      var t, rest := toks[0], toks[1..];
      var end := t.pos + |Lexeme(t.kind, t.value)|;
      NotTheEnd(input, t, end);
      LastEnds(input, end, rest);
      assert toks == [t] + rest;
    }
  }

  lemma NotTheEnd(input: Text, t: Token, end: nat)
    requires Occupies(input, t, end)
    ensures t.kind != TokEOF
  {
    hide Lexeme, Separates;
  }

  /** The place of the literal is not written. */
  lemma {:induction false} WrittenAnywhere(text: Text, a: SelectStmt, b: SelectStmt, style: Style,
                                           words: seq<Text>, lead: Text, gaps: seq<Text>)
    requires WrittenAs(text, a, style, words, lead, gaps) && Unplaced(a) == Unplaced(b)
    ensures WrittenAs(text, b, style, words, lead, gaps)
  {
    hide PlainItem, PlainName, PlainInt, PlainFloat, PlaceValue, ItemsWords, GroupWords, OrderWords, LimitWords;
    hide Writes, Gaps, Spread, OpText;
    assert FilterWords(a.filter) == FilterWords(b.filter);
  }

  /**
   * The query language: a text is lexed and parsed to a statement, up to the place of its literal,
   * exactly when it is that statement's words in some style, keywords in any letter case, with
   * tabs, line feeds, carriage returns and blanks between them.
   */
  lemma {:induction false} TextIff(text: Text, s: SelectStmt)
    ensures (exists style, words, lead, gaps :: WrittenAs(text, s, style, words, lead, gaps))
            <==> var toks := Lex(text, 0);
                 && toks.Some? && ParseOf(toks.value).Some?
                 && Unplaced(ParseOf(toks.value).value) == Unplaced(s)
  {
    hide *;
    if style, words, lead, gaps :| WrittenAs(text, s, style, words, lead, gaps) {
      TextSays(text, s, style, words, lead, gaps);
    }
    if Lex(text, 0).Some? && ParseOf(Lex(text, 0).value).Some? {
      var said := ParseOf(Lex(text, 0).value).value;
      if Unplaced(said) == Unplaced(s) {
        var style, words, lead, gaps := SaidByText(text);
        WrittenAnywhere(text, said, s, style, words, lead, gaps);
      }
    }
  }

  /**
   * Each of the six operators compares any name with any literal: put into any sentence, the
   * clause is derived, it is parsed to that comparison, and it is written with the operator's own
   * characters.
   */
  lemma {:induction false} Comparisons(t: Tree, w: Where)
    requires PrintableTree(t) && PlainName(w.column) && PlainLiteral(w.literal)
    requires w.op == TokEq || w.op == TokNe || w.op == TokLt || w.op == TokLe || w.op == TokGt || w.op == TokGe
    ensures var u := t.(filter := Some(w));
            && OkTree(u) && u.items != [] && StmtOf(u).filter == Some(w)
            && Derives(Bare(Yield(u)), u) && ParseOf(Bare(Yield(u))) == Some(StmtOf(u))
    ensures FilterWords(Some(w)) == ["where", w.column,
        if w.op == TokEq then "=" else if w.op == TokNe then "!=" else if w.op == TokLt then "<"
        else if w.op == TokLe then "<=" else if w.op == TokGt then ">" else ">=", LiteralText(w.literal)]
  {
    hide Yield, Derives, ParseOf, PlainName, PlainLiteral, WellSpelled, IsName, LiteralText, ItemsOf, LimitOf, Bare;
    var u := t.(filter := Some(w));
    NameIs(w.column);
    LiteralIs(w.literal);
    OperatorIs(w.op);
    ItemsThere(u.items);
    BareDerives(u);
    ParseIffDerives(Bare(Yield(u)));
  }
}
