/**
 * The query language written out: which texts say a statement, by the characters' codes and the
 * words' letters, next to the tables and predicates the lexer and the parser work with.
 */
module QueryTexts {
  import opened Types
  import opened Ast
  import opened Numerals
  import opened Lexer
  import opened Grammar
  import opened Parser
  import opened Printer

  // ----- characters and words -----

  /** Tab, line feed, carriage return and blank. */
  predicate White(c: Ch) {
    c as int == 9 || c as int == 10 || c as int == 13 || c as int == 32
  }

  predicate AllWhite(s: Text) {
    forall i :: 0 <= i < |s| ==> White(s[i])
  }

  predicate Digit(c: Ch) {
    48 <= c as int <= 57
  }

  predicate Letter(c: Ch) {
    65 <= c as int <= 90 || 97 <= c as int <= 122 || c as int == 95
  }

  predicate PlainWord(w: Text) {
    w != [] && Letter(w[0]) && forall i :: 0 <= i < |w| ==> Letter(w[i]) || Digit(w[i])
  }

  /** w is the lower-case word l with some letters in upper case. */
  predicate UpToCase(w: Text, l: Text) {
    |w| == |l| && forall i :: 0 <= i < |l| ==> w[i] == l[i] || w[i] as int + 32 == l[i] as int
  }

  predicate Keyword(x: Text) {
    || x == "select" || x == "from" || x == "where" || x == "group" || x == "order" || x == "by" || x == "limit"
    || x == "as" || x == "asc" || x == "desc" || x == "count" || x == "sum" || x == "min" || x == "max" || x == "avg"
  }

  /** A word that is no keyword in any letter case. */
  ghost predicate PlainName(w: Text) {
    PlainWord(w) && forall x :: Keyword(x) ==> !UpToCase(w, x)
  }

  /** Decimal digits, at least one. */
  predicate PlainInt(s: Text) {
    s != [] && forall i :: 0 <= i < |s| ==> Digit(s[i])
  }

  /** Digits, a point, digits. */
  predicate PlainFloat(s: Text) {
    exists dot :: 0 < dot < |s| && s[dot] == '.' && PlainInt(s[..dot]) && PlainInt(s[dot + 1..])
  }

  /** No single quote. */
  predicate PlainString(s: Text) {
    forall i :: 0 <= i < |s| ==> s[i] as int != 39
  }

  predicate PlainLiteral(t: Token) {
    || (t.kind == TokInt && PlainInt(t.value))
    || (t.kind == TokFloat && PlainFloat(t.value))
    || (t.kind == TokString && PlainString(t.value))
  }

  // ----- the words of a statement -----

  function LiteralText(t: Token): Text {
    if t.kind == TokString then "'" + t.value + "'" else t.value
  }

  /** The comparison operators; the text of anything else is empty. */
  function OpText(op: TokenKind): Text {
    match op
    case TokEq => "="
    case TokNe => "!="
    case TokLt => "<"
    case TokLe => "<="
    case TokGt => ">"
    case TokGe => ">="
    case _ => ""
  }

  function FnText(fn: AggName): Text {
    match fn
    case CountFn => "count"
    case SumFn => "sum"
    case MinFn => "min"
    case MaxFn => "max"
    case AvgFn => "avg"
  }

  function ItemWords(item: SelectItem): seq<Text> {
    match item
    case Star => ["*"]
    case Col(name) => [name]
    case Agg(fn, arg) => [FnText(fn), "(", arg, ")"]
  }

  function ItemsWords(items: seq<SelectItem>): seq<Text>
    requires items != []
  {
    if |items| == 1 then ItemWords(items[0]) else ItemWords(items[0]) + [","] + ItemsWords(items[1..])
  }

  function NamesWords(names: seq<Text>): seq<Text>
    requires names != []
  {
    if |names| == 1 then [names[0]] else [names[0]] + [","] + NamesWords(names[1..])
  }

  function FilterWords(w: Option<Where>): seq<Text> {
    if w.None? then [] else ["where", w.value.column, OpText(w.value.op), LiteralText(w.value.literal)]
  }

  function GroupWords(names: seq<Text>): seq<Text> {
    if names == [] then [] else ["group", "by"] + NamesWords(names)
  }

  /** An ascending order may be stated or not. */
  function OrderWords(o: Option<OrderBy>, stated: bool): seq<Text> {
    if o.None? then []
    else ["order", "by", o.value.column]
         + (if !o.value.ascending then ["desc"] else if stated then ["asc"] else [])
  }

  /** cap is the numeral of the row cap. */
  function LimitWords(limit: int, cap: Text): seq<Text> {
    if limit < 0 then [] else ["limit", cap]
  }

  datatype Style = Style(stated: bool, cap: Text, semi: bool)

  function Words(s: SelectStmt, style: Style): seq<Text>
    requires s.items != []
  {
    ["select"] + (ItemsWords(s.items) + (["from", s.fromTable] + (FilterWords(s.filter) + (GroupWords(s.groupBy)
      + (OrderWords(s.orderBy, style.stated) + (LimitWords(s.limit, style.cap) + if style.semi then [";"] else []))))))
  }

  /** The number a numeral denotes by the places of its digits. */
  function PlaceValue(s: Text): nat
    requires forall i :: 0 <= i < |s| ==> Digit(s[i])
  {
    if s == [] then 0
    else
      assert Digit(s[0]);
      var d: nat := s[0] as int - 48;
      d * Pow10(|s| - 1) + PlaceValue(s[1..])
  }

  function Pow10(k: nat): nat {
    if k == 0 then 1 else 10 * Pow10(k - 1)
  }

  ghost predicate PlainItem(item: SelectItem) {
    match item
    case Star => false
    case Col(name) => PlainName(name)
    case Agg(_, arg) => arg == "*" || PlainName(arg)
  }

  ghost predicate PlainWhere(w: Where) {
    PlainName(w.column) && OpText(w.op) != "" && PlainLiteral(w.literal)
  }

  /** A statement a text can say, in a given style. */
  ghost predicate PlainStmt(s: SelectStmt, style: Style) {
    && (s.items == [Star] || (s.items != [] && forall i :: 0 <= i < |s.items| ==> PlainItem(s.items[i])))
    && PlainName(s.fromTable)
    && (s.filter.Some? ==> PlainWhere(s.filter.value))
    && (forall k :: 0 <= k < |s.groupBy| ==> PlainName(s.groupBy[k]))
    && (s.orderBy.Some? ==> PlainName(s.orderBy.value.column))
    && -1 <= s.limit < 0x8000_0000_0000_0000
    && (0 <= s.limit ==> PlainInt(style.cap) && PlaceValue(style.cap) == s.limit)
  }

  /** w is the word x, a keyword in any letter case. */
  predicate Writes(w: Text, x: Text) {
    w == x || (Keyword(x) && UpToCase(w, x))
  }

  /** The words with white space behind each. */
  function Spread(words: seq<Text>, gaps: seq<Text>): Text
    requires |words| == |gaps|
  {
    if words == [] then [] else words[0] + (gaps[0] + Spread(words[1..], gaps[1..]))
  }

  /** The word b may stand right behind the word a: its first character does not go on with a. */
  predicate Apart(a: Text, b: Text)
    requires a != "" && b != ""
  {
    && (Letter(a[0]) ==> !Letter(b[0]) && !Digit(b[0])) && (Digit(a[0]) ==> !Digit(b[0]))
    && (PlainInt(a) ==> b[0] != '.') && (a == "<" || a == ">" ==> b[0] != '=')
  }

  /** Only white space stands between the words, and some wherever two could run together. */
  predicate Gaps(words: seq<Text>, gaps: seq<Text>) {
    && |gaps| == |words| && (forall k :: 0 <= k < |gaps| ==> words[k] != "" && AllWhite(gaps[k]))
    && (forall k :: 0 <= k < |gaps| - 1 && gaps[k] == [] ==> Apart(words[k], words[k + 1]))
  }

  /** The text is the statement's words in this style, keywords in any letter case, spread over white space. */
  ghost predicate WrittenAs(text: Text, s: SelectStmt, style: Style, words: seq<Text>, lead: Text, gaps: seq<Text>) {
    && PlainStmt(s, style) && |words| == |Words(s, style)|
    && (forall k :: 0 <= k < |words| ==> Writes(words[k], Words(s, style)[k]))
    && AllWhite(lead) && Gaps(words, gaps) && text == lead + Spread(words, gaps)
  }

  // ----- the tables agree with the codes -----

  lemma CharClasses(c: Ch)
    ensures (IsSpace(c) <==> White(c)) && (IsDigit(c) <==> Digit(c)) && (IsLetter(c) <==> Letter(c))
    ensures IsIdentChar(c) <==> Letter(c) || Digit(c)
    ensures NotQuote(c) <==> c as int != 39
  {}

  lemma WordIs(w: Text)
    ensures IsWord(w) <==> PlainWord(w)
  {}

  lemma DigitsAre(s: Text)
    ensures AllDigits(s) <==> PlainInt(s)
  {}

  lemma FloatIs(s: Text)
    ensures IsFloat(s) <==> PlainFloat(s)
  {
    if dot :| 0 < dot < |s| && s[dot] == '.' && AllDigits(s[..dot]) && AllDigits(s[dot + 1..]) {
      assert PlainInt(s[..dot]) && PlainInt(s[dot + 1..]);
    }
    if dot :| 0 < dot < |s| && s[dot] == '.' && PlainInt(s[..dot]) && PlainInt(s[dot + 1..]) {
      assert AllDigits(s[..dot]) && AllDigits(s[dot + 1..]);
    }
  }

  lemma KeywordLetters(x: Text)
    requires Keyword(x)
    ensures |x| > 0 && forall i :: 0 <= i < |x| ==> 'a' <= x[i] <= 'z'
  {}

  /** Agreeing up to case with a word of lower-case letters is being it in lower case. */
  lemma {:induction false} CaseIs(w: Text, x: Text)
    requires forall i :: 0 <= i < |x| ==> 'a' <= x[i] <= 'z'
    ensures UpToCase(w, x) <==> Lowered(w) == x
  {
    if UpToCase(w, x) {
      forall i | 0 <= i < |x|
        ensures Lower(w[i]) == x[i]
      {
        assert w[i] == x[i] || w[i] as int + 32 == x[i] as int;
      }
    }
    if Lowered(w) == x {
      forall i | 0 <= i < |x|
        ensures w[i] == x[i] || w[i] as int + 32 == x[i] as int
      {
        assert Lower(w[i]) == x[i];
      }
    }
  }

  /** The kind a keyword of the list has. */
  function KindOfKeyword(x: Text): TokenKind {
    if x == "select" then TokSelect else if x == "from" then TokFrom else if x == "where" then TokWhere
    else if x == "group" then TokGroup else if x == "by" then TokBy else if x == "as" then TokAs
    else if x == "count" then TokCount else if x == "sum" then TokSum else if x == "min" then TokMin
    else if x == "max" then TokMax else if x == "avg" then TokAvg else if x == "order" then TokOrder
    else if x == "asc" then TokAsc else if x == "desc" then TokDesc else if x == "limit" then TokLimit
    else TokIdent
  }

  lemma {:induction false} KeywordTable(l: Text)
    ensures KindOfLower(l) == KindOfKeyword(l)
  {
    if |l| == 3 {
      ThreeLetters(l);
    } else if |l| == 5 {
      FiveLetters(l);
    } else {
      OtherLengths(l);
    }
    hide KindOfLower, KindOfKeyword;
  }

  lemma ThreeLetters(l: Text)
    requires |l| == 3
    ensures KindOfLower(l) == KindOfKeyword(l)
  {}

  lemma FiveLetters(l: Text)
    requires |l| == 5
    ensures KindOfLower(l) == KindOfKeyword(l)
  {}

  lemma OtherLengths(l: Text)
    requires |l| != 3 && |l| != 5
    ensures KindOfLower(l) == KindOfKeyword(l)
  {}

  lemma {:induction false} KeywordsHaveKinds(l: Text)
    ensures Keyword(l) <==> KindOfKeyword(l) != TokIdent
  {}

  /** A word is a keyword exactly when it is one of the list up to case, and then it has that keyword's kind. */
  lemma {:induction false} WordKindIs(w: Text)
    ensures WordKind(w) == KindOfKeyword(Lowered(w))
    ensures WordKind(w) == TokIdent <==> forall x :: Keyword(x) ==> !UpToCase(w, x)
    ensures forall x :: Keyword(x) && UpToCase(w, x) ==> WordKind(w) == KindOfKeyword(x)
  {
    hide UpToCase, Lowered, KindOfLower, KindOfKeyword, Keyword;
    KeywordTable(Lowered(w));
    KeywordsHaveKinds(Lowered(w));
    forall x | Keyword(x)
      ensures UpToCase(w, x) <==> Lowered(w) == x
    {
      KeywordLetters(x);
      CaseIs(w, x);
    }
  }

  lemma {:induction false} NameIs(w: Text)
    ensures PlainName(w) <==> IsName(w)
  {
    hide WordKind, UpToCase, Keyword, IsWord, PlainWord;
    WordIs(w);
    WordKindIs(w);
  }

  lemma LiteralIs(t: Token)
    ensures PlainLiteral(t) <==> t.kind.IsLiteral() && WellSpelled(t.kind, t.value)
    ensures LiteralText(t) == Lexeme(t.kind, t.value)
  {
    DigitsAre(t.value);
    FloatIs(t.value);
    hide AllDigits, PlainInt, IsFloat, PlainFloat;
    assert "'" == ['\''];
  }

  // ----- words as symbols -----

  /** The word w stands for the symbol s. */
  ghost predicate Spells(w: Text, s: Sym) {
    match s
    case Key(kind) =>
      (IsKeyword(kind) && IsWord(w) && WordKind(w) == kind) || (IsSymbol(kind) && w == Spelling(kind))
    case Name(text) => w == text && IsName(text)
    case Lit(t) => t.kind.IsLiteral() && WellSpelled(t.kind, t.value) && w == Lexeme(t.kind, t.value)
  }

  ghost predicate AllSpell(words: seq<Text>, y: seq<Sym>) {
    |words| == |y| && forall k :: 0 <= k < |y| ==> Spells(words[k], y[k])
  }

  /** The words stand for the symbols, keywords in lower case. */
  ghost predicate AllSay(words: seq<Text>, y: seq<Sym>) {
    |words| == |y| && forall k :: 0 <= k < |y| ==> Says(words[k], y[k])
  }

  ghost predicate Says(w: Text, s: Sym) {
    Spells(w, s) && (s.Key? && IsKeyword(s.kind) ==> Keyword(w))
  }

  lemma SayConcat(a: seq<Text>, x: seq<Sym>, b: seq<Text>, y: seq<Sym>)
    requires AllSay(a, x) && AllSay(b, y)
    ensures AllSay(a + b, x + y)
  {}

  lemma KindIsKeyword(x: Text)
    ensures KindOfKeyword(x) == TokIdent || IsKeyword(KindOfKeyword(x))
  {}

  lemma {:induction false} KeywordSpells(x: Text)
    requires Keyword(x)
    ensures Spells(x, Key(KindOfKeyword(x))) && IsKeyword(KindOfKeyword(x))
  {
    hide WordKind, Lowered, KindOfKeyword, Keyword, IsWord;
    KeywordLetters(x);
    WordKindIs(x);
    KeywordsHaveKinds(x);
    KindIsKeyword(x);
    CasesAreWords(x, x);
  }

  /** A keyword keeps its symbol in any letter case. */
  lemma {:induction false} AnyCase(w: Text, x: Text, s: Sym)
    requires Writes(w, x) && Spells(x, s)
    ensures Spells(w, s)
  {
    if w != x {
      KeywordLetters(x);
      WordKindIs(w);
      WordKindIs(x);
      assert UpToCase(x, x);
      CasesAreWords(w, x);
      hide WordKind, UpToCase, Lowered, KindOfKeyword, Keyword, IsWord, AllDigits, IsFloat;
      NotSymbol(x, s);
    }
  }

  lemma CasesAreWords(w: Text, x: Text)
    requires UpToCase(w, x) && |x| > 0 && forall i :: 0 <= i < |x| ==> 'a' <= x[i] <= 'z'
    ensures IsWord(w)
  {
    forall i | 0 <= i < |w|
      ensures IsLetter(w[i])
    {
      assert w[i] == x[i] || w[i] as int + 32 == x[i] as int;
    }
  }

  /** A word of lower-case letters that has a keyword's kind spells nothing but that keyword. */
  lemma {:induction false} NotSymbol(x: Text, s: Sym)
    requires Spells(x, s) && WordKind(x) != TokIdent
    requires |x| > 0 && forall i :: 0 <= i < |x| ==> 'a' <= x[i] <= 'z'
    ensures s == Key(WordKind(x)) && IsKeyword(WordKind(x))
  {
    hide WordKind;
    assert 'a' <= x[0] <= 'z';
  }

  // ----- from words to tokens -----

  function TokenFor(w: Text, s: Sym, pos: nat): Token {
    match s
    case Key(kind) => Token(kind, w, pos)
    case Name(_) => Token(TokIdent, w, pos)
    case Lit(t) => t.(pos := pos)
  }

  lemma {:induction false} TokenForIs(w: Text, s: Sym, pos: nat)
    requires Spells(w, s)
    ensures var t := TokenFor(w, s, pos);
            t.pos == pos && WellSpelled(t.kind, t.value) && Lexeme(t.kind, t.value) == w
  {
    hide WordKind, AllDigits;
  }

  /** A character ends the token exactly when it is white space or may stand right behind its word. */
  lemma {:induction false} EndsToken(w: Text, s: Sym, c: Ch)
    requires Spells(w, s)
    ensures w != "" && (Separates(TokenFor(w, s, 0).kind, c) <==> Apart(w, [c]))
    ensures White(c) ==> Apart(w, [c])
  {
    CharClasses(c);
    StartsWord(w, s);
    hide WordKind, AllDigits, IsWord, IsName, IsFloat, PlainInt, WellSpelled, Spells;
  }

  /** What the first character of a word says of its symbol. */
  lemma {:induction false} StartsWord(w: Text, s: Sym)
    requires Spells(w, s)
    ensures w != ""
    ensures Letter(w[0]) <==> s.Name? || (s.Key? && !IsSymbol(s.kind))
    ensures Digit(w[0]) <==> s.Lit? && s.tok.kind != TokString
    ensures PlainInt(w) <==> s.Lit? && s.tok.kind == TokInt
    ensures w == "<" || w == ">" <==> s == Key(TokLt) || s == Key(TokGt)
    ensures s.Key? ==> IsKeyword(s.kind) || IsSymbol(s.kind)
    ensures s.Lit? ==> s.tok.kind.IsLiteral()
  {
    hide WordKind;
    if s.Lit? && s.tok.kind == TokFloat {
      var dot :| 0 < dot < |w| && w[dot] == '.' && AllDigits(w[..dot]) && AllDigits(w[dot + 1..]);
      assert IsDigit(w[..dot][0]) && !Digit(w[dot]);
    }
  }

  /** The tokens of the words where they stand, and the end marker. */
  function Placing(words: seq<Text>, y: seq<Sym>, gaps: seq<Text>, pos: nat): (toks: seq<Token>)
    requires |words| == |y| == |gaps|
    ensures |toks| == |words| + 1
  {
    if words == [] then [Token(TokEOF, [], pos)]
    else
      [TokenFor(words[0], y[0], pos)] + Placing(words[1..], y[1..], gaps[1..], pos + |words[0]| + |gaps[0]|)
  }

  lemma {:induction false} SkipWhite(input: Text, pos: nat, end: nat, toks: seq<Token>)
    requires pos <= end && Reads(input, end, toks) && AllWhite(input[pos..end])
    ensures Reads(input, pos, toks)
  {
    hide Occupies;
    forall i | pos <= i < end
      ensures IsSpace(input[i])
    {
      assert White(input[pos..end][i - pos]);
      CharClasses(input[i]);
    }
  }

  /** A word with white space or the next word behind it stands in the text as its token. */
  lemma {:induction false} WordOccupies(input: Text, pos: nat, w: Text, s: Sym, tail: Text)
    requires Spells(w, s) && pos <= |input| && input[pos..] == w + tail
    requires tail == [] || (w != "" && Apart(w, [tail[0]]))
    ensures pos + |w| <= |input| && input[pos + |w|..] == tail
    ensures Occupies(input, TokenFor(w, s, pos), pos + |w|)
  {
    hide WellSpelled, Separates, Lexeme, Spells;
    TokenForIs(w, s, pos);
    SliceTail(input, pos, w, tail);
    if tail != [] {
      assert input[pos + |w|] == input[pos + |w|..][0];
      EndsToken(w, s, tail[0]);
    }
  }

  /** What stands behind the first word. */
  lemma {:induction false} TailStarts(words: seq<Text>, y: seq<Sym>, gaps: seq<Text>)
    requires AllSpell(words, y) && Gaps(words, gaps) && words != []
    ensures var tail := gaps[0] + Spread(words[1..], gaps[1..]);
            words[0] != "" && (tail == [] || Apart(words[0], [tail[0]]))
  {
    if gaps[0] != [] {
      EndsToken(words[0], y[0], gaps[0][0]);
    }
    hide Spells;
    if gaps[0] == [] && |words| > 1 {
      assert Apart(words[0], words[1]);
      assert Spread(words[1..], gaps[1..]) == words[1] + (gaps[1] + Spread(words[1..][1..], gaps[1..][1..]));
    }
  }

  lemma RestGapped(words: seq<Text>, y: seq<Sym>, gaps: seq<Text>)
    requires AllSpell(words, y) && Gaps(words, gaps) && words != []
    ensures |y| == |gaps| == |words| && Spells(words[0], y[0]) && AllWhite(gaps[0])
    ensures AllSpell(words[1..], y[1..]) && Gaps(words[1..], gaps[1..])
  {
    hide Spells, AllWhite, Apart;
  }

  lemma NoneGapped(words: seq<Text>, y: seq<Sym>, gaps: seq<Text>)
    requires AllSpell(words, y) && Gaps(words, gaps)
    ensures |y| == |gaps| == |words|
  {}

  /** A text of spelled words with white space between reads as their tokens. */
  lemma {:induction false} SpreadReads(input: Text, pos: nat, words: seq<Text>, y: seq<Sym>, gaps: seq<Text>)
    requires AllSpell(words, y) && Gaps(words, gaps) && pos <= |input| && input[pos..] == Spread(words, gaps)
    ensures Reads(input, pos, Placing(words, y, gaps, pos))
    decreases |words|
  {
    hide *;
    NoneGapped(words, y, gaps);
    if words == [] {
      NothingPlaced(pos);
      ReadsEnd(input, pos);
    } else {
      SpreadStep(words, gaps);
      PlacingStep(words, y, gaps, pos);
      var rest := Spread(words[1..], gaps[1..]);
      RestGapped(words, y, gaps);
      TailStarts(words, y, gaps);
      WordOccupies(input, pos, words[0], y[0], gaps[0] + rest);
      var end := pos + |words[0]|;
      SliceTail(input, end, gaps[0], rest);
      SpreadReads(input, end + |gaps[0]|, words[1..], y[1..], gaps[1..]);
      var toks := Placing(words[1..], y[1..], gaps[1..], end + |gaps[0]|);
      GapSkipped(input, end, gaps[0]);
      SkipWhite(input, end, end + |gaps[0]|, toks);
      TokenForIs(words[0], y[0], pos);
      ReadsFirst(input, TokenFor(words[0], y[0], pos), end, toks);
    }
  }

  lemma NothingPlaced(pos: nat)
    ensures Spread([], []) == [] && Placing([], [], [], pos) == [Token(TokEOF, [], pos)]
  {}

  lemma SpreadStep(words: seq<Text>, gaps: seq<Text>)
    requires |words| == |gaps| && words != []
    ensures Spread(words, gaps) == words[0] + (gaps[0] + Spread(words[1..], gaps[1..]))
  {}

  lemma PlacingStep(words: seq<Text>, y: seq<Sym>, gaps: seq<Text>, pos: nat)
    requires |words| == |y| == |gaps| && words != []
    ensures Placing(words, y, gaps, pos)
            == [TokenFor(words[0], y[0], pos)] + Placing(words[1..], y[1..], gaps[1..], pos + |words[0]| + |gaps[0]|)
  {}

  lemma GapSkipped(input: Text, end: nat, gap: Text)
    requires end <= |input| && gap <= input[end..] && AllWhite(gap)
    ensures end + |gap| <= |input| && AllWhite(input[end..end + |gap|])
  {
    assert input[end..end + |gap|] == gap;
  }

  // ----- numerals -----

  lemma {:induction false} PlaceSnoc(s: Text, d: Ch)
    requires (forall i :: 0 <= i < |s| ==> Digit(s[i])) && Digit(d)
    ensures forall i :: 0 <= i < |s + [d]| ==> Digit((s + [d])[i])
    ensures PlaceValue(s + [d]) == 10 * PlaceValue(s) + (d as int - 48)
  {
    if s == [] {
      assert s + [d] == [d];
      assert PlaceValue([d][1..]) == 0;
    } else {
      assert (s + [d])[1..] == s[1..] + [d];
      PlaceSnoc(s[1..], d);
      assert Digit(s[0]);
      var first: nat := s[0] as int - 48;
      TenTimes(first, Pow10(|s| - 1));
    }
  }

  lemma TenTimes(a: nat, b: nat)
    ensures a * (10 * b) == 10 * (a * b)
  {}

  /** The number a numeral is parsed to is the one its digits denote by their places. */
  lemma {:induction false} DigitsArePlaces(s: Text)
    requires forall i :: 0 <= i < |s| ==> Digit(s[i])
    ensures (forall i :: 0 <= i < |s| ==> IsDigit(s[i])) && Digits(s) == PlaceValue(s)
  {
    if s != [] {
      var n := |s| - 1;
      SplitText(s);
      DigitsArePlaces(s[..n]);
      PlaceSnoc(s[..n], s[n]);
      assert IsDigit(s[n]);
    }
  }

  lemma SplitText(s: Text)
    requires s != []
    ensures s[..|s| - 1] + [s[|s| - 1]] == s
  {}

  /** ParseInt reads an optional sign and digits as the number they denote, and refuses what needs more than 64 bits. */
  lemma {:induction false} NumeralIs(s: Text)
    requires PlainInt(s)
    ensures ParseI64(s) == if PlaceValue(s) < 0x8000_0000_0000_0000 then Some(PlaceValue(s)) else None
    ensures ParseI64("+" + s) == ParseI64(s)
    ensures var n: int := PlaceValue(s); ParseI64("-" + s) == if n <= 0x8000_0000_0000_0000 then Some(-n) else None
  {
    hide PlaceValue, Digits;
    DigitsAre(s);
    DigitsArePlaces(s);
    assert IsDigit(s[0]);
    assert ("+" + s)[1..] == s && ("-" + s)[1..] == s;
  }

  // ----- from words to the statement -----

  function TreeIn(s: SelectStmt, style: Style): Tree {
    Tree(seq(|s.items|, i requires 0 <= i < |s.items| => TreeItem(s.items[i])), s.fromTable, s.filter, s.groupBy,
         if s.orderBy.None? then None
         else Some((s.orderBy.value.column,
                    if !s.orderBy.value.ascending then Descending else if style.stated then Ascending else Unstated)),
         if s.limit < 0 then None else Some(Token(TokInt, style.cap, 0)), style.semi)
  }

  /** The tree stands for the statement in this style, its LIMIT token wherever it may stand. */
  predicate StandsFor(t: Tree, s: SelectStmt, style: Style) {
    && t.items != [] && t == TreeIn(s, style).(limit := t.limit) && (t.limit.Some? <==> 0 <= s.limit)
    && (t.limit.Some? ==> t.limit.value.kind == TokInt && t.limit.value.value == style.cap)
  }

  lemma {:induction false} TreeInPrintable(s: SelectStmt, style: Style)
    requires PlainStmt(s, style)
    ensures var t := TreeIn(s, style);
            PrintableTree(t) && t.items != [] && OkTree(t) && StmtOf(t) == s && StandsFor(t, s, style)
  {
    hide IsName, PlainName, ParseI64, IsFloat, PlainLiteral, PlaceValue, PlainInt;
    var t := TreeIn(s, style);
    NameIs(s.fromTable);
    if s.filter.Some? {
      NameIs(s.filter.value.column);
      LiteralIs(s.filter.value.literal);
      OperatorIs(s.filter.value.op);
    }
    if s.orderBy.Some? {
      NameIs(s.orderBy.value.column);
    }
    if 0 <= s.limit {
      NumeralIs(style.cap);
      DigitsAre(style.cap);
    }
    forall k | 0 <= k < |s.groupBy|
      ensures IsName(s.groupBy[k])
    {
      NameIs(s.groupBy[k]);
    }
    ItemsIn(s.items);
    assert ItemsOf(t.items) == s.items;
  }

  lemma {:induction false} ItemsIn(items: seq<SelectItem>)
    requires items == [Star] || (items != [] && forall i :: 0 <= i < |items| ==> PlainItem(items[i]))
    ensures var trees := seq(|items|, i requires 0 <= i < |items| => TreeItem(items[i]));
            OkItems(trees) && forall i :: 0 <= i < |items| ==> PrintableItem(trees[i]) && ItemOf(trees[i]) == items[i]
  {
    hide IsName, PlainName;
    var trees := seq(|items|, i requires 0 <= i < |items| => TreeItem(items[i]));
    if items == [Star] {
      assert trees == [AllCols];
    } else {
      forall i | 0 <= i < |items|
        ensures PrintableItem(trees[i]) && ItemOf(trees[i]) == items[i] && trees[i] != AllCols
      {
        assert PlainItem(items[i]);
        if items[i].Col? {
          NameIs(items[i].name);
        } else {
          NameIs(items[i].arg);
          assert "*" == STAR;
        }
      }
    }
  }

  /** Exactly the six operators written out are comparators. */
  lemma OperatorIs(op: TokenKind)
    ensures op.IsComparator() <==> OpText(op) != ""
    ensures op.IsComparator() ==> Spells(OpText(op), Key(op))
  {}

  // ----- the words spell the sentence -----

  lemma FnIs(fn: AggName)
    ensures Says(FnText(fn), Key(FnKind(fn)))
  {
    KeywordSpells(FnText(fn));
    hide WordKind, IsWord;
  }

  lemma MarksSay()
    ensures Says("*", Key(TokStar)) && Says("(", Key(TokLParen)) && Says(")", Key(TokRParen))
  {}

  lemma NameSays(w: Text)
    requires PlainName(w)
    ensures Says(w, Name(w))
  {
    hide PlainName, IsName;
    NameIs(w);
  }

  lemma {:induction false} ItemSpells(item: SelectItem)
    requires item == Star || PlainItem(item)
    ensures AllSay(ItemWords(item), ItemYield(TreeItem(item)))
  {
    hide IsName, PlainName, Says;
    MarksSay();
    match item
    case Star =>
    case Col(name) => NameSays(name);
    case Agg(fn, arg) =>
      FnIs(fn);
      assert "*" == STAR;
      if arg != "*" {
        NameSays(arg);
      }
  }

  lemma {:induction false} ItemsSpell(items: seq<SelectItem>, trees: seq<ItemTree>)
    requires items != [] && forall i :: 0 <= i < |items| ==> items[i] == Star || PlainItem(items[i])
    requires |trees| == |items| && forall i :: 0 <= i < |items| ==> trees[i] == TreeItem(items[i])
    ensures AllSay(ItemsWords(items), ItemsYield(trees))
  {
    hide PlainItem, ItemWords, ItemYield, TreeItem, AllSay;
    ItemSpells(items[0]);
    if |items| > 1 {
      ItemsSpell(items[1..], trees[1..]);
      CommaSpells();
      SayConcat(ItemWords(items[0]), ItemYield(trees[0]), [","], [Key(TokComma)]);
      SayConcat(ItemWords(items[0]) + [","], ItemYield(trees[0]) + [Key(TokComma)],
                  ItemsWords(items[1..]), ItemsYield(trees[1..]));
    }
  }

  lemma CommaSpells()
    ensures AllSay([","], [Key(TokComma)]) && AllSay([";"], [Key(TokSemi)])
  {}

  lemma {:induction false} NamesSpell(names: seq<Text>)
    requires names != [] && forall k :: 0 <= k < |names| ==> PlainName(names[k])
    ensures AllSay(NamesWords(names), NamesYield(names))
  {
    hide PlainName, IsName, AllSay;
    assert AllSay([names[0]], [Name(names[0])]) by {
      NameIs(names[0]);
      OneSpells(names[0], Name(names[0]));
    }
    if |names| > 1 {
      NamesSpell(names[1..]);
      CommaSpells();
      SayConcat([names[0]], [Name(names[0])], [","], [Key(TokComma)]);
      SayConcat([names[0]] + [","], [Name(names[0])] + [Key(TokComma)], NamesWords(names[1..]), NamesYield(names[1..]));
    }
  }

  lemma OneSpells(w: Text, s: Sym)
    requires Says(w, s)
    ensures AllSay([w], [s])
  {}

  lemma KeySpells(x: Text, kind: TokenKind)
    requires Keyword(x) && kind == KindOfKeyword(x)
    ensures AllSay([x], [Key(kind)])
  {
    hide *;
    KeywordSpells(x);
    OneSpells(x, Key(kind));
  }

  lemma TwoKeys(a: Text, ka: TokenKind, b: Text, kb: TokenKind)
    requires Keyword(a) && ka == KindOfKeyword(a) && Keyword(b) && kb == KindOfKeyword(b)
    ensures AllSay([a, b], [Key(ka), Key(kb)])
  {
    hide *;
    KeySpells(a, ka);
    KeySpells(b, kb);
    SayConcat([a], [Key(ka)], [b], [Key(kb)]);
    assert [a] + [b] == [a, b] && [Key(ka)] + [Key(kb)] == [Key(ka), Key(kb)];
  }

  lemma {:induction false} FilterSpells(w: Option<Where>)
    requires w.Some? ==> PlainWhere(w.value)
    ensures AllSay(FilterWords(w), FilterYield(w))
  {
    hide WordKind, IsWord, IsName, PlainName, UpToCase, AllDigits, IsFloat, WellSpelled, PlainLiteral;
    if w.Some? {
      KeySpells("where", TokWhere);
      NameIs(w.value.column);
      OperatorIs(w.value.op);
      LiteralIs(w.value.literal);
    }
  }

  lemma {:induction false} GroupSpells(names: seq<Text>)
    requires forall k :: 0 <= k < |names| ==> PlainName(names[k])
    ensures AllSay(GroupWords(names), GroupYield(names))
  {
    hide AllSay, PlainName, NamesWords, NamesYield;
    if names != [] {
      TwoKeys("group", TokGroup, "by", TokBy);
      NamesSpell(names);
      SayConcat(["group", "by"], [Key(TokGroup), Key(TokBy)], NamesWords(names), NamesYield(names));
    } else {
      NothingSpells();
    }
  }

  lemma NothingSpells()
    ensures AllSay([], [])
  {}

  lemma {:induction false} OrderSpells(s: SelectStmt, style: Style)
    requires s.orderBy.Some? ==> PlainName(s.orderBy.value.column)
    ensures AllSay(OrderWords(s.orderBy, style.stated), OrderYield(TreeIn(s, style).orderBy))
  {
    hide WordKind, IsWord, IsName, PlainName, UpToCase;
    if s.orderBy.Some? {
      TwoKeys("order", TokOrder, "by", TokBy);
      NameIs(s.orderBy.value.column);
      KeySpells("asc", TokAsc);
      KeySpells("desc", TokDesc);
    }
  }

  lemma {:induction false} LimitSpells(s: SelectStmt, style: Style, limit: Option<Token>)
    requires 0 <= s.limit ==> PlainInt(style.cap)
    requires limit.Some? <==> 0 <= s.limit
    requires limit.Some? ==> limit.value.kind == TokInt && limit.value.value == style.cap
    ensures AllSay(LimitWords(s.limit, style.cap), LimitYield(limit))
  {
    hide WordKind, IsWord, AllDigits, PlainInt, UpToCase;
    if 0 <= s.limit {
      KeySpells("limit", TokLimit);
      DigitsAre(style.cap);
    }
  }

  lemma {:induction false} WordsSpell(s: SelectStmt, style: Style, t: Tree)
    requires PlainStmt(s, style) && StandsFor(t, s, style)
    ensures s.items != [] && AllSay(Words(s, style), Yield(t))
  {
    hide AllSay, PlainName, PlainItem, PlainWhere, PlainInt, PlaceValue, ItemsWords, ItemsYield;
    hide FilterWords, FilterYield;
    hide GroupWords, GroupYield, OrderWords, OrderYield, LimitWords, LimitYield, Says, Spells, WordKind, Keyword;
    var semi := if style.semi then [";"] else [];
    CommaSpells();
    NothingSpells();
    LimitSpells(s, style, t.limit);
    OrderSpells(s, style);
    GroupSpells(s.groupBy);
    FilterSpells(s.filter);
    ItemsSpell(s.items, t.items);
    SelectFrom(s.fromTable);
    SayConcat(LimitWords(s.limit, style.cap), LimitYield(t.limit), semi, SemiYield(t.semi));
    var afterOrder := LimitWords(s.limit, style.cap) + semi;
    SayConcat(OrderWords(s.orderBy, style.stated), OrderYield(t.orderBy), afterOrder, AfterOrder(t));
    var afterGroup := OrderWords(s.orderBy, style.stated) + afterOrder;
    SayConcat(GroupWords(s.groupBy), GroupYield(t.groupBy), afterGroup, AfterGroup(t));
    var afterFilter := GroupWords(s.groupBy) + afterGroup;
    SayConcat(FilterWords(s.filter), FilterYield(t.filter), afterFilter, AfterFilter(t));
    var afterTable := FilterWords(s.filter) + afterFilter;
    SayConcat(["from", s.fromTable], [Key(TokFrom), Name(t.table)], afterTable, AfterTable(t));
    var afterItems := ["from", s.fromTable] + afterTable;
    SayConcat(ItemsWords(s.items), ItemsYield(t.items), afterItems, AfterItems(t));
    SayConcat(["select"], [Key(TokSelect)], ItemsWords(s.items) + afterItems, ItemsYield(t.items) + AfterItems(t));
  }

  lemma SelectFrom(table: Text)
    requires PlainName(table)
    ensures AllSay(["select"], [Key(TokSelect)]) && AllSay(["from", table], [Key(TokFrom), Name(table)])
  {
    hide WordKind, IsWord, IsName, PlainName, UpToCase;
    KeySpells("select", TokSelect);
    KeySpells("from", TokFrom);
    NameIs(table);
  }

  // ----- the statement a text says -----

  /** The parser sees the symbols of the tokens and nothing else of them. */
  lemma {:induction false} ParseBySyms(a: seq<Token>, b: seq<Token>)
    requires |a| == |b| && forall k :: 0 <= k < |a| ==> SymOf(a[k]) == SymOf(b[k]) && a[k].kind == b[k].kind
    ensures ParseOf(a) == ParseOf(b)
  {
    hide *;
    ParseIffDerives(a);
    ParseIffDerives(b);
    forall t
      ensures Derives(a, t) <==> Derives(b, t)
    {
      SymsDerive(a, b, t);
    }
  }

  lemma {:induction false} SymsDerive(a: seq<Token>, b: seq<Token>, t: Tree)
    requires |a| == |b| && forall k :: 0 <= k < |a| ==> SymOf(a[k]) == SymOf(b[k]) && a[k].kind == b[k].kind
    ensures Derives(a, t) <==> Derives(b, t)
  {
    hide Yield, OkTree, SymOf;
  }

  /** The placed tokens with every keyword in its usual spelling. */
  function Usual(toks: seq<Token>, y: seq<Sym>): (r: seq<Token>)
    requires |toks| == |y| + 1
    ensures |r| == |toks|
  {
    seq(|y|, k requires 0 <= k < |y| => if y[k].Key? then toks[k].(value := Spelling(y[k].kind)) else toks[k])
    + [toks[|y|]]
  }

  lemma {:induction false} PlacingAt(words: seq<Text>, y: seq<Sym>, gaps: seq<Text>, pos: nat, k: nat)
    requires |words| == |y| == |gaps| && k <= |y|
    ensures var t := Placing(words, y, gaps, pos)[k];
            if k < |y| then t == TokenFor(words[k], y[k], t.pos) else t.kind == TokEOF && t.value == []
  {
    hide TokenFor;
    if words != [] && k > 0 {
      PlacingAt(words[1..], y[1..], gaps[1..], pos + |words[0]| + |gaps[0]|, k - 1);
    } else if words != [] {
      assert TokenFor(words[0], y[0], pos).pos == pos by {
        TokenForPos(words[0], y[0], pos);
      }
    }
  }

  lemma TokenForPos(w: Text, s: Sym, pos: nat)
    ensures TokenFor(w, s, pos).pos == pos
  {}

  /** A placed token carries its symbol; an ordinary spelling carries it too, and so does the bare token. */
  lemma {:induction false} TokenSyms(w: Text, s: Sym, t: Token)
    requires Spells(w, s) && t == TokenFor(w, s, t.pos)
    ensures var u := if s.Key? then t.(value := Spelling(s.kind)) else t;
            && SymOf(u) == SymOf(t) && u.kind == t.kind
            && u.kind == KindOf(s) && u.value == ValueOf(s)
  {
    hide WordKind, Spelling, IsWord, AllDigits, IsFloat;
  }

  /** A text of words that spell a sentence parses to its statement, up to the place of the literal. */
  lemma {:induction false} SpelledParses(t: Tree, words: seq<Text>, gaps: seq<Text>, pos: nat)
    requires PrintableTree(t) && OkTree(t) && t.items != [] && AllSpell(words, Yield(t)) && |gaps| == |words|
    ensures var toks := Placing(words, Yield(t), gaps, pos);
            ParseOf(toks).Some? && Unplaced(ParseOf(toks).value) == Unplaced(StmtOf(t))
  {
    hide PrintableTree, OkTree, Yield, Spells, StmtOf, Unplaced, ParseOf, SymOf, KindOf, ValueOf, TokenFor, Spelling;
    var y := Yield(t);
    var toks := Placing(words, y, gaps, pos);
    var usual := Usual(toks, y);
    forall k | 0 <= k <= |y|
      ensures SymOf(toks[k]) == SymOf(usual[k]) && toks[k].kind == usual[k].kind
      ensures usual[k].kind == Bare(y)[k].kind && usual[k].value == Bare(y)[k].value
    {
      PlacingAt(words, y, gaps, pos, k);
      if k < |y| {
        TokenSyms(words[k], y[k], toks[k]);
        BareToken(y[k]);
      }
    }
    ParseBySyms(toks, usual);
    BareDerives(t);
    ParseIffDerives(Bare(y));
    ParseIgnoresPositions(Bare(y), usual);
  }

  lemma BareToken(s: Sym)
    ensures s.Lit? ==> s.tok.kind == KindOf(s) && s.tok.value == ValueOf(s)
  {}

  /** A statement written out is lexed and parsed to that statement, up to the place of its literal. */
  lemma {:induction false} TextSays(text: Text, s: SelectStmt, style: Style, words: seq<Text>, lead: Text,
                                    gaps: seq<Text>)
    requires WrittenAs(text, s, style, words, lead, gaps)
    ensures var toks := Lex(text, 0);
            && toks.Some? && ParseOf(toks.value).Some?
            && Unplaced(ParseOf(toks.value).value) == Unplaced(s)
  {
    hide PlainStmt, Words, Yield, Spells, Writes, ParseOf, Unplaced, Lex, Reads, Spread, Placing, PrintableTree, Gaps;
    hide StmtOf, OkTree, TreeIn, AllWhite, StandsFor;
    var t := TreeIn(s, style);
    SaysItems(s, style);
    GapsMatch(words, gaps);
    TreeInPrintable(s, style);
    WordsSpell(s, style, t);
    forall k | 0 <= k < |words|
      ensures Spells(words[k], Yield(t)[k])
    {
      assert Says(Words(s, style)[k], Yield(t)[k]);
      AnyCase(words[k], Words(s, style)[k], Yield(t)[k]);
    }
    var toks := Placing(words, Yield(t), gaps, |lead|);
    assert text[|lead|..] == Spread(words, gaps) && text[0..|lead|] == lead;
    SpreadReads(text, |lead|, words, Yield(t), gaps);
    SkipWhite(text, 0, |lead|, toks);
    LexIffReads(text, toks);
    SpelledParses(t, words, gaps, |lead|);
  }

  lemma SaysItems(s: SelectStmt, style: Style)
    requires PlainStmt(s, style)
    ensures s.items != []
  {}

  lemma GapsMatch(words: seq<Text>, gaps: seq<Text>)
    requires Gaps(words, gaps)
    ensures |gaps| == |words|
  {}
}
