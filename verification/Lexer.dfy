/**
 * sql/lexer.go: from the query text to tokens. The lexer accepts exactly the texts that read as
 * a token list, and loses nothing of them.
 */
module Lexer {
  import opened Types
  import opened Ast
  import opened Numerals

  // ----- character classes -----

  predicate IsSpace(c: Ch) {
    c == ' ' || c == '\t' || c == '\n' || c == '\r'
  }

  predicate IsLetter(c: Ch) {
    'a' <= c <= 'z' || 'A' <= c <= 'Z' || c == '_'
  }

  predicate IsIdentChar(c: Ch) {
    IsLetter(c) || IsDigit(c)
  }

  predicate NotQuote(c: Ch) {
    c != '\''
  }

  predicate IsWord(w: Text) {
    w != [] && IsLetter(w[0]) && forall i :: 0 <= i < |w| ==> IsIdentChar(w[i])
  }

  // ----- keywords -----

  function Lower(c: Ch): Ch {
    if 'A' <= c <= 'Z' then (c as int + 32) as char else c
  }

  function Lowered(w: Text): (l: Text)
    ensures |l| == |w|
  {
    seq(|w|, i requires 0 <= i < |w| => Lower(w[i]))
  }

  /** The byte with the bit of value 32 set. */
  function SetBit5(c: Ch): Ch {
    if c as int / 32 % 2 == 0 then (c as int + 32) as char else c
  }

  /** The kind of a word: a keyword exactly when its lower-case form is one, else an identifier. */
  function WordKind(w: Text): TokenKind {
    KindOfLower(Lowered(w))
  }

  function KindOfLower(l: Text): TokenKind {
    match |l|
    case 2 => if l == "as" then TokAs else if l == "by" then TokBy else TokIdent
    case 3 =>
      if l == "asc" then TokAsc
      else if l == "avg" then TokAvg
      else if l == "max" then TokMax
      else if l == "min" then TokMin
      else if l == "sum" then TokSum
      else TokIdent
    case 4 => if l == "desc" then TokDesc else if l == "from" then TokFrom else TokIdent
    case 5 =>
      if l == "count" then TokCount
      else if l == "group" then TokGroup
      else if l == "limit" then TokLimit
      else if l == "order" then TokOrder
      else if l == "where" then TokWhere
      else TokIdent
    case 6 => if l == "select" then TokSelect else TokIdent
    case _ => TokIdent
  }

  predicate LowerCase(s: Text) {
    forall i :: 0 <= i < |s| ==> 'a' <= s[i] <= 'z'
  }

  /** Setting bit 5 reaches a lower-case letter from its two cases only. */
  lemma BitFoldsCase(c: Ch, l: Ch)
    requires 'a' <= l <= 'z'
    ensures SetBit5(c) == l <==> Lower(c) == l
  {}

  /** asciiEqFold: byte by byte with bit 5 set, which is equality up to letter case. */
  method AsciiEqFold(a: Text, lower: Text) returns (r: bool)
    requires LowerCase(lower)
    ensures r <==> Lowered(a) == lower
  {
    if |a| != |lower| {
      return false;
    }
    for i := 0 to |a|
      invariant forall k :: 0 <= k < i ==> Lowered(a)[k] == lower[k]
    {
      BitFoldsCase(a[i], lower[i]);
      if SetBit5(a[i]) != lower[i] {
        assert Lowered(a)[i] != lower[i];
        return false;
      }
    }
    r := true;
  }

  /** lookupKeyword: only the keywords of the word's length are tried. */
  method LookupKeyword(val: Text) returns (k: TokenKind)
    ensures k == WordKind(val)
  {
    hide Lowered;
    var hit := false;
    match |val| {
      case 2 =>
        hit := AsciiEqFold(val, "as");
        if hit { return TokAs; }
        hit := AsciiEqFold(val, "by");
        if hit { return TokBy; }
      case 3 =>
        hit := AsciiEqFold(val, "asc");
        if hit { return TokAsc; }
        hit := AsciiEqFold(val, "avg");
        if hit { return TokAvg; }
        hit := AsciiEqFold(val, "max");
        if hit { return TokMax; }
        hit := AsciiEqFold(val, "min");
        if hit { return TokMin; }
        hit := AsciiEqFold(val, "sum");
        if hit { return TokSum; }
      case 4 =>
        hit := AsciiEqFold(val, "desc");
        if hit { return TokDesc; }
        hit := AsciiEqFold(val, "from");
        if hit { return TokFrom; }
      case 5 =>
        hit := AsciiEqFold(val, "count");
        if hit { return TokCount; }
        hit := AsciiEqFold(val, "group");
        if hit { return TokGroup; }
        hit := AsciiEqFold(val, "limit");
        if hit { return TokLimit; }
        hit := AsciiEqFold(val, "order");
        if hit { return TokOrder; }
        hit := AsciiEqFold(val, "where");
        if hit { return TokWhere; }
      case 6 =>
        hit := AsciiEqFold(val, "select");
        if hit { return TokSelect; }
      case _ =>
    }
    k := TokIdent;
  }

  // ----- spelling -----

  /** TokenKind.String for the kinds that are always spelled alike. */
  function Spelling(kind: TokenKind): Text {
    match kind
    case TokSelect => "SELECT" case TokFrom => "FROM" case TokWhere => "WHERE" case TokGroup => "GROUP"
    case TokBy => "BY" case TokAs => "AS" case TokCount => "COUNT" case TokSum => "SUM" case TokMin => "MIN"
    case TokMax => "MAX" case TokAvg => "AVG" case TokOrder => "ORDER" case TokAsc => "ASC"
    case TokDesc => "DESC" case TokLimit => "LIMIT" case TokStar => "*" case TokMinus => "-" case TokPlus => "+"
    case TokEq => "=" case TokNe => "!=" case TokLt => "<" case TokLe => "<=" case TokGt => ">" case TokGe => ">="
    case TokComma => "," case TokLParen => "(" case TokRParen => ")" case TokSemi => ";"
    case _ => []
  }

  predicate IsKeyword(kind: TokenKind) {
    match kind
    case TokSelect | TokFrom | TokWhere | TokGroup | TokBy | TokAs | TokCount | TokSum | TokMin | TokMax | TokAvg
       | TokOrder | TokAsc | TokDesc | TokLimit => true
    case _ => false
  }

  predicate IsSymbol(kind: TokenKind) {
    match kind
    case TokStar | TokMinus | TokPlus | TokEq | TokNe | TokLt | TokLe | TokGt | TokGe | TokComma | TokLParen
       | TokRParen | TokSemi => true
    case _ => false
  }

  /** A word is a keyword exactly when the two are equal up to letter case. */
  lemma {:induction false} KeywordUpToCase(w: Text, kind: TokenKind)
    requires IsKeyword(kind)
    ensures WordKind(w) == kind <==> Lowered(w) == Lowered(Spelling(kind))
  {
    LoweredSpelling(kind);
    hide Spelling, Lowered;
    KindOfText(Lowered(w), kind);
  }

  /** The keywords in lower case, as the lexer compares them. */
  function LowerSpelling(kind: TokenKind): Text {
    match kind
    case TokSelect => "select" case TokFrom => "from" case TokWhere => "where" case TokGroup => "group"
    case TokBy => "by" case TokAs => "as" case TokCount => "count" case TokSum => "sum" case TokMin => "min"
    case TokMax => "max" case TokAvg => "avg" case TokOrder => "order" case TokAsc => "asc"
    case TokDesc => "desc" case TokLimit => "limit"
    case _ => []
  }

  lemma {:induction false} LoweredSpelling(kind: TokenKind)
    requires IsKeyword(kind)
    ensures Lowered(Spelling(kind)) == LowerSpelling(kind)
  {
    match kind
    case TokSelect => assert Lowered("SELECT") == "select";
    case TokFrom => assert Lowered("FROM") == "from";
    case TokWhere => assert Lowered("WHERE") == "where";
    case TokGroup => assert Lowered("GROUP") == "group";
    case TokBy => assert Lowered("BY") == "by";
    case TokAs => assert Lowered("AS") == "as";
    case TokCount => assert Lowered("COUNT") == "count";
    case TokSum => assert Lowered("SUM") == "sum";
    case TokMin => assert Lowered("MIN") == "min";
    case TokMax => assert Lowered("MAX") == "max";
    case TokAvg => assert Lowered("AVG") == "avg";
    case TokOrder => assert Lowered("ORDER") == "order";
    case TokAsc => assert Lowered("ASC") == "asc";
    case TokDesc => assert Lowered("DESC") == "desc";
    case TokLimit => assert Lowered("LIMIT") == "limit";
  }

  lemma {:induction false} KindOfText(l: Text, kind: TokenKind)
    requires IsKeyword(kind)
    ensures KindOfLower(l) == kind <==> l == LowerSpelling(kind)
  {}

  // ----- one token -----

  /** The end of the longest stretch from i on whose characters satisfy f. */
  function Span(f: Ch -> bool, input: Text, i: nat): (e: nat)
    requires i <= |input|
    ensures i <= e <= |input| && (e < |input| ==> !f(input[e]))
    ensures forall k :: i <= k < e ==> f(input[k])
    decreases |input| - i
  {
    if i < |input| && f(input[i]) then Span(f, input, i + 1) else i
  }

  /** The symbol a character begins, given whether an '=' follows; a lone '!' begins none. */
  function SymbolOf(ch: Ch, eq: bool): (kind: Option<TokenKind>)
    ensures kind.Some? ==> IsSymbol(kind.value)
  {
    match ch
    case '!' => if eq then Some(TokNe) else None
    case '<' => Some(if eq then TokLe else TokLt)
    case '>' => Some(if eq then TokGe else TokGt)
    case '=' => Some(TokEq)
    case '*' => Some(TokStar)
    case '-' => Some(TokMinus)
    case '+' => Some(TokPlus)
    case ',' => Some(TokComma)
    case '(' => Some(TokLParen)
    case ')' => Some(TokRParen)
    case ';' => Some(TokSemi)
    case _ => None
  }

  function Width(kind: TokenKind): (w: nat)
    ensures 1 <= w <= 2
    ensures IsSymbol(kind) ==> w == |Spelling(kind)|
  {
    if kind == TokNe || kind == TokLe || kind == TokGe then 2 else 1
  }

  /** Digits, and after a point at least one more digit. */
  function NumberAt(input: Text, start: nat): (r: Option<(Token, nat)>)
    requires start < |input|
    ensures r.Some? ==> start < r.value.1 <= |input| && r.value.0.pos == start
  {
    var dot := Span(IsDigit, input, start + 1);
    if dot < |input| && input[dot] == '.' then
      var end := Span(IsDigit, input, dot + 1);
      if end == dot + 1 then None else Some((Token(TokFloat, input[start..end], start), end))
    else Some((Token(TokInt, input[start..dot], start), dot))
  }

  /** The token that begins at a non-space character and the position after it. */
  function Scan(input: Text, start: nat): (r: Option<(Token, nat)>)
    requires start < |input| && !IsSpace(input[start])
    ensures r.Some? ==> start < r.value.1 <= |input| && r.value.0.pos == start
  {
    var ch := input[start];
    var eq := start + 1 < |input| && input[start + 1] == '=';
    if IsLetter(ch) then
      var end := Span(IsIdentChar, input, start + 1);
      Some((Token(WordKind(input[start..end]), input[start..end], start), end))
    else if IsDigit(ch) then NumberAt(input, start)
    else if ch == '\'' then
      var end := Span(NotQuote, input, start + 1);
      if end == |input| then None else Some((Token(TokString, input[start + 1..end], start), end + 1))
    else
      var kind := SymbolOf(ch, eq);
      if kind.None? then None
      else
        var end := start + Width(kind.value);
        Some((Token(kind.value, input[start..end], start), end))
  }

  /** The tokens from a position on, ending in the end marker, or nothing when some token is malformed. */
  function Lex(input: Text, pos: nat): Option<seq<Token>>
    requires pos <= |input|
    decreases |input| - pos
  {
    if pos == |input| then Some([Token(TokEOF, [], pos)])
    else if IsSpace(input[pos]) then Lex(input, pos + 1)
    else
      var t := Scan(input, pos);
      if t.None? then None
      else
        var rest := Lex(input, t.value.1);
        if rest.None? then None else Some([t.value.0] + rest.value)
  }

  // ----- what a token list must be -----

  function Lexeme(kind: TokenKind, value: Text): Text {
    if kind == TokString then ['\''] + value + ['\''] else value
  }

  predicate IsFloat(v: Text) {
    exists dot :: 0 < dot < |v| && v[dot] == '.' && AllDigits(v[..dot]) && AllDigits(v[dot + 1..])
  }

  /** What a token of each kind may be spelled like. */
  predicate WellSpelled(kind: TokenKind, v: Text) {
    match kind
    case TokEOF => false
    case TokInt => AllDigits(v)
    case TokFloat => IsFloat(v)
    case TokString => forall i :: 0 <= i < |v| ==> NotQuote(v[i])
    case _ => if IsSymbol(kind) then v == Spelling(kind) else IsWord(v) && WordKind(v) == kind
  }

  /** Whether a character may directly follow a token without having belonged to it. */
  predicate Separates(kind: TokenKind, c: Ch) {
    match kind
    case TokInt => !IsDigit(c) && c != '.'
    case TokFloat => !IsDigit(c)
    case TokLt | TokGt => c != '='
    case _ => kind == TokString || IsSymbol(kind) || !IsIdentChar(c)
  }

  /** Token t is spelled by the characters from its recorded position up to end, and is the longest one there. */
  predicate Occupies(input: Text, t: Token, end: nat) {
    && t.pos <= end <= |input| && input[t.pos..end] == Lexeme(t.kind, t.value)
    && WellSpelled(t.kind, t.value)
    && (end < |input| ==> Separates(t.kind, input[end]))
  }

  predicate Blank(input: Text, lo: nat, hi: nat)
    requires lo <= hi <= |input|
  {
    forall i :: lo <= i < hi ==> IsSpace(input[i])
  }

  /**
   * The text from pos on is exactly these tokens in order, each at its recorded position, with
   * nothing but white space before, between and after them, and an end marker last.
   */
  predicate Reads(input: Text, pos: nat, toks: seq<Token>)
    decreases |toks|
  {
    && toks != [] && pos <= |input|
    && if |toks| == 1 then toks[0] == Token(TokEOF, [], |input|) && Blank(input, pos, |input|)
       else
         var t := toks[0];
         var end := t.pos + |Lexeme(t.kind, t.value)|;
         pos <= t.pos && Occupies(input, t, end) && Blank(input, pos, t.pos) && Reads(input, end, toks[1..])
  }

  // ----- the scanner finds what stands there -----

  lemma {:induction false} SpanIs(f: Ch -> bool, input: Text, i: nat, e: nat)
    requires i <= e <= |input| && (forall k :: i <= k < e ==> f(input[k])) && (e < |input| ==> !f(input[e]))
    ensures Span(f, input, i) == e
    decreases e - i
  {}

  lemma {:induction false} ScanWord(input: Text, start: nat)
    requires start < |input| && IsLetter(input[start])
    ensures var r := Scan(input, start); r.Some? && Occupies(input, r.value.0, r.value.1)
  {
    hide KindOfLower, Lowered;
    var end := Span(IsIdentChar, input, start + 1);
    var w := input[start..end];
    assert forall i :: 0 <= i < |w| ==> w[i] == input[start + i];
    assert IsWord(w);
    WordKinds(w);
  }

  lemma WordKinds(w: Text)
    ensures WordKind(w) == TokIdent || IsKeyword(WordKind(w))
  {}

  lemma {:induction false} ScanNumber(input: Text, start: nat)
    requires start < |input| && IsDigit(input[start])
    ensures var r := NumberAt(input, start); r.Some? ==> Occupies(input, r.value.0, r.value.1)
  {
    var dot := Span(IsDigit, input, start + 1);
    var whole := input[start..dot];
    assert forall i :: 0 <= i < |whole| ==> whole[i] == input[start + i];
    if dot < |input| && input[dot] == '.' {
      var end := Span(IsDigit, input, dot + 1);
      if end != dot + 1 {
        var v, part := input[start..end], input[dot + 1..end];
        assert forall i :: 0 <= i < |part| ==> part[i] == input[dot + 1 + i];
        assert v[..dot - start] == whole && v[dot - start + 1..] == part && v[dot - start] == '.';
      }
    }
  }

  lemma {:induction false} ScanString(input: Text, start: nat)
    requires start < |input| && input[start] == '\''
    ensures var r := Scan(input, start); r.Some? ==> Occupies(input, r.value.0, r.value.1)
  {}

  lemma {:induction false} SymbolSpelled(input: Text, start: nat, kind: TokenKind)
    requires start < |input|
    requires SymbolOf(input[start], start + 1 < |input| && input[start + 1] == '=') == Some(kind)
    ensures start + Width(kind) <= |input| && input[start..start + Width(kind)] == Spelling(kind)
    ensures start + Width(kind) < |input| ==> Separates(kind, input[start + Width(kind)])
  {}

  lemma {:induction false} ScanSymbol(input: Text, start: nat)
    requires start < |input| && !IsSpace(input[start]) && !IsIdentChar(input[start]) && input[start] != '\''
    ensures var r := Scan(input, start); r.Some? ==> Occupies(input, r.value.0, r.value.1)
  {
    hide WordKind, AllDigits, IsFloat, IsWord, SymbolOf, Spelling, Separates;
    var kind := SymbolOf(input[start], start + 1 < |input| && input[start + 1] == '=');
    if kind.Some? {
      SymbolSpelled(input, start, kind.value);
    }
  }

  lemma {:induction false} ScanIsNumber(input: Text, start: nat)
    requires start < |input| && IsDigit(input[start])
    ensures !IsSpace(input[start]) && Scan(input, start) == NumberAt(input, start)
  {}

  /** What the scanner returns stands at the position asked for. */
  lemma {:induction false} ScanSound(input: Text, start: nat)
    requires start < |input| && !IsSpace(input[start])
    ensures var r := Scan(input, start); r.Some? ==> Occupies(input, r.value.0, r.value.1)
  {
    hide Scan, Occupies;
    if IsLetter(input[start]) {
      ScanWord(input, start);
    } else if IsDigit(input[start]) {
      ScanNumber(input, start);
      ScanIsNumber(input, start);
    } else if input[start] == '\'' {
      ScanString(input, start);
    } else {
      ScanSymbol(input, start);
    }
  }

  // ----- and conversely -----

  lemma {:induction false} ReadWord(input: Text, t: Token, end: nat)
    requires Occupies(input, t, end) && (t.kind == TokIdent || IsKeyword(t.kind))
    ensures t.pos < end && IsLetter(input[t.pos]) && Scan(input, t.pos) == Some((t, end))
  {
    hide KindOfLower, Lowered;
    assert forall i :: 0 <= i < |t.value| ==> t.value[i] == input[t.pos + i];
    assert forall k :: t.pos <= k < end ==> input[k] == t.value[k - t.pos];
    SpanIs(IsIdentChar, input, t.pos + 1, end);
  }

  lemma {:induction false} ReadInt(input: Text, t: Token, end: nat)
    requires Occupies(input, t, end) && t.kind == TokInt
    ensures t.pos < end && IsDigit(input[t.pos]) && NumberAt(input, t.pos) == Some((t, end))
  {
    assert forall k :: t.pos <= k < end ==> input[k] == t.value[k - t.pos];
    SpanIs(IsDigit, input, t.pos + 1, end);
  }

  lemma {:induction false} ReadFloat(input: Text, t: Token, end: nat)
    requires Occupies(input, t, end) && t.kind == TokFloat
    ensures t.pos < end && IsDigit(input[t.pos]) && NumberAt(input, t.pos) == Some((t, end))
  {
    hide IsFloat, AllDigits, WordKind, IsWord, Span, Spelling;
    var dot := FloatDot(t.value);
    FloatSpans(input, t.pos, t.value, dot);
  }

  lemma {:induction false} FloatSpans(input: Text, start: nat, v: Text, dot: nat)
    requires 0 < dot < |v| - 1 && v[dot] == '.' && forall i :: 0 <= i < |v| && i != dot ==> IsDigit(v[i])
    requires start + |v| <= |input| && input[start..start + |v|] == v
    requires start + |v| < |input| ==> !IsDigit(input[start + |v|])
    ensures IsDigit(input[start]) && input[start + dot] == '.'
    ensures Span(IsDigit, input, start + 1) == start + dot && Span(IsDigit, input, start + dot + 1) == start + |v|
  {}

  /** Where the point of a float stands: digits on both sides, and nothing else. */
  lemma {:induction false} FloatDot(v: Text) returns (dot: nat)
    requires IsFloat(v)
    ensures 0 < dot < |v| - 1 && v[dot] == '.' && forall i :: 0 <= i < |v| && i != dot ==> IsDigit(v[i])
  {
    dot :| 0 < dot < |v| && v[dot] == '.' && AllDigits(v[..dot]) && AllDigits(v[dot + 1..]);
    forall i | 0 <= i < |v| && i != dot
      ensures IsDigit(v[i])
    {
      if i < dot {
        assert v[..dot][i] == v[i];
      } else {
        assert v[dot + 1..][i - dot - 1] == v[i];
      }
    }
  }

  lemma QuotedSlice(input: Text, a: nat, v: Text)
    requires a + |v| + 2 <= |input| && input[a..a + |v| + 2] == ['\''] + v + ['\'']
    ensures input[a] == '\'' && input[a + 1 + |v|] == '\'' && input[a + 1..a + 1 + |v|] == v
  {
    var s := input[a..a + |v| + 2];
    assert s[0] == input[a] && s[1 + |v|] == input[a + 1 + |v|];
    forall k | 0 <= k < |v|
      ensures input[a + 1..a + 1 + |v|][k] == v[k]
    {
      assert s[1 + k] == v[k];
    }
  }

  lemma {:induction false} ReadString(input: Text, t: Token, end: nat)
    requires Occupies(input, t, end) && t.kind == TokString
    ensures t.pos < end && input[t.pos] == '\'' && Scan(input, t.pos) == Some((t, end))
  {
    hide IsWord, WordKind, SymbolOf, NumberAt, AllDigits, IsFloat, Separates;
    var v := t.value;
    QuotedSlice(input, t.pos, v);
    assert forall k :: t.pos + 1 <= k < end - 1 ==> input[k] == v[k - t.pos - 1];
    SpanIs(NotQuote, input, t.pos + 1, end - 1);
  }

  lemma {:induction false} ReadSymbol(input: Text, t: Token, end: nat)
    requires Occupies(input, t, end) && IsSymbol(t.kind)
    ensures t.pos < end && !IsSpace(input[t.pos]) && Scan(input, t.pos) == Some((t, end))
  {
    var v := t.value;
    assert forall k :: t.pos <= k < end ==> input[k] == v[k - t.pos];
    SymbolFound(t.kind, if end < |input| then Some(input[end]) else None);
  }

  /** A symbol is found from its first character and whether an '=' comes next. */
  lemma {:induction false} SymbolFound(kind: TokenKind, next: Option<Ch>)
    requires IsSymbol(kind) && (next.Some? ==> Separates(kind, next.value))
    ensures var v := Spelling(kind);
            var eq := if |v| == 2 then v[1] == '=' else next == Some('=');
            && |v| == Width(kind) && (|v| == 2 ==> eq) && SymbolOf(v[0], eq) == Some(kind)
            && !IsSpace(v[0]) && !IsIdentChar(v[0]) && v[0] != '\''
  {}

  /** Whatever stands at a position as a token is what the scanner finds there. */
  lemma {:induction false} ScanComplete(input: Text, t: Token, end: nat)
    requires Occupies(input, t, end)
    ensures t.pos < end <= |input| && !IsSpace(input[t.pos]) && Scan(input, t.pos) == Some((t, end))
  {
    hide Scan, NumberAt, Occupies, Spelling;
    OccupiesLength(input, t, end);
    if IsSymbol(t.kind) {
      ReadSymbol(input, t, end);
    } else {
      match t.kind {
        case TokInt =>
          ReadInt(input, t, end);
          ScanIsNumber(input, t.pos);
        case TokFloat =>
          ReadFloat(input, t, end);
          ScanIsNumber(input, t.pos);
        case TokString => ReadString(input, t, end);
        case _ => ReadWord(input, t, end);
      }
    }
  }

  // ----- the whole text -----

  lemma {:induction false} LexSound(input: Text, pos: nat)
    requires pos <= |input| && Lex(input, pos).Some?
    ensures Reads(input, pos, Lex(input, pos).value)
    decreases |input| - pos
  {
    hide Scan, Occupies;
    if pos < |input| {
      if IsSpace(input[pos]) {
        LexSound(input, pos + 1);
      } else {
        var r := Scan(input, pos).value;
        ScanSound(input, pos);
        OccupiesLength(input, r.0, r.1);
        LexSound(input, r.1);
        assert ([r.0] + Lex(input, r.1).value)[1..] == Lex(input, r.1).value;
      }
    }
  }

  lemma OccupiesLength(input: Text, t: Token, end: nat)
    requires Occupies(input, t, end)
    ensures t.kind != TokEOF && end == t.pos + |Lexeme(t.kind, t.value)|
  {
    hide Separates, WordKind, AllDigits, IsFloat, Spelling;
  }

  lemma {:induction false} LexComplete(input: Text, pos: nat, toks: seq<Token>)
    requires Reads(input, pos, toks)
    ensures Lex(input, pos) == Some(toks)
    decreases |input| - pos
  {
    hide Scan, Occupies;
    if |toks| == 1 {
      assert toks == [toks[0]];
      if pos < |input| {
        assert IsSpace(input[pos]);
        LexComplete(input, pos + 1, toks);
      }
    } else {
      var t := toks[0];
      var end := t.pos + |Lexeme(t.kind, t.value)|;
      ScanComplete(input, t, end);
      if pos < t.pos {
        assert IsSpace(input[pos]);
        LexComplete(input, pos + 1, toks);
      } else {
        LexComplete(input, end, toks[1..]);
        assert toks == [t] + toks[1..];
      }
    }
  }

  /** The lexer returns a token list exactly when the text reads as that list. */
  lemma {:induction false} LexIffReads(input: Text, toks: seq<Token>)
    ensures Lex(input, 0) == Some(toks) <==> Reads(input, 0, toks)
  {
    hide Lex, Reads;
    if Lex(input, 0) == Some(toks) {
      LexSound(input, 0);
    }
    if Reads(input, 0, toks) {
      LexComplete(input, 0, toks);
    }
  }

  /** A text reads as at most one token list. */
  lemma {:induction false} ReadsOnce(input: Text, a: seq<Token>, b: seq<Token>)
    requires Reads(input, 0, a) && Reads(input, 0, b)
    ensures a == b
  {
    LexIffReads(input, a);
    LexIffReads(input, b);
  }

  // ----- the loop -----

  /**
   * Tokenize: one pass over the text. It returns the token list the text reads as, and fails
   * exactly when there is none.
   */
  method Tokenize(input: Text) returns (tokens: Option<seq<Token>>)
    ensures tokens == Lex(input, 0)
    ensures tokens.Some? ==> Reads(input, 0, tokens.value)
    ensures tokens.None? ==> forall toks :: !Reads(input, 0, toks)
  {
    hide Scan, Reads, Occupies;
    var acc: seq<Token> := [];
    var pos := 0;
    AfterNone(Lex(input, 0));
    while pos < |input|
      invariant pos <= |input|
      invariant Lex(input, 0) == After(acc, Lex(input, pos))
    {
      if IsSpace(input[pos]) {
        pos := pos + 1;
      } else {
        var t, end := NextToken(input, pos);
        AfterOne(acc, t, if t.Some? then Lex(input, end) else None);
        if t.None? {
          Refused(input);
          return None;
        }
        acc, pos := acc + [t.value], end;
      }
    }
    tokens := Some(acc + [Token(TokEOF, [], pos)]);
    LexSound(input, 0);
  }

  /** Tokens read so far in front of what the rest of the text gives. */
  function After(acc: seq<Token>, rest: Option<seq<Token>>): Option<seq<Token>> {
    if rest.None? then None else Some(acc + rest.value)
  }

  lemma AfterNone(rest: Option<seq<Token>>)
    ensures After([], rest) == rest
  {
    if rest.Some? {
      assert [] + rest.value == rest.value;
    }
  }

  lemma AfterOne(acc: seq<Token>, t: Option<Token>, rest: Option<seq<Token>>)
    ensures t.Some? ==> After(acc, After([t.value], rest)) == After(acc + [t.value], rest)
  {
    if t.Some? && rest.Some? {
      assert acc + ([t.value] + rest.value) == (acc + [t.value]) + rest.value;
    }
  }

  lemma {:induction false} Refused(input: Text)
    requires Lex(input, 0).None?
    ensures forall toks :: !Reads(input, 0, toks)
  {
    forall toks
      ensures !Reads(input, 0, toks)
    {
      LexIffReads(input, toks);
    }
  }

  /** The switch of the lexer's loop, one case a kind of token. */
  method NextToken(input: Text, start: nat) returns (t: Option<Token>, end: nat)
    requires start < |input| && !IsSpace(input[start])
    ensures t.Some? <==> Scan(input, start).Some?
    ensures t.Some? ==> start < end <= |input| && Scan(input, start) == Some((t.value, end))
  {
    hide KindOfLower, Lowered, SymbolOf, NumberAt, Span;
    var ch := input[start];
    end := start;
    t := None;
    if IsLetter(ch) {
      end := SkipWhile(IsIdentChar, input, start + 1);
      var kind := LookupKeyword(input[start..end]);
      t := Some(Token(kind, input[start..end], start));
    } else if IsDigit(ch) {
      t, end := NextNumber(input, start);
    } else if ch == '\'' {
      end := SkipWhile(NotQuote, input, start + 1);
      if end >= |input| {
        return;
      }
      t := Some(Token(TokString, input[start + 1..end], start));
      end := end + 1;
    } else {
      t := NextSymbol(input, start);
      end := start + (if t.Some? then |t.value.value| else 1);
    }
  }

  method NextNumber(input: Text, start: nat) returns (t: Option<Token>, end: nat)
    requires start < |input|
    ensures t.Some? <==> NumberAt(input, start).Some?
    ensures t.Some? ==> NumberAt(input, start) == Some((t.value, end))
  {
    end := SkipWhile(IsDigit, input, start + 1);
    var kind := TokInt;
    if end < |input| && input[end] == '.' {
      var dot := end;
      end := dot + 1;
      if end >= |input| || !IsDigit(input[end]) {
        return None, end;
      }
      end := SkipWhile(IsDigit, input, end);
      kind := TokFloat;
    }
    t := Some(Token(kind, input[start..end], start));
  }

  /** The two-character operators are tried before the one-character ones. */
  method NextSymbol(input: Text, start: nat) returns (t: Option<Token>)
    requires start < |input|
    ensures var kind := SymbolOf(input[start], start + 1 < |input| && input[start + 1] == '=');
            && (t.Some? <==> kind.Some?)
            && (t.Some? ==> start + Width(kind.value) <= |input|)
            && (t.Some? ==> t.value == Token(kind.value, input[start..start + Width(kind.value)], start))
  {
    var ch := input[start];
    if ch == '!' && start + 1 < |input| && input[start + 1] == '=' {
      return Some(Token(TokNe, input[start..start + 2], start));
    }
    if ch == '<' && start + 1 < |input| && input[start + 1] == '=' {
      return Some(Token(TokLe, input[start..start + 2], start));
    }
    if ch == '>' && start + 1 < |input| && input[start + 1] == '=' {
      return Some(Token(TokGe, input[start..start + 2], start));
    }
    var one := input[start..start + 1];
    t := match ch {
      case '<' => Some(Token(TokLt, one, start))
      case '>' => Some(Token(TokGt, one, start))
      case '=' => Some(Token(TokEq, one, start))
      case '*' => Some(Token(TokStar, one, start))
      case '-' => Some(Token(TokMinus, one, start))
      case '+' => Some(Token(TokPlus, one, start))
      case ',' => Some(Token(TokComma, one, start))
      case '(' => Some(Token(TokLParen, one, start))
      case ')' => Some(Token(TokRParen, one, start))
      case ';' => Some(Token(TokSemi, one, start))
      case _ => None
    };
  }

  method SkipWhile(f: Ch -> bool, input: Text, i: nat) returns (e: nat)
    requires i <= |input|
    ensures e == Span(f, input, i)
  {
    e := i;
    while e < |input| && f(input[e])
      invariant i <= e <= |input| && Span(f, input, i) == Span(f, input, e)
    {
      e := e + 1;
    }
  }
}
