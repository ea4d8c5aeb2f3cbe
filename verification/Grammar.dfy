/**
 * The grammar of the SELECT statement (sql/parser.go): derivation trees, the symbols a tree
 * derives, and the reader that recovers the tree from the symbols.
 */
module Grammar {
  import opened Types
  import opened Numerals
  import opened Ast

  // ----- derivation trees -----

  /** An argument of None is the star. */
  datatype ItemTree = AllCols | ColRef(name: Text) | Call(fn: AggName, arg: Option<Text>)

  datatype Dir = Unstated | Ascending | Descending

  /** groupBy is empty and the other optional clauses are None when they are not there. */
  datatype Tree = Tree(
    items: seq<ItemTree>,
    table: Text,
    filter: Option<Where>,
    groupBy: seq<Text>,
    orderBy: Option<(Text, Dir)>,
    limit: Option<Token>,
    semi: bool)

  predicate OkItems(items: seq<ItemTree>) {
    items == [AllCols] || (items != [] && forall i :: 0 <= i < |items| ==> items[i] != AllCols)
  }

  predicate OkFilter(w: Option<Where>) {
    w.Some? ==> w.value.op.IsComparator() && w.value.literal.kind.IsLiteral()
  }

  /** The row cap a LIMIT token states. */
  function LimitOf(t: Token): Option<nat> {
    var n := ParseI64(t.value);
    if t.kind == TokInt && n.Some? && 0 <= n.value then Some(n.value) else None
  }

  predicate OkTree(t: Tree) {
    OkItems(t.items) && OkFilter(t.filter) && (t.limit.Some? ==> LimitOf(t.limit.value).Some?)
  }

  /** The statement a tree stands for. */
  function ItemOf(item: ItemTree): SelectItem {
    match item
    case AllCols => Star
    case ColRef(name) => Col(name)
    case Call(fn, arg) => Agg(fn, if arg.Some? then arg.value else STAR)
  }

  function ItemsOf(items: seq<ItemTree>): (r: seq<SelectItem>)
    ensures |r| == |items|
  {
    seq(|items|, i requires 0 <= i < |items| => ItemOf(items[i]))
  }

  function OrderOf(o: Option<(Text, Dir)>): Option<OrderBy> {
    if o.Some? then Some(OrderBy(o.value.0, o.value.1 != Descending)) else None
  }

  /** The row cap of a sentence, -1 without a LIMIT clause. */
  function CapOf(limit: Option<Token>): int
    requires limit.Some? ==> LimitOf(limit.value).Some?
  {
    if limit.Some? then LimitOf(limit.value).value else -1
  }

  function StmtOf(t: Tree): SelectStmt
    requires OkTree(t)
  {
    SelectStmt(ItemsOf(t.items), t.table, t.filter, t.groupBy, OrderOf(t.orderBy), CapOf(t.limit))
  }

  // ----- what a tree derives -----

  /** A token as the grammar sees it: a keyword or symbol, a name, or a literal. */
  datatype Sym = Key(kind: TokenKind) | Name(text: Text) | Lit(tok: Token)

  function SymOf(t: Token): Sym {
    if t.kind == TokIdent then Name(t.value)
    else if t.kind.IsLiteral() then Lit(t)
    else Key(t.kind)
  }

  function FnKind(fn: AggName): TokenKind {
    match fn
    case CountFn => TokCount
    case SumFn => TokSum
    case MinFn => TokMin
    case MaxFn => TokMax
    case AvgFn => TokAvg
  }

  function ItemYield(item: ItemTree): (y: seq<Sym>)
    ensures y != []
  {
    match item
    case AllCols => [Key(TokStar)]
    case ColRef(name) => [Name(name)]
    case Call(fn, arg) =>
      [Key(FnKind(fn)), Key(TokLParen), if arg.Some? then Name(arg.value) else Key(TokStar), Key(TokRParen)]
  }

  function ItemsYield(items: seq<ItemTree>): seq<Sym>
    requires items != []
  {
    if |items| == 1 then ItemYield(items[0])
    else ItemYield(items[0]) + [Key(TokComma)] + ItemsYield(items[1..])
  }

  function NamesYield(names: seq<Text>): seq<Sym>
    requires names != []
  {
    if |names| == 1 then [Name(names[0])]
    else [Name(names[0])] + [Key(TokComma)] + NamesYield(names[1..])
  }

  function FilterYield(w: Option<Where>): seq<Sym> {
    if w.None? then [] else [Key(TokWhere), Name(w.value.column), Key(w.value.op), Lit(w.value.literal)]
  }

  function GroupYield(names: seq<Text>): seq<Sym> {
    if names == [] then [] else [Key(TokGroup), Key(TokBy)] + NamesYield(names)
  }

  function OrderYield(o: Option<(Text, Dir)>): seq<Sym> {
    if o.None? then []
    else
      var head := [Key(TokOrder), Key(TokBy), Name(o.value.0)];
      match o.value.1
      case Unstated => head
      case Ascending => head + [Key(TokAsc)]
      case Descending => head + [Key(TokDesc)]
  }

  function LimitYield(limit: Option<Token>): seq<Sym> {
    if limit.None? then [] else [Key(TokLimit), Lit(limit.value)]
  }

  function SemiYield(semi: bool): seq<Sym> {
    if semi then [Key(TokSemi)] else []
  }

  /** The part of a sentence from a clause on. */
  function AfterOrder(t: Tree): seq<Sym> {
    LimitYield(t.limit) + SemiYield(t.semi)
  }

  function AfterGroup(t: Tree): seq<Sym> {
    OrderYield(t.orderBy) + AfterOrder(t)
  }

  function AfterFilter(t: Tree): seq<Sym> {
    GroupYield(t.groupBy) + AfterGroup(t)
  }

  function AfterTable(t: Tree): seq<Sym> {
    FilterYield(t.filter) + AfterFilter(t)
  }

  function AfterItems(t: Tree): seq<Sym> {
    [Key(TokFrom), Name(t.table)] + AfterTable(t)
  }

  /** The sentence of a tree. */
  function Yield(t: Tree): (y: seq<Sym>)
    requires t.items != []
    ensures y != []
  {
    [Key(TokSelect)] + (ItemsYield(t.items) + AfterItems(t))
  }

  // ----- reading a tree back -----

  /** parser.peek: the end marker stands beyond the last token. */
  function Peek(toks: seq<Token>, i: nat): Token {
    if i < |toks| then toks[i] else Token(TokEOF, [], 0)
  }

  function FnOfKind(kind: TokenKind): AggName
    requires kind.IsAggKeyword()
  {
    match kind
    case TokCount => CountFn
    case TokSum => SumFn
    case TokMin => MinFn
    case TokMax => MaxFn
    case TokAvg => AvgFn
  }

  function ReadItem(toks: seq<Token>, i: nat): (r: Option<(ItemTree, nat)>)
    ensures r.Some? ==> i < r.value.1 <= |toks|
  {
    var t := Peek(toks, i);
    if t.kind.IsAggKeyword() then
      var arg := Peek(toks, i + 2);
      if Peek(toks, i + 1).kind == TokLParen && (arg.kind == TokStar || arg.kind == TokIdent)
         && Peek(toks, i + 3).kind == TokRParen
      then Some((Call(FnOfKind(t.kind), if arg.kind == TokStar then None else Some(arg.value)), i + 4))
      else None
    else if t.kind == TokIdent then Some((ColRef(t.value), i + 1))
    else None
  }

  /** One item or more with commas between. */
  function ReadItems(toks: seq<Token>, i: nat): (r: Option<(seq<ItemTree>, nat)>)
    ensures r.Some? ==> i < r.value.1 <= |toks| && r.value.0 != []
    decreases |toks| - i
  {
    var item :- ReadItem(toks, i);
    if Peek(toks, item.1).kind != TokComma then Some(([item.0], item.1))
    else
      var rest :- ReadItems(toks, item.1 + 1);
      Some(([item.0] + rest.0, rest.1))
  }

  function ReadList(toks: seq<Token>, i: nat): (r: Option<(seq<ItemTree>, nat)>)
    ensures r.Some? ==> i < r.value.1 <= |toks| && r.value.0 != []
  {
    if Peek(toks, i).kind == TokStar then Some(([AllCols], i + 1)) else ReadItems(toks, i)
  }

  function ReadNames(toks: seq<Token>, i: nat): (r: Option<(seq<Text>, nat)>)
    ensures r.Some? ==> i < r.value.1 <= |toks| && r.value.0 != []
    decreases |toks| - i
  {
    if Peek(toks, i).kind != TokIdent then None
    else if Peek(toks, i + 1).kind != TokComma then Some(([toks[i].value], i + 1))
    else
      var rest :- ReadNames(toks, i + 2);
      Some(([toks[i].value] + rest.0, rest.1))
  }

  function ReadFilter(toks: seq<Token>, i: nat): (r: Option<(Option<Where>, nat)>)
    requires i <= |toks|
    ensures r.Some? ==> i <= r.value.1 <= |toks|
  {
    if Peek(toks, i).kind != TokWhere then Some((None, i))
    else
      var col, op, lit := Peek(toks, i + 1), Peek(toks, i + 2), Peek(toks, i + 3);
      if col.kind == TokIdent && op.kind.IsComparator() && lit.kind.IsLiteral()
      then Some((Some(Where(col.value, op.kind, lit)), i + 4))
      else None
  }

  function ReadGroup(toks: seq<Token>, i: nat): (r: Option<(seq<Text>, nat)>)
    requires i <= |toks|
    ensures r.Some? ==> i <= r.value.1 <= |toks|
  {
    if Peek(toks, i).kind != TokGroup then Some(([], i))
    else if Peek(toks, i + 1).kind != TokBy then None
    else ReadNames(toks, i + 2)
  }

  function ReadOrder(toks: seq<Token>, i: nat): (r: Option<(Option<(Text, Dir)>, nat)>)
    requires i <= |toks|
    ensures r.Some? ==> i <= r.value.1 <= |toks|
  {
    if Peek(toks, i).kind != TokOrder then Some((None, i))
    else
      var col, dir := Peek(toks, i + 2), Peek(toks, i + 3).kind;
      if Peek(toks, i + 1).kind != TokBy || col.kind != TokIdent then None
      else if dir == TokAsc then Some((Some((col.value, Ascending)), i + 4))
      else if dir == TokDesc then Some((Some((col.value, Descending)), i + 4))
      else Some((Some((col.value, Unstated)), i + 3))
  }

  function ReadLimit(toks: seq<Token>, i: nat): (r: Option<(Option<Token>, nat)>)
    requires i <= |toks|
    ensures r.Some? ==> i <= r.value.1 <= |toks|
  {
    if Peek(toks, i).kind != TokLimit then Some((None, i))
    else
      var n := Peek(toks, i + 1);
      if LimitOf(n).Some? then Some((Some(n), i + 2)) else None
  }

  /** The statement proper, up to the optional semicolon. */
  function ReadSelect(toks: seq<Token>): (r: Option<(Tree, nat)>)
    ensures r.Some? ==> r.value.1 <= |toks|
  {
    if Peek(toks, 0).kind != TokSelect then None
    else
      var items :- ReadList(toks, 1);
      if Peek(toks, items.1).kind != TokFrom || Peek(toks, items.1 + 1).kind != TokIdent then None
      else
        var filter :- ReadFilter(toks, items.1 + 2);
        var group :- ReadGroup(toks, filter.1);
        var order :- ReadOrder(toks, group.1);
        var limit :- ReadLimit(toks, order.1);
        Some((Tree(items.0, Peek(toks, items.1 + 1).value, filter.0, group.0, order.0, limit.0, false), limit.1))
  }

  function ReadTree(toks: seq<Token>): Option<Tree> {
    var t :- ReadSelect(toks);
    var semi := Peek(toks, t.1).kind == TokSemi;
    if Peek(toks, if semi then t.1 + 1 else t.1).kind != TokEOF then None
    else Some(t.0.(semi := semi))
  }

  // ----- the token list derives the tree -----

  /** The tokens from i on begin with these symbols. */
  predicate Starts(toks: seq<Token>, i: nat, y: seq<Sym>) {
    i + |y| <= |toks| && forall k :: 0 <= k < |y| ==> SymOf(toks[i + k]) == y[k]
  }

  /** The grammar derives the token list, up to its end or its first end marker, from this tree. */
  predicate Derives(toks: seq<Token>, t: Tree) {
    OkTree(t) && Starts(toks, 0, Yield(t)) && Peek(toks, |Yield(t)|).kind == TokEOF
  }

  lemma StartsConcat(toks: seq<Token>, i: nat, a: seq<Sym>, b: seq<Sym>)
    ensures Starts(toks, i, a + b) <==> Starts(toks, i, a) && Starts(toks, i + |a|, b)
  {
    if Starts(toks, i, a + b) {
      forall k | 0 <= k < |a|
        ensures SymOf(toks[i + k]) == a[k]
      {
        assert (a + b)[k] == a[k];
      }
      forall k | 0 <= k < |b|
        ensures SymOf(toks[i + |a| + k]) == b[k]
      {
        assert (a + b)[|a| + k] == b[k];
      }
    }
    if Starts(toks, i, a) && Starts(toks, i + |a|, b) {
      forall k | 0 <= k < |a + b|
        ensures SymOf(toks[i + k]) == (a + b)[k]
      {
        if |a| <= k {
          assert SymOf(toks[i + |a| + (k - |a|)]) == b[k - |a|];
        }
      }
    }
  }

  lemma StartsAt(toks: seq<Token>, i: nat, y: seq<Sym>, k: nat)
    requires Starts(toks, i, y) && k < |y|
    ensures i + k < |toks| && SymOf(Peek(toks, i + k)) == y[k]
  {}

  // ----- clause by clause -----

  lemma {:induction false} ItemSound(toks: seq<Token>, i: nat)
    requires ReadItem(toks, i).Some?
    ensures var r := ReadItem(toks, i).value;
            Starts(toks, i, ItemYield(r.0)) && r.1 == i + |ItemYield(r.0)| && r.0 != AllCols
  {}

  lemma {:induction false} ItemComplete(toks: seq<Token>, i: nat, item: ItemTree)
    requires Starts(toks, i, ItemYield(item)) && item != AllCols
    ensures ReadItem(toks, i) == Some((item, i + |ItemYield(item)|))
  {
    var y := ItemYield(item);
    StartsAt(toks, i, y, 0);
    if item.Call? {
      StartsAt(toks, i, y, 1);
      StartsAt(toks, i, y, 2);
      StartsAt(toks, i, y, 3);
    }
  }

  lemma {:induction false} ItemsJoin(toks: seq<Token>, i: nat, item: ItemTree, rest: seq<ItemTree>)
    requires rest != [] && Starts(toks, i, ItemYield(item)) && Peek(toks, i + |ItemYield(item)|).kind == TokComma
    requires Starts(toks, i + |ItemYield(item)| + 1, ItemsYield(rest))
    ensures Starts(toks, i, ItemsYield([item] + rest))
    ensures |ItemsYield([item] + rest)| == |ItemYield(item)| + 1 + |ItemsYield(rest)|
  {
    hide ItemYield, Starts, Peek;
    assert ([item] + rest)[1..] == rest;
    OneKey(toks, i + |ItemYield(item)|, TokComma);
    StartsConcat(toks, i, ItemYield(item), [Key(TokComma)]);
    StartsConcat(toks, i, ItemYield(item) + [Key(TokComma)], ItemsYield(rest));
  }

  lemma {:induction false} ItemsSound(toks: seq<Token>, i: nat)
    requires ReadItems(toks, i).Some?
    ensures var r := ReadItems(toks, i).value;
            && Starts(toks, i, ItemsYield(r.0)) && r.1 == i + |ItemsYield(r.0)|
            && (forall k :: 0 <= k < |r.0| ==> r.0[k] != AllCols)
    decreases |toks| - i
  {
    hide ReadItem, ItemYield, Starts, Peek;
    var item := ReadItem(toks, i).value;
    ItemSound(toks, i);
    if Peek(toks, item.1).kind == TokComma {
      ItemsSound(toks, item.1 + 1);
      ItemsJoin(toks, i, item.0, ReadItems(toks, item.1 + 1).value.0);
    }
  }

  lemma {:induction false} ItemsComplete(toks: seq<Token>, i: nat, items: seq<ItemTree>)
    requires items != [] && Starts(toks, i, ItemsYield(items)) && forall k :: 0 <= k < |items| ==> items[k] != AllCols
    requires Peek(toks, i + |ItemsYield(items)|).kind != TokComma
    ensures ReadItems(toks, i) == Some((items, i + |ItemsYield(items)|))
    decreases |items|
  {
    hide ReadItem, ItemYield;
    if |items| == 1 {
      ItemComplete(toks, i, items[0]);
      assert items == [items[0]];
    } else {
      var first := ItemYield(items[0]);
      StartsConcat(toks, i, first + [Key(TokComma)], ItemsYield(items[1..]));
      StartsConcat(toks, i, first, [Key(TokComma)]);
      ItemComplete(toks, i, items[0]);
      StartsAt(toks, i + |first|, [Key(TokComma)], 0);
      ItemsComplete(toks, i + |first| + 1, items[1..]);
      assert items == [items[0]] + items[1..];
    }
  }

  lemma {:induction false} NamesSound(toks: seq<Token>, i: nat)
    requires ReadNames(toks, i).Some?
    ensures var r := ReadNames(toks, i).value;
            Starts(toks, i, NamesYield(r.0)) && r.1 == i + |NamesYield(r.0)|
    decreases |toks| - i
  {
    if Peek(toks, i + 1).kind == TokComma {
      var rest := ReadNames(toks, i + 2).value;
      NamesSound(toks, i + 2);
      assert ([toks[i].value] + rest.0)[1..] == rest.0;
      StartsConcat(toks, i, [Name(toks[i].value)] + [Key(TokComma)], NamesYield(rest.0));
    }
  }

  lemma {:induction false} NamesComplete(toks: seq<Token>, i: nat, names: seq<Text>)
    requires names != [] && Starts(toks, i, NamesYield(names))
    requires Peek(toks, i + |NamesYield(names)|).kind != TokComma
    ensures ReadNames(toks, i) == Some((names, i + |NamesYield(names)|))
    decreases |names|
  {
    if |names| == 1 {
      StartsAt(toks, i, NamesYield(names), 0);
      assert names == [names[0]];
    } else {
      var head := [Name(names[0])] + [Key(TokComma)];
      StartsConcat(toks, i, head, NamesYield(names[1..]));
      StartsAt(toks, i, head, 0);
      StartsAt(toks, i, head, 1);
      NamesComplete(toks, i + 2, names[1..]);
      assert names == [names[0]] + names[1..];
    }
  }

  lemma {:induction false} ListSound(toks: seq<Token>, i: nat)
    requires ReadList(toks, i).Some?
    ensures var r := ReadList(toks, i).value;
            Starts(toks, i, ItemsYield(r.0)) && r.1 == i + |ItemsYield(r.0)| && OkItems(r.0)
  {
    if Peek(toks, i).kind != TokStar {
      ItemsSound(toks, i);
    }
  }

  lemma {:induction false} ListComplete(toks: seq<Token>, i: nat, items: seq<ItemTree>)
    requires OkItems(items) && Starts(toks, i, ItemsYield(items))
    requires Peek(toks, i + |ItemsYield(items)|).kind != TokComma
    ensures ReadList(toks, i) == Some((items, i + |ItemsYield(items)|))
  {
    hide ReadItems;
    FirstOfItems(items);
    StartsAt(toks, i, ItemsYield(items), 0);
    if items != [AllCols] {
      ItemsComplete(toks, i, items);
    }
  }

  lemma FirstOfItems(items: seq<ItemTree>)
    requires items != []
    ensures ItemsYield(items) != [] && ItemsYield(items)[0] == ItemYield(items[0])[0]
  {
    hide ItemYield;
  }

  lemma {:induction false} FilterSound(toks: seq<Token>, i: nat)
    requires i <= |toks| && ReadFilter(toks, i).Some?
    ensures var r := ReadFilter(toks, i).value;
            Starts(toks, i, FilterYield(r.0)) && r.1 == i + |FilterYield(r.0)| && OkFilter(r.0)
  {}

  lemma {:induction false} FilterComplete(toks: seq<Token>, i: nat, w: Option<Where>)
    requires OkFilter(w) && Starts(toks, i, FilterYield(w))
    requires w.None? ==> Peek(toks, i).kind != TokWhere
    ensures ReadFilter(toks, i) == Some((w, i + |FilterYield(w)|))
  {
    if w.Some? {
      var y := FilterYield(w);
      StartsAt(toks, i, y, 0);
      StartsAt(toks, i, y, 1);
      StartsAt(toks, i, y, 2);
      StartsAt(toks, i, y, 3);
    }
  }

  lemma {:induction false} GroupSound(toks: seq<Token>, i: nat)
    requires i <= |toks| && ReadGroup(toks, i).Some?
    ensures var r := ReadGroup(toks, i).value;
            Starts(toks, i, GroupYield(r.0)) && r.1 == i + |GroupYield(r.0)|
  {
    if Peek(toks, i).kind == TokGroup {
      hide NamesYield, ReadNames;
      NamesSound(toks, i + 2);
      StartsConcat(toks, i, [Key(TokGroup), Key(TokBy)], NamesYield(ReadNames(toks, i + 2).value.0));
    }
  }

  lemma {:induction false} GroupComplete(toks: seq<Token>, i: nat, names: seq<Text>)
    requires Starts(toks, i, GroupYield(names))
    requires names == [] ==> Peek(toks, i).kind != TokGroup
    requires Peek(toks, i + |GroupYield(names)|).kind != TokComma
    ensures ReadGroup(toks, i) == Some((names, i + |GroupYield(names)|))
  {
    if names != [] {
      hide NamesYield, ReadNames;
      var head := [Key(TokGroup), Key(TokBy)];
      StartsConcat(toks, i, head, NamesYield(names));
      StartsAt(toks, i, head, 0);
      StartsAt(toks, i, head, 1);
      NamesComplete(toks, i + 2, names);
    }
  }

  lemma {:induction false} OrderSound(toks: seq<Token>, i: nat)
    requires i <= |toks| && ReadOrder(toks, i).Some?
    ensures var r := ReadOrder(toks, i).value;
            Starts(toks, i, OrderYield(r.0)) && r.1 == i + |OrderYield(r.0)|
  {
    var r := ReadOrder(toks, i).value;
    if r.0.Some? {
      var y := OrderYield(r.0);
      assert SymOf(toks[i]) == y[0] && SymOf(toks[i + 1]) == y[1] && SymOf(toks[i + 2]) == y[2];
    }
  }

  lemma {:induction false} OrderComplete(toks: seq<Token>, i: nat, o: Option<(Text, Dir)>)
    requires Starts(toks, i, OrderYield(o))
    requires o.None? ==> Peek(toks, i).kind != TokOrder
    requires Peek(toks, i + |OrderYield(o)|).kind != TokAsc && Peek(toks, i + |OrderYield(o)|).kind != TokDesc
    ensures ReadOrder(toks, i) == Some((o, i + |OrderYield(o)|))
  {
    if o.Some? {
      var y := OrderYield(o);
      StartsAt(toks, i, y, 0);
      StartsAt(toks, i, y, 1);
      StartsAt(toks, i, y, 2);
      if o.value.1 != Unstated {
        StartsAt(toks, i, y, 3);
      }
    }
  }

  lemma {:induction false} LimitSound(toks: seq<Token>, i: nat)
    requires i <= |toks| && ReadLimit(toks, i).Some?
    ensures var r := ReadLimit(toks, i).value;
            && Starts(toks, i, LimitYield(r.0)) && r.1 == i + |LimitYield(r.0)|
            && (r.0.Some? ==> LimitOf(r.0.value).Some?)
  {
    hide ParseI64;
  }

  lemma {:induction false} LimitComplete(toks: seq<Token>, i: nat, limit: Option<Token>)
    requires Starts(toks, i, LimitYield(limit)) && (limit.Some? ==> LimitOf(limit.value).Some?)
    requires limit.None? ==> Peek(toks, i).kind != TokLimit
    ensures ReadLimit(toks, i) == Some((limit, i + |LimitYield(limit)|))
  {
    hide ParseI64;
    if limit.Some? {
      StartsAt(toks, i, LimitYield(limit), 0);
      StartsAt(toks, i, LimitYield(limit), 1);
    }
  }

  // ----- whole sentences -----

  /** Where each clause of a sentence ends. */
  datatype Ends = Ends(items: nat, filter: nat, group: nat, order: nat, limit: nat)

  function EndsOf(t: Tree): Ends
    requires t.items != []
  {
    var items := 1 + |ItemsYield(t.items)|;
    var filter := items + 2 + |FilterYield(t.filter)|;
    var group := filter + |GroupYield(t.groupBy)|;
    var order := group + |OrderYield(t.orderBy)|;
    Ends(items, filter, group, order, order + |LimitYield(t.limit)|)
  }

  /** The token list holds each clause of the tree at its place. */
  predicate Laid(toks: seq<Token>, t: Tree)
    requires t.items != []
  {
    var e := EndsOf(t);
    && Starts(toks, 0, [Key(TokSelect)]) && Starts(toks, 1, ItemsYield(t.items))
    && Starts(toks, e.items, [Key(TokFrom), Name(t.table)]) && Starts(toks, e.items + 2, FilterYield(t.filter))
    && Starts(toks, e.filter, GroupYield(t.groupBy)) && Starts(toks, e.group, OrderYield(t.orderBy))
    && Starts(toks, e.order, LimitYield(t.limit)) && Starts(toks, e.limit, SemiYield(t.semi))
  }

  lemma {:induction false} YieldLaid(toks: seq<Token>, t: Tree)
    requires t.items != []
    ensures Starts(toks, 0, Yield(t)) <==> Laid(toks, t)
    ensures |Yield(t)| == EndsOf(t).limit + |SemiYield(t.semi)|
  {
    hide Starts, ItemsYield, FilterYield, GroupYield, OrderYield, LimitYield, SemiYield;
    var e := EndsOf(t);
    StartsConcat(toks, 0, [Key(TokSelect)], ItemsYield(t.items) + AfterItems(t));
    StartsConcat(toks, 1, ItemsYield(t.items), AfterItems(t));
    StartsConcat(toks, e.items, [Key(TokFrom), Name(t.table)], AfterTable(t));
    StartsConcat(toks, e.items + 2, FilterYield(t.filter), AfterFilter(t));
    StartsConcat(toks, e.filter, GroupYield(t.groupBy), AfterGroup(t));
    StartsConcat(toks, e.group, OrderYield(t.orderBy), AfterOrder(t));
    StartsConcat(toks, e.order, LimitYield(t.limit), SemiYield(t.semi));
  }

  /** What the reader returns is derived by the grammar. */
  lemma {:induction false} ReadSound(toks: seq<Token>)
    requires ReadTree(toks).Some?
    ensures Derives(toks, ReadTree(toks).value)
  {
    hide Starts, Yield, ReadList, ReadFilter, ReadGroup, ReadOrder, ReadLimit, OkItems, OkFilter, LimitOf;
    hide ItemsYield, FilterYield, GroupYield, OrderYield, LimitYield;
    var t := ReadTree(toks).value;
    var items := ReadList(toks, 1).value;
    var filter := ReadFilter(toks, items.1 + 2).value;
    var group := ReadGroup(toks, filter.1).value;
    var order := ReadOrder(toks, group.1).value;
    ListSound(toks, 1);
    FilterSound(toks, items.1 + 2);
    GroupSound(toks, filter.1);
    OrderSound(toks, group.1);
    LimitSound(toks, order.1);
    OneKey(toks, 0, TokSelect);
    FromTable(toks, items.1);
    if t.semi {
      OneKey(toks, EndsOf(t).limit, TokSemi);
    } else {
      NoSym(toks, EndsOf(t).limit);
    }
    YieldLaid(toks, t);
  }

  lemma NoSym(toks: seq<Token>, i: nat)
    ensures i <= |toks| ==> Starts(toks, i, [])
  {}

  lemma OneKey(toks: seq<Token>, i: nat, kind: TokenKind)
    requires kind != TokIdent && !kind.IsLiteral() && kind != TokEOF
    ensures Peek(toks, i).kind == kind <==> Starts(toks, i, [Key(kind)])
    ensures Peek(toks, i).kind == kind ==> i < |toks|
  {
    if Starts(toks, i, [Key(kind)]) {
      StartsAt(toks, i, [Key(kind)], 0);
    }
  }

  lemma FromTable(toks: seq<Token>, i: nat)
    requires Peek(toks, i).kind == TokFrom && Peek(toks, i + 1).kind == TokIdent
    ensures i + 1 < |toks| && Starts(toks, i, [Key(TokFrom), Name(toks[i + 1].value)])
  {}

  /** The place of a clause's first keyword, and of the end, in a sentence. */
  function Rank(kind: TokenKind): nat {
    match kind
    case TokGroup => 1
    case TokOrder => 2
    case TokLimit => 3
    case TokSemi => 4
    case TokEOF => 5
    case _ => 0
  }

  /** What comes next when a clause may be missing: its own first keyword, or something later. */
  lemma Follows(toks: seq<Token>, i: nat, a: seq<Sym>, own: TokenKind)
    requires Starts(toks, i, a) && (a != [] ==> a[0] == Key(own))
    requires Rank(own) < Rank(Peek(toks, i + |a|).kind)
    ensures Rank(own) <= Rank(Peek(toks, i).kind)
  {
    if a != [] {
      StartsAt(toks, i, a, 0);
    }
  }

  lemma ItemsThere(items: seq<ItemTree>)
    requires OkItems(items)
    ensures items != []
  {}

  /** No clause is followed by a token that could have continued it. */
  predicate Bounded(toks: seq<Token>, t: Tree)
    requires t.items != []
  {
    var e := EndsOf(t);
    && 1 <= Rank(Peek(toks, e.filter).kind) && 2 <= Rank(Peek(toks, e.group).kind)
    && 3 <= Rank(Peek(toks, e.order).kind) && 4 <= Rank(Peek(toks, e.limit).kind)
  }

  /** An optional clause begins with its keyword. */
  lemma {:induction false} FirstKeys(t: Tree)
    ensures GroupYield(t.groupBy) != [] ==> GroupYield(t.groupBy)[0] == Key(TokGroup)
    ensures OrderYield(t.orderBy) != [] ==> OrderYield(t.orderBy)[0] == Key(TokOrder)
    ensures LimitYield(t.limit) != [] ==> LimitYield(t.limit)[0] == Key(TokLimit)
    ensures SemiYield(t.semi) != [] ==> SemiYield(t.semi)[0] == Key(TokSemi)
  {}

  lemma {:induction false} SentenceBounded(toks: seq<Token>, t: Tree)
    requires t.items != [] && Laid(toks, t)
    requires Peek(toks, EndsOf(t).limit + |SemiYield(t.semi)|).kind == TokEOF
    ensures Bounded(toks, t)
  {
    FirstKeys(t);
    hide Starts, ItemsYield, FilterYield, GroupYield, OrderYield, LimitYield, SemiYield, Peek;
    var e := EndsOf(t);
    Follows(toks, e.limit, SemiYield(t.semi), TokSemi);
    Follows(toks, e.order, LimitYield(t.limit), TokLimit);
    Follows(toks, e.group, OrderYield(t.orderBy), TokOrder);
    Follows(toks, e.filter, GroupYield(t.groupBy), TokGroup);
  }

  lemma RankExcludes(kind: TokenKind)
    ensures 1 <= Rank(kind) ==> kind != TokWhere && kind != TokComma
    ensures 2 <= Rank(kind) ==> kind != TokGroup && kind != TokComma
    ensures 3 <= Rank(kind) ==> kind != TokOrder && kind != TokAsc && kind != TokDesc
    ensures 4 <= Rank(kind) ==> kind != TokLimit
  {}

  /** Each clause of a bounded sentence is read where it stands. */
  lemma {:induction false} FirstClausesRead(toks: seq<Token>, t: Tree)
    requires OkTree(t) && t.items != [] && Laid(toks, t) && Bounded(toks, t)
    ensures var e := EndsOf(t);
            && ReadList(toks, 1) == Some((t.items, e.items)) && e.items + 1 < |toks|
            && Peek(toks, e.items).kind == TokFrom
            && toks[e.items + 1] == Token(TokIdent, t.table, toks[e.items + 1].pos)
            && ReadFilter(toks, e.items + 2) == Some((t.filter, e.filter))
  {
    hide Starts, ReadList, ReadFilter, OkItems, OkFilter, LimitOf;
    hide ItemsYield, FilterYield, GroupYield, OrderYield, LimitYield, SemiYield, Rank, Peek;
    var e := EndsOf(t);
    TableRead(toks, e.items, t.table);
    RankExcludes(Peek(toks, e.filter).kind);
    ListComplete(toks, 1, t.items);
    NoneYields(t);
    FilterComplete(toks, e.items + 2, t.filter);
  }

  lemma {:induction false} LastClausesRead(toks: seq<Token>, t: Tree)
    requires OkTree(t) && t.items != [] && Laid(toks, t) && Bounded(toks, t)
    requires EndsOf(t).filter <= |toks|
    ensures var e := EndsOf(t);
            && ReadGroup(toks, e.filter) == Some((t.groupBy, e.group)) && e.group <= |toks|
            && ReadOrder(toks, e.group) == Some((t.orderBy, e.order)) && e.order <= |toks|
            && ReadLimit(toks, e.order) == Some((t.limit, e.limit))
  {
    hide Starts, ReadGroup, ReadOrder, ReadLimit, OkItems, OkFilter, LimitOf;
    hide ItemsYield, FilterYield, GroupYield, OrderYield, LimitYield, SemiYield, Rank, Peek;
    var e := EndsOf(t);
    RankExcludes(Peek(toks, e.filter).kind);
    RankExcludes(Peek(toks, e.group).kind);
    RankExcludes(Peek(toks, e.order).kind);
    RankExcludes(Peek(toks, e.limit).kind);
    NoneYields(t);
    GroupComplete(toks, e.filter, t.groupBy);
    OrderComplete(toks, e.group, t.orderBy);
    LimitComplete(toks, e.order, t.limit);
  }

  lemma TableRead(toks: seq<Token>, i: nat, table: Text)
    requires Starts(toks, i, [Key(TokFrom), Name(table)])
    ensures i + 1 < |toks| && Peek(toks, i).kind == TokFrom
    ensures toks[i + 1] == Token(TokIdent, table, toks[i + 1].pos)
  {
    StartsAt(toks, i, [Key(TokFrom), Name(table)], 0);
    StartsAt(toks, i, [Key(TokFrom), Name(table)], 1);
  }

  lemma NoneYields(t: Tree)
    ensures t.filter.None? ==> FilterYield(t.filter) == []
    ensures t.groupBy == [] ==> GroupYield(t.groupBy) == []
    ensures t.orderBy.None? ==> OrderYield(t.orderBy) == []
    ensures t.limit.None? ==> LimitYield(t.limit) == []
  {}

  lemma {:induction false} ReadClauses(toks: seq<Token>, t: Tree)
    requires OkTree(t) && t.items != [] && Laid(toks, t) && Bounded(toks, t)
    ensures ReadSelect(toks) == Some((t.(semi := false), EndsOf(t).limit))
  {
    hide EndsOf, Bounded, Rank, ReadList, ReadFilter, ReadGroup, ReadOrder, ReadLimit, OkTree, Starts, ItemsYield;
    hide SymOf, FilterYield, GroupYield, OrderYield, LimitYield, SemiYield;
    FirstClausesRead(toks, t);
    LastClausesRead(toks, t);
    OneKey(toks, 0, TokSelect);
    assert Starts(toks, 0, [Key(TokSelect)]);
  }

  /** Every sentence is read back as the tree it was derived from. */
  lemma {:induction false} ReadComplete(toks: seq<Token>, t: Tree)
    requires Derives(toks, t)
    ensures ReadTree(toks) == Some(t)
  {
    hide Starts, Yield, ReadSelect, EndsOf;
    assert t.items != [] by {
      ItemsThere(t.items);
    }
    YieldLaid(toks, t);
    SentenceBounded(toks, t);
    ReadClauses(toks, t);
    if t.semi {
      StartsAt(toks, EndsOf(t).limit, SemiYield(true), 0);
    }
  }

  /** The reader accepts exactly the sentences of the grammar, and returns their derivation. */
  lemma {:induction false} ReadIffDerives(toks: seq<Token>, t: Tree)
    ensures ReadTree(toks) == Some(t) <==> Derives(toks, t)
  {
    hide ReadTree, Derives;
    if ReadTree(toks) == Some(t) {
      ReadSound(toks);
    }
    if Derives(toks, t) {
      ReadComplete(toks, t);
    }
  }

  /** The grammar is unambiguous. */
  lemma {:induction false} Unambiguous(toks: seq<Token>, a: Tree, b: Tree)
    requires Derives(toks, a) && Derives(toks, b)
    ensures a == b
  {
    ReadIffDerives(toks, a);
    ReadIffDerives(toks, b);
  }
}
