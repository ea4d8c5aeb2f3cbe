/** The key half of exec/groupby.go: hash tables from group keys to ordinals in first-seen order. */
module GroupKeys {
  import opened Types
  import opened Storage
  import opened Relation
  import opened Batches
  import opened Predicates
  import opened Aggregation
  import opened LittleEndian

  type I32 = x: int | -0x8000_0000 <= x < 0x8000_0000

  /** GROUP BY accepts Int64 and String keys only. */
  predicate KeyType(t: ColType) {
    t == TInt64 || t == TString
  }

  /** One key column in the composite key: a null tag, then a fixed-width or length-prefixed value. */
  function CellBytes(c: Cell): seq<Byte> {
    match c
    case Null => [0]
    case Val(SInt(i)) => [1] + U64Bytes(ToU64(i))
    case Val(SStr(s)) => [1] + U32Bytes(|s| % 0x1_0000_0000) + TextBytes(s)
    case _ => [1]
  }

  function KeyBytes(key: Row): seq<Byte> {
    if key == [] then [] else CellBytes(key[0]) + KeyBytes(key[1..])
  }

  lemma {:induction false} KeyBytesSnoc(key: Row, c: Cell)
    ensures KeyBytes(key + [c]) == KeyBytes(key) + CellBytes(c)
  {
    if key == [] {
      assert ([c])[1..] == [];
    } else {
      assert (key + [c])[1..] == key[1..] + [c];
      KeyBytesSnoc(key[1..], c);
    }
  }

  lemma Cut<T>(p: seq<T>, x: seq<T>, q: seq<T>, y: seq<T>)
    requires p + x == q + y && |p| == |q|
    ensures p == q && x == y
  {
    assert (p + x)[..|p|] == p && (q + y)[..|q|] == q;
    assert (p + x)[|p|..] == x && (q + y)[|q|..] == y;
  }

  lemma Framed<T>(h: seq<T>, a: seq<T>, x: seq<T>, k: seq<T>, b: seq<T>, y: seq<T>)
    requires |h| == |k| && (h + a) + x == (k + b) + y
    ensures h == k && a + x == b + y
  {
    assert (h + a) + x == h + (a + x) && (k + b) + y == k + (b + y);
    Cut(h, a + x, k, b + y);
  }

  lemma IntPrefix(a: I64, b: I64, x: seq<Byte>, y: seq<Byte>)
    requires CellBytes(Val(SInt(a))) + x == CellBytes(Val(SInt(b))) + y
    ensures a == b && x == y
  {
    Cut(CellBytes(Val(SInt(a))), x, CellBytes(Val(SInt(b))), y);
    Cut([1], U64Bytes(ToU64(a)), [1], U64Bytes(ToU64(b)));
    assert ToI64(ToU64(a)) == a && ToI64(ToU64(b)) == b;
  }

  lemma SameText(a: Text, b: Text, x: seq<Byte>, y: seq<Byte>)
    requires |a| == |b| && TextBytes(a) + x == TextBytes(b) + y
    ensures a == b && x == y
  {
    Cut(TextBytes(a), x, TextBytes(b), y);
    TextRoundTrip(a);
    TextRoundTrip(b);
  }

  lemma TextPrefix(a: Text, b: Text, x: seq<Byte>, y: seq<Byte>)
    requires |a| < 0x1_0000_0000 && |b| < 0x1_0000_0000
    requires CellBytes(Val(SStr(a))) + x == CellBytes(Val(SStr(b))) + y
    ensures a == b && x == y
  {
    TextCell(a);
    TextCell(b);
    var h, k := TextHead(|a|), TextHead(|b|);
    Framed(h, TextBytes(a), x, k, TextBytes(b), y);
    SameHead(|a|, |b|);
    SameText(a, b, x, y);
  }

  function TextHead(n: nat): (h: seq<Byte>)
    requires n < 0x1_0000_0000
    ensures |h| == 5
  {
    [1] + U32Bytes(n)
  }

  lemma {:induction false} TextCell(a: Text)
    requires |a| < 0x1_0000_0000
    ensures CellBytes(Val(SStr(a))) == TextHead(|a|) + TextBytes(a)
  {
    hide FromLe, LittleEndian.Le, U32Bytes, TextBytes;
  }

  lemma SameHead(n: nat, m: nat)
    requires n < 0x1_0000_0000 && m < 0x1_0000_0000 && TextHead(n) == TextHead(m)
    ensures n == m
  {
    Cut([1], U32Bytes(n), [1], U32Bytes(m));
  }

  /** A cell's bytes say where they end. */
  lemma CellPrefix(a: Cell, b: Cell, t: ColType, x: seq<Byte>, y: seq<Byte>)
    requires KeyType(t) && CellFits(a, t) && CellFits(b, t)
    requires CellBytes(a) + x == CellBytes(b) + y
    ensures a == b && x == y
  {
    assert (CellBytes(a) + x)[0] == CellBytes(a)[0] && (CellBytes(b) + y)[0] == CellBytes(b)[0];
    if a.Null? {
      Cut(CellBytes(a), x, CellBytes(b), y);
    } else if t == TInt64 {
      IntPrefix(a.v.i, b.v.i, x, y);
    } else {
      TextPrefix(a.v.s, b.v.s, x, y);
    }
  }

  /** Two key tuples of the same column types have the same bytes only when they are the same tuple. */
  lemma {:induction false} KeyBytesInjective(a: Row, b: Row, types: seq<ColType>)
    requires RowFits(a, types) && RowFits(b, types)
    requires forall i :: 0 <= i < |types| ==> KeyType(types[i])
    requires KeyBytes(a) == KeyBytes(b)
    ensures a == b
  {
    if a != [] {
      CellPrefix(a[0], b[0], types[0], KeyBytes(a[1..]), KeyBytes(b[1..]));
      KeyBytesInjective(a[1..], b[1..], types[1..]);
      assert a == [a[0]] + a[1..] && b == [b[0]] + b[1..];
    }
  }

  lemma KeysSnoc(rows: seq<Row>, r: Row, kc: seq<nat>)
    ensures var key := ProjectRow(kc, r);
            Keys(rows + [r], kc) == if key in Keys(rows, kc) then Keys(rows, kc) else Keys(rows, kc) + [key]
  {}

  /** Ordinals stay right when further keys are listed behind them. */
  lemma RoutedSnoc(kc: seq<nat>, ks: seq<Row>, more: seq<Row>, part: seq<Row>, k: nat, gids: seq<nat>, g: nat)
    requires k < |part| && Routed(kc, ks, part[..k], gids) && ks <= more
    requires g < |more| && more[g] == ProjectRow(kc, part[k])
    ensures Routed(kc, more, part[..k + 1], gids + [g])
  {}

  /** Routing row k lists its key when it is new, and leaves room for it. */
  lemma OneMoreKey(rows: seq<Row>, part: seq<Row>, k: nat, kc: seq<nat>)
    requires k < |part|
    ensures var before, key := Keys(rows + part[..k], kc), ProjectRow(kc, part[k]);
            Keys(rows + part[..k + 1], kc) == (if key in before then before else before + [key])
            && (key in before || |before| < |Keys(rows + part, kc)|)
  {
    KeysSnoc(rows + part[..k], part[k], kc);
    assert rows + part[..k + 1] == rows + part[..k] + [part[k]];
    KeysExtend(rows + part[..k + 1], part[k + 1..], kc);
    assert rows + part[..k + 1] + part[k + 1..] == rows + part;
  }

  /** The rows of part have the given cells as their only key column. */
  ghost predicate KeyedBy(kc: seq<nat>, part: seq<Row>, cells: seq<Cell>) {
    |part| == |cells| && forall k :: 0 <= k < |part| ==> ProjectRow(kc, part[k]) == [cells[k]]
  }

  /** The key columns of a batch are there and have the declared types. */
  ghost predicate KeyColumns(vs: array<Vector?>, cols: seq<nat>, types: seq<ColType>)
    reads vs
  {
    && |cols| == |types|
    && (forall c :: 0 <= c < |cols| ==> cols[c] < vs.Length && vs[cols[c]] != null && vs[cols[c]].typ == types[c])
  }

  /** Key g of a single-column table. */
  function SingleKeys(keys: seq<Scalar>, nullAt: int): seq<Row> {
    seq(|keys|, g requires 0 <= g < |keys| => [if g == nullAt then Null else Val(keys[g])])
  }

  /** The typed single-key hash table with its separate null group. */
  class SingleTable {
    const typ: ColType
    var ht: map<Scalar, I32>
    var hasNullGroup: bool
    var nullGroupID: I32
    var keys: seq<Scalar>
    var numGroups: nat

    /** The keys listed by ordinal. */
    ghost function Listed(): seq<Row>
      reads this
    {
      SingleKeys(keys, if hasNullGroup then nullGroupID else -1)
    }

    ghost predicate Valid()
      reads this
    {
      && numGroups == |keys| && AllFit(keys, typ)
      && (hasNullGroup ==> 0 <= nullGroupID < |keys|)
      && (forall s :: s in ht ==> 0 <= ht[s] < |keys| && keys[ht[s]] == s && !(hasNullGroup && ht[s] == nullGroupID))
      && (forall g :: 0 <= g < |keys| && !(hasNullGroup && g == nullGroupID) ==> keys[g] in ht && ht[keys[g]] == g)
    }

    constructor (typ: ColType)
      ensures Valid() && Listed() == [] && this.typ == typ
    {
      this.typ := typ;
      ht, hasNullGroup, nullGroupID, keys, numGroups := map[], false, 0, [], 0;
    }

    method Clear()
      modifies this
      ensures Valid() && Listed() == []
    {
      ht, hasNullGroup, nullGroupID, keys, numGroups := map[], false, 0, [], 0;
    }

    /** The ordinal of key k, listing it when it is new. */
    method Probe(k: Scalar) returns (gid: I32)
      requires Valid() && Fits(k, typ) && ([Val(k)] in Listed() || numGroups < 0x8000_0000)
      modifies this
      ensures Valid()
      ensures Listed() == if [Val(k)] in old(Listed()) then old(Listed()) else old(Listed()) + [[Val(k)]]
      ensures 0 <= gid < |Listed()| && Listed()[gid] == [Val(k)]
    {
      if k in ht {
        gid := ht[k];
        assert Listed()[gid] == [Val(k)];
      } else {
        assert [Val(k)] !in Listed();
        gid := numGroups;
        ht, keys, numGroups := ht[k := gid], keys + [k], numGroups + 1;
      }
    }

    /** The ordinal of the NULL group. */
    method ProbeNull() returns (gid: I32)
      requires Valid() && ([Null] in Listed() || numGroups < 0x8000_0000)
      modifies this
      ensures Valid()
      ensures Listed() == if [Null] in old(Listed()) then old(Listed()) else old(Listed()) + [[Null]]
      ensures 0 <= gid < |Listed()| && Listed()[gid] == [Null]
    {
      if !hasNullGroup {
        assert [Null] !in Listed();
        nullGroupID, hasNullGroup := numGroups, true;
        keys, numGroups := keys + [Zero(typ)], numGroups + 1;
      } else {
        assert Listed()[nullGroupID] == [Null];
      }
      gid := nullGroupID;
    }

    /** The ordinal of one row's key: the null bitmap first, then the hash table. */
    method Route(vec: Vector, i: nat) returns (gid: I32)
      requires Valid() && vec.Valid() && i < vec.length && vec.typ == typ
      requires [vec.Cells()[i]] in Listed() || |Listed()| < 0x8000_0000
      modifies this
      ensures Valid()
      ensures var key := [vec.Cells()[i]];
              Listed() == if key in old(Listed()) then old(Listed()) else old(Listed()) + [key]
      ensures 0 <= gid < |Listed()| && Listed()[gid] == [vec.Cells()[i]]
    {
      var c := vec.Get(i);
      if c.Null? {
        gid := ProbeNull();
      } else {
        gid := Probe(c.v);
      }
    }

    /** The first k rows of part have been routed, after rows. */
    ghost predicate Assigned(kc: seq<nat>, rows: seq<Row>, part: seq<Row>, k: nat, gids: seq<nat>)
      reads this
    {
      && k <= |part| && Valid() && Listed() == Keys(rows + part[..k], kc)
      && Routed(kc, Listed(), part[..k], gids)
    }

    method AssignOne(vec: Vector, i: nat, ghost kc: seq<nat>, ghost rows: seq<Row>, ghost part: seq<Row>,
                     ghost k: nat, ghost gids: seq<nat>) returns (gid: nat)
      requires vec.Valid() && i < vec.length && vec.typ == typ
      requires Assigned(kc, rows, part, k, gids) && k < |part| && |Keys(rows + part, kc)| <= 0x8000_0000
      requires ProjectRow(kc, part[k]) == [vec.Cells()[i]]
      modifies this
      ensures Assigned(kc, rows, part, k + 1, gids + [gid])
    {
      ghost var ks := Listed();
      OneMoreKey(rows, part, k, kc);
      gid := Route(vec, i);
      RoutedSnoc(kc, ks, Listed(), part, k, gids, gid);
    }

    /** Route every selected row of a batch by one key column; rows were routed before. */
    method Assign(vec: Vector, sel: Selection, ghost kc: seq<nat>, ghost rows: seq<Row>, ghost part: seq<Row>)
      returns (gids: seq<nat>)
      requires Inside(vec, sel) && vec.typ == typ
      requires KeyedBy(kc, part, Gather(vec.Cells(), sel.Idx()))
      requires Valid() && Listed() == Keys(rows, kc) && |Keys(rows + part, kc)| <= 0x8000_0000
      modifies this
      ensures Valid() && Listed() == Keys(rows + part, kc) && Routed(kc, Listed(), part, gids)
    {
      gids := [];
      assert rows + part[..0] == rows;
      for k := 0 to sel.n
        invariant Assigned(kc, rows, part, k, gids)
      {
        assert Gather(vec.Cells(), sel.Idx())[k] == vec.Cells()[sel.buf[k]];
        var gid := AssignOne(vec, sel.buf[k], kc, rows, part, k, gids);
        gids := gids + [gid];
      }
      assert part[..sel.n] == part;
    }

    /** Append keys start..end in ordinal order, the null group's slot split out of the loop. */
    method EmitKeys(out: Vector, start: nat, end: nat)
      requires Valid() && start <= end <= numGroups && end - start <= VECTOR_SIZE
      requires out.Valid() && out.length == 0 && out.typ == typ
      modifies out, out.nulls
      ensures out.Valid() && out.Cells() == Column(Listed()[start..end], 0)
    {
      var nullG: nat := end;
      if hasNullGroup && start <= nullGroupID < end {
        nullG := nullGroupID;
      }
      EmitRun(out, start, start, nullG);
      if nullG < end {
        ColumnSnoc(Listed(), start, nullG, 0);
        var _ := out.AppendNull();
        EmitRun(out, start, nullG + 1, end);
      }
    }

    /** Append the non-null keys lo..hi after those from start on. */
    method EmitRun(out: Vector, start: nat, lo: nat, hi: nat)
      requires Valid() && start <= lo <= hi <= numGroups && hi - start <= VECTOR_SIZE
      requires !(hasNullGroup && lo <= nullGroupID < hi)
      requires out.Valid() && out.Cells() == Column(Listed()[start..lo], 0) && out.typ == typ
      modifies out, out.nulls
      ensures out.Valid() && out.Cells() == Column(Listed()[start..hi], 0)
    {
      for gid := lo to hi
        invariant out.Valid() && out.Cells() == Column(Listed()[start..gid], 0)
      {
        ColumnSnoc(Listed(), start, gid, 0);
        assert out.length == |out.Cells()|;
        var _ := out.Append(keys[gid]);
      }
    }
  }

  /** Key g of a composite table: one entry per key column. */
  function TupleKeys(vals: seq<seq<Scalar>>, nulls: seq<seq<bool>>, n: nat): seq<Row>
    requires |vals| == |nulls|
    requires forall c :: 0 <= c < |vals| ==> |vals[c]| == |nulls[c]| == n
  {
    seq(n, g requires 0 <= g < n =>
      seq(|vals|, c requires 0 <= c < |vals| => if nulls[c][g] then Null else Val(vals[c][g])))
  }

  lemma TupleKeysSnoc(vals: seq<seq<Scalar>>, nulls: seq<seq<bool>>, vals': seq<seq<Scalar>>, nulls': seq<seq<bool>>,
                      n: nat, key: Row)
    requires |vals| == |nulls| == |vals'| == |nulls'| == |key|
    requires forall c :: 0 <= c < |vals| ==> |vals[c]| == |nulls[c]| == n
    requires forall c :: 0 <= c < |vals| ==>
        |vals'[c]| == |nulls'[c]| == n + 1 && vals'[c][..n] == vals[c] && nulls'[c][..n] == nulls[c]
        && nulls'[c][n] == key[c].Null? && (key[c].Val? ==> vals'[c][n] == key[c].v)
    ensures TupleKeys(vals', nulls', n + 1) == TupleKeys(vals, nulls, n) + [key]
  {
    var l, r := TupleKeys(vals', nulls', n + 1), TupleKeys(vals, nulls, n);
    forall g | 0 <= g < n
      ensures l[g] == r[g]
    {
      forall c | 0 <= c < |key|
        ensures l[g][c] == r[g][c]
      {
        assert vals'[c][..n][g] == vals[c][g] && nulls'[c][..n][g] == nulls[c][g];
      }
    }
    assert l[n] == key;
  }

  /** The composite-key hash table, keyed by the encoded tuple. */
  class TupleTable {
    const types: seq<ColType>
    var ht: map<seq<Byte>, I32>
    var vals: seq<seq<Scalar>>
    var nulls: seq<seq<bool>>
    var buf: seq<Byte>
    var numGroups: nat

    ghost predicate Shaped()
      reads `vals, `nulls, `numGroups
    {
      && |vals| == |nulls| == |types|
      && (forall c :: 0 <= c < |types| ==> KeyType(types[c]))
      && (forall c :: 0 <= c < |types| ==> |vals[c]| == |nulls[c]| == numGroups)
    }

    ghost function Listed(): seq<Row>
      requires Shaped()
      reads `vals, `nulls, `numGroups
    {
      TupleKeys(vals, nulls, numGroups)
    }

    ghost predicate Valid()
      reads `vals, `nulls, `numGroups, `ht
    {
      && Shaped()
      && (forall g :: 0 <= g < numGroups ==> RowFits(Listed()[g], types))
      && (forall g :: 0 <= g < numGroups ==> KeyBytes(Listed()[g]) in ht && ht[KeyBytes(Listed()[g])] == g)
      && (forall b :: b in ht ==> 0 <= ht[b] < numGroups && KeyBytes(Listed()[ht[b]]) == b)
    }

    constructor (types: seq<ColType>)
      requires forall c :: 0 <= c < |types| ==> KeyType(types[c])
      ensures Valid() && Listed() == [] && this.types == types
    {
      this.types := types;
      ht, buf, numGroups := map[], [], 0;
      vals, nulls := seq(|types|, _ => []), seq(|types|, _ => []);
    }

    method Clear()
      requires Shaped()
      modifies this
      ensures Valid() && Listed() == []
    {
      ht, buf, numGroups := map[], [], 0;
      vals, nulls := seq(|types|, _ => []), seq(|types|, _ => []);
    }

    method EncodeCell(c: Cell)
      requires c.Val? ==> KeyType(TypeOf(c.v))
      modifies `buf
      ensures buf == old(buf) + CellBytes(c)
    {
      match c {
        case Null => buf := buf + [0];
        case Val(SInt(i)) =>
          buf := buf + [1];
          buf := buf + U64Bytes(ToU64(i));
        case Val(SStr(s)) =>
          buf := buf + [1];
          buf := buf + U32Bytes(|s| % 0x1_0000_0000);
          buf := buf + TextBytes(s);
      }
    }

    /** Encode the key tuple column by column. */
    method Encode(key: Row)
      requires Shaped() && RowFits(key, types)
      modifies `buf
      ensures buf == KeyBytes(key)
    {
      buf := [];
      for c := 0 to |key|
        invariant buf == KeyBytes(key[..c])
      {
        KeyBytesSnoc(key[..c], key[c]);
        assert key[..c + 1] == key[..c] + [key[c]];
        EncodeCell(key[c]);
      }
      assert key[..|key|] == key;
    }

    /** Record the decoded values of a new key. */
    method Append(key: Row)
      requires Shaped() && RowFits(key, types)
      modifies `vals, `nulls, `numGroups
      ensures Shaped() && numGroups == old(numGroups) + 1
      ensures Listed() == old(Listed()) + [key]
    {
      for c := 0 to |types|
        invariant |vals| == |nulls| == |types| && numGroups == old(numGroups)
        invariant forall i :: 0 <= i < c ==>
            vals[i] == old(vals[i]) + [if key[i].Null? then Zero(types[i]) else key[i].v]
            && nulls[i] == old(nulls[i]) + [key[i].Null?]
        invariant forall i :: c <= i < |types| ==> vals[i] == old(vals[i]) && nulls[i] == old(nulls[i])
      {
        var isNull := key[c].Null?;
        nulls := nulls[c := nulls[c] + [isNull]];
        vals := vals[c := vals[c] + [if isNull then Zero(types[c]) else key[c].v]];
      }
      numGroups := numGroups + 1;
      TupleKeysSnoc(old(vals), old(nulls), vals, nulls, old(numGroups), key);
    }

    /** The ordinal of a key tuple, listing it when it is new. */
    method Probe(key: Row) returns (gid: I32)
      requires Valid() && RowFits(key, types) && (key in Listed() || numGroups < 0x8000_0000)
      modifies this
      ensures Valid()
      ensures Listed() == if key in old(Listed()) then old(Listed()) else old(Listed()) + [key]
      ensures 0 <= gid < |Listed()| && Listed()[gid] == key
    {
      Encode(key);
      if buf in ht {
        gid := ht[buf];
        KeyBytesInjective(Listed()[gid], key, types);
      } else {
        assert key !in Listed();
        gid := numGroups;
        ht := ht[buf := gid];
        Append(key);
      }
    }

    /** The key tuple of row i, column by column. */
    method RowKey(vs: array<Vector?>, cols: seq<nat>, i: nat, ghost store: set<object>, ghost r: Row) returns (key: Row)
      requires Owned(vs, store) && KeyColumns(vs, cols, types) && r == RowAt(Cols(vs, store), i)
      requires forall c :: 0 <= c < vs.Length ==> i < vs[c].length
      ensures key == ProjectRow(cols, r) && RowFits(key, types)
    {
      key := [];
      for j := 0 to |cols|
        invariant |key| == j && key == ProjectRow(cols, r)[..j]
        invariant forall c :: 0 <= c < j ==> CellFits(key[c], types[c])
      {
        assert Cols(vs, store)[cols[j]] == vs[cols[j]].Cells();
        var c := vs[cols[j]].Get(i);
        key := key + [c];
      }
    }

    /** The first k rows of part have been routed, after rows. */
    ghost predicate Assigned(cols: seq<nat>, rows: seq<Row>, part: seq<Row>, k: nat, gids: seq<nat>)
      reads this
    {
      && k <= |part| && Valid() && Listed() == Keys(rows + part[..k], cols)
      && Routed(cols, Listed(), part[..k], gids)
    }

    method AssignOne(key: Row, ghost cols: seq<nat>, ghost rows: seq<Row>, ghost part: seq<Row>,
                     ghost k: nat, ghost gids: seq<nat>) returns (gid: nat)
      requires Assigned(cols, rows, part, k, gids) && k < |part| && |Keys(rows + part, cols)| <= 0x8000_0000
      requires key == ProjectRow(cols, part[k]) && RowFits(key, types)
      modifies this
      ensures Assigned(cols, rows, part, k + 1, gids + [gid])
    {
      ghost var ks := Listed();
      OneMoreKey(rows, part, k, cols);
      gid := Probe(key);
      RoutedSnoc(cols, ks, Listed(), part, k, gids, gid);
    }

    /** Route every selected row of a batch by its key tuple; rows were routed before. */
    method Assign(vs: array<Vector?>, cols: seq<nat>, sel: Selection,
                  ghost store: set<object>, ghost rows: seq<Row>, ghost part: seq<Row>)
      returns (gids: seq<nat>)
      requires this !in store && Owned(vs, store) && KeyColumns(vs, cols, types)
      requires sel.Valid() && Selects(Cols(vs, store), sel.Idx()) && part == LiveRows(Cols(vs, store), sel.Idx())
      requires Valid() && Listed() == Keys(rows, cols) && |Keys(rows + part, cols)| <= 0x8000_0000
      modifies this
      ensures Valid() && Listed() == Keys(rows + part, cols) && Routed(cols, Listed(), part, gids)
    {
      gids := [];
      assert rows + part[..0] == rows;
      assert forall c :: 0 <= c < vs.Length ==> Cols(vs, store)[c] == vs[c].Cells();
      for k := 0 to sel.n
        invariant Assigned(cols, rows, part, k, gids)
      {
        var key := RowKey(vs, cols, sel.buf[k], store, part[k]);
        var gid := AssignOne(key, cols, rows, part, k, gids);
        gids := gids + [gid];
      }
      assert part[..sel.n] == part;
    }

    /** Append column c of keys start..end. */
    method EmitColumn(c: nat, out: Vector, start: nat, end: nat)
      requires Valid() && c < |types| && start <= end <= numGroups && end - start <= VECTOR_SIZE
      requires out.Valid() && out.length == 0 && out.typ == types[c]
      modifies out, out.nulls
      ensures out.Valid() && out.Cells() == Column(Listed()[start..end], c)
    {
      TupleColumn(vals, nulls, numGroups, c);
      forall g | start <= g < end && !nulls[c][g]
        ensures Fits(vals[c][g], types[c])
      {
        assert RowFits(Listed()[g], types) && Listed()[g][c] == Val(vals[c][g]);
      }
      EmitCells(out, vals[c], nulls[c], start, end);
      ColumnSlice(Listed(), c, start, end);
    }
  }

  lemma TupleColumn(vals: seq<seq<Scalar>>, nulls: seq<seq<bool>>, n: nat, c: nat)
    requires c < |vals| == |nulls|
    requires forall i :: 0 <= i < |vals| ==> |vals[i]| == |nulls[i]| == n
    ensures Column(TupleKeys(vals, nulls, n), c) == Show(vals[c], nulls[c])
  {}

  /** Append the cells start..end of a column kept as values and null flags. */
  method EmitCells(out: Vector, vals: seq<Scalar>, nulls: seq<bool>, start: nat, end: nat)
    requires start <= end <= |vals| == |nulls| && end - start <= VECTOR_SIZE
    requires out.Valid() && out.length == 0
    requires forall g :: start <= g < end && !nulls[g] ==> Fits(vals[g], out.typ)
    modifies out, out.nulls
    ensures out.Valid() && out.Cells() == Show(vals, nulls)[start..end]
  {
    ghost var cells := Show(vals, nulls);
    for g := start to end
      invariant out.Valid() && out.Cells() == cells[start..g]
    {
      SliceSnoc(cells, start, g);
      assert out.length == |out.Cells()|;
      if nulls[g] {
        var _ := out.AppendNull();
      } else {
        var _ := out.Append(vals[g]);
      }
    }
  }
}
