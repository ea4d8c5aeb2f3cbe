/** exec/selection.go, exec/vector.go, exec/batch.go: the reused buffers operators pass around. */
module Batches {
  import opened Types
  import opened Bitmap
  import opened Storage
  import opened Relation

  /** Row numbers of a batch, each once and from the top down. */
  ghost predicate Ascending(idx: seq<nat>) {
    && (forall j, k :: 0 <= j < k < |idx| ==> idx[j] < idx[k])
    && (forall k :: 0 <= k < |idx| ==> idx[k] < VECTOR_SIZE)
  }

  lemma IotaAscending(n: nat)
    requires n <= VECTOR_SIZE
    ensures Ascending(Iota(n))
  {}

  lemma PickAscending(idx: seq<nat>, pos: seq<nat>)
    requires Ascending(idx) && forall m :: 0 <= m < |pos| ==> pos[m] < |idx|
    requires forall a, b :: 0 <= a < b < |pos| ==> pos[a] < pos[b]
    ensures Ascending(Pick(idx, pos))
  {}

  lemma TakeAscending(idx: seq<nat>, m: nat)
    requires Ascending(idx) && m <= |idx|
    ensures Ascending(idx[..m])
  {}

  /**
   * Live row positions of one batch: the first n entries of a backing array of fixed
   * capacity that no other selection shares.
   */
  class Selection {
    var buf: seq<nat>
    var n: nat

    ghost predicate Valid()
      reads this
    {
      n <= |buf| == VECTOR_SIZE
    }

    /** The live rows: the slice Indices() returns. */
    ghost function Idx(): seq<nat>
      requires Valid()
      reads this
    {
      buf[..n]
    }

    /** Full capacity, and strictly increasing positions below it. */
    ghost predicate Sound()
      reads this
    {
      Valid() && Ascending(Idx())
    }

    constructor ()
      ensures Sound() && n == 0
    {
      buf := seq(VECTOR_SIZE, _ => 0);
      n := 0;
    }

    method Reset()
      requires Valid()
      modifies this
      ensures Sound() && n == 0 && buf == old(buf)
    {
      n := 0;
    }

    /** Go's append, which stays inside the backing array because there is room. */
    method AppendUnchecked(i: nat)
      requires Valid() && n < VECTOR_SIZE
      modifies this
      ensures Valid() && n == old(n) + 1 && buf == old(buf)[old(n) := i]
      ensures Idx() == old(Idx()) + [i]
    {
      buf := buf[n := i];
      n := n + 1;
    }

    /** Mark row i live; out-of-range rows are refused by the caller's bounds. */
    method Add(i: nat)
      requires Valid() && n < VECTOR_SIZE && i < VECTOR_SIZE
      modifies this
      ensures Valid() && n == old(n) + 1 && buf == old(buf)[old(n) := i]
      ensures Idx() == old(Idx()) + [i]
    {
      AppendUnchecked(i);
    }

    method ResetFull(k: nat)
      requires Valid() && k <= VECTOR_SIZE
      modifies this
      ensures Sound() && Idx() == Iota(k)
    {
      IotaAscending(k);
      n := k;
      for i := 0 to k
        invariant Valid() && n == k
        invariant forall j :: 0 <= j < i ==> buf[j] == j
      {
        buf := buf[i := i];
      }
    }
  }

  class Vector {
    const typ: ColType
    var vals: seq<Scalar>
    const nulls: NullBitmap
    var length: nat

    ghost predicate Valid()
      reads this, nulls
    {
      && nulls.Valid() && nulls.len == VECTOR_SIZE
      && length == |vals| <= VECTOR_SIZE
      && AllFit(vals, typ)
      && (forall i :: length <= i < VECTOR_SIZE ==> !Bits(nulls.data)[i])
    }

    /** The rows the vector holds: null wherever the bitmap says so. */
    ghost function Cells(): (cells: seq<Cell>)
      requires Valid()
      reads this, nulls
    {
      Show(vals, Bits(nulls.data))
    }

    constructor (t: ColType)
      ensures Valid() && typ == t && length == 0 && fresh(nulls)
    {
      typ := t;
      vals := [];
      length := 0;
      nulls := new NullBitmap(VECTOR_SIZE);
    }

    method Reset()
      requires Valid()
      modifies this, nulls
      ensures Valid() && length == 0
    {
      vals := [];
      nulls.Reset();
      length := 0;
    }

    /** Row i, null or not: the hoisted HasNulls test, the bitmap probe, then the value. */
    method Get(i: nat) returns (c: Cell)
      requires Valid() && i < length
      ensures c == Cells()[i]
    {
      var hasNulls := HasNulls(nulls.data);
      if hasNulls {
        var isNull := IsNull(nulls.data, i);
        if isNull {
          return Null;
        }
      }
      c := Val(vals[i]);
    }

    /** The typed Append methods; false is the error of a wrong type or a full vector. */
    method Append(x: Scalar) returns (ok: bool)
      requires Valid() && (x.SStr? ==> Fits(x, TString))
      modifies this, nulls
      ensures Valid() && nulls.data == old(nulls.data)
      ensures ok <==> TypeOf(x) == typ && old(length) < VECTOR_SIZE
      ensures Cells() == if ok then old(Cells()) + [Val(x)] else old(Cells())
    {
      if TypeOf(x) != typ || length >= VECTOR_SIZE {
        return false;
      }
      vals := vals + [x];
      length := length + 1;
      ok := true;
    }

    method AppendNull() returns (ok: bool)
      requires Valid()
      modifies this, nulls
      ensures Valid()
      ensures ok <==> old(length) < VECTOR_SIZE
      ensures Cells() == if ok then old(Cells()) + [Null] else old(Cells())
    {
      if length >= VECTOR_SIZE {
        return false;
      }
      nulls.SetNull(length);
      vals := vals + [Zero(typ)];
      length := length + 1;
      ok := true;
    }

    /** Rows [start, start+n) of a chunk, written over a vector that was just reset. */
    method CopyFromChunk(c: Chunk, start: int, n: nat) returns (ok: bool)
      requires Valid() && length == 0 && ChunkOk(c)
      modifies this, nulls
      ensures Valid()
      ensures ok <==> c.typ == typ && n <= VECTOR_SIZE && 0 <= start && start + n <= |c.vals|
      ensures ok ==> length == n && Cells() == Storage.Cells(c)[start..start + n]
      ensures !ok ==> length == 0
    {
      ok := c.typ == typ && n <= VECTOR_SIZE && 0 <= start && start + n <= |c.vals|;
      if !ok {
        return;
      }
      vals := vals + c.vals[start..start + n];
      length := n;
      var some := HasNullsInRange(c.nulls, start, n);
      if some {
        CopyNulls(nulls, c.nulls, start, n);
      }
      assert forall k :: 0 <= k < n ==> Bits(nulls.data)[k] == Bits(c.nulls)[start..start + n][k];
      ShowSlice(c.vals, Bits(c.nulls), start, n, Bits(nulls.data));
    }
  }

  /** The null bits [start, start+n) of src, set in a cleared bitmap. */
  method CopyNulls(dst: NullBitmap, src: seq<bv8>, start: nat, n: nat)
    requires dst.Valid() && n <= dst.len && start + n <= 8 * |src|
    requires forall i :: 0 <= i < |Bits(dst.data)| ==> !Bits(dst.data)[i]
    modifies dst
    ensures dst.Valid()
    ensures forall k :: 0 <= k < n ==> Bits(dst.data)[k] == Bits(src)[start + k]
    ensures forall k :: n <= k < |Bits(dst.data)| ==> !Bits(dst.data)[k]
  {
    for i := 0 to n
      invariant dst.Valid()
      invariant forall k :: 0 <= k < i ==> Bits(dst.data)[k] == Bits(src)[start + k]
      invariant forall k :: i <= k < |Bits(dst.data)| ==> !Bits(dst.data)[k]
    {
      var isNull := IsNull(src, start + i);
      if isNull {
        dst.SetNull(i);
      }
    }
  }

  class Batch {
    const vectors: array<Vector?>
    var sel: Selection

    constructor (vectors: array<Vector?>, sel: Selection)
      ensures this.vectors == vectors && this.sel == sel
    {
      this.vectors := vectors;
      this.sel := sel;
    }

    /** Empty every vector and the selection for the next window. */
    method Reset(ghost mem: set<object>, ghost types: seq<ColType>)
      requires Ready(this, mem, types)
      modifies mem, sel
      ensures Ready(this, mem, types) && Filled(this, mem, types, [], 0) && sel.n == 0
    {
      ResetVectors(vectors, mem);
      sel.Reset();
    }
  }

  /** vs and its well-formed vectors all lie in R. */
  ghost predicate Owned(vs: array<Vector?>, R: set<object>)
    reads R
  {
    && vs in R
    && (forall i :: 0 <= i < vs.Length ==>
          vs[i] != null && vs[i] in R && vs[i].nulls in R && vs[i].Valid())
  }

  /** No two entries share a buffer, so each vector can be filled on its own. */
  ghost predicate Distinct(vs: array<Vector?>)
    reads vs
  {
    forall i, j :: 0 <= i < j < vs.Length && vs[i] != null && vs[j] != null ==>
      vs[i] != vs[j] && vs[i].nulls != vs[j].nulls
  }

  ghost predicate Typed(vs: array<Vector?>, types: seq<ColType>)
    reads vs
  {
    vs.Length == |types| && forall i :: 0 <= i < vs.Length ==> vs[i] != null && vs[i].typ == types[i]
  }

  /** The columns of a batch as plain sequences. */
  ghost function Cols(vs: array<Vector?>, R: set<object>): (cols: seq<seq<Cell>>)
    requires Owned(vs, R)
    reads R
    ensures |cols| == vs.Length
  {
    seq(vs.Length, c requires 0 <= c < vs.Length && Owned(vs, R) reads R => vs[c].Cells())
  }

  /** Every column is empty. */
  ghost predicate Blank(vs: array<Vector?>, R: set<object>)
    requires Owned(vs, R)
    reads R
  {
    forall c :: 0 <= c < vs.Length ==> vs[c].length == 0
  }

  /** The vectors themselves, without the array that lists them. */
  ghost predicate Mem(vs: array<Vector?>, mem: set<object>)
    reads vs
  {
    && vs !in mem
    && (forall i :: 0 <= i < vs.Length ==> vs[i] != null && vs[i] in mem && vs[i].nulls in mem)
  }

  /** One empty vector per type. */
  method NewVectors(types: seq<ColType>) returns (vs: array<Vector?>, ghost mem: set<object>)
    ensures fresh(vs) && fresh(mem) && Mem(vs, mem)
    ensures Owned(vs, mem + {vs}) && Distinct(vs) && Typed(vs, types) && Blank(vs, mem + {vs})
  {
    vs, mem := new Vector?[|types|], {};
    for c := 0 to |types|
      invariant fresh(vs) && fresh(mem) && vs !in mem && vs.Length == |types|
      invariant forall i :: 0 <= i < c ==>
          vs[i] != null && vs[i] in mem && vs[i].nulls in mem && vs[i].Valid()
          && vs[i].length == 0 && vs[i].typ == types[i]
      invariant forall i, j :: 0 <= i < j < c ==> vs[i] != vs[j] && vs[i].nulls != vs[j].nulls
    {
      var v := new Vector(types[c]);
      vs[c] := v;
      mem := mem + {v, v.nulls};
    }
  }

  method ResetVectors(vs: array<Vector?>, ghost mem: set<object>)
    requires Mem(vs, mem) && Owned(vs, mem + {vs})
    modifies mem
    ensures Owned(vs, mem + {vs}) && Blank(vs, mem + {vs})
  {
    for c := 0 to vs.Length
      invariant Owned(vs, mem + {vs})
      invariant forall i :: 0 <= i < c ==> vs[i].length == 0
    {
      vs[c].Reset();
    }
  }

  ghost function RowAt(cols: seq<seq<Cell>>, i: nat): Row {
    seq(|cols|, c requires 0 <= c < |cols| => if i < |cols[c]| then cols[c][i] else Null)
  }

  ghost function LiveRows(cols: seq<seq<Cell>>, idx: seq<nat>): seq<Row> {
    seq(|idx|, k requires 0 <= k < |idx| => RowAt(cols, idx[k]))
  }

  /** idx selects rows that every column has, each at most once and in order. */
  ghost predicate Selects(cols: seq<seq<Cell>>, idx: seq<nat>) {
    && (forall c, k :: 0 <= c < |cols| && 0 <= k < |idx| ==> idx[k] < |cols[c]|)
    && (forall j, k :: 0 <= j < k < |idx| ==> idx[j] < idx[k])
  }

  /** Selecting among the live rows is selecting among the row numbers. */
  lemma {:induction false} PickLive(cols: seq<seq<Cell>>, idx: seq<nat>, col: nat, pos: seq<nat>)
    requires Selects(cols, idx) && col < |cols|
    requires forall m :: 0 <= m < |pos| ==> pos[m] < |idx|
    requires forall a, b :: 0 <= a < b < |pos| ==> pos[a] < pos[b]
    ensures Gather(cols[col], idx) == Column(LiveRows(cols, idx), col)
    ensures Selects(cols, Pick(idx, pos))
    ensures LiveRows(cols, Pick(idx, pos)) == Pick(LiveRows(cols, idx), pos)
  {}

  /** Keeping the first m row numbers keeps the first m rows. */
  lemma TakeLive(cols: seq<seq<Cell>>, idx: seq<nat>, m: nat)
    requires Selects(cols, idx) && m <= |idx|
    ensures Selects(cols, idx[..m]) && LiveRows(cols, idx[..m]) == LiveRows(cols, idx)[..m]
  {}

  /** Choosing columns projects every row. */
  lemma ProjectLive(cols: seq<seq<Cell>>, idx: seq<nat>, pick: seq<nat>)
    requires Selects(cols, idx) && forall i :: 0 <= i < |pick| ==> pick[i] < |cols|
    ensures var out := seq(|pick|, i requires 0 <= i < |pick| => cols[pick[i]]);
            Selects(out, idx) && LiveRows(out, idx) == ProjectRows(pick, LiveRows(cols, idx))
  {
    var out := seq(|pick|, i requires 0 <= i < |pick| => cols[pick[i]]);
    forall k | 0 <= k < |idx|
      ensures LiveRows(out, idx)[k] == ProjectRows(pick, LiveRows(cols, idx))[k]
    {
      assert RowAt(out, idx[k]) == ProjectRow(pick, RowAt(cols, idx[k]));
    }
  }

  /** Columns that spell out rows from top to bottom show them when every row is selected. */
  lemma WindowLive(cols: seq<seq<Cell>>, rows: seq<Row>)
    requires forall k :: 0 <= k < |rows| ==> |rows[k]| == |cols|
    requires forall c :: 0 <= c < |cols| ==> cols[c] == Column(rows, c)
    ensures Selects(cols, Iota(|rows|)) && LiveRows(cols, Iota(|rows|)) == rows
  {
    forall k | 0 <= k < |rows|
      ensures LiveRows(cols, Iota(|rows|))[k] == rows[k]
    {
      assert RowAt(cols, k) == rows[k];
    }
  }

  /** The live rows of b, in selection order, are exactly rows; its vectors lie in R. */
  ghost predicate Shows(b: Batch, rows: seq<Row>, R: set<object>)
    reads b, b.sel, R
  {
    && Owned(b.vectors, R) && b.sel.Valid()
    && Selects(Cols(b.vectors, R), b.sel.Idx())
    && rows == LiveRows(Cols(b.vectors, R), b.sel.Idx())
  }

  /** Columns that point into another batch hold what that batch's columns hold. */
  lemma AliasCols(vs: array<Vector?>, src: array<Vector?>, R: set<object>, pick: seq<nat>)
    requires Owned(src, R) && vs.Length == |pick|
    requires forall i :: 0 <= i < |pick| ==> pick[i] < src.Length && vs[i] == src[pick[i]]
    ensures Owned(vs, R + {vs})
    ensures var cols := Cols(src, R);
            Cols(vs, R + {vs}) == seq(|pick|, i requires 0 <= i < |pick| => cols[pick[i]])
  {}

  /** The vectors an operator owns and fills batch after batch. */
  ghost predicate Buffers(out: Batch, mem: set<object>, types: seq<ColType>)
    reads mem, out.vectors
  {
    && Mem(out.vectors, mem) && Owned(out.vectors, mem + {out.vectors})
    && Distinct(out.vectors) && Typed(out.vectors, types)
  }

  /** An output batch whose vectors and selection can be refilled. */
  ghost predicate Ready(out: Batch, mem: set<object>, types: seq<ColType>)
    reads out, out.sel, mem, out.vectors
  {
    Buffers(out, mem, types) && out !in mem && out.sel !in mem && out.sel.Sound()
  }

  /** An output batch of its own, allocated once and reused for every window. */
  method NewOutput(types: seq<ColType>) returns (out: Batch, ghost mem: set<object>)
    ensures fresh(out) && fresh(out.vectors) && fresh(out.sel) && fresh(mem)
    ensures Ready(out, mem, types) && Filled(out, mem, types, [], 0) && out.sel.n == 0
  {
    var vs;
    vs, mem := NewVectors(types);
    var sel := new Selection();
    out := new Batch(vs, sel);
  }

  /** The first n columns spell out rows from top to bottom; the others are still empty. */
  ghost predicate Filled(out: Batch, mem: set<object>, types: seq<ColType>, rows: seq<Row>, n: nat)
    reads mem, out.vectors
  {
    && Buffers(out, mem, types) && n <= |types|
    && (forall c :: 0 <= c < n ==> out.vectors[c].Cells() == Column(rows, c))
    && (forall c :: n <= c < |types| ==> out.vectors[c].length == 0)
  }

  /** Filled columns and a full selection show the rows they spell out. */
  lemma ShowWindow(out: Batch, mem: set<object>, types: seq<ColType>, rows: seq<Row>)
    requires Filled(out, mem, types, rows, |types|) && out.sel.Valid() && out.sel.Idx() == Iota(|rows|)
    requires forall k :: 0 <= k < |rows| ==> |rows[k]| == |types|
    ensures Shows(out, rows, mem + {out.vectors})
  {
    WindowLive(Cols(out.vectors, mem + {out.vectors}), rows);
  }

  /** Select every row of a freshly filled batch, as the blocking operators do. */
  method SelectAll(sel: Selection, n: nat)
    requires sel.Valid() && sel.n == 0 && n <= VECTOR_SIZE
    modifies sel
    ensures sel.Sound() && sel.Idx() == Iota(n)
  {
    IotaAscending(n);
    for i := 0 to n
      invariant sel.Valid() && sel.Idx() == Iota(i)
    {
      sel.Add(i);
      assert Iota(i + 1) == Iota(i) + [i];
    }
  }

  /** Rows read off typed vectors fit the vectors' types. */
  lemma LiveRowsFit(vs: array<Vector?>, R: set<object>, types: seq<ColType>, idx: seq<nat>)
    requires Owned(vs, R) && Typed(vs, types) && Selects(Cols(vs, R), idx)
    ensures forall k :: 0 <= k < |idx| ==> RowFits(LiveRows(Cols(vs, R), idx)[k], types)
  {}

  /** Copy rows [offset, offset+n) of column c over an empty vector. */
  method LoadColumn(out: Batch, src: seq<Chunk>, c: nat, rowCount: nat, offset: nat, n: nat,
                    ghost mem: set<object>, ghost types: seq<ColType>, ghost rows: seq<Row>)
    requires Aligned(src, rowCount, types) && n <= VECTOR_SIZE && offset + n <= rowCount && c < |src|
    requires rows == TableRows(src, rowCount)[offset..offset + n] && Filled(out, mem, types, rows, c)
    modifies mem
    ensures Filled(out, mem, types, rows, c + 1)
  {
    assert forall i :: 0 <= i < |types| && i != c ==>
        out.vectors[i] != out.vectors[c] && out.vectors[i].nulls != out.vectors[c].nulls;
    TableColumn(src, rowCount, c, offset, offset + n, types);
    var ok := out.vectors[c].CopyFromChunk(src[c], offset, n);
  }

  method LoadColumns(out: Batch, src: seq<Chunk>, rowCount: nat, offset: nat, n: nat,
                     ghost mem: set<object>, ghost types: seq<ColType>, ghost rows: seq<Row>)
    requires Aligned(src, rowCount, types) && n <= VECTOR_SIZE && offset + n <= rowCount
    requires rows == TableRows(src, rowCount)[offset..offset + n] && Filled(out, mem, types, rows, 0)
    modifies mem
    ensures Filled(out, mem, types, rows, |types|)
  {
    for c := 0 to |src|
      invariant Filled(out, mem, types, rows, c)
    {
      LoadColumn(out, src, c, rowCount, offset, n, mem, types, rows);
    }
  }

  /** Refill a batch with rows [offset, offset+n) of a table, all selected: what a scan does per call. */
  method LoadWindow(out: Batch, src: seq<Chunk>, rowCount: nat, offset: nat, n: nat,
                    ghost mem: set<object>, ghost types: seq<ColType>)
    requires Ready(out, mem, types) && Aligned(src, rowCount, types)
    requires n <= VECTOR_SIZE && offset + n <= rowCount
    modifies mem, out.sel
    ensures Ready(out, mem, types)
    ensures Shows(out, TableRows(src, rowCount)[offset..offset + n], mem + {out.vectors})
  {
    ghost var rows := TableRows(src, rowCount)[offset..offset + n];
    out.Reset(mem, types);
    LoadColumns(out, src, rowCount, offset, n, mem, types, rows);
    out.sel.ResetFull(n);
    ShowWindow(out, mem, types, rows);
  }
}
