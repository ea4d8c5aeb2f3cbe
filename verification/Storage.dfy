/** storage/chunk.go, storage/rowgroup.go: the immutable tables a scan reads. */
module Storage {
  import opened Types
  import opened Bitmap
  import opened Relation

  /** A named, typed column; row i is null when bit i of nulls is set. */
  datatype Chunk = Chunk(name: Text, typ: ColType, vals: seq<Scalar>, nulls: seq<bv8>)

  datatype RowGroup = RowGroup(columns: seq<Chunk>, rowCount: nat)

  ghost predicate AllFit(vals: seq<Scalar>, t: ColType) {
    forall i :: 0 <= i < |vals| ==> Fits(vals[i], t)
  }

  /** NewColumnChunk's check: as many bits as values, each value of the column's type. */
  ghost predicate ChunkOk(c: Chunk) {
    AllFit(c.vals, c.typ) && |c.nulls| == (|c.vals| + 7) / 8
  }

  ghost predicate GroupOk(rg: RowGroup) {
    |rg.columns| > 0
    && forall i :: 0 <= i < |rg.columns| ==> ChunkOk(rg.columns[i]) && |rg.columns[i].vals| == rg.rowCount
  }

  /** The cells a typed slice and its null bits stand for. */
  function Show(vals: seq<Scalar>, nulls: seq<bool>): (cells: seq<Cell>)
    requires |vals| <= |nulls|
  {
    seq(|vals|, i requires 0 <= i < |vals| => if nulls[i] then Null else Val(vals[i]))
  }

  lemma ShowSlice(vals: seq<Scalar>, nulls: seq<bool>, start: nat, n: nat, part: seq<bool>)
    requires start + n <= |vals| <= |nulls| && n <= |part|
    requires forall k :: 0 <= k < n ==> part[k] == nulls[start + k]
    ensures Show(vals[start..start + n], part) == Show(vals, nulls)[start..start + n]
  {}

  ghost function Cells(c: Chunk): (cells: seq<Cell>)
    requires ChunkOk(c)
  {
    Show(c.vals, Bits(c.nulls))
  }

  /** The rows of some chunks: row i takes cell i of each. */
  ghost function TableRows(src: seq<Chunk>, n: nat): seq<Row> {
    seq(n, i requires 0 <= i < n => seq(|src|, c requires 0 <= c < |src| => ChunkCell(src[c], i)))
  }

  ghost function ChunkCell(c: Chunk, i: nat): Cell {
    if ChunkOk(c) && i < |c.vals| then Cells(c)[i] else Null
  }

  function ChunkTypes(src: seq<Chunk>): seq<ColType> {
    seq(|src|, c requires 0 <= c < |src| => src[c].typ)
  }

  /** Chunks of one row count, well-formed and of the given types. */
  ghost predicate Aligned(src: seq<Chunk>, rowCount: nat, types: seq<ColType>) {
    && types == ChunkTypes(src)
    && (forall c :: 0 <= c < |src| ==> ChunkOk(src[c]) && |src[c].vals| == rowCount)
  }

  lemma TableColumn(src: seq<Chunk>, rowCount: nat, c: nat, lo: nat, hi: nat, types: seq<ColType>)
    requires Aligned(src, rowCount, types) && c < |src| && lo <= hi <= rowCount
    ensures |TableRows(src, rowCount)| == rowCount && |Cells(src[c])| == rowCount
    ensures Column(TableRows(src, rowCount)[lo..hi], c) == Cells(src[c])[lo..hi]
  {}

  /** Every row of a table has cells of the columns' types. */
  lemma TableRowsFit(src: seq<Chunk>, rowCount: nat, types: seq<ColType>)
    requires Aligned(src, rowCount, types)
    ensures forall r :: r in TableRows(src, rowCount) ==> RowFits(r, types)
  {}
}
