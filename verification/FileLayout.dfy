/** storage/format.go: what a file of row groups looks like, byte for byte. */
module FileLayout {
  import opened Types
  import opened Storage
  import opened LittleEndian
  import opened Codecs
  import opened StringTables
  import opened ChunkStats
  import opened Footers

  // ----- chunks -----

  function BitmapBytes(nulls: seq<bv8>): seq<Byte> {
    seq(|nulls|, i requires 0 <= i < |nulls| => nulls[i] as int)
  }

  function BytesBitmap(b: seq<Byte>): seq<bv8> {
    seq(|b|, i requires 0 <= i < |b| => b[i] as bv8)
  }

  lemma BitmapBack(nulls: seq<bv8>)
    ensures BytesBitmap(BitmapBytes(nulls)) == nulls
  {}

  /** The typed values of a chunk: an offset table for strings, otherwise one value after another. */
  ghost function ValuePart(c: Chunk): seq<Byte>
    requires ChunkOk(c)
  {
    if c.typ == TString then TableBytes(c.vals) else AllBytes(c.vals)
  }

  /** A chunk on disk: the values, then the null bitmap. */
  ghost function ChunkData(c: Chunk): seq<Byte>
    requires ChunkOk(c)
  {
    ValuePart(c) + BitmapBytes(c.nulls)
  }

  ghost predicate ChunksOk(cols: seq<Chunk>) {
    forall c :: 0 <= c < |cols| ==> ChunkOk(cols[c])
  }

  ghost function ColumnsData(cols: seq<Chunk>): seq<Byte>
    requires ChunksOk(cols)
  {
    if cols == [] then [] else ColumnsData(cols[..|cols| - 1]) + ChunkData(cols[|cols| - 1])
  }

  ghost predicate GroupsOk(groups: seq<RowGroup>) {
    forall g :: 0 <= g < |groups| ==> GroupOk(groups[g])
  }

  ghost function BodyData(groups: seq<RowGroup>): seq<Byte>
    requires GroupsOk(groups)
  {
    if groups == [] then []
    else BodyData(groups[..|groups| - 1]) + ColumnsData(groups[|groups| - 1].columns)
  }

  // ----- metadata -----

  /** int64(offset) of an unsigned file position. */
  function OffsetField(pos: nat): I64 {
    ToI64(pos % 0x1_0000_0000_0000_0000)
  }

  ghost function ColumnMeta(c: Chunk, start: nat): ChunkMeta
    requires ChunkOk(c)
  {
    ChunkMeta(OffsetField(start), |ChunkData(c)|, StatsOf(c).nullCount, StatsOf(c).bounds)
  }

  /** The metadata of columns written one after another from start on. */
  ghost function ColumnMetas(cols: seq<Chunk>, start: nat): (ms: seq<ChunkMeta>)
    requires ChunksOk(cols)
    ensures |ms| == |cols|
  {
    if cols == [] then []
    else
      var init := cols[..|cols| - 1];
      ColumnMetas(init, start) + [ColumnMeta(cols[|cols| - 1], start + |ColumnsData(init)|)]
  }

  ghost function GroupMetas(groups: seq<RowGroup>, start: nat): (ms: seq<GroupMeta>)
    requires GroupsOk(groups)
    ensures |ms| == |groups|
  {
    if groups == [] then []
    else
      var init, rg := groups[..|groups| - 1], groups[|groups| - 1];
      GroupMetas(init, start) + [GroupMeta(rg.rowCount, ColumnMetas(rg.columns, start + |BodyData(init)|))]
  }

  function NamesOf(rg: RowGroup): seq<Text> {
    seq(|rg.columns|, i requires 0 <= i < |rg.columns| => rg.columns[i].name)
  }

  function CodesOf(rg: RowGroup): seq<Byte> {
    seq(|rg.columns|, i requires 0 <= i < |rg.columns| => CodeOf(rg.columns[i].typ))
  }

  /** The schema captured from the first row group; a file without any has no columns. */
  function SchemaNames(groups: seq<RowGroup>): (names: seq<Text>)
    ensures |names| == if groups == [] then 0 else |groups[0].columns|
  {
    if groups == [] then [] else NamesOf(groups[0])
  }

  function SchemaCodes(groups: seq<RowGroup>): (codes: seq<Byte>)
    ensures |codes| == if groups == [] then 0 else |groups[0].columns|
  {
    if groups == [] then [] else CodesOf(groups[0])
  }

  ghost function MetaOf(groups: seq<RowGroup>): (m: FileMeta)
    requires GroupsOk(groups)
    ensures |m.names| == |m.types| && |m.groups| == |groups|
  {
    FileMeta(SchemaNames(groups), SchemaCodes(groups), GroupMetas(groups, HEADER_SIZE))
  }

  // ----- files -----

  function Header(): (h: seq<Byte>)
    ensures |h| == HEADER_SIZE
  {
    MAGIC + U16Bytes(FORMAT_VERSION)
  }

  ghost function Trailer(footer: seq<Byte>): seq<Byte> {
    U32Bytes(|footer| % 0x1_0000_0000) + MAGIC
  }

  /** Header, row groups, footer, footer length, magic. */
  ghost function FileData(groups: seq<RowGroup>): seq<Byte>
    requires GroupsOk(groups)
  {
    var footer := FooterBytes(MetaOf(groups));
    Header() + (BodyData(groups) + (footer + Trailer(footer)))
  }

  predicate SameSchema(groups: seq<RowGroup>) {
    forall g :: 0 <= g < |groups| ==>
      NamesOf(groups[g]) == SchemaNames(groups) && CodesOf(groups[g]) == SchemaCodes(groups)
  }

  // ----- the layout invariant -----

  /** The chunks lie one behind the other, from start to end, without a gap or an overlap. */
  predicate Tiled(ms: seq<ChunkMeta>, start: nat, end: nat) {
    if ms == [] then start == end
    else
      var n := |ms| - 1;
      start <= ms[n].offset && Tiled(ms[..n], start, ms[n].offset) && ms[n].offset + ms[n].size == end
  }

  function AllChunks(gs: seq<GroupMeta>): seq<ChunkMeta> {
    if gs == [] then [] else AllChunks(gs[..|gs| - 1]) + gs[|gs| - 1].columns
  }

  lemma {:induction false} TiledConcat(a: seq<ChunkMeta>, b: seq<ChunkMeta>, start: nat, mid: nat, end: nat)
    requires Tiled(a, start, mid) && Tiled(b, mid, end) && start <= mid
    ensures Tiled(a + b, start, end) && mid <= end
    decreases |b|
  {
    if b == [] {
      assert a + b == a;
    } else {
      var n := |b| - 1;
      TiledConcat(a, b[..n], start, mid, b[n].offset);
      assert (a + b)[..|a + b| - 1] == a + b[..n];
    }
  }

  lemma OffsetSmall(pos: nat)
    requires pos < 0x8000_0000_0000_0000
    ensures OffsetField(pos) == pos
  {}

  lemma {:induction false} ColumnsTile(cols: seq<Chunk>, start: nat)
    requires ChunksOk(cols) && start + |ColumnsData(cols)| < 0x8000_0000_0000_0000
    ensures Tiled(ColumnMetas(cols, start), start, start + |ColumnsData(cols)|)
  {
    hide ChunkData, OffsetField;
    if cols != [] {
      var init := cols[..|cols| - 1];
      var ms := ColumnMetas(cols, start);
      ColumnsTile(init, start);
      OffsetSmall(start + |ColumnsData(init)|);
      assert ms[..|ms| - 1] == ColumnMetas(init, start);
    }
  }

  lemma {:induction false} GroupsTile(groups: seq<RowGroup>, start: nat)
    requires GroupsOk(groups) && start + |BodyData(groups)| < 0x8000_0000_0000_0000
    ensures Tiled(AllChunks(GroupMetas(groups, start)), start, start + |BodyData(groups)|)
  {
    hide ColumnsData, ColumnMetas, Tiled;
    if groups == [] {
      NothingTiles(start);
    } else {
      var init, rg := groups[..|groups| - 1], groups[|groups| - 1];
      var mid := start + |BodyData(init)|;
      GroupsTile(init, start);
      ColumnsTile(rg.columns, mid);
      TiledConcat(AllChunks(GroupMetas(init, start)), ColumnMetas(rg.columns, mid),
                  start, mid, start + |BodyData(groups)|);
      var gs := GroupMetas(groups, start);
      assert gs[..|gs| - 1] == GroupMetas(init, start);
    }
  }

  lemma NothingTiles(start: nat)
    ensures Tiled([], start, start)
  {}

  /** The recorded extents tile the file from behind the header to the footer. */
  lemma {:induction false} ChunksTileFile(groups: seq<RowGroup>)
    requires GroupsOk(groups) && HEADER_SIZE + |BodyData(groups)| < 0x8000_0000_0000_0000
    ensures Tiled(AllChunks(MetaOf(groups).groups), HEADER_SIZE, |Header()| + |BodyData(groups)|)
  {
    hide Tiled, BodyData, GroupMetas, AllChunks;
    GroupsTile(groups, HEADER_SIZE);
  }
}
