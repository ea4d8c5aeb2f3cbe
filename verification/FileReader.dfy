/** storage/reader.go: from the trailer backwards to the footer, and from the footer to any chunk. */
module FileReaders {
  import opened Types
  import opened Storage
  import opened LittleEndian
  import opened Codecs
  import opened Plain
  import opened StringTables
  import opened Footers
  import opened FileLayout

  // ----- opening -----

  predicate HeaderOk(b: seq<Byte>) {
    HEADER_SIZE <= |b| && b[0..4] == MAGIC && ReadU16(b[4..6]) == FORMAT_VERSION
  }

  /** readTrailer and the bounds check of readFooter: where the footer starts and ends. */
  function FooterExtent(b: seq<Byte>): (r: Option<(nat, nat)>)
    ensures r.Some? ==> HEADER_SIZE <= r.value.0 <= r.value.1 == |b| - TRAILER_SIZE
  {
    if |b| < HEADER_SIZE + TRAILER_SIZE then None
    else
      var end := |b| - TRAILER_SIZE;
      if b[end + 4..] != MAGIC then None
      else
        var len := ReadU32(b[end..end + 4]);
        if len > end - HEADER_SIZE then None else Some((end - len, end))
  }

  /** OpenFile on any bytes: an error, or the metadata of the footer. */
  function Opened(b: seq<Byte>): (r: Option<FileMeta>)
    ensures r.Some? ==> |r.value.names| == |r.value.types|
    ensures r.Some? ==> forall g :: 0 <= g < |r.value.groups| ==> |r.value.groups[g].columns| == |r.value.types|
  {
    if !HeaderOk(b) then None
    else
      var extent := FooterExtent(b);
      if extent.None? then None else ParseFooter(b[extent.value.0..extent.value.1])
  }

  // ----- reading chunks -----

  /** decodeColumn on a chunk's value bytes. */
  function DecodedValues(t: ColType, data: seq<Byte>, rowCount: nat): (r: Option<seq<Scalar>>)
    ensures r.Some? ==> |r.value| == rowCount
  {
    match t
    case TString => DecodedStrings(data, rowCount)
    case TBool => if |data| != rowCount then None else Values(ReadAll(t, data, 0, rowCount))
    case _ => if |data| != 8 * rowCount then None else Values(ReadAll(t, data, 0, rowCount))
  }

  /** ReadAt: the bytes of an extent, or an error when it does not lie inside the file. */
  function ReadExtent(b: seq<Byte>, offset: int, size: nat): (r: Option<seq<Byte>>)
    ensures r.Some? ==> |r.value| == size
  {
    if offset < 0 then None
    else if size == 0 then Some([])
    else if offset + size > |b| then None
    else Some(b[offset..offset + size])
  }

  function BitmapSize(rowCount: nat): nat {
    (rowCount + 7) / 8
  }

  /** One column of a row group. */
  function DecodedChunk(b: seq<Byte>, name: Text, code: Byte, m: ChunkMeta, rowCount: nat): (r: Option<Chunk>)
    ensures r.Some? ==> |r.value.vals| == rowCount
  {
    var buf, t := ReadExtent(b, m.offset, m.size), TypeOfCode(code);
    if buf.None? || m.size < BitmapSize(rowCount) || t.None? then None
    else
      var cut := m.size - BitmapSize(rowCount);
      var vals := DecodedValues(t.value, buf.value[..cut], rowCount);
      if vals.None? then None else Some(Chunk(name, t.value, vals.value, BytesBitmap(buf.value[cut..])))
  }

  function DecodedColumns(b: seq<Byte>, m: FileMeta, g: GroupMeta, n: nat): (r: Option<seq<Chunk>>)
    requires |m.names| == |m.types| == |g.columns| && n <= |m.names|
    ensures r.Some? ==> |r.value| == n
  {
    if n == 0 then Some([])
    else
      var init := DecodedColumns(b, m, g, n - 1);
      var last := DecodedChunk(b, m.names[n - 1], m.types[n - 1], g.columns[n - 1], g.rowCount);
      if init.None? || last.None? then None else Some(init.value + [last.value])
  }

  /** ReadRowGroup: an error for an index out of range, for a bad chunk and for no columns at all. */
  function DecodedGroup(b: seq<Byte>, m: FileMeta, index: int): Option<RowGroup>
    requires |m.names| == |m.types|
    requires forall g :: 0 <= g < |m.groups| ==> |m.groups[g].columns| == |m.types|
  {
    if index < 0 || index >= |m.groups| then None
    else
      var g := m.groups[index];
      var columns := DecodedColumns(b, m, g, |m.names|);
      if columns.None? || columns.value == [] then None else Some(RowGroup(columns.value, g.rowCount))
  }

  // ----- the reader's loops -----

  lemma {:induction false} ColumnsFail(b: seq<Byte>, m: FileMeta, g: GroupMeta, n: nat, k: nat)
    requires |m.names| == |m.types| == |g.columns| && k <= n <= |m.names|
    requires DecodedColumns(b, m, g, k).None?
    ensures DecodedColumns(b, m, g, n).None?
  {
    hide DecodedChunk;
    if k < n {
      ColumnsFail(b, m, g, n - 1, k);
    }
  }

  method DecodeValues(t: ColType, data: seq<Byte>, rowCount: nat) returns (r: Option<seq<Scalar>>)
    ensures r == DecodedValues(t, data, rowCount)
  {
    match t {
      case TString =>
        r := DecodeStrings(data, rowCount);
      case TBool =>
        if |data| != rowCount {
          return None;
        }
        r := DecodeBools(data);
      case _ =>
        if |data| != 8 * rowCount {
          return None;
        }
        r := DecodeFixed(t, data, rowCount);
    }
  }

  method DecodeBools(data: seq<Byte>) returns (r: Option<seq<Scalar>>)
    ensures r == Values(ReadAll(TBool, data, 0, |data|))
  {
    var col: seq<Scalar> := [];
    for i := 0 to |data|
      invariant ReadAll(TBool, data, 0, i) == Some((col, i))
    {
      col := col + [SBool(data[i] != 0)];
    }
    r := Some(col);
  }

  class FileReader {
    const file: seq<Byte>
    const meta: FileMeta

    ghost predicate Valid() {
      && |meta.names| == |meta.types|
      && (forall g :: 0 <= g < |meta.groups| ==> |meta.groups[g].columns| == |meta.types|)
    }

    constructor (file: seq<Byte>, meta: FileMeta)
      ensures this.file == file && this.meta == meta
    {
      this.file, this.meta := file, meta;
    }

    method ReadRowGroup(index: int) returns (rg: Option<RowGroup>)
      requires Valid()
      ensures rg == DecodedGroup(file, meta, index)
    {
      hide DecodedValues, ReadExtent;
      if index < 0 || index >= |meta.groups| {
        return None;
      }
      var g := meta.groups[index];
      var columns: seq<Chunk> := [];
      for i := 0 to |meta.names|
        invariant DecodedColumns(file, meta, g, i) == Some(columns)
      {
        var chunk := ReadChunk(meta.names[i], meta.types[i], g.columns[i], g.rowCount);
        if chunk.None? {
          ColumnsFail(file, meta, g, |meta.names|, i + 1);
          return None;
        }
        columns := columns + [chunk.value];
      }
      if |columns| == 0 {
        return None;
      }
      rg := Some(RowGroup(columns, g.rowCount));
    }

    method ReadChunk(name: Text, code: Byte, m: ChunkMeta, rowCount: nat) returns (c: Option<Chunk>)
      ensures c == DecodedChunk(file, name, code, m, rowCount)
    {
      hide DecodedValues;
      var buf := ReadExtent(file, m.offset, m.size);
      if buf.None? {
        return None;
      }
      var bitmapSize := (rowCount + 7) / 8;
      if m.size < bitmapSize {
        return None;
      }
      var cut := m.size - bitmapSize;
      var t := TypeOfCode(code);
      if t.None? {
        return None;
      }
      var vals := DecodeValues(t.value, buf.value[..cut], rowCount);
      if vals.None? {
        return None;
      }
      c := Some(Chunk(name, t.value, vals.value, BytesBitmap(buf.value[cut..])));
    }
  }

  /** OpenFile. */
  method OpenFile(b: seq<Byte>) returns (r: Option<FileReader>)
    ensures r.Some? <==> Opened(b).Some?
    ensures r.Some? ==> r.value.file == b && Some(r.value.meta) == Opened(b) && r.value.Valid()
  {
    hide FromLe, ParseFields, ParseGroups;
    if |b| < HEADER_SIZE || b[0..4] != MAGIC || ReadU16(b[4..6]) != FORMAT_VERSION {
      return None;
    }
    if |b| < HEADER_SIZE + TRAILER_SIZE || b[|b| - 4..] != MAGIC {
      return None;
    }
    var footerLen := ReadU32(b[|b| - TRAILER_SIZE..|b| - 4]);
    if footerLen > |b| - HEADER_SIZE - TRAILER_SIZE {
      return None;
    }
    var meta := ReadFooter(b[|b| - TRAILER_SIZE - footerLen..|b| - TRAILER_SIZE]);
    if meta.None? {
      return None;
    }
    var reader := new FileReader(b, meta.value);
    r := Some(reader);
  }

  // ----- the footer's loops -----

  lemma {:induction false} FieldsFail(b: seq<Byte>, off: nat, n: nat, k: nat)
    requires k <= n && ParseFields(b, off, k).None?
    ensures ParseFields(b, off, n).None?
  {
    hide ParseField;
    if k < n {
      FieldsFail(b, off, n - 1, k);
    }
  }

  lemma {:induction false} ColumnMetasFail(codes: seq<Byte>, b: seq<Byte>, off: nat, n: nat, k: nat)
    requires k <= n <= |codes| && ParseColumns(codes, b, off, k).None?
    ensures ParseColumns(codes, b, off, n).None?
  {
    hide ParseChunkMeta;
    if k < n {
      ColumnMetasFail(codes, b, off, n - 1, k);
    }
  }

  lemma {:induction false} GroupMetasFail(codes: seq<Byte>, b: seq<Byte>, off: nat, n: nat, k: nat)
    requires k <= n && ParseGroups(codes, b, off, k).None?
    ensures ParseGroups(codes, b, off, n).None?
  {
    hide ParseGroup;
    if k < n {
      GroupMetasFail(codes, b, off, n - 1, k);
    }
  }

  method ReadFields(b: seq<Byte>, off: nat, n: nat) returns (r: Option<(seq<Text>, seq<Byte>, nat)>)
    ensures r == ParseFields(b, off, n)
  {
    hide ParseField;
    var names: seq<Text>, types: seq<Byte>, pos := [], [], off;
    for i := 0 to n
      invariant ParseFields(b, off, i) == Some((names, types, pos))
    {
      var field := ParseField(b, pos);
      if field.None? {
        FieldsFail(b, off, n, i + 1);
        return None;
      }
      names, types, pos := names + [field.value.0.0], types + [field.value.0.1], field.value.1;
    }
    r := Some((names, types, pos));
  }

  method ReadColumnMetas(codes: seq<Byte>, b: seq<Byte>, off: nat) returns (r: Option<(seq<ChunkMeta>, nat)>)
    ensures r == ParseColumns(codes, b, off, |codes|)
  {
    hide ParseChunkMeta;
    var columns: seq<ChunkMeta>, pos := [], off;
    for col := 0 to |codes|
      invariant ParseColumns(codes, b, off, col) == Some((columns, pos))
    {
      var m := ParseChunkMeta(codes[col], b, pos);
      if m.None? {
        ColumnMetasFail(codes, b, off, |codes|, col + 1);
        return None;
      }
      columns, pos := columns + [m.value.0], m.value.1;
    }
    r := Some((columns, pos));
  }

  method ReadGroupMeta(codes: seq<Byte>, b: seq<Byte>, off: nat) returns (r: Option<(GroupMeta, nat)>)
    ensures r == ParseGroup(codes, b, off)
  {
    hide ReadU32At, ParseColumns;
    var rowCount := ReadU32At(b, off);
    if rowCount.None? {
      return None;
    }
    var columns := ReadColumnMetas(codes, b, off + 4);
    if columns.None? {
      return None;
    }
    r := Some((GroupMeta(rowCount.value, columns.value.0), columns.value.1));
  }

  method ReadGroupMetas(codes: seq<Byte>, b: seq<Byte>, off: nat, n: nat) returns (r: Option<(seq<GroupMeta>, nat)>)
    ensures r == ParseGroups(codes, b, off, n)
  {
    hide ParseGroup;
    var groups: seq<GroupMeta>, pos := [], off;
    for i := 0 to n
      invariant ParseGroups(codes, b, off, i) == Some((groups, pos))
    {
      var g := ReadGroupMeta(codes, b, pos);
      if g.None? {
        GroupMetasFail(codes, b, off, n, i + 1);
        return None;
      }
      groups, pos := groups + [g.value.0], g.value.1;
    }
    r := Some((groups, pos));
  }

  method ReadFooter(b: seq<Byte>) returns (r: Option<FileMeta>)
    ensures r == ParseFooter(b)
  {
    hide ReadU16At, ReadU32At, ParseFields, ParseGroups;
    var numCols := ReadU16At(b, 0);
    if numCols.None? {
      return None;
    }
    var fields := ReadFields(b, 2, numCols.value);
    if fields.None? {
      return None;
    }
    var numGroups := ReadU32At(b, fields.value.2);
    if numGroups.None? {
      return None;
    }
    var groups := ReadGroupMetas(fields.value.1, b, fields.value.2 + 4, numGroups.value);
    if groups.None? {
      return None;
    }
    r := Some(FileMeta(fields.value.0, fields.value.1, groups.value.0));
  }
}
