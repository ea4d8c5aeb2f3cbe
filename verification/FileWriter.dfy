/** storage/writer.go: an append-only file, its offset and the metadata collected on the way. */
module FileWriters {
  import opened Types
  import opened Storage
  import opened LittleEndian
  import opened Plain
  import opened StringTables
  import opened ChunkStats
  import opened Footers
  import opened FileLayout

  class FileWriter {
    var file: seq<Byte>
    var offset: nat
    var names: seq<Text>
    var types: seq<Byte>
    var groups: seq<GroupMeta>
    ghost var written: seq<RowGroup>

    /** The offset is the file's length; file and metadata are what the groups written so far demand. */
    ghost predicate Valid()
      reads this
    {
      && GroupsOk(written) && SameSchema(written)
      && offset == |file| && file == Header() + BodyData(written)
      && names == SchemaNames(written) && types == SchemaCodes(written)
      && groups == GroupMetas(written, HEADER_SIZE)
    }

    constructor ()
      ensures Valid() && written == []
    {
      file, offset, names, types, groups, written := [], 0, [], [], [], [];
      new;
      WriteBytes(MAGIC);
      WriteBytes(U16Bytes(FORMAT_VERSION));
      assert file == Header() + BodyData([]);
    }

    /** Every write appends and advances the offset. */
    method WriteBytes(data: seq<Byte>)
      requires offset == |file|
      modifies `file, `offset
      ensures offset == |file| && file == old(file) + data
    {
      file := file + data;
      offset := offset + |data|;
    }

    /** One chunk: its values, its bitmap, and the metadata that locates it. */
    method WriteChunk(c: Chunk) returns (m: ChunkMeta)
      requires ChunkOk(c) && offset == |file|
      modifies `file, `offset
      ensures offset == |file| && file == old(file) + ChunkData(c)
      ensures m == ColumnMeta(c, old(offset))
    {
      var chunkStart := offset;
      var values := EncodeValues(c);
      WriteBytes(values);
      WriteBytes(BitmapBytes(c.nulls));
      assert file == old(file) + ChunkData(c);
      var stats := ComputeStats(c);
      m := ChunkMeta(OffsetField(chunkStart), offset - chunkStart, stats.nullCount, stats.bounds);
    }

    /** writeColumnValues: dispatch on the column type. */
    static method EncodeValues(c: Chunk) returns (bytes: seq<Byte>)
      requires ChunkOk(c)
      ensures bytes == ValuePart(c)
    {
      if c.typ == TString {
        bytes := EncodeStrings(c.vals);
      } else {
        bytes := EncodePlain(c.vals);
      }
    }

    method WriteColumns(cols: seq<Chunk>) returns (ms: seq<ChunkMeta>)
      requires ChunksOk(cols) && offset == |file|
      modifies `file, `offset
      ensures offset == |file| && file == old(file) + ColumnsData(cols)
      ensures ms == ColumnMetas(cols, old(offset))
    {
      hide ChunkData, ColumnMeta;
      ms := [];
      assert cols[..0] == [];
      for i := 0 to |cols|
        invariant offset == |file| && file == old(file) + ColumnsData(cols[..i])
        invariant ms == ColumnMetas(cols[..i], old(offset))
      {
        assert cols[..i + 1][..i] == cols[..i];
        ghost var done := ColumnsData(cols[..i]);
        var m := WriteChunk(cols[i]);
        Joined(old(file), done, ChunkData(cols[i]));
        ms := ms + [m];
      }
      assert cols[..|cols|] == cols;
    }

    /**
     * Append a row group. The first one fixes the schema; a later one of another schema is
     * refused before anything is written.
     */
    method WriteRowGroup(rg: RowGroup) returns (ok: bool)
      requires Valid() && GroupOk(rg)
      modifies this
      ensures Valid()
      ensures ok <==> old(written) == []
                      || (NamesOf(rg) == SchemaNames(old(written)) && CodesOf(rg) == SchemaCodes(old(written)))
      ensures written == if ok then old(written) + [rg] else old(written)
      ensures !ok ==> file == old(file) && groups == old(groups)
    {
      hide ColumnsData, ColumnMetas;
      if |groups| != 0 && (NamesOf(rg) != names || CodesOf(rg) != types) {
        return false;
      }
      var columns := WriteColumns(rg.columns);
      OneMoreGroup(written, rg);
      Joined(Header(), BodyData(written), ColumnsData(rg.columns));
      if |groups| == 0 {
        names, types := NamesOf(rg), CodesOf(rg);
      }
      groups := groups + [GroupMeta(rg.rowCount, columns)];
      written := written + [rg];
      ok := true;
    }

    /** The footer, its length and the closing magic complete the file. */
    method Close()
      requires Valid()
      modifies `file, `offset
      ensures file == FileData(written)
    {
      hide GroupMetas, BodyData, FooterBytes, Header, SameSchema, SchemaNames, SchemaCodes, FromLe, LittleEndian.Le;
      var footerStart := offset;
      var footer := EncodeFooter(names, types, groups);
      WriteBytes(footer);
      var footerLen := (offset - footerStart) % 0x1_0000_0000;
      WriteBytes(U32Bytes(footerLen));
      WriteBytes(MAGIC);
      Closed(Header(), BodyData(written), footer, U32Bytes(footerLen), MAGIC);
    }
  }

  lemma Joined(a: seq<Byte>, b: seq<Byte>, c: seq<Byte>)
    ensures a + b + c == a + (b + c)
  {}

  lemma Closed(header: seq<Byte>, body: seq<Byte>, footer: seq<Byte>, len: seq<Byte>, magic: seq<Byte>)
    ensures header + body + footer + len + magic == header + (body + (footer + (len + magic)))
  {}

  lemma {:induction false} OneMoreGroup(groups: seq<RowGroup>, rg: RowGroup)
    requires GroupsOk(groups) && GroupOk(rg)
    ensures GroupsOk(groups + [rg])
    ensures BodyData(groups + [rg]) == BodyData(groups) + ColumnsData(rg.columns)
    ensures GroupMetas(groups + [rg], HEADER_SIZE)
            == GroupMetas(groups, HEADER_SIZE)
               + [GroupMeta(rg.rowCount, ColumnMetas(rg.columns, HEADER_SIZE + |BodyData(groups)|))]
  {
    hide ColumnsData, ColumnMetas;
    assert (groups + [rg])[..|groups|] == groups;
  }

  // ----- the footer -----

  /** writeSchema and writeRowGroupIndex. */
  method EncodeFooter(names: seq<Text>, types: seq<Byte>, groups: seq<GroupMeta>) returns (buf: seq<Byte>)
    requires |names| == |types|
    ensures buf == FooterBytes(FileMeta(names, types, groups))
  {
    hide FromLe, LittleEndian.Le;
    var fields := EncodeSchema(names, types);
    var index := EncodeIndex(groups);
    buf := U16Bytes(|names| % 0x1_0000) + (fields + (U32Bytes(|groups| % 0x1_0000_0000) + index));
  }

  method EncodeSchema(names: seq<Text>, types: seq<Byte>) returns (buf: seq<Byte>)
    requires |names| == |types|
    ensures buf == FieldsBytes(names, types)
  {
    hide FieldBytes;
    buf := [];
    for i := 0 to |names|
      invariant buf == FieldsBytes(names[..i], types[..i])
    {
      assert names[..i + 1][..i] == names[..i] && types[..i + 1][..i] == types[..i];
      buf := buf + FieldBytes(names[i], types[i]);
    }
    assert names[..|names|] == names && types[..|types|] == types;
  }

  method EncodeIndex(groups: seq<GroupMeta>) returns (buf: seq<Byte>)
    ensures buf == GroupsBytes(groups)
  {
    hide FromLe, LittleEndian.Le, ColumnsBytes;
    buf := [];
    for g := 0 to |groups|
      invariant buf == GroupsBytes(groups[..g])
    {
      assert groups[..g + 1][..g] == groups[..g];
      var columns := EncodeColumnMetas(groups[g].columns);
      buf := buf + (U32Bytes(groups[g].rowCount % 0x1_0000_0000) + columns);
    }
    assert groups[..|groups|] == groups;
  }

  method EncodeColumnMetas(ms: seq<ChunkMeta>) returns (buf: seq<Byte>)
    ensures buf == ColumnsBytes(ms)
  {
    hide ChunkMetaBytes;
    buf := [];
    for c := 0 to |ms|
      invariant buf == ColumnsBytes(ms[..c])
    {
      assert ms[..c + 1][..c] == ms[..c];
      buf := buf + ChunkMetaBytes(ms[c]);
    }
    assert ms[..|ms|] == ms;
  }
}
