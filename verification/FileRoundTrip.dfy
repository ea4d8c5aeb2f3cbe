/** Writing and then reading a file is the identity on its row groups. */
module FileRoundTrip {
  import opened Types
  import opened Bitmap
  import opened BitSets
  import opened Storage
  import opened Relation
  import opened LittleEndian
  import opened Codecs
  import opened StringTables
  import opened ChunkStats
  import opened Footers
  import opened FileLayout
  import opened FileWriters
  import opened FileReaders

  // ----- one chunk -----

  lemma {:induction false} FixedSize(vals: seq<Scalar>, t: ColType)
    requires FitAll(vals, t) && t != TString
    ensures |AllBytes(vals)| == (if t == TBool then 1 else 8) * |vals|
  {
    hide FromLe, LittleEndian.Le;
    if vals != [] {
      assert FitAll(vals[..|vals| - 1], t) && Fits(vals[|vals| - 1], t);
      FixedSize(vals[..|vals| - 1], t);
    }
  }

  lemma {:induction false} ValuesBack(c: Chunk)
    requires ChunkOk(c) && |c.vals| + 1 < 0x1_0000_0000 && |ValuePart(c)| < 0x1_0000_0000
    ensures DecodedValues(c.typ, ValuePart(c), |c.vals|) == Some(c.vals)
  {
    hide ReadAll, AllBytes, FromLe, LittleEndian.Le, DecodedStrings, Texts, OffsetBytes;
    if c.typ == TString {
      assert |Texts(c.vals)| <= |ValuePart(c)|;
      StringsRoundTrip(c.vals);
    } else {
      FixedSize(c.vals, c.typ);
      HoldsWhole(ValuePart(c));
      ReadAllBack(c.typ, ValuePart(c), 0, c.vals);
    }
  }

  lemma {:induction false} ExtentBack(b: seq<Byte>, start: nat, x: seq<Byte>)
    requires Holds(b, start, x)
    ensures ReadExtent(b, start, |x|) == Some(x)
  {
    hide Holds;
    HoldsSlice(b, start, x);
  }

  lemma {:induction false} ChunkBack(b: seq<Byte>, start: nat, c: Chunk)
    requires ChunkOk(c) && Holds(b, start, ChunkData(c)) && start < 0x8000_0000_0000_0000
    requires |c.vals| + 1 < 0x1_0000_0000 && |ChunkData(c)| < 0x1_0000_0000
    ensures DecodedChunk(b, c.name, CodeOf(c.typ), ColumnMeta(c, start), |c.vals|) == Some(c)
  {
    hide Holds, DecodedValues, ValuePart, ReadExtent, BitmapBytes, BytesBitmap, StatsOf, OffsetField;
    OffsetSmall(start);
    ExtentBack(b, start, ChunkData(c));
    BitmapWidth(c.nulls);
    var cut := |ValuePart(c)|;
    assert ChunkData(c)[..cut] == ValuePart(c) && ChunkData(c)[cut..] == BitmapBytes(c.nulls);
    ValuesBack(c);
    BitmapBack(c.nulls);
    assert c == Chunk(c.name, c.typ, c.vals, c.nulls);
  }

  lemma BitmapWidth(nulls: seq<bv8>)
    ensures |BitmapBytes(nulls)| == |nulls|
  {}

  // ----- one row group -----

  /** Chunk i of some columns stands behind the ones before it, where its metadata says. */
  lemma {:induction false} ChunkAt(b: seq<Byte>, start: nat, cols: seq<Chunk>, i: nat)
    requires ChunksOk(cols) && i < |cols| && Holds(b, start, ColumnsData(cols))
    ensures Holds(b, start + |ColumnsData(cols[..i])|, ChunkData(cols[i]))
    ensures ColumnMetas(cols, start)[i] == ColumnMeta(cols[i], start + |ColumnsData(cols[..i])|)
    decreases |cols|
  {
    hide Holds, ChunkData, ColumnMeta;
    var n := |cols| - 1;
    HoldsConcat(b, start, ColumnsData(cols[..n]), ChunkData(cols[n]));
    if i < n {
      ChunkAt(b, start, cols[..n], i);
      assert cols[..n][..i] == cols[..i];
    }
  }

  lemma {:induction false} ColumnsPrefix(cols: seq<Chunk>, i: nat)
    requires ChunksOk(cols) && i <= |cols|
    ensures |ColumnsData(cols[..i])| <= |ColumnsData(cols)|
    decreases |cols|
  {
    hide ChunkData;
    if i < |cols| {
      ColumnsPrefix(cols[..|cols| - 1], i);
      assert cols[..|cols| - 1][..i] == cols[..i];
    } else {
      assert cols[..i] == cols;
    }
  }

  /** Every number of a row group fits the field it is stored in. */
  ghost predicate GroupFits(rg: RowGroup)
    requires GroupOk(rg)
  {
    && rg.rowCount + 8 < 0x1_0000_0000
    && (forall c :: 0 <= c < |rg.columns| ==> |ChunkData(rg.columns[c])| < 0x1_0000_0000)
  }

  lemma {:induction false} ColumnsReadBack(b: seq<Byte>, start: nat, rg: RowGroup, m: FileMeta, n: nat)
    requires GroupOk(rg) && GroupFits(rg) && n <= |rg.columns|
    requires Holds(b, start, ColumnsData(rg.columns)) && start + |ColumnsData(rg.columns)| < 0x8000_0000_0000_0000
    requires m.names == NamesOf(rg) && m.types == CodesOf(rg)
    ensures DecodedColumns(b, m, GroupMeta(rg.rowCount, ColumnMetas(rg.columns, start)), n) == Some(rg.columns[..n])
  {
    hide Holds, DecodedChunk, ChunkData, ColumnsData, ColumnMetas, ColumnMeta;
    if n > 0 {
      ColumnsReadBack(b, start, rg, m, n - 1);
      ChunkAt(b, start, rg.columns, n - 1);
      ColumnsPrefix(rg.columns, n - 1);
      ChunkBack(b, start + |ColumnsData(rg.columns[..n - 1])|, rg.columns[n - 1]);
      TakeSnoc(rg.columns, n - 1);
    }
  }

  // ----- the file -----

  /** Row group g stands behind the ones before it, where its metadata says. */
  lemma {:induction false} GroupAt(b: seq<Byte>, start: nat, groups: seq<RowGroup>, g: nat)
    requires GroupsOk(groups) && g < |groups| && Holds(b, start, BodyData(groups))
    ensures Holds(b, start + |BodyData(groups[..g])|, ColumnsData(groups[g].columns))
    ensures GroupMetas(groups, start)[g]
            == GroupMeta(groups[g].rowCount, ColumnMetas(groups[g].columns, start + |BodyData(groups[..g])|))
    ensures |BodyData(groups[..g])| + |ColumnsData(groups[g].columns)| <= |BodyData(groups)|
    decreases |groups|
  {
    hide Holds, ColumnsData, ColumnMetas;
    var n := |groups| - 1;
    HoldsConcat(b, start, BodyData(groups[..n]), ColumnsData(groups[n].columns));
    if g < n {
      GroupAt(b, start, groups[..n], g);
      assert groups[..n][..g] == groups[..g];
    }
  }

  /** The row groups of one file: one schema, and sizes the format's fields can hold. */
  ghost predicate Writable(groups: seq<RowGroup>) {
    && GroupsOk(groups) && SameSchema(groups)
    && (forall g :: 0 <= g < |groups| ==> GroupFits(groups[g]))
    && |groups| < 0x1_0000_0000 && |SchemaNames(groups)| < 0x1_0000
    && (forall i :: 0 <= i < |SchemaNames(groups)| ==> |SchemaNames(groups)[i]| < 0x1_0000)
    && |FooterBytes(MetaOf(groups))| < 0x1_0000_0000
    && HEADER_SIZE + |BodyData(groups)| < 0x8000_0000_0000_0000
  }

  /** Reading a row group back from a finished file. */
  lemma {:induction false} GroupReadBack(groups: seq<RowGroup>, g: nat)
    requires Writable(groups) && g < |groups|
    ensures MetaShaped(groups) && DecodedGroup(FileData(groups), MetaOf(groups), g) == Some(groups[g])
  {
    hide Holds, ColumnsData, ColumnMetas, BodyData, FooterBytes, DecodedColumns, GroupMetas;
    hide NamesOf, CodesOf, Header, GroupFits;
    var b := FileData(groups);
    MetaIsShaped(groups);
    BodyInFile(groups);
    GroupAt(b, HEADER_SIZE, groups, g);
    var start, rg, m := HEADER_SIZE + |BodyData(groups[..g])|, groups[g], MetaOf(groups);
    assert m.names == NamesOf(rg) && m.types == CodesOf(rg);
    ColumnsReadBack(b, start, rg, m, |rg.columns|);
    assert rg.columns[..|rg.columns|] == rg.columns && |m.names| == |rg.columns|;
    assert rg == RowGroup(rg.columns, rg.rowCount);
  }

  /** Every row group's metadata has one entry per column of the schema. */
  ghost predicate MetaShaped(groups: seq<RowGroup>)
    requires GroupsOk(groups)
  {
    && |MetaOf(groups).names| == |MetaOf(groups).types|
    && (forall g :: 0 <= g < |MetaOf(groups).groups| ==> |MetaOf(groups).groups[g].columns| == |MetaOf(groups).types|)
  }

  /** The extent recorded for a chunk holds exactly that chunk's bytes. */
  lemma {:induction false} ExtentsLocateChunks(groups: seq<RowGroup>, g: nat, c: nat)
    requires GroupsOk(groups) && g < |groups| && c < |groups[g].columns|
    requires HEADER_SIZE + |BodyData(groups)| < 0x8000_0000_0000_0000
    ensures |MetaOf(groups).groups[g].columns| == |groups[g].columns|
    ensures var m, b := MetaOf(groups).groups[g].columns[c], FileData(groups);
            HEADER_SIZE <= m.offset && m.offset + m.size <= |b|
            && b[m.offset..m.offset + m.size] == ChunkData(groups[g].columns[c])
  {
    hide Holds, ColumnsData, ColumnMetas, BodyData, FooterBytes, GroupMetas, Header, ChunkData;
    var b, cols := FileData(groups), groups[g].columns;
    GroupShape(groups, g);
    BodyInFile(groups);
    GroupAt(b, HEADER_SIZE, groups, g);
    var start := HEADER_SIZE + |BodyData(groups[..g])|;
    ChunkAt(b, start, cols, c);
    ColumnsPrefix(cols, c);
    OffsetSmall(start + |ColumnsData(cols[..c])|);
    HoldsSlice(b, start + |ColumnsData(cols[..c])|, ChunkData(cols[c]));
  }

  /** A file begins with the magic and the version, and ends with the footer's length and the magic. */
  lemma {:induction false} FileFraming(groups: seq<RowGroup>)
    requires GroupsOk(groups)
    ensures var b, footer := FileData(groups), FooterBytes(MetaOf(groups));
            && HEADER_SIZE + TRAILER_SIZE <= |b| && b[..4] == b[|b| - 4..] == [67, 76, 68, 66] && b[4..6] == [1, 0]
            && FromLe(b[|b| - 8..|b| - 4]) == |footer| % 0x1_0000_0000
            && b[..|b| - 8] == Header() + BodyData(groups) + footer
  {
    hide BodyData, FooterBytes, MetaOf, LittleEndian.Le, FromLe;
    var b, footer := FileData(groups), FooterBytes(MetaOf(groups));
    var front := Header() + BodyData(groups) + footer;
    VersionBytes();
    assert b == front + U32Bytes(|footer| % 0x1_0000_0000) + MAGIC;
    assert b[..|b| - 8] == front && b[|b| - 8..|b| - 4] == U32Bytes(|footer| % 0x1_0000_0000) && b[|b| - 4..] == MAGIC;
    assert b[..4] == MAGIC && b[4..6] == U16Bytes(FORMAT_VERSION);
  }

  lemma VersionBytes()
    ensures U16Bytes(FORMAT_VERSION) == [1, 0]
  {}

  lemma {:induction false} MetaIsShaped(groups: seq<RowGroup>)
    requires GroupsOk(groups) && SameSchema(groups)
    ensures MetaShaped(groups)
  {
    hide ColumnsData, ColumnMetas, BodyData;
    forall g | 0 <= g < |groups|
      ensures |GroupMetas(groups, HEADER_SIZE)[g].columns| == |SchemaCodes(groups)|
    {
      GroupShape(groups, g);
      assert |CodesOf(groups[g])| == |groups[g].columns|;
    }
  }

  lemma {:induction false} GroupShape(groups: seq<RowGroup>, g: nat)
    requires GroupsOk(groups) && g < |groups|
    ensures |GroupMetas(groups, HEADER_SIZE)[g].columns| == |groups[g].columns|
    decreases |groups|
  {
    hide ColumnsData, BodyData, Bits, ChunkOk;
    if g < |groups| - 1 {
      GroupShape(groups[..|groups| - 1], g);
    }
  }

  lemma {:induction false} BodyInFile(groups: seq<RowGroup>)
    requires GroupsOk(groups)
    ensures Holds(FileData(groups), HEADER_SIZE, BodyData(groups))
  {
    hide Holds, BodyData, FooterBytes, Trailer, Header, MetaOf;
    var footer := FooterBytes(MetaOf(groups));
    HoldsWhole(FileData(groups));
    HoldsFour(FileData(groups), 0, Header(), BodyData(groups), footer, Trailer(footer));
  }

  /** The trailer leads the reader back to exactly the footer the writer started at. */
  lemma {:induction false} TrailerBack(pre: seq<Byte>, footer: seq<Byte>)
    requires HEADER_SIZE <= |pre| && |footer| < 0x1_0000_0000
    ensures var b := pre + (footer + Trailer(footer));
            FooterExtent(b) == Some((|pre|, |pre| + |footer|)) && b[|pre|..|pre| + |footer|] == footer
  {
    hide FromLe, LittleEndian.Le, Holds;
    var b, len := pre + (footer + Trailer(footer)), U32Bytes(|footer|);
    HoldsWhole(b);
    HoldsFour(b, 0, pre, footer, len, MAGIC);
    HoldsSlice(b, |pre|, footer);
    HoldsSlice(b, |pre| + |footer|, len);
    HoldsSlice(b, |pre| + |footer| + 4, MAGIC);
  }

  lemma {:induction false} HeaderBack(rest: seq<Byte>)
    ensures HeaderOk(Header() + rest)
  {}

  // ----- the metadata fits the footer's fields -----

  lemma {:induction false} CellsFit(c: Chunk)
    requires ChunkOk(c)
    ensures forall k :: 0 <= k < |Cells(c)| ==> CellFits(Cells(c)[k], c.typ)
  {}

  lemma {:induction false} BoundsFit(cells: seq<Cell>, t: ColType)
    requires forall k :: 0 <= k < |cells| ==> CellFits(cells[k], t)
    ensures Bounds(cells).Some? ==> Fits(Bounds(cells).value.0, t) && Fits(Bounds(cells).value.1, t)
  {
    if cells != [] {
      BoundsFit(cells[..|cells| - 1], t);
    }
  }

  lemma {:induction false} MembersBound(bits: seq<bool>)
    ensures |Members(bits)| <= |bits|
  {
    CountIsCardinality(bits);
    CountBound(bits);
  }

  lemma {:induction false} CountBound(bits: seq<bool>)
    ensures Count(bits) <= |bits|
  {
    if bits != [] {
      CountBound(bits[..|bits| - 1]);
    }
  }

  lemma {:induction false} ColumnMetaOk(c: Chunk, start: nat)
    requires ChunkOk(c) && start < 0x8000_0000_0000_0000
    requires |ChunkData(c)| < 0x1_0000_0000 && |c.vals| + 8 < 0x1_0000_0000
    ensures MetaOk(ColumnMeta(c, start), CodeOf(c.typ))
  {
    hide ChunkData, Bounds, Members, Bits, Show;
    OffsetSmall(start);
    MembersBound(Bits(c.nulls));
    CellsFit(c);
    BoundsFit(Cells(c), c.typ);
  }

  lemma {:induction false} GroupMetaFits(rg: RowGroup, start: nat)
    requires GroupOk(rg) && GroupFits(rg) && start + |ColumnsData(rg.columns)| < 0x8000_0000_0000_0000
    ensures GroupMetaOk(GroupMeta(rg.rowCount, ColumnMetas(rg.columns, start)), CodesOf(rg))
  {
    hide ChunkData, ColumnsData, ColumnMeta, MetaOk, ColumnMetas;
    forall c | 0 <= c < |rg.columns|
      ensures MetaOk(ColumnMetas(rg.columns, start)[c], CodesOf(rg)[c])
    {
      ColumnsPrefix(rg.columns, c);
      MetaAt(rg.columns, start, c);
      ColumnMetaOk(rg.columns[c], start + |ColumnsData(rg.columns[..c])|);
    }
  }

  lemma {:induction false} MetaAt(cols: seq<Chunk>, start: nat, i: nat)
    requires ChunksOk(cols) && i < |cols|
    ensures ColumnMetas(cols, start)[i] == ColumnMeta(cols[i], start + |ColumnsData(cols[..i])|)
    decreases |cols|
  {
    hide ChunkData, ColumnMeta;
    if i < |cols| - 1 {
      MetaAt(cols[..|cols| - 1], start, i);
      assert cols[..|cols| - 1][..i] == cols[..i];
    }
  }

  lemma {:induction false} MetaFits(groups: seq<RowGroup>)
    requires Writable(groups)
    ensures FileMetaOk(MetaOf(groups))
  {
    hide Holds, FooterBytes, ColumnsData, ColumnMetas, BodyData, GroupMetas, GroupMetaOk, GroupFits, CodesOf, NamesOf;
    var b := FileData(groups);
    BodyInFile(groups);
    forall g | 0 <= g < |groups|
      ensures GroupMetaOk(GroupMetas(groups, HEADER_SIZE)[g], SchemaCodes(groups))
    {
      GroupAt(b, HEADER_SIZE, groups, g);
      GroupMetaFits(groups[g], HEADER_SIZE + |BodyData(groups[..g])|);
    }
  }

  /** Opening a finished file gives back the schema and every chunk's location and statistics. */
  lemma {:induction false} OpenBack(groups: seq<RowGroup>)
    requires Writable(groups)
    ensures Opened(FileData(groups)) == Some(MetaOf(groups))
  {
    hide Holds, FooterBytes, BodyData, MetaOf, ParseFooter, Header, Trailer, FooterExtent, HeaderOk, FileMetaOk;
    var footer := FooterBytes(MetaOf(groups));
    var pre := Header() + BodyData(groups);
    HeaderBack(BodyData(groups) + (footer + Trailer(footer)));
    TrailerBack(pre, footer);
    Joined(Header(), BodyData(groups), footer + Trailer(footer));
    MetaFits(groups);
    FooterRoundTrip(MetaOf(groups));
  }

  /** Write every row group and close. */
  method WriteFile(groups: seq<RowGroup>) returns (file: seq<Byte>)
    requires GroupsOk(groups) && SameSchema(groups)
    ensures file == FileData(groups)
  {
    hide FileData, BodyData, NamesOf, CodesOf;
    var w := new FileWriter();
    assert groups[..0] == [];
    for i := 0 to |groups|
      invariant fresh(w) && w.Valid() && w.written == groups[..i]
    {
      TakeSnoc(groups, i);
      if i > 0 {
        assert groups[..i][0] == groups[0];
      }
      var ok := w.WriteRowGroup(groups[i]);
    }
    assert groups[..|groups|] == groups;
    w.Close();
    file := w.file;
  }

  /**
   * For every list of row groups of one schema that the format can hold, the bytes written
   * open to the same schema and statistics, and every index reads back the same row group:
   * values, null bits, names and types.
   */
  method WriteThenRead(groups: seq<RowGroup>) returns (meta: FileMeta, back: seq<RowGroup>)
    requires Writable(groups)
    ensures back == groups && meta == MetaOf(groups)
  {
    hide FileData, MetaOf, DecodedGroup, BodyData, FooterBytes, GroupFits, SchemaNames;
    var file := WriteFile(groups);
    OpenBack(groups);
    var reader := OpenFile(file);
    meta, back := reader.value.meta, [];
    for i := 0 to |reader.value.meta.groups|
      invariant i <= |groups| && back == groups[..i]
    {
      GroupReadBack(groups, i);
      var rg := reader.value.ReadRowGroup(i);
      TakeSnoc(groups, i);
      back := back + [rg.value];
    }
    assert groups[..|groups|] == groups;
  }
}
