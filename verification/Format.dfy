/**
 * The file as storage/format.go documents it, byte by byte: every file of row groups is this image,
 * and what a reader takes from any bytes.
 */
module Formats {
  import opened Types
  import opened Bitmap
  import opened BitSets
  import opened Storage
  import opened LittleEndian
  import opened Codecs
  import opened StringTables
  import opened ChunkStats
  import opened Footers
  import opened FileLayout
  import opened Images

  // ----- the image -----

  /** The characters of the first n strings. */
  function Written(vals: seq<Scalar>, n: nat): seq<Byte>
    requires Strings(vals) && n <= |vals|
  {
    Join(seq(n, i requires 0 <= i < n => Chars(vals[i].s)))
  }

  /** A string column: one offset more than strings, where each starts and the last ends, and their characters. */
  function StringsImage(vals: seq<Scalar>): seq<Byte>
    requires Strings(vals)
  {
    Four(|vals| + 1)
    + (Join(seq(|vals| + 1, i requires 0 <= i <= |vals| => Four(|Written(vals, i)|))) + Written(vals, |vals|))
  }

  /** The values of a chunk, then its null bitmap. */
  ghost function ChunkImage(c: Chunk): seq<Byte>
    requires ChunkOk(c)
  {
    (if c.typ == TString then StringsImage(c.vals) else Join(ValueParts(c.vals)))
    + seq(|c.nulls|, i requires 0 <= i < |c.nulls| => c.nulls[i] as int)
  }

  ghost function GroupParts(cols: seq<Chunk>): (parts: seq<seq<Byte>>)
    requires ChunksOk(cols)
    ensures |parts| == |cols|
  {
    seq(|cols|, c requires 0 <= c < |cols| => ChunkImage(cols[c]))
  }

  ghost function BodyParts(groups: seq<RowGroup>): seq<seq<Byte>>
    requires GroupsOk(groups)
  {
    seq(|groups|, g requires 0 <= g < |groups| => Join(GroupParts(groups[g].columns)))
  }

  ghost function BodyImage(groups: seq<RowGroup>): seq<Byte>
    requires GroupsOk(groups)
  {
    Join(BodyParts(groups))
  }

  /** The schema's type byte. */
  function TypeByte(t: ColType): Byte {
    match t
    case TInt64 => 0
    case TFloat64 => 1
    case TString => 2
    case TBool => 3
  }

  /** A column's name with its 2-byte length, and its type. */
  function FieldImage(c: Chunk): seq<Byte> {
    Two(|c.name|) + (Chars(c.name) + [TypeByte(c.typ)])
  }

  function FieldParts(cols: seq<Chunk>): seq<seq<Byte>> {
    seq(|cols|, i requires 0 <= i < |cols| => FieldImage(cols[i]))
  }

  /** Eight bytes for a number or a bool, a length and its characters for a string. */
  function StatImage(v: Scalar): seq<Byte> {
    if v.SBool? then Eight(if v.b then 1 else 0) else ValueImage(v)
  }

  /** Where a chunk stands, its size, its number of nulls, and its bounds behind a 1, or a 0 without any. */
  ghost function MetaImage(c: Chunk, at: nat): seq<Byte>
    requires ChunkOk(c)
  {
    Eight(at) + (Four(|ChunkImage(c)|) + (Four(|Members(Bits(c.nulls))|)
      + match StatsOf(c).bounds
        case None => [0]
        case Some((lo, hi)) => [1] + (StatImage(lo) + StatImage(hi))))
  }

  /** The entry of a row group whose chunks stand from a place on. */
  ghost function EntryImage(rg: RowGroup, at: nat): seq<Byte>
    requires GroupOk(rg)
  {
    Four(rg.rowCount) + Join(MetaParts(rg.columns, at))
  }

  ghost function MetaParts(cols: seq<Chunk>, at: nat): seq<seq<Byte>>
    requires ChunksOk(cols)
  {
    seq(|cols|, c requires 0 <= c < |cols| => MetaImage(cols[c], at + |Join(GroupParts(cols)[..c])|))
  }

  ghost function EntryParts(groups: seq<RowGroup>): seq<seq<Byte>>
    requires GroupsOk(groups)
  {
    seq(|groups|, g requires 0 <= g < |groups| => EntryImage(groups[g], 6 + |BodyImage(groups[..g])|))
  }

  /** The columns of the first row group, the number of row groups, the entry of each. */
  ghost function FooterImage(groups: seq<RowGroup>): seq<Byte>
    requires GroupsOk(groups)
  {
    var cols := if groups == [] then [] else groups[0].columns;
    Two(|cols|) + (Join(FieldParts(cols)) + (Four(|groups|) + Join(EntryParts(groups))))
  }

  /** "CLDB", version 1, the row groups, the footer, its length, "CLDB". */
  ghost function FileImage(groups: seq<RowGroup>): seq<Byte>
    requires GroupsOk(groups)
  {
    var footer := FooterImage(groups);
    [67, 76, 68, 66, 1, 0] + (BodyImage(groups) + (footer + (Four(|footer|) + [67, 76, 68, 66])))
  }

  // ----- the file is its image -----

  lemma {:induction false} TextsAre(vals: seq<Scalar>, n: nat)
    requires Strings(vals) && n <= |vals|
    ensures Texts(vals[..n]) == Written(vals, n)
  {
    if n > 0 {
      var parts := seq(n, i requires 0 <= i < n => Chars(vals[i].s));
      TextsAre(vals, n - 1);
      TextsSnoc(vals, n - 1);
      JoinSnoc(parts);
      assert parts[..n - 1] == seq(n - 1, i requires 0 <= i < n - 1 => Chars(vals[i].s));
      assert TextBytes(vals[n - 1].s) == Chars(vals[n - 1].s);
    }
  }

  lemma {:induction false} OffsetsAre(vals: seq<Scalar>, n: nat)
    requires Strings(vals) && n <= |vals| + 1
    ensures OffsetBytes(vals, n) == Join(seq(n, i requires 0 <= i < n => Four(|Written(vals, i)|)))
  {
    hide FromLe, LittleEndian.Le, Four, Written, Texts;
    if n > 0 {
      var parts := seq(n, i requires 0 <= i < n => Four(|Written(vals, i)|));
      OffsetsAre(vals, n - 1);
      TextsAre(vals, n - 1);
      FieldBytesAre(|Written(vals, n - 1)|);
      JoinSnoc(parts);
      assert parts[..n - 1] == seq(n - 1, i requires 0 <= i < n - 1 => Four(|Written(vals, i)|));
    }
  }

  lemma {:induction false} TableIs(vals: seq<Scalar>)
    requires Strings(vals)
    ensures TableBytes(vals) == StringsImage(vals)
  {
    hide FromLe, LittleEndian.Le, Four, Written, Texts, OffsetBytes, Join;
    FieldBytesAre(|vals| + 1);
    OffsetsAre(vals, |vals| + 1);
    TextsAre(vals, |vals|);
    assert vals[..|vals|] == vals;
    var n := |vals| + 1;
    assert seq(n, i requires 0 <= i < n => Four(|Written(vals, i)|))
        == seq(|vals| + 1, i requires 0 <= i <= |vals| => Four(|Written(vals, i)|));
  }

  lemma {:induction false} ChunkIs(c: Chunk)
    requires ChunkOk(c)
    ensures ChunkData(c) == ChunkImage(c)
  {
    hide TableBytes, StringsImage, AllBytes, Join, ValueImage;
    if c.typ == TString {
      TableIs(c.vals);
    } else {
      AllBytesAre(c.vals);
    }
  }

  lemma {:induction false} ColumnsAre(cols: seq<Chunk>, n: nat)
    requires ChunksOk(cols) && n <= |cols|
    ensures ColumnsData(cols[..n]) == Join(GroupParts(cols)[..n])
  {
    hide ChunkData, ChunkImage;
    if n > 0 {
      ColumnsAre(cols, n - 1);
      ChunkIs(cols[n - 1]);
      JoinSnoc(GroupParts(cols)[..n]);
      assert cols[..n][..n - 1] == cols[..n - 1];
      assert GroupParts(cols)[..n][..n - 1] == GroupParts(cols)[..n - 1];
    }
  }

  lemma {:induction false} GroupIs(cols: seq<Chunk>)
    requires ChunksOk(cols)
    ensures ColumnsData(cols) == Join(GroupParts(cols))
  {
    hide ColumnsData, Join;
    ColumnsAre(cols, |cols|);
    assert cols[..|cols|] == cols && GroupParts(cols)[..|cols|] == GroupParts(cols);
  }

  lemma {:induction false} BodyIs(groups: seq<RowGroup>)
    requires GroupsOk(groups)
    ensures BodyData(groups) == BodyImage(groups)
  {
    hide ColumnsData, GroupParts;
    if groups != [] {
      var n := |groups| - 1;
      BodyIs(groups[..n]);
      GroupIs(groups[n].columns);
      JoinSnoc(BodyParts(groups));
      assert BodyParts(groups)[..n] == BodyParts(groups[..n]);
    }
  }

  lemma {:induction false} FieldIs(c: Chunk)
    ensures FieldBytes(c.name, CodeOf(c.typ)) == FieldImage(c)
  {
    hide FromLe, LittleEndian.Le, Two;
    FieldBytesAre(|c.name|);
    assert TextBytes(c.name) == Chars(c.name);
  }

  lemma {:induction false} FieldsAre(rg: RowGroup, n: nat)
    requires n <= |rg.columns|
    ensures FieldsBytes(NamesOf(rg)[..n], CodesOf(rg)[..n]) == Join(FieldParts(rg.columns)[..n])
  {
    hide FieldBytes, FieldImage;
    if n > 0 {
      FieldsAre(rg, n - 1);
      FieldIs(rg.columns[n - 1]);
      JoinSnoc(FieldParts(rg.columns)[..n]);
      assert NamesOf(rg)[..n][..n - 1] == NamesOf(rg)[..n - 1] && CodesOf(rg)[..n][..n - 1] == CodesOf(rg)[..n - 1];
      assert FieldParts(rg.columns)[..n][..n - 1] == FieldParts(rg.columns)[..n - 1];
    }
  }

  lemma {:induction false} StatIs(v: Scalar)
    ensures StatBytes(v) == StatImage(v)
  {
    hide FromLe, LittleEndian.Le, Eight;
    match v
    case SBool(x) => LongBytesAre(if x then 1 else 0);
    case _ =>
      ValueBytesAre(v);
      assert StatBytes(v) == ValueBytes(v);
  }

  /** A file position in eight bytes. */
  lemma {:induction false} PlaceIs(pos: nat)
    ensures U64Bytes(ToU64(OffsetField(pos))) == Eight(pos)
  {
    hide FromLe, LittleEndian.Le, Four;
    var m := pos % 0x1_0000_0000_0000_0000;
    assert ToU64(OffsetField(pos)) == m;
    LongBytesAre(m);
    var t := pos / 0x1_0000_0000_0000_0000;
    assert pos == m + 0x1_0000_0000 * (0x1_0000_0000 * t);
    FourShifts(m, 0x1_0000_0000 * t);
    assert pos / 0x1_0000_0000 == m / 0x1_0000_0000 + 0x1_0000_0000 * t;
    FourShifts(m / 0x1_0000_0000, t);
  }

  lemma {:induction false} MetaIs(c: Chunk, at: nat)
    requires ChunkOk(c)
    ensures ChunkMetaBytes(ColumnMeta(c, at)) == MetaImage(c, at)
  {
    hide FromLe, LittleEndian.Le, Four, Eight, ChunkData, ChunkImage, Members, Bits, StatBytes, StatImage, OffsetField;
    hide BoolBounds, Bounds, Cells;
    PlaceIs(at);
    ChunkIs(c);
    FieldBytesAre(|ChunkImage(c)|);
    FieldBytesAre(|Members(Bits(c.nulls))|);
    if StatsOf(c).bounds.Some? {
      StatIs(StatsOf(c).bounds.value.0);
      StatIs(StatsOf(c).bounds.value.1);
    }
  }

  lemma {:induction false} MetasAre(cols: seq<Chunk>, at: nat, n: nat)
    requires ChunksOk(cols) && n <= |cols|
    ensures ColumnsBytes(ColumnMetas(cols[..n], at)) == Join(MetaParts(cols, at)[..n])
  {
    hide ChunkMetaBytes, MetaImage, ColumnMeta, ColumnsData, GroupParts, ChunkOk, Join;
    if n == 0 {
      assert Join(MetaParts(cols, at)[..0]) == [] by {
        JoinNone();
      }
    } else {
      MetasAre(cols, at, n - 1);
      ColumnsAre(cols, n - 1);
      MetaIs(cols[n - 1], at + |Join(GroupParts(cols)[..n - 1])|);
      JoinSnoc(MetaParts(cols, at)[..n]);
      assert cols[..n][..n - 1] == cols[..n - 1];
      assert MetaParts(cols, at)[..n][..n - 1] == MetaParts(cols, at)[..n - 1];
      ColumnsSnoc(ColumnMetas(cols[..n - 1], at), ColumnMeta(cols[n - 1], at + |ColumnsData(cols[..n - 1])|));
    }
  }

  lemma {:induction false} EntryIs(rg: RowGroup, at: nat)
    requires GroupOk(rg)
    ensures GroupMetaBytes(GroupMeta(rg.rowCount, ColumnMetas(rg.columns, at))) == EntryImage(rg, at)
  {
    hide FromLe, LittleEndian.Le, Four, ColumnsBytes, ColumnMetas, Join, MetaParts, ChunkOk;
    FieldBytesAre(rg.rowCount);
    MetasAre(rg.columns, at, |rg.columns|);
    assert rg.columns[..|rg.columns|] == rg.columns;
    WholeParts(rg.columns, at);
  }

  lemma WholeParts(cols: seq<Chunk>, at: nat)
    requires ChunksOk(cols)
    ensures MetaParts(cols, at)[..|cols|] == MetaParts(cols, at)
  {}

  lemma {:induction false} EntriesAre(groups: seq<RowGroup>, n: nat)
    requires GroupsOk(groups) && n <= |groups|
    ensures GroupsBytes(GroupMetas(groups[..n], 6)) == Join(EntryParts(groups)[..n])
  {
    hide GroupMetaBytes, EntryImage, ColumnMetas, BodyImage, BodyData, GroupOk;
    if n > 0 {
      EntriesAre(groups, n - 1);
      BodyIs(groups[..n - 1]);
      EntryIs(groups[n - 1], 6 + |BodyImage(groups[..n - 1])|);
      JoinSnoc(EntryParts(groups)[..n]);
      assert groups[..n][..n - 1] == groups[..n - 1];
      assert EntryParts(groups)[..n][..n - 1] == EntryParts(groups)[..n - 1];
    }
  }

  lemma {:induction false} FooterIs(groups: seq<RowGroup>)
    requires GroupsOk(groups)
    ensures FooterBytes(MetaOf(groups)) == FooterImage(groups)
  {
    hide FromLe, LittleEndian.Le, Two, Four, GroupMetas, EntryParts, GroupsBytes, FieldParts, NamesOf, CodesOf, GroupOk;
    EntriesAre(groups, |groups|);
    assert groups[..|groups|] == groups;
    AllEntries(groups);
    FieldBytesAre(|SchemaNames(groups)|);
    FieldBytesAre(|groups|);
    if groups != [] {
      FieldsAre(groups[0], |groups[0].columns|);
      AllFields(groups[0]);
    } else {
      NoFields();
    }
  }

  lemma AllEntries(groups: seq<RowGroup>)
    requires GroupsOk(groups)
    ensures EntryParts(groups)[..|groups|] == EntryParts(groups)
  {}

  lemma AllFields(rg: RowGroup)
    ensures var n := |rg.columns|;
            && NamesOf(rg)[..n] == NamesOf(rg) && CodesOf(rg)[..n] == CodesOf(rg)
            && FieldParts(rg.columns)[..n] == FieldParts(rg.columns)
  {}

  lemma NoFields()
    ensures FieldsBytes([], []) == Join(FieldParts([]))
  {}

  /** Every file the writer finishes is the documented image of its row groups. */
  lemma {:induction false} FileIs(groups: seq<RowGroup>)
    requires GroupsOk(groups)
    ensures FileData(groups) == FileImage(groups)
  {
    hide FromLe, LittleEndian.Le, Four, BodyData, BodyImage, FooterBytes, FooterImage, MetaOf;
    BodyIs(groups);
    FooterIs(groups);
    FieldBytesAre(|FooterImage(groups)|);
    HeaderIs();
  }

  lemma HeaderIs()
    ensures Header() == [67, 76, 68, 66, 1, 0] && MAGIC == [67, 76, 68, 66]
  {
    assert U16Bytes(1) == [1, 0];
  }
}
