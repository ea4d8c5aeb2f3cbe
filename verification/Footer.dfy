/** The footer of storage/format.go: schema and row group index, as bytes and back. */
module Footers {
  import opened Types
  import opened Relation
  import opened LittleEndian
  import opened Codecs

  const MAGIC: seq<Byte> := [67, 76, 68, 66]
  const FORMAT_VERSION: nat := 1
  const HEADER_SIZE: nat := 6
  const TRAILER_SIZE: nat := 8

  datatype ChunkMeta = ChunkMeta(offset: I64, size: nat, nullCount: nat, bounds: Option<(Scalar, Scalar)>)

  datatype GroupMeta = GroupMeta(rowCount: nat, columns: seq<ChunkMeta>)

  /** types holds the type bytes as stored: a reader accepts any byte until it needs the type. */
  datatype FileMeta = FileMeta(names: seq<Text>, types: seq<Byte>, groups: seq<GroupMeta>)

  function CodeOf(t: ColType): Byte {
    match t
    case TInt64 => 0
    case TFloat64 => 1
    case TString => 2
    case TBool => 3
  }

  function TypeOfCode(c: Byte): Option<ColType> {
    if c == 0 then Some(TInt64) else if c == 1 then Some(TFloat64) else if c == 2 then Some(TString)
    else if c == 3 then Some(TBool) else None
  }

  // ----- bytes -----

  function TextField(s: Text): seq<Byte> {
    U32Bytes(|s| % 0x1_0000_0000) + TextBytes(s)
  }

  /** Statistics take 8 bytes each, a bool's too; strings are length-prefixed. */
  function StatBytes(v: Scalar): seq<Byte> {
    match v
    case SInt(i) => U64Bytes(ToU64(i))
    case SFloat(bits) => U64Bytes(bits)
    case SBool(x) => U64Bytes(if x then 1 else 0)
    case SStr(s) => TextField(s)
  }

  function BoundsBytes(bounds: Option<(Scalar, Scalar)>): seq<Byte> {
    if bounds.None? then [0] else [1] + (StatBytes(bounds.value.0) + StatBytes(bounds.value.1))
  }

  function ChunkMetaBytes(m: ChunkMeta): seq<Byte> {
    U64Bytes(ToU64(m.offset)) + (U32Bytes(m.size % 0x1_0000_0000)
      + (U32Bytes(m.nullCount % 0x1_0000_0000) + BoundsBytes(m.bounds)))
  }

  function ColumnsBytes(ms: seq<ChunkMeta>): seq<Byte> {
    if ms == [] then [] else ColumnsBytes(ms[..|ms| - 1]) + ChunkMetaBytes(ms[|ms| - 1])
  }

  function GroupMetaBytes(g: GroupMeta): seq<Byte> {
    U32Bytes(g.rowCount % 0x1_0000_0000) + ColumnsBytes(g.columns)
  }

  function GroupsBytes(gs: seq<GroupMeta>): seq<Byte> {
    if gs == [] then [] else GroupsBytes(gs[..|gs| - 1]) + GroupMetaBytes(gs[|gs| - 1])
  }

  function FieldBytes(name: Text, code: Byte): seq<Byte> {
    U16Bytes(|name| % 0x1_0000) + (TextBytes(name) + [code])
  }

  function FieldsBytes(names: seq<Text>, types: seq<Byte>): seq<Byte>
    requires |names| == |types|
  {
    if names == [] then []
    else
      var n := |names| - 1;
      FieldsBytes(names[..n], types[..n]) + FieldBytes(names[n], types[n])
  }

  function FooterBytes(m: FileMeta): seq<Byte>
    requires |m.names| == |m.types|
  {
    U16Bytes(|m.names| % 0x1_0000) + (FieldsBytes(m.names, m.types)
      + (U32Bytes(|m.groups| % 0x1_0000_0000) + GroupsBytes(m.groups)))
  }

  // ----- parsing -----

  function ReadU16At(b: seq<Byte>, off: nat): (r: Option<nat>)
    ensures r.Some? <==> off + 2 <= |b|
  {
    if off + 2 > |b| then None else Some(ReadU16(b[off..off + 2]))
  }

  function ReadU64At(b: seq<Byte>, off: nat): (r: Option<U64>)
    ensures r.Some? <==> off + 8 <= |b|
  {
    if off + 8 > |b| then None else Some(ReadU64(b[off..off + 8]))
  }

  /** parseStatValue: a statistic of the type the code stands for, and the offset behind it. */
  function ParseStat(code: Byte, b: seq<Byte>, off: nat): (r: Option<(Scalar, nat)>)
    ensures r.Some? ==> off < r.value.1 <= |b|
  {
    match TypeOfCode(code)
    case None => None
    case Some(TBool) =>
      var u := ReadU64At(b, off);
      if u.None? then None else Some((SBool(u.value != 0), off + 8))
    case Some(t) => ReadValue(t, b, off)
  }

  function ParseBounds(code: Byte, b: seq<Byte>, off: nat): (r: Option<(Option<(Scalar, Scalar)>, nat)>)
    ensures r.Some? ==> off < r.value.1 <= |b|
  {
    if off + 1 > |b| then None
    else if b[off] != 1 then Some((None, off + 1))
    else
      var lo := ParseStat(code, b, off + 1);
      if lo.None? then None
      else
        var hi := ParseStat(code, b, lo.value.1);
        if hi.None? then None else Some((Some((lo.value.0, hi.value.0)), hi.value.1))
  }

  /** parseColumnChunkMeta. */
  function ParseChunkMeta(code: Byte, b: seq<Byte>, off: nat): (r: Option<(ChunkMeta, nat)>)
    ensures r.Some? ==> off < r.value.1 <= |b|
  {
    var offset, size, nullCount := ReadU64At(b, off), ReadU32At(b, off + 8), ReadU32At(b, off + 12);
    if offset.None? || size.None? || nullCount.None? then None
    else
      var bounds := ParseBounds(code, b, off + 16);
      if bounds.None? then None
      else Some((ChunkMeta(ToI64(offset.value), size.value, nullCount.value, bounds.value.0), bounds.value.1))
  }

  function ParseColumns(codes: seq<Byte>, b: seq<Byte>, off: nat, n: nat): (r: Option<(seq<ChunkMeta>, nat)>)
    requires n <= |codes|
    ensures r.Some? ==> |r.value.0| == n && off <= r.value.1
  {
    if n == 0 then Some(([], off))
    else
      var init := ParseColumns(codes, b, off, n - 1);
      if init.None? then None
      else
        var last := ParseChunkMeta(codes[n - 1], b, init.value.1);
        if last.None? then None else Some((init.value.0 + [last.value.0], last.value.1))
  }

  function ParseGroup(codes: seq<Byte>, b: seq<Byte>, off: nat): (r: Option<(GroupMeta, nat)>)
    ensures r.Some? ==> off < r.value.1 && |r.value.0.columns| == |codes|
  {
    var rowCount := ReadU32At(b, off);
    if rowCount.None? then None
    else
      var columns := ParseColumns(codes, b, off + 4, |codes|);
      if columns.None? then None else Some((GroupMeta(rowCount.value, columns.value.0), columns.value.1))
  }

  function ParseGroups(codes: seq<Byte>, b: seq<Byte>, off: nat, n: nat): (r: Option<(seq<GroupMeta>, nat)>)
    ensures r.Some? ==> |r.value.0| == n && off <= r.value.1
    ensures r.Some? ==> forall g :: 0 <= g < n ==> |r.value.0[g].columns| == |codes|
  {
    if n == 0 then Some(([], off))
    else
      var init := ParseGroups(codes, b, off, n - 1);
      if init.None? then None
      else
        var last := ParseGroup(codes, b, init.value.1);
        if last.None? then None else Some((init.value.0 + [last.value.0], last.value.1))
  }

  function ParseField(b: seq<Byte>, off: nat): (r: Option<((Text, Byte), nat)>)
    ensures r.Some? ==> off < r.value.1 <= |b|
  {
    var n := ReadU16At(b, off);
    if n.None? || off + 2 + n.value + 1 > |b| then None
    else Some(((BytesText(b[off + 2..off + 2 + n.value]), b[off + 2 + n.value]), off + 2 + n.value + 1))
  }

  function ParseFields(b: seq<Byte>, off: nat, n: nat): (r: Option<(seq<Text>, seq<Byte>, nat)>)
    ensures r.Some? ==> |r.value.0| == |r.value.1| == n && off <= r.value.2
  {
    if n == 0 then Some(([], [], off))
    else
      var init := ParseFields(b, off, n - 1);
      if init.None? then None
      else
        var last := ParseField(b, init.value.2);
        if last.None? then None
        else Some((init.value.0 + [last.value.0.0], init.value.1 + [last.value.0.1], last.value.1))
  }

  /** readFooter on the footer's bytes; bytes behind the last row group are not looked at. */
  function ParseFooter(b: seq<Byte>): (r: Option<FileMeta>)
    ensures r.Some? ==> |r.value.names| == |r.value.types|
    ensures r.Some? ==> forall g :: 0 <= g < |r.value.groups| ==> |r.value.groups[g].columns| == |r.value.types|
  {
    var numCols := ReadU16At(b, 0);
    if numCols.None? then None
    else
      var fields := ParseFields(b, 2, numCols.value);
      if fields.None? then None
      else
        var numGroups := ReadU32At(b, fields.value.2);
        if numGroups.None? then None
        else
          var groups := ParseGroups(fields.value.1, b, fields.value.2 + 4, numGroups.value);
          if groups.None? then None else Some(FileMeta(fields.value.0, fields.value.1, groups.value.0))
  }

  // ----- round trip -----

  predicate StatOk(v: Scalar, code: Byte) {
    TypeOfCode(code).Some? && Fits(v, TypeOfCode(code).value)
  }

  predicate MetaOk(m: ChunkMeta, code: Byte) {
    && 0 <= m.offset && m.size < 0x1_0000_0000 && m.nullCount < 0x1_0000_0000
    && (m.bounds.Some? ==> StatOk(m.bounds.value.0, code) && StatOk(m.bounds.value.1, code))
  }

  predicate ColumnsOk(ms: seq<ChunkMeta>, codes: seq<Byte>) {
    |ms| == |codes| && forall c :: 0 <= c < |ms| ==> MetaOk(ms[c], codes[c])
  }

  predicate GroupMetaOk(g: GroupMeta, codes: seq<Byte>) {
    g.rowCount < 0x1_0000_0000 && ColumnsOk(g.columns, codes)
  }

  /** Every number fits the field it is stored in. */
  predicate FileMetaOk(m: FileMeta) {
    && |m.names| == |m.types| < 0x1_0000 && |m.groups| < 0x1_0000_0000
    && (forall i :: 0 <= i < |m.names| ==> |m.names[i]| < 0x1_0000)
    && (forall g :: 0 <= g < |m.groups| ==> GroupMetaOk(m.groups[g], m.types))
  }

  lemma {:induction false} ReadU64Back(b: seq<Byte>, off: nat, u: U64)
    requires Holds(b, off, U64Bytes(u))
    ensures ReadU64At(b, off) == Some(u)
  {
    hide Holds, FromLe, LittleEndian.Le;
    HoldsSlice(b, off, U64Bytes(u));
  }

  lemma {:induction false} ReadU16Back(b: seq<Byte>, off: nat, n: nat)
    requires n < 0x1_0000 && Holds(b, off, U16Bytes(n))
    ensures ReadU16At(b, off) == Some(n)
  {
    hide Holds, FromLe, LittleEndian.Le;
    HoldsSlice(b, off, U16Bytes(n));
  }

  lemma {:induction false} StatBack(code: Byte, b: seq<Byte>, off: nat, v: Scalar)
    requires StatOk(v, code) && Holds(b, off, StatBytes(v))
    ensures ParseStat(code, b, off) == Some((v, off + |StatBytes(v)|))
  {
    hide Holds, FromLe, LittleEndian.Le, ReadU64At, ReadValue;
    match v {
      case SBool(x) => ReadU64Back(b, off, if x then 1 else 0);
      case _ =>
        assert StatBytes(v) == ValueBytes(v);
        ReadBack(TypeOf(v), b, off, v);
    }
  }

  lemma {:induction false} BoundsBack(code: Byte, b: seq<Byte>, off: nat, bounds: Option<(Scalar, Scalar)>)
    requires bounds.Some? ==> StatOk(bounds.value.0, code) && StatOk(bounds.value.1, code)
    requires Holds(b, off, BoundsBytes(bounds))
    ensures ParseBounds(code, b, off) == Some((bounds, off + |BoundsBytes(bounds)|))
  {
    hide Holds, ParseStat, StatBytes;
    if bounds.None? {
      HoldsByte(b, off, 0);
    } else {
      var lo, hi := StatBytes(bounds.value.0), StatBytes(bounds.value.1);
      HoldsConcat(b, off, [1], lo + hi);
      HoldsConcat(b, off + 1, lo, hi);
      HoldsByte(b, off, 1);
      StatBack(code, b, off + 1, bounds.value.0);
      StatBack(code, b, off + 1 + |lo|, bounds.value.1);
    }
  }

  lemma {:induction false} HoldsByte(b: seq<Byte>, off: nat, x: Byte)
    requires Holds(b, off, [x])
    ensures off < |b| && b[off] == x
  {}

  lemma {:induction false} ChunkMetaBack(code: Byte, b: seq<Byte>, off: nat, m: ChunkMeta)
    requires MetaOk(m, code) && Holds(b, off, ChunkMetaBytes(m))
    ensures ParseChunkMeta(code, b, off) == Some((m, off + |ChunkMetaBytes(m)|))
  {
    hide Holds, FromLe, LittleEndian.Le, ReadU64At, ReadU32At, ParseBounds, BoundsBytes;
    HoldsFour(b, off, U64Bytes(ToU64(m.offset)), U32Bytes(m.size), U32Bytes(m.nullCount), BoundsBytes(m.bounds));
    ReadU64Back(b, off, ToU64(m.offset));
    ReadU32Back(b, off + 8, m.size);
    ReadU32Back(b, off + 12, m.nullCount);
    BoundsBack(code, b, off + 16, m.bounds);
  }

  lemma {:induction false} ColumnsSnoc(ms: seq<ChunkMeta>, m: ChunkMeta)
    ensures ColumnsBytes(ms + [m]) == ColumnsBytes(ms) + ChunkMetaBytes(m)
  {}

  lemma {:induction false} GroupsSnoc(gs: seq<GroupMeta>, g: GroupMeta)
    ensures GroupsBytes(gs + [g]) == GroupsBytes(gs) + GroupMetaBytes(g)
  {}

  lemma {:induction false} ColumnsBack(codes: seq<Byte>, b: seq<Byte>, off: nat, ms: seq<ChunkMeta>)
    requires |ms| <= |codes| && forall c :: 0 <= c < |ms| ==> MetaOk(ms[c], codes[c])
    requires Holds(b, off, ColumnsBytes(ms))
    ensures ParseColumns(codes, b, off, |ms|) == Some((ms, off + |ColumnsBytes(ms)|))
  {
    hide Holds, ParseChunkMeta, ChunkMetaBytes, MetaOk;
    if ms != [] {
      var init, m := ms[..|ms| - 1], ms[|ms| - 1];
      SplitLast(ms);
      ColumnsSnoc(init, m);
      HoldsConcat(b, off, ColumnsBytes(init), ChunkMetaBytes(m));
      ColumnsBack(codes, b, off, init);
      ChunkMetaBack(codes[|init|], b, off + |ColumnsBytes(init)|, m);
    }
  }

  lemma {:induction false} GroupBack(codes: seq<Byte>, b: seq<Byte>, off: nat, g: GroupMeta)
    requires GroupMetaOk(g, codes) && Holds(b, off, GroupMetaBytes(g))
    ensures ParseGroup(codes, b, off) == Some((g, off + |GroupMetaBytes(g)|))
  {
    hide Holds, FromLe, LittleEndian.Le, ReadU32At, ParseColumns, ColumnsBytes, MetaOk;
    HoldsConcat(b, off, U32Bytes(g.rowCount), ColumnsBytes(g.columns));
    ReadU32Back(b, off, g.rowCount);
    ColumnsBack(codes, b, off + 4, g.columns);
  }

  lemma {:induction false} GroupsBack(codes: seq<Byte>, b: seq<Byte>, off: nat, gs: seq<GroupMeta>)
    requires forall g :: 0 <= g < |gs| ==> GroupMetaOk(gs[g], codes)
    requires Holds(b, off, GroupsBytes(gs))
    ensures ParseGroups(codes, b, off, |gs|) == Some((gs, off + |GroupsBytes(gs)|))
  {
    hide Holds, ParseGroup, GroupMetaBytes, GroupMetaOk;
    if gs != [] {
      var init, g := gs[..|gs| - 1], gs[|gs| - 1];
      SplitLast(gs);
      GroupsSnoc(init, g);
      HoldsConcat(b, off, GroupsBytes(init), GroupMetaBytes(g));
      GroupsBack(codes, b, off, init);
      GroupBack(codes, b, off + |GroupsBytes(init)|, g);
    }
  }

  lemma {:induction false} FieldBack(b: seq<Byte>, off: nat, name: Text, code: Byte)
    requires |name| < 0x1_0000 && Holds(b, off, FieldBytes(name, code))
    ensures ParseField(b, off) == Some(((name, code), off + |FieldBytes(name, code)|))
  {
    hide Holds, FromLe, LittleEndian.Le, ReadU16At, TextBytes, BytesText;
    HoldsConcat(b, off, U16Bytes(|name|), TextBytes(name) + [code]);
    HoldsConcat(b, off + 2, TextBytes(name), [code]);
    ReadU16Back(b, off, |name|);
    HoldsSlice(b, off + 2, TextBytes(name));
    HoldsByte(b, off + 2 + |name|, code);
    TextRoundTrip(name);
  }

  lemma {:induction false} FieldsBack(b: seq<Byte>, off: nat, names: seq<Text>, types: seq<Byte>)
    requires |names| == |types| && forall i :: 0 <= i < |names| ==> |names[i]| < 0x1_0000
    requires Holds(b, off, FieldsBytes(names, types))
    ensures ParseFields(b, off, |names|) == Some((names, types, off + |FieldsBytes(names, types)|))
  {
    hide Holds, ParseField, FieldBytes;
    if names != [] {
      var n := |names| - 1;
      HoldsConcat(b, off, FieldsBytes(names[..n], types[..n]), FieldBytes(names[n], types[n]));
      FieldsBack(b, off, names[..n], types[..n]);
      FieldBack(b, off + |FieldsBytes(names[..n], types[..n])|, names[n], types[n]);
      SplitLast(names);
      SplitLast(types);
    }
  }

  /** Parsing a footer gives back the metadata it was written from. */
  lemma {:induction false} FooterRoundTrip(m: FileMeta)
    requires FileMetaOk(m)
    ensures ParseFooter(FooterBytes(m)) == Some(m)
  {
    hide Holds, FromLe, LittleEndian.Le, ReadU16At, ReadU32At, ParseFields, ParseGroups;
    hide FieldsBytes, GroupsBytes, GroupMetaOk;
    var b, fields := FooterBytes(m), FieldsBytes(m.names, m.types);
    HoldsWhole(b);
    HoldsFour(b, 0, U16Bytes(|m.names|), fields, U32Bytes(|m.groups|), GroupsBytes(m.groups));
    ReadU16Back(b, 0, |m.names|);
    FieldsBack(b, 2, m.names, m.types);
    ReadU32Back(b, 2 + |fields|, |m.groups|);
    GroupsBack(m.types, b, 2 + |fields| + 4, m.groups);
  }
}
