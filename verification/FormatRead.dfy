/** What the reader takes from a file, and which files it refuses, on any bytes. */
module FormatReads {
  import opened Types
  import opened Storage
  import opened LittleEndian
  import opened Codecs
  import opened Plain
  import opened StringTables
  import opened Footers
  import opened FileLayout
  import opened FileReaders
  import opened Images

  // ----- opening -----

  /**
   * A file opens exactly when it begins with "CLDB" and version 1, ends with "CLDB", the length
   * before that leaves room for the header, and the bytes it covers are a footer.
   */
  lemma {:induction false} OpensIff(b: seq<Byte>)
    ensures Opened(b).Some?
            <==> && |b| >= 14 && b[..6] == [67, 76, 68, 66, 1, 0] && b[|b| - 4..] == [67, 76, 68, 66]
                 && Num4(b, |b| - 8) <= |b| - 14
                 && ParseFooter(b[|b| - 8 - Num4(b, |b| - 8)..|b| - 8]).Some?
    ensures Opened(b).Some? ==> Opened(b) == ParseFooter(b[|b| - 8 - Num4(b, |b| - 8)..|b| - 8])
  {
    hide FromLe, ParseFooter, ReadU32, ReadU16;
    if |b| >= 14 {
      ReadFour(b, |b| - 8);
      ReadTwo(b, 4);
      assert b[..6] == b[0..4] + b[4..6];
      assert ReadU16(b[4..6]) == 1 <==> b[4..6] == [1, 0];
    }
  }

  // ----- the footer -----

  /** A column's name and type byte. */
  predicate FieldStands(name: Text, code: Byte, f: seq<Byte>, at: nat, end: nat) {
    && end == at + 2 + |name| + 1 <= |f| && Num2(f, at) == |name|
    && Chars(name) == f[at + 2..at + 2 + |name|] && f[at + 2 + |name|] == code
  }

  predicate FieldsStand(names: seq<Text>, codes: seq<Byte>, f: seq<Byte>, ends: seq<nat>) {
    && |names| == |codes| && |ends| == |names| + 1
    && forall i :: 0 <= i < |names| ==> FieldStands(names[i], codes[i], f, ends[i], ends[i + 1])
  }

  lemma {:induction false} FieldIff(f: seq<Byte>, at: nat, name: Text, code: Byte, end: nat)
    ensures ParseField(f, at) == Some(((name, code), end)) <==> FieldStands(name, code, f, at, end)
  {
    hide FromLe, ReadU16, BytesText;
    if at + 2 <= |f| {
      ReadTwo(f, at);
      if at + 2 + |name| <= |f| {
        SameText(name, f[at + 2..at + 2 + |name|]);
      }
    }
  }

  lemma {:induction false} FieldsParsed(f: seq<Byte>, at: nat, n: nat) returns (ends: seq<nat>)
    requires ParseFields(f, at, n).Some?
    ensures FieldsStand(ParseFields(f, at, n).value.0, ParseFields(f, at, n).value.1, f, ends)
    ensures ends[0] == at && ends[n] == ParseFields(f, at, n).value.2
  {
    hide FieldStands, ParseField;
    if n == 0 {
      ends := [at];
    } else {
      var before := FieldsParsed(f, at, n - 1);
      var r := ParseFields(f, at, n).value;
      FieldIff(f, before[n - 1], r.0[n - 1], r.1[n - 1], r.2);
      ends := before + [r.2];
    }
  }

  lemma {:induction false} FieldsRead(f: seq<Byte>, names: seq<Text>, codes: seq<Byte>, ends: seq<nat>)
    requires FieldsStand(names, codes, f, ends)
    ensures ParseFields(f, ends[0], |names|) == Some((names, codes, ends[|names|]))
  {
    hide FieldStands, ParseField;
    if names != [] {
      var n := |names| - 1;
      FieldsRead(f, names[..n], codes[..n], ends[..n + 1]);
      FieldIff(f, ends[n], names[n], codes[n], ends[n + 1]);
      assert names[..n] + [names[n]] == names && codes[..n] + [codes[n]] == codes;
    }
  }

  /** A recorded bound, of the type the code stands for. */
  predicate StatStands(code: Byte, v: Scalar, f: seq<Byte>, at: nat, end: nat) {
    if code == 0 then Stands(TInt64, v, f, at, end)
    else if code == 1 then Stands(TFloat64, v, f, at, end)
    else if code == 2 then Stands(TString, v, f, at, end)
    else code == 3 && v.SBool? && end == at + 8 <= |f| && (v.b <==> Num8(f, at) != 0)
  }

  lemma {:induction false} StatIff(code: Byte, f: seq<Byte>, at: nat, v: Scalar, end: nat)
    ensures ParseStat(code, f, at) == Some((v, end)) <==> StatStands(code, v, f, at, end)
  {
    hide FromLe, ReadU64, Num8, Stands, ReadValue;
    ReadIff(TInt64, f, at, v, end);
    ReadIff(TFloat64, f, at, v, end);
    ReadIff(TString, f, at, v, end);
    if at + 8 <= |f| {
      ReadEight(f, at);
    }
  }

  /** A chunk's place, size and null count, and its bounds behind a 1; any other byte says there are none. */
  ghost predicate MetaStands(code: Byte, m: ChunkMeta, f: seq<Byte>, at: nat, end: nat) {
    && at + 17 <= end <= |f| && m.offset == Signed8(f, at) && m.size == Num4(f, at + 8)
    && m.nullCount == Num4(f, at + 12)
    && if f[at + 16] == 1
       then m.bounds.Some? && exists mid :: StatStands(code, m.bounds.value.0, f, at + 17, mid)
                                            && StatStands(code, m.bounds.value.1, f, mid, end)
       else m.bounds.None? && end == at + 17
  }

  lemma {:induction false} MetaIff(code: Byte, f: seq<Byte>, at: nat, m: ChunkMeta, end: nat)
    ensures ParseChunkMeta(code, f, at) == Some((m, end)) <==> MetaStands(code, m, f, at, end)
  {
    hide FromLe, ReadU64, ReadU32, Num4, Signed8, StatStands, ParseStat, ToI64;
    if at + 17 <= |f| {
      ReadEight(f, at);
      ReadFour(f, at + 8);
      ReadFour(f, at + 12);
      BoundsIff(code, f, at + 16, m.bounds, end);
    }
  }

  lemma {:induction false} BoundsIff(code: Byte, f: seq<Byte>, at: nat, bounds: Option<(Scalar, Scalar)>, end: nat)
    requires at < |f|
    ensures ParseBounds(code, f, at) == Some((bounds, end))
            <==> if f[at] == 1
                 then bounds.Some? && exists mid :: StatStands(code, bounds.value.0, f, at + 1, mid)
                                                    && StatStands(code, bounds.value.1, f, mid, end)
                 else bounds.None? && end == at + 1
  {
    hide StatStands, ParseStat;
    if f[at] == 1 && bounds.Some? {
      forall mid: nat
        ensures ParseStat(code, f, at + 1) == Some((bounds.value.0, mid))
                <==> StatStands(code, bounds.value.0, f, at + 1, mid)
        ensures ParseStat(code, f, mid) == Some((bounds.value.1, end))
                <==> StatStands(code, bounds.value.1, f, mid, end)
      {
        StatIff(code, f, at + 1, bounds.value.0, mid);
        StatIff(code, f, mid, bounds.value.1, end);
      }
    }
  }

  ghost predicate MetasStand(codes: seq<Byte>, ms: seq<ChunkMeta>, f: seq<Byte>, ends: seq<nat>) {
    && |codes| == |ms| && |ends| == |ms| + 1
    && forall i :: 0 <= i < |ms| ==> MetaStands(codes[i], ms[i], f, ends[i], ends[i + 1])
  }

  lemma {:induction false} MetasParsed(codes: seq<Byte>, f: seq<Byte>, at: nat, n: nat) returns (ends: seq<nat>)
    requires n <= |codes| && ParseColumns(codes, f, at, n).Some?
    ensures MetasStand(codes[..n], ParseColumns(codes, f, at, n).value.0, f, ends)
    ensures ends[0] == at && ends[n] == ParseColumns(codes, f, at, n).value.1
  {
    hide MetaStands, ParseChunkMeta;
    if n == 0 {
      ends := [at];
    } else {
      var before := MetasParsed(codes, f, at, n - 1);
      var r := ParseColumns(codes, f, at, n).value;
      MetaIff(codes[n - 1], f, before[n - 1], r.0[n - 1], r.1);
      ends := before + [r.1];
    }
  }

  lemma {:induction false} MetasRead(codes: seq<Byte>, f: seq<Byte>, ms: seq<ChunkMeta>, ends: seq<nat>)
    requires |ms| <= |codes| && MetasStand(codes[..|ms|], ms, f, ends)
    ensures ParseColumns(codes, f, ends[0], |ms|) == Some((ms, ends[|ms|]))
  {
    hide MetaStands, ParseChunkMeta;
    if ms != [] {
      var n := |ms| - 1;
      assert codes[..|ms|][..n] == codes[..n];
      MetasRead(codes, f, ms[..n], ends[..n + 1]);
      MetaIff(codes[n], f, ends[n], ms[n], ends[n + 1]);
      assert ms[..n] + [ms[n]] == ms;
    }
  }

  /** A row count, and an entry for each column. */
  ghost predicate GroupStands(codes: seq<Byte>, g: GroupMeta, f: seq<Byte>, at: nat, end: nat) {
    at + 4 <= |f| && g.rowCount == Num4(f, at)
    && exists ends :: MetasStand(codes, g.columns, f, ends) && ends[0] == at + 4 && ends[|codes|] == end
  }

  lemma {:induction false} GroupIff(codes: seq<Byte>, f: seq<Byte>, at: nat, g: GroupMeta, end: nat)
    ensures ParseGroup(codes, f, at) == Some((g, end)) <==> GroupStands(codes, g, f, at, end)
  {
    hide FromLe, ReadU32, Num4, MetaStands, ParseChunkMeta, ParseColumns;
    assert codes[..|codes|] == codes;
    if at + 4 <= |f| {
      ReadFour(f, at);
      if ParseGroup(codes, f, at) == Some((g, end)) {
        var ends := MetasParsed(codes, f, at + 4, |codes|);
      }
      if GroupStands(codes, g, f, at, end) {
        var ends :| MetasStand(codes, g.columns, f, ends) && ends[0] == at + 4 && ends[|codes|] == end;
        MetasRead(codes, f, g.columns, ends);
      }
    }
  }

  ghost predicate GroupsStand(codes: seq<Byte>, gs: seq<GroupMeta>, f: seq<Byte>, ends: seq<nat>) {
    |ends| == |gs| + 1 && forall g :: 0 <= g < |gs| ==> GroupStands(codes, gs[g], f, ends[g], ends[g + 1])
  }

  lemma {:induction false} GroupsParsed(codes: seq<Byte>, f: seq<Byte>, at: nat, n: nat) returns (ends: seq<nat>)
    requires ParseGroups(codes, f, at, n).Some?
    ensures GroupsStand(codes, ParseGroups(codes, f, at, n).value.0, f, ends)
    ensures ends[0] == at && ends[n] == ParseGroups(codes, f, at, n).value.1
  {
    hide GroupStands, ParseGroup;
    if n == 0 {
      ends := [at];
    } else {
      var before := GroupsParsed(codes, f, at, n - 1);
      var r := ParseGroups(codes, f, at, n).value;
      GroupIff(codes, f, before[n - 1], r.0[n - 1], r.1);
      ends := before + [r.1];
    }
  }

  lemma {:induction false} GroupsRead(codes: seq<Byte>, f: seq<Byte>, gs: seq<GroupMeta>, ends: seq<nat>)
    requires GroupsStand(codes, gs, f, ends)
    ensures ParseGroups(codes, f, ends[0], |gs|) == Some((gs, ends[|gs|]))
  {
    hide GroupStands, ParseGroup;
    if gs != [] {
      var n := |gs| - 1;
      GroupsRead(codes, f, gs[..n], ends[..n + 1]);
      GroupIff(codes, f, ends[n], gs[n], ends[n + 1]);
      assert gs[..n] + [gs[n]] == gs;
    }
  }

  /** The number of columns, each column's field, the number of row groups, each row group's entry. */
  ghost predicate FooterStands(f: seq<Byte>, m: FileMeta, fields: seq<nat>, groups: seq<nat>) {
    && |f| >= 2 && |m.names| == Num2(f, 0) && FieldsStand(m.names, m.types, f, fields) && fields[0] == 2
    && fields[|m.names|] + 4 <= |f| && |m.groups| == Num4(f, fields[|m.names|])
    && GroupsStand(m.types, m.groups, f, groups) && groups[0] == fields[|m.names|] + 4
  }

  /** The bytes of a footer are parsed to the metadata that stand in them, and refused when none do. */
  lemma {:induction false} FooterIff(f: seq<Byte>, m: FileMeta)
    ensures ParseFooter(f) == Some(m) <==> exists fields, groups :: FooterStands(f, m, fields, groups)
  {
    hide FieldsStand, GroupsStand;
    if ParseFooter(f) == Some(m) {
      var fields, groups := FooterParsed(f);
    }
    if fields, groups :| FooterStands(f, m, fields, groups) {
      FooterRead(f, m, fields, groups);
    }
  }

  lemma {:induction false} FooterParsed(f: seq<Byte>) returns (fields: seq<nat>, groups: seq<nat>)
    requires ParseFooter(f).Some?
    ensures FooterStands(f, ParseFooter(f).value, fields, groups)
  {
    hide FromLe, ReadU16, ReadU32, Num2, Num4, FieldStands, GroupStands, ParseFields, ParseGroups;
    var m := ParseFooter(f).value;
    ReadTwo(f, 0);
    fields := FieldsParsed(f, 2, |m.names|);
    ReadFour(f, fields[|m.names|]);
    groups := GroupsParsed(m.types, f, fields[|m.names|] + 4, |m.groups|);
  }

  lemma {:induction false} FooterRead(f: seq<Byte>, m: FileMeta, fields: seq<nat>, groups: seq<nat>)
    requires FooterStands(f, m, fields, groups)
    ensures ParseFooter(f) == Some(m)
  {
    hide FromLe, ReadU16, ReadU32, Num2, Num4, FieldStands, GroupStands, ParseFields, ParseGroups;
    ReadTwo(f, 0);
    FieldsRead(f, m.names, m.types, fields);
    ReadFour(f, fields[|m.names|]);
    GroupsRead(m.types, f, m.groups, groups);
  }

  // ----- chunks -----

  /** The value bytes of a chunk of n rows: eight bytes a number, one a bool, a table of offsets and the texts. */
  predicate ValuesStand(t: ColType, data: seq<Byte>, n: nat, vals: seq<Scalar>) {
    |vals| == n &&
    match t
    case TInt64 => |data| == 8 * n && forall i :: 0 <= i < n ==> vals[i].SInt? && vals[i].i == Signed8(data, 8 * i)
    case TFloat64 => |data| == 8 * n && forall i :: 0 <= i < n ==> vals[i].SFloat? && vals[i].bits == Num8(data, 8 * i)
    case TBool => |data| == n && forall i :: 0 <= i < n ==> vals[i].SBool? && (vals[i].b <==> data[i] != 0)
    case TString =>
      && |data| >= 4 + 4 * (n + 1) && Num4(data, 0) == n + 1
      && forall i :: 0 <= i < n ==> TextStands(data, 4 + 4 * (n + 1), 4 + 4 * i, vals[i])
  }

  /** The text between an offset of the table and the next one, which must not be smaller nor lie outside. */
  predicate TextStands(data: seq<Byte>, base: nat, at: nat, v: Scalar) {
    && at + 8 <= |data| && Num4(data, at) <= Num4(data, at + 4) && base + Num4(data, at + 4) <= |data|
    && v.SStr? && Chars(v.s) == data[base + Num4(data, at)..base + Num4(data, at + 4)]
  }

  lemma {:induction false} FixedAre(t: ColType, data: seq<Byte>, n: nat, vals: seq<Scalar>)
    requires |vals| == n
    requires if t == TBool then |data| == n else t != TString && |data| == 8 * n
    ensures Values(ReadAll(t, data, 0, n)) == Some(vals) <==> ValuesStand(t, data, n, vals)
  {
    hide Stands, ReadValue, Num8, Signed8;
    var ends := seq(n + 1, i requires 0 <= i <= n => FixedAt(t, i));
    FixedStand(t, data, vals, ends);
    if StandAll(t, vals, data, ends) {
      StandsRead(t, data, ends, vals);
    }
    if Values(ReadAll(t, data, 0, n)) == Some(vals) {
      var found := ReadStands(t, data, 0, n);
      FixedEnds(t, vals, data, found, n);
      assert found == ends;
    }
  }

  /** Where value i stands. */
  function FixedAt(t: ColType, i: nat): nat {
    if t == TBool then i else 8 * i
  }

  predicate FixedStands(t: ColType, v: Scalar, data: seq<Byte>, at: nat) {
    match t
    case TInt64 => at + 8 <= |data| && v.SInt? && v.i == Signed8(data, at)
    case TFloat64 => at + 8 <= |data| && v.SFloat? && v.bits == Num8(data, at)
    case TBool => at < |data| && v.SBool? && (v.b <==> data[at] != 0)
    case TString => false
  }

  lemma {:induction false} FixedStand(t: ColType, data: seq<Byte>, vals: seq<Scalar>, ends: seq<nat>)
    requires |ends| == |vals| + 1 && forall i :: 0 <= i < |ends| ==> ends[i] == FixedAt(t, i)
    requires if t == TBool then |data| == |vals| else t != TString && |data| == 8 * |vals|
    ensures StandAll(t, vals, data, ends) <==> ValuesStand(t, data, |vals|, vals)
  {
    hide Num8, Signed8, Stands;
    forall i | 0 <= i < |vals|
      ensures Stands(t, vals[i], data, ends[i], ends[i + 1]) <==> FixedStands(t, vals[i], data, FixedAt(t, i))
    {
      OneFixed(t, vals[i], data, ends[i]);
    }
    if StandAll(t, vals, data, ends) {
      forall i | 0 <= i < |vals|
        ensures FixedStands(t, vals[i], data, FixedAt(t, i))
      {
        assert Stands(t, vals[i], data, ends[i], ends[i + 1]);
      }
    }
    if ValuesStand(t, data, |vals|, vals) {
      forall i | 0 <= i < |vals|
        ensures FixedStands(t, vals[i], data, ends[i]) && Stands(t, vals[i], data, ends[i], ends[i + 1])
      {}
    }
  }

  lemma OneFixed(t: ColType, v: Scalar, data: seq<Byte>, at: nat)
    requires t != TString
    ensures Stands(t, v, data, at, at + if t == TBool then 1 else 8) <==> FixedStands(t, v, data, at)
  {
    hide Num8, Signed8;
  }

  lemma {:induction false} FixedEnds(t: ColType, vals: seq<Scalar>, data: seq<Byte>, ends: seq<nat>, i: nat)
    requires t != TString && StandAll(t, vals, data, ends) && ends[0] == 0 && i <= |vals|
    ensures forall k :: 0 <= k <= i ==> ends[k] == FixedAt(t, k)
  {
    hide Num8, Signed8;
    if i > 0 {
      FixedEnds(t, vals, data, ends, i - 1);
      assert Stands(t, vals[i - 1], data, ends[i - 1], ends[i - 1 + 1]);
    }
  }

  /** One more text is cut exactly when it stands there. */
  lemma {:induction false} TextRead(data: seq<Byte>, base: nat, n: nat, v: Scalar)
    requires n > 0 && 4 + 4 * (n + 1) <= base <= |data| && Cut(data, 4, base, n - 1).Some?
    ensures Cut(data, 4, base, n) == Some(Cut(data, 4, base, n - 1).value + [v])
            <==> TextStands(data, base, 4 + 4 * (n - 1), v)
  {
    hide FromLe, ReadU32, Num4, BytesText, Chars;
    ReadFour(data, 4 + 4 * (n - 1));
    ReadFour(data, 4 + 4 * n);
    var lo, hi := base + Num4(data, 4 + 4 * (n - 1)), base + Num4(data, 4 + 4 * n);
    var init := Cut(data, 4, base, n - 1).value;
    if lo <= hi <= |data| {
      SameLast(init, SStr(BytesText(data[lo..hi])), v);
      if v.SStr? {
        SameText(v.s, data[lo..hi]);
      }
    }
  }

  lemma SameLast<T>(init: seq<T>, a: T, b: T)
    ensures init + [a] == init + [b] <==> a == b
  {
    assert (init + [a])[|init|] == a && (init + [b])[|init|] == b;
  }

  lemma {:induction false} TextsRead(data: seq<Byte>, base: nat, n: nat, vals: seq<Scalar>)
    requires 4 + 4 * (n + 1) <= base <= |data| && |vals| == n
    ensures Cut(data, 4, base, n) == Some(vals)
            <==> forall i :: 0 <= i < n ==> TextStands(data, base, 4 + 4 * i, vals[i])
  {
    hide ReadU32At, TextStands, BytesText;
    if n > 0 {
      var init := vals[..n - 1];
      TextsRead(data, base, n - 1, init);
      assert vals == init + [vals[n - 1]];
      if Cut(data, 4, base, n - 1) == Some(init) {
        TextRead(data, base, n, vals[n - 1]);
      } else if Cut(data, 4, base, n).Some? {
        assert Cut(data, 4, base, n).value[..n - 1] == Cut(data, 4, base, n - 1).value;
      }
    }
  }

  /** The values of a chunk are decoded exactly when they stand in its bytes, and the bytes are refused otherwise. */
  lemma {:induction false} ValuesIff(t: ColType, data: seq<Byte>, n: nat, vals: seq<Scalar>)
    ensures DecodedValues(t, data, n) == Some(vals) <==> ValuesStand(t, data, n, vals)
  {
    hide FromLe, ReadU32, Num4, Num8, Signed8, Cut, TextStands, ReadAll;
    if |vals| == n {
      if t == TString {
        if |data| >= 4 + 4 * (n + 1) {
          ReadFour(data, 0);
          TextsRead(data, 4 + 4 * (n + 1), n, vals);
        }
      } else if |data| == if t == TBool then n else 8 * n {
        FixedAre(t, data, n, vals);
      }
    }
  }

  /** The column type of a stored byte; a byte above 3 has none. */
  predicate TypeStored(code: Byte, t: ColType) {
    || (code == 0 && t == TInt64) || (code == 1 && t == TFloat64)
    || (code == 2 && t == TString) || (code == 3 && t == TBool)
  }

  /** A chunk of n rows at its recorded place: its values, and the null bitmap in the last ceil(n / 8) bytes. */
  predicate ChunkStands(b: seq<Byte>, name: Text, code: Byte, m: ChunkMeta, n: nat, c: Chunk) {
    && c.name == name && TypeStored(code, c.typ) && (n + 7) / 8 <= m.size && 0 <= m.offset
    && (m.size == 0 || m.offset + m.size <= |b|)
    && var stored := if m.size == 0 then [] else b[m.offset..m.offset + m.size];
       var cut := m.size - (n + 7) / 8;
       && ValuesStand(c.typ, stored[..cut], n, c.vals)
       && |c.nulls| == (n + 7) / 8 && forall i :: 0 <= i < |c.nulls| ==> c.nulls[i] == stored[cut + i] as bv8
  }

  /** A chunk is decoded exactly when it stands in the file, and refused when none does. */
  lemma {:induction false} ChunkIff(b: seq<Byte>, name: Text, code: Byte, m: ChunkMeta, n: nat, c: Chunk)
    ensures DecodedChunk(b, name, code, m, n) == Some(c) <==> ChunkStands(b, name, code, m, n, c)
  {
    hide DecodedValues, ValuesStand, BytesBitmap;
    if (n + 7) / 8 <= m.size && 0 <= m.offset && (m.size == 0 || m.offset + m.size <= |b|) {
      var stored := if m.size == 0 then [] else b[m.offset..m.offset + m.size];
      var cut := m.size - (n + 7) / 8;
      ValuesIff(c.typ, stored[..cut], n, c.vals);
      SameBitmap(stored[cut..], c.nulls);
    }
  }

  lemma SameBitmap(b: seq<Byte>, nulls: seq<bv8>)
    ensures BytesBitmap(b) == nulls <==> |nulls| == |b| && forall i :: 0 <= i < |nulls| ==> nulls[i] == b[i] as bv8
  {}

  /**
   * A row group is read exactly when its number is one of the file's, the file has columns, and
   * every chunk stands where the metadata say, of the type its column's byte says.
   */
  lemma {:induction false} GroupReadIff(b: seq<Byte>, m: FileMeta, index: int, rg: RowGroup)
    requires |m.names| == |m.types|
    requires forall g :: 0 <= g < |m.groups| ==> |m.groups[g].columns| == |m.types|
    ensures DecodedGroup(b, m, index) == Some(rg)
            <==> && 0 <= index < |m.groups| && |rg.columns| == |m.names| > 0
                 && rg.rowCount == m.groups[index].rowCount
                 && forall c :: 0 <= c < |m.names| ==>
                      ChunkStands(b, m.names[c], m.types[c], m.groups[index].columns[c], rg.rowCount, rg.columns[c])
  {
    hide DecodedChunk, ChunkStands;
    if 0 <= index < |m.groups| && |rg.columns| == |m.names| {
      ColumnsIff(b, m, m.groups[index], |m.names|, rg.columns);
    }
  }

  lemma {:induction false} ColumnsIff(b: seq<Byte>, m: FileMeta, g: GroupMeta, n: nat, cols: seq<Chunk>)
    requires |m.names| == |m.types| == |g.columns| && n <= |m.names| && |cols| == n
    ensures DecodedColumns(b, m, g, n) == Some(cols)
            <==> forall c :: 0 <= c < n ==> ChunkStands(b, m.names[c], m.types[c], g.columns[c], g.rowCount, cols[c])
  {
    hide DecodedChunk, ChunkStands;
    if n > 0 {
      ColumnsIff(b, m, g, n - 1, cols[..n - 1]);
      ChunkIff(b, m.names[n - 1], m.types[n - 1], g.columns[n - 1], g.rowCount, cols[n - 1]);
      assert cols == cols[..n - 1] + [cols[n - 1]];
    }
  }
}
