/** The string column of the file format: an offset table, then the bytes of every string. */
module StringTables {
  import opened Types
  import opened Relation
  import opened LittleEndian
  import opened Codecs

  predicate Strings(vals: seq<Scalar>) {
    forall i :: 0 <= i < |vals| ==> vals[i].SStr?
  }

  /** The bytes of the strings, one behind the other. */
  function Texts(vals: seq<Scalar>): seq<Byte>
    requires Strings(vals)
  {
    if vals == [] then [] else Texts(vals[..|vals| - 1]) + TextBytes(vals[|vals| - 1].s)
  }

  /** The offset table: where each of the first n strings starts, modulo 2^32. */
  function OffsetBytes(vals: seq<Scalar>, n: nat): seq<Byte>
    requires Strings(vals) && n <= |vals| + 1
  {
    if n == 0 then [] else OffsetBytes(vals, n - 1) + U32Bytes(|Texts(vals[..n - 1])| % 0x1_0000_0000)
  }

  /** num_offsets, the offset table with its closing entry, the string data. */
  function TableBytes(vals: seq<Scalar>): seq<Byte>
    requires Strings(vals)
  {
    U32Bytes((|vals| + 1) % 0x1_0000_0000) + (OffsetBytes(vals, |vals| + 1) + Texts(vals))
  }

  lemma {:induction false} TextsSnoc(vals: seq<Scalar>, i: nat)
    requires Strings(vals) && i < |vals|
    ensures Texts(vals[..i + 1]) == Texts(vals[..i]) + TextBytes(vals[i].s)
  {
    assert vals[..i + 1][..i] == vals[..i];
  }

  lemma WrapLength(a: nat, b: nat)
    ensures (a % 0x1_0000_0000 + b % 0x1_0000_0000) % 0x1_0000_0000 == (a + b) % 0x1_0000_0000
  {}

  /** The offset table, its 32-bit running length wrapping as the source's does. */
  method BuildOffsets(vals: seq<Scalar>) returns (table: seq<Byte>)
    requires Strings(vals)
    ensures table == OffsetBytes(vals, |vals| + 1)
  {
    hide FromLe, LittleEndian.Le;
    var dataLen: nat := 0;
    table := [];
    for i := 0 to |vals|
      invariant table == OffsetBytes(vals, i) && dataLen == |Texts(vals[..i])| % 0x1_0000_0000
    {
      TextsSnoc(vals, i);
      WrapLength(|Texts(vals[..i])|, |vals[i].s|);
      table := table + U32Bytes(dataLen);
      dataLen := (dataLen + |vals[i].s| % 0x1_0000_0000) % 0x1_0000_0000;
    }
    table := table + U32Bytes(dataLen);
  }

  /** writeStringValues: one pass for the offsets, then the data. */
  method EncodeStrings(vals: seq<Scalar>) returns (buf: seq<Byte>)
    requires Strings(vals)
    ensures buf == TableBytes(vals)
  {
    hide FromLe, LittleEndian.Le, OffsetBytes;
    var table := BuildOffsets(vals);
    var data: seq<Byte> := [];
    for i := 0 to |vals|
      invariant data == Texts(vals[..i])
    {
      TextsSnoc(vals, i);
      data := data + TextBytes(vals[i].s);
    }
    assert vals[..|vals|] == vals;
    TableJoin(U32Bytes((|vals| + 1) % 0x1_0000_0000), table, Texts(vals));
    buf := U32Bytes((|vals| + 1) % 0x1_0000_0000) + table + data;
  }

  lemma TableJoin(a: seq<Byte>, b: seq<Byte>, c: seq<Byte>)
    ensures a + b + c == a + (b + c)
  {}

  /** The strings between consecutive offsets of a table at offset at, checked against the data behind it. */
  function Cut(b: seq<Byte>, table: nat, data: nat, n: nat): (r: Option<seq<Scalar>>)
    requires table + 4 * (n + 1) <= data <= |b|
    ensures r.Some? ==> |r.value| == n && Strings(r.value)
  {
    if n == 0 then Some([])
    else
      var init := Cut(b, table, data, n - 1);
      var start := ReadU32At(b, table + 4 * (n - 1)).value;
      var end := ReadU32At(b, table + 4 * n).value;
      if init.None? || start > end || data + end > |b| then None
      else Some(init.value + [SStr(BytesText(b[data + start..data + end]))])
  }

  /** decodeStringValues: an error for a wrong count, a short table or a bad offset. */
  function DecodedStrings(b: seq<Byte>, rowCount: nat): (r: Option<seq<Scalar>>)
    ensures r.Some? ==> |r.value| == rowCount && Strings(r.value)
  {
    var numOffsets := ReadU32At(b, 0);
    if numOffsets != Some(rowCount + 1) || |b| < 4 + 4 * (rowCount + 1) then None
    else Cut(b, 4, 4 + 4 * (rowCount + 1), rowCount)
  }

  lemma {:induction false} CutFewer(b: seq<Byte>, table: nat, data: nat, n: nat, k: nat)
    requires table + 4 * (n + 1) <= data <= |b| && k <= n && Cut(b, table, data, n).Some?
    ensures Cut(b, table, data, k).Some?
  {
    if k < n {
      CutFewer(b, table, data, n - 1, k);
    }
  }

  method DecodeStrings(b: seq<Byte>, rowCount: nat) returns (r: Option<seq<Scalar>>)
    ensures r == DecodedStrings(b, rowCount)
  {
    if |b| < 4 {
      return None;
    }
    var numOffsets := ReadU32(b[0..4]);
    if numOffsets != rowCount + 1 {
      return None;
    }
    var offsetTableSize := 4 + numOffsets * 4;
    if |b| < offsetTableSize {
      return None;
    }
    r := CutStrings(b, 4, offsetTableSize, rowCount);
  }

  method CutStrings(b: seq<Byte>, table: nat, data: nat, rowCount: nat) returns (r: Option<seq<Scalar>>)
    requires table + 4 * (rowCount + 1) <= data <= |b|
    ensures r == Cut(b, table, data, rowCount)
  {
    hide FromLe;
    var col: seq<Scalar> := [];
    for i := 0 to rowCount
      invariant Cut(b, table, data, i) == Some(col)
    {
      var start := ReadU32(b[table + 4 * i..table + 4 * i + 4]);
      var end := ReadU32(b[table + 4 * i + 4..table + 4 * i + 8]);
      if start > end || end > |b| - data {
        if Cut(b, table, data, rowCount).Some? {
          CutFewer(b, table, data, rowCount, i + 1);
          assert false;
        }
        return None;
      }
      col := col + [SStr(BytesText(b[data + start..data + end]))];
    }
    r := Some(col);
  }

  // ----- round trip -----

  lemma {:induction false} OffsetSize(vals: seq<Scalar>, n: nat)
    requires Strings(vals) && n <= |vals| + 1
    ensures |OffsetBytes(vals, n)| == 4 * n
  {
    hide FromLe;
    if n > 0 {
      OffsetSize(vals, n - 1);
    }
  }

  lemma {:induction false} TextsGrow(vals: seq<Scalar>, i: nat, j: nat)
    requires Strings(vals) && i <= j <= |vals|
    ensures |Texts(vals[..i])| <= |Texts(vals[..j])|
  {
    if i < j {
      TextsGrow(vals, i, j - 1);
      TextsSnoc(vals, j - 1);
    }
  }

  /** Entry i of the table is where string i starts. */
  lemma {:induction false} OffsetAt(b: seq<Byte>, table: nat, vals: seq<Scalar>, n: nat, i: nat)
    requires Strings(vals) && i < n <= |vals| + 1 && Holds(b, table, OffsetBytes(vals, n))
    requires |Texts(vals)| < 0x1_0000_0000
    ensures ReadU32At(b, table + 4 * i) == Some(|Texts(vals[..i])|)
  {
    hide Holds, FromLe, LittleEndian.Le, ReadU32At;
    var last := U32Bytes(|Texts(vals[..n - 1])| % 0x1_0000_0000);
    HoldsConcat(b, table, OffsetBytes(vals, n - 1), last);
    OffsetSize(vals, n - 1);
    if i < n - 1 {
      OffsetAt(b, table, vals, n - 1, i);
    } else {
      TextsGrow(vals, i, |vals|);
      assert vals[..|vals|] == vals;
      ReadU32Back(b, table + 4 * i, |Texts(vals[..i])|);
    }
  }

  /** String i stands where its offset says. */
  lemma {:induction false} TextAt(b: seq<Byte>, data: nat, vals: seq<Scalar>, n: nat, i: nat)
    requires Strings(vals) && i < n <= |vals| && Holds(b, data, Texts(vals[..n]))
    ensures Holds(b, data + |Texts(vals[..i])|, TextBytes(vals[i].s))
  {
    hide Holds;
    TextsSnoc(vals, n - 1);
    HoldsConcat(b, data, Texts(vals[..n - 1]), TextBytes(vals[n - 1].s));
    if i < n - 1 {
      TextAt(b, data, vals, n - 1, i);
    }
  }

  lemma {:induction false} CutBack(b: seq<Byte>, table: nat, data: nat, vals: seq<Scalar>, n: nat)
    requires Strings(vals) && n <= |vals| && |Texts(vals)| < 0x1_0000_0000
    requires table + 4 * (|vals| + 1) <= data <= |b|
    requires Holds(b, table, OffsetBytes(vals, |vals| + 1)) && Holds(b, data, Texts(vals))
    ensures Cut(b, table, data, n) == Some(vals[..n])
  {
    hide Holds, FromLe, ReadU32At, Texts, OffsetBytes;
    if n > 0 {
      CutBack(b, table, data, vals, n - 1);
      var at := |Texts(vals[..n - 1])|;
      OffsetAt(b, table, vals, |vals| + 1, n - 1);
      OffsetAt(b, table, vals, |vals| + 1, n);
      TextsSnoc(vals, n - 1);
      assert vals[..|vals|] == vals;
      TextAt(b, data, vals, |vals|, n - 1);
      HoldsSlice(b, data + at, TextBytes(vals[n - 1].s));
      TextRoundTrip(vals[n - 1].s);
      TakeSnoc(vals, n - 1);
    }
  }

  /** Decoding the table gives back the strings, empty and null ones included. */
  lemma {:induction false} StringsRoundTrip(vals: seq<Scalar>)
    requires Strings(vals) && |vals| + 1 < 0x1_0000_0000 && |Texts(vals)| < 0x1_0000_0000
    ensures DecodedStrings(TableBytes(vals), |vals|) == Some(vals)
  {
    hide Holds, FromLe, LittleEndian.Le, ReadU32At, Texts, OffsetBytes, Cut;
    var b, n := TableBytes(vals), |vals| + 1;
    HoldsWhole(b);
    HoldsConcat(b, 0, U32Bytes(n), OffsetBytes(vals, n) + Texts(vals));
    HoldsConcat(b, 4, OffsetBytes(vals, n), Texts(vals));
    OffsetSize(vals, n);
    ReadU32Back(b, 0, n);
    CutBack(b, 4, 4 + 4 * n, vals, |vals|);
    assert vals[..|vals|] == vals;
  }
}
