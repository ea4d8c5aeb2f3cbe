/** encoding/dictionary.go: distinct values in first-seen order, then one index per value. */
module Dictionary {
  import opened Types
  import opened Relation
  import opened LittleEndian
  import opened Codecs

  /** The distinct values of data in the order they first occur. */
  function FirstSeen(data: seq<Scalar>): seq<Scalar> {
    if data == [] then []
    else
      var before, v := FirstSeen(data[..|data| - 1]), data[|data| - 1];
      if v in before then before else before + [v]
  }

  /** Each index names its value in the dictionary. */
  predicate Names(dict: seq<Scalar>, data: seq<Scalar>, indices: seq<nat>) {
    && |indices| == |data|
    && forall i :: 0 <= i < |data| ==> indices[i] < |dict| && dict[indices[i]] == data[i]
  }

  lemma {:induction false} FirstSeenDistinct(data: seq<Scalar>)
    ensures var dict := FirstSeen(data);
            && |dict| <= |data|
            && (forall i, j :: 0 <= i < j < |dict| ==> dict[i] != dict[j])
            && (forall v :: v in dict <==> v in data)
  {
    if data != [] {
      FirstSeenDistinct(data[..|data| - 1]);
      SplitLast(data);
    }
  }

  /** The entries are the distinct values in the order in which they first occur. */
  lemma {:induction false} FirstSeenOrder(data: seq<Scalar>) returns (first: seq<nat>)
    ensures FirstPlaces(first, FirstSeen(data), data)
  {
    hide FirstPlaces;
    if data == [] {
      first := [];
      assert FirstPlaces(first, FirstSeen(data), data) by {
        NoPlaces();
      }
    } else {
      var n := |data| - 1;
      first := FirstSeenOrder(data[..n]);
      FirstPlacesSnoc(first, FirstSeen(data[..n]), data[..n], data[n]);
      SplitLast(data);
      if data[n] !in FirstSeen(data[..n]) {
        first := first + [n];
      }
    }
  }

  lemma NoPlaces()
    ensures FirstPlaces([], FirstSeen([]), [])
  {}

  /** The indices are determined by the values, the dictionary entries being distinct. */
  lemma IndicesUnique(data: seq<Scalar>, a: seq<nat>, b: seq<nat>)
    requires Names(FirstSeen(data), data, a) && Names(FirstSeen(data), data, b)
    ensures a == b
  {
    var dict := FirstSeen(data);
    FirstSeenDistinct(data);
    forall i | 0 <= i < |data|
      ensures a[i] == b[i]
    {
      assert dict[a[i]] == dict[b[i]];
    }
  }

  function IndexBytes(indices: seq<nat>): seq<Byte> {
    if indices == [] then []
    else IndexBytes(indices[..|indices| - 1]) + U32Bytes(indices[|indices| - 1] % 0x1_0000_0000)
  }

  /** dict_size, entries, num_values, indices. */
  function Layout(dict: seq<Scalar>, indices: seq<nat>): seq<Byte> {
    U32Bytes(|dict| % 0x1_0000_0000) + (AllBytes(dict) + (U32Bytes(|indices| % 0x1_0000_0000) + IndexBytes(indices)))
  }

  /** The table dict lists exactly the values of order, each under its position. */
  predicate Inverts(dict: map<Scalar, nat>, order: seq<Scalar>) {
    && (forall v :: v in dict ==> dict[v] < |order| && order[dict[v]] == v)
    && (forall i :: 0 <= i < |order| ==> order[i] in dict)
  }

  /** Build the dictionary and the indices in one pass, then write them out. */
  method EncodeDictionary(data: seq<Scalar>) returns (buf: seq<Byte>, indices: seq<nat>)
    ensures buf == Layout(FirstSeen(data), indices) && Names(FirstSeen(data), data, indices)
  {
    hide ValueBytes, FromLe, LittleEndian.Le;
    var dict: map<Scalar, nat>, dictOrder: seq<Scalar> := map[], [];
    indices := [];
    for i := 0 to |data|
      invariant dictOrder == FirstSeen(data[..i]) && Inverts(dict, dictOrder)
      invariant Names(dictOrder, data[..i], indices)
    {
      assert data[..i + 1][..i] == data[..i];
      var v := data[i];
      if v !in dict {
        assert v !in dictOrder;
        dict := dict[v := |dictOrder|];
        dictOrder := dictOrder + [v];
      } else {
        assert v in dictOrder;
      }
      indices := indices + [dict[v]];
    }
    assert data[..|data|] == data;
    buf := WriteLayout(dictOrder, indices);
  }

  method WriteLayout(dict: seq<Scalar>, indices: seq<nat>) returns (buf: seq<Byte>)
    ensures buf == Layout(dict, indices)
  {
    hide ValueBytes, FromLe, LittleEndian.Le;
    var entries: seq<Byte> := [];
    for i := 0 to |dict|
      invariant entries == AllBytes(dict[..i])
    {
      TakeSnoc(dict, i);
      AllBytesSnoc(dict[..i], dict[i]);
      entries := entries + ValueBytes(dict[i]);
    }
    assert dict[..|dict|] == dict;
    var tail: seq<Byte> := [];
    for i := 0 to |indices|
      invariant tail == IndexBytes(indices[..i])
    {
      assert indices[..i + 1][..i] == indices[..i];
      tail := tail + U32Bytes(indices[i] % 0x1_0000_0000);
    }
    assert indices[..|indices|] == indices;
    buf := U32Bytes(|dict| % 0x1_0000_0000) + (entries + (U32Bytes(|indices| % 0x1_0000_0000) + tail));
  }

  // ----- decoding -----

  /** The values n indices from off on name in dict; None for a missing or an out-of-range index. */
  function Resolve(dict: seq<Scalar>, b: seq<Byte>, off: nat, n: nat): (r: Option<seq<Scalar>>)
    ensures r.Some? ==> |r.value| == n && 4 * n <= |b|
  {
    if n == 0 then Some([])
    else
      var init, idx := Resolve(dict, b, off, n - 1), ReadU32At(b, off + 4 * (n - 1));
      if init.None? || idx.None? || idx.value >= |dict| then None
      else Some(init.value + [dict[idx.value]])
  }

  /**
   * Total on any bytes: an error for missing bytes, for a count that is not the stored one and
   * for an index past the dictionary; otherwise exactly count values.
   */
  function Decoded(t: ColType, b: seq<Byte>, count: nat): (r: Option<seq<Scalar>>)
    ensures r.Some? ==> |r.value| == count
  {
    if count == 0 then Some([])
    else
      var dictSize := ReadU32At(b, 0);
      if dictSize.None? then None
      else
        var dict := ReadAll(t, b, 4, dictSize.value);
        if dict.None? then None
        else
          var numValues := ReadU32At(b, dict.value.1);
          if numValues != Some(count) then None
          else Resolve(dict.value.0, b, dict.value.1 + 4, count)
  }

  /** Read the dictionary entries, an offset moving behind each. */
  method ReadEntries(t: ColType, encoded: seq<Byte>, off: nat, n: nat) returns (r: Option<(seq<Scalar>, nat)>)
    ensures r == ReadAll(t, encoded, off, n)
  {
    hide ReadValue;
    var dict: seq<Scalar>, offset := [], off;
    for i := 0 to n
      invariant ReadAll(t, encoded, off, i) == Some((dict, offset))
    {
      var entry := ReadValue(t, encoded, offset);
      if entry.None? {
        if ReadAll(t, encoded, off, n).Some? {
          ReadFewer(t, encoded, off, n, i + 1);
          assert false;
        }
        return None;
      }
      dict, offset := dict + [entry.value.0], entry.value.1;
    }
    r := Some((dict, offset));
  }

  lemma {:induction false} ResolveFewer(dict: seq<Scalar>, b: seq<Byte>, off: nat, n: nat, k: nat)
    requires k <= n && Resolve(dict, b, off, n).Some?
    ensures Resolve(dict, b, off, k).Some?
  {
    if k < n {
      ResolveFewer(dict, b, off, n - 1, k);
    }
  }

  method DecodeDictionary(t: ColType, encoded: seq<Byte>, count: nat) returns (r: Option<seq<Scalar>>)
    ensures r == Decoded(t, encoded, count)
  {
    if count == 0 {
      return Some([]);
    }
    var dictSize := ReadU32At(encoded, 0);
    if dictSize.None? {
      return None;
    }
    var dict := ReadEntries(t, encoded, 4, dictSize.value);
    if dict.None? {
      return None;
    }
    var numValues := ReadU32At(encoded, dict.value.1);
    if numValues.None? || numValues.value != count {
      return None;
    }
    r := ResolveIndices(dict.value.0, encoded, dict.value.1 + 4, count);
  }

  method ResolveIndices(dict: seq<Scalar>, encoded: seq<Byte>, off: nat, count: nat) returns (r: Option<seq<Scalar>>)
    ensures r == Resolve(dict, encoded, off, count)
  {
    var result: seq<Scalar>, offset := [], off;
    for i := 0 to count
      invariant offset == off + 4 * i && Resolve(dict, encoded, off, i) == Some(result)
    {
      var idx := ReadU32At(encoded, offset);
      if idx.None? || idx.value >= |dict| {
        if Resolve(dict, encoded, off, count).Some? {
          ResolveFewer(dict, encoded, off, count, i + 1);
          assert false;
        }
        return None;
      }
      result, offset := result + [dict[idx.value]], offset + 4;
    }
    r := Some(result);
  }

  lemma {:induction false} ResolveBack(dict: seq<Scalar>, b: seq<Byte>, off: nat, data: seq<Scalar>, indices: seq<nat>)
    requires Names(dict, data, indices) && |dict| < 0x1_0000_0000 && Holds(b, off, IndexBytes(indices))
    ensures Resolve(dict, b, off, |data|) == Some(data)
  {
    hide Holds, FromLe, LittleEndian.Le;
    if data != [] {
      var n := |data| - 1;
      var last := U32Bytes(indices[n]);
      IndexSize(indices[..n]);
      HoldsConcat(b, off, IndexBytes(indices[..n]), last);
      ResolveBack(dict, b, off, data[..n], indices[..n]);
      HoldsSlice(b, off + 4 * n, last);
      SplitLast(data);
    }
  }

  lemma {:induction false} IndexSize(indices: seq<nat>)
    ensures |IndexBytes(indices)| == 4 * |indices|
  {
    hide FromLe;
    if indices != [] {
      IndexSize(indices[..|indices| - 1]);
    }
  }

  lemma {:induction false} FirstSeenFits(t: ColType, data: seq<Scalar>)
    requires FitAll(data, t)
    ensures FitAll(FirstSeen(data), t)
  {
    if data != [] {
      FirstSeenFits(t, data[..|data| - 1]);
    }
  }

  /** Where the parts of a layout stand. */
  lemma {:induction false} LayoutParts(dict: seq<Scalar>, indices: seq<nat>)
    requires |dict| < 0x1_0000_0000 && |indices| < 0x1_0000_0000
    ensures var b, mid := Layout(dict, indices), 4 + |AllBytes(dict)|;
            && ReadU32At(b, 0) == Some(|dict|) && Holds(b, 4, AllBytes(dict))
            && ReadU32At(b, mid) == Some(|indices|) && Holds(b, mid + 4, IndexBytes(indices))
  {
    hide Holds, FromLe, LittleEndian.Le, AllBytes, IndexBytes, ReadU32At;
    var b, mid := Layout(dict, indices), 4 + |AllBytes(dict)|;
    HoldsWhole(b);
    HoldsFour(b, 0, U32Bytes(|dict|), AllBytes(dict), U32Bytes(|indices|), IndexBytes(indices));
    ReadU32Back(b, 0, |dict|);
    ReadU32Back(b, mid, |indices|);
  }

  /** Decoding inverts encoding for all inputs. */
  lemma {:induction false} DictionaryRoundTrip(t: ColType, data: seq<Scalar>, indices: seq<nat>)
    requires FitAll(data, t) && |data| < 0x1_0000_0000 && Names(FirstSeen(data), data, indices)
    ensures Decoded(t, Layout(FirstSeen(data), indices), |data|) == Some(data)
  {
    hide Holds, ReadAll, AllBytes, IndexBytes, Resolve, Layout, ReadU32At;
    var dict := FirstSeen(data);
    var b := Layout(dict, indices);
    FirstSeenDistinct(data);
    FirstSeenFits(t, data);
    LayoutParts(dict, indices);
    ReadAllBack(t, b, 4, dict);
    ResolveBack(dict, b, 4 + |AllBytes(dict)| + 4, data, indices);
  }
}
