/** The codecs' bytes as their formats document them, and what their decoders take from any bytes. */
module CodecForms {
  import opened Types
  import opened LittleEndian
  import opened Codecs
  import opened Rle
  import Delta
  import Dictionary
  import opened Images

  // ----- run lengths -----

  /** Each run is its value and its length in four bytes. */
  function RunParts(runs: seq<Run>): seq<seq<Byte>> {
    seq(|runs|, i requires 0 <= i < |runs| => ValueImage(runs[i].val) + Four(runs[i].count))
  }

  lemma {:induction false} RunsAre(runs: seq<Run>)
    ensures RunsBytes(runs) == Join(RunParts(runs))
  {
    hide FromLe, LittleEndian.Le, Four, ValueBytes, ValueImage;
    if runs != [] {
      var n := |runs| - 1;
      RunsAre(runs[..n]);
      ValueBytesAre(runs[n].val);
      FieldBytesAre(runs[n].count);
      JoinSnoc(RunParts(runs));
      assert RunParts(runs)[..n] == RunParts(runs[..n]);
    }
  }

  predicate RunStands(t: ColType, r: Run, b: seq<Byte>, at: nat, end: nat) {
    at + 4 <= end <= |b| && Stands(t, r.val, b, at, end - 4) && Num4(b, end - 4) == r.count
  }

  /** Run i stands from ends[i] to ends[i + 1], and covers the values from starts[i] to starts[i + 1]. */
  predicate RunsStand(t: ColType, runs: seq<Run>, b: seq<Byte>, ends: seq<nat>, starts: seq<nat>) {
    && |ends| == |starts| == |runs| + 1
    && forall i :: 0 <= i < |runs| ==>
         RunStands(t, runs[i], b, ends[i], ends[i + 1]) && starts[i + 1] == starts[i] + runs[i].count
  }

  /** The values, counted from base on, are those of the runs that cover their places. */
  predicate Covers(runs: seq<Run>, starts: seq<nat>, base: nat, vals: seq<Scalar>)
    requires |starts| == |runs| + 1
  {
    && base + |vals| <= starts[|runs|]
    && forall i, j :: 0 <= i < |runs| && 0 <= j < |vals| && starts[i] <= base + j < starts[i + 1] ==>
         vals[j] == runs[i].val
  }

  lemma {:induction false} StartsGrow(t: ColType, runs: seq<Run>, b: seq<Byte>, ends: seq<nat>, starts: seq<nat>,
                                      i: nat)
    requires RunsStand(t, runs, b, ends, starts) && i <= |runs|
    ensures starts[0] <= starts[i]
  {
    hide RunStands;
    if i > 0 {
      StartsGrow(t, runs, b, ends, starts, i - 1);
      assert starts[i - 1 + 1] == starts[i - 1] + runs[i - 1].count;
    }
  }

  lemma {:induction false} RunIff(t: ColType, b: seq<Byte>, at: nat, r: Run, end: nat)
    requires at + 4 <= end
    ensures ReadValue(t, b, at) == Some((r.val, end - 4)) && ReadU32At(b, end - 4) == Some(r.count)
            <==> RunStands(t, r, b, at, end)
  {
    hide Stands, ReadValue, ReadU32, Num4;
    ReadIff(t, b, at, r.val, end - 4);
    if end <= |b| {
      ReadFour(b, end - 4);
    }
  }

  /** The runs a decoder read. */
  lemma {:induction false} RunsFound(t: ColType, b: seq<Byte>, at: nat, need: nat, base: nat)
    returns (runs: seq<Run>, ends: seq<nat>, starts: seq<nat>)
    requires DecodeRuns(t, b, at, need).Some?
    ensures RunsStand(t, runs, b, ends, starts) && ends[0] == at && starts[0] == base
    ensures Covers(runs, starts, base, DecodeRuns(t, b, at, need).value)
    ensures need == 0 ==> runs == []
    decreases |b| - at
  {
    hide RunStands, ReadValue, ReadU32At, Covers;
    if need == 0 {
      runs, ends, starts := [], [at], [base];
      assert Covers([], [base], base, []) by {
        CoversNone(base);
      }
    } else {
      var v := ReadValue(t, b, at).value;
      var n := ReadU32At(b, v.1).value;
      var k := Rle.Min(n, need);
      var r := Run(v.0, n);
      var runs', ends', starts' := RunsFound(t, b, v.1 + 4, need - k, base + n);
      RunIff(t, b, at, r, v.1 + 4);
      runs, ends, starts := [r] + runs', [at] + ends', [base] + starts';
      forall i | 0 <= i <= |runs'|
        ensures starts'[0] <= starts'[i]
      {
        StartsGrow(t, runs', b, ends', starts', i);
      }
      CoversCons(r, runs', starts', base, need, DecodeRuns(t, b, v.1 + 4, need - k).value);
    }
  }

  lemma CoversNone(base: nat)
    ensures Covers([], [base], base, [])
  {}

  lemma {:induction false} CoversCons(r: Run, runs: seq<Run>, starts: seq<nat>, base: nat, need: nat, rest: seq<Scalar>)
    requires |starts| == |runs| + 1 && starts[0] == base + r.count
    requires forall i :: 0 <= i <= |runs| ==> starts[0] <= starts[i]
    requires |rest| == need - Rle.Min(r.count, need) && Covers(runs, starts, base + r.count, rest)
    ensures Covers([r] + runs, [base] + starts, base, Repeat(r.val, Rle.Min(r.count, need)) + rest)
  {
    var all, from := [r] + runs, [base] + starts;
    var vals := Repeat(r.val, Rle.Min(r.count, need)) + rest;
    var m := Rle.Min(r.count, need);
    forall i, j | 0 <= i < |all| && 0 <= j < |vals| && from[i] <= base + j < from[i + 1]
      ensures vals[j] == all[i].val
    {
      if i > 0 {
        assert from[i] == starts[i - 1] && from[i + 1] == starts[i] && all[i] == runs[i - 1];
        assert starts[0] <= starts[i - 1] && m == r.count;
        assert vals[j] == rest[j - m];
      }
    }
  }

  /** Runs that stand in the bytes are read as the values they cover. */
  lemma {:induction false} RunsRead(t: ColType, b: seq<Byte>, runs: seq<Run>, ends: seq<nat>, starts: seq<nat>,
                                    vals: seq<Scalar>)
    requires RunsStand(t, runs, b, ends, starts) && Covers(runs, starts, starts[0], vals)
    ensures DecodeRuns(t, b, ends[0], |vals|) == Some(vals)
    decreases |runs|
  {
    hide RunStands, ReadValue, ReadU32At;
    if vals != [] {
      assert runs != [];
      var r, k := runs[0], Rle.Min(runs[0].count, |vals|);
      assert RunStands(t, r, b, ends[0], ends[0 + 1]);
      EndsApart(t, r, b, ends[0], ends[1]);
      RunIff(t, b, ends[0], r, ends[1]);
      FirstRepeats(runs, starts, vals, k);
      if k == r.count {
        CoversTail(runs, starts, vals);
        RunsRead(t, b, runs[1..], ends[1..], starts[1..], vals[k..]);
      }
    }
  }

  lemma FirstRepeats(runs: seq<Run>, starts: seq<nat>, vals: seq<Scalar>, k: nat)
    requires |starts| == |runs| + 1 && runs != [] && Covers(runs, starts, starts[0], vals)
    requires starts[1] == starts[0] + runs[0].count && k <= runs[0].count && k <= |vals|
    ensures vals == Repeat(runs[0].val, k) + vals[k..]
  {
    forall j | 0 <= j < k
      ensures vals[j] == runs[0].val
    {
      assert starts[0] <= starts[0] + j < starts[0 + 1];
    }
  }

  lemma EndsApart(t: ColType, r: Run, b: seq<Byte>, at: nat, end: nat)
    requires RunStands(t, r, b, at, end)
    ensures at + 4 <= end <= |b|
  {}

  lemma {:induction false} CoversTail(runs: seq<Run>, starts: seq<nat>, vals: seq<Scalar>)
    requires |starts| == |runs| + 1 && runs != [] && Covers(runs, starts, starts[0], vals)
    requires starts[1] == starts[0] + runs[0].count && runs[0].count <= |vals|
    ensures Covers(runs[1..], starts[1..], starts[1], vals[runs[0].count..])
  {
    var rest, from, tail := runs[1..], starts[1..], vals[runs[0].count..];
    forall i, j | 0 <= i < |rest| && 0 <= j < |tail| && from[i] <= starts[1] + j < from[i + 1]
      ensures tail[j] == rest[i].val
    {
      assert rest[i] == runs[i + 1] && from[i] == starts[i + 1] && from[i + 1] == starts[i + 2];
      assert tail[j] == vals[runs[0].count + j];
    }
  }

  /** Runs stand one behind the other from the front, and cover the values, whatever follows. */
  predicate RleStands(t: ColType, b: seq<Byte>, vals: seq<Scalar>, runs: seq<Run>, ends: seq<nat>, starts: seq<nat>) {
    RunsStand(t, runs, b, ends, starts) && ends[0] == 0 && starts[0] == 0 && Covers(runs, starts, 0, vals)
  }

  /**
   * Any bytes: the decoder gives n values exactly when runs that stand in them cover n places with
   * these values; otherwise it refuses the bytes.
   */
  lemma {:induction false} RleIff(t: ColType, b: seq<Byte>, n: nat, vals: seq<Scalar>)
    ensures DecodeRuns(t, b, 0, n) == Some(vals)
            <==> |vals| == n && exists runs, ends, starts :: RleStands(t, b, vals, runs, ends, starts)
  {
    hide RunStands, Covers;
    if DecodeRuns(t, b, 0, n) == Some(vals) {
      var runs, ends, starts := RunsFound(t, b, 0, n, 0);
      assert RleStands(t, b, vals, runs, ends, starts);
    }
    if |vals| == n {
      if runs, ends, starts :| RleStands(t, b, vals, runs, ends, starts) {
        RunsRead(t, b, runs, ends, starts, vals);
      }
    }
  }

  // ----- differences -----

  /** The base value, the number of values, and the difference of each two neighbours modulo 2^64. */
  function DeltaImage(data: seq<I64>): seq<Byte> {
    if data == [] then [0, 0, 0, 0] else Eight(data[0]) + Four(|data|) + Join(StepParts(data))
  }

  function StepParts(data: seq<I64>): seq<seq<Byte>>
    requires data != []
  {
    seq(|data| - 1, i requires 0 <= i < |data| - 1 => Step(data[i], data[i + 1]))
  }

  function Step(a: int, b: int): seq<Byte> {
    Eight(b - a)
  }

  lemma {:induction false} StepIs(a: I64, b: I64)
    ensures U64Bytes(ToU64(Delta.Diff(a, b))) == Step(a, b)
  {
    hide FromLe, LittleEndian.Le, Four;
    var x: int, y: int := a, b;
    SignedBytesAre(Delta.Diff(a, b));
    Wraps(y - x);
    EightWraps(y - x, Wrap64(y - x));
  }

  /** Wrap-around leaves a number the same modulo 2^64. */
  lemma Wraps(x: int)
    ensures (Wrap64(x) - x) % 0x1_0000_0000_0000_0000 == 0
  {}

  lemma {:induction false} EightWraps(x: int, w: int)
    requires (w - x) % 0x1_0000_0000_0000_0000 == 0
    ensures Eight(w) == Eight(x)
  {
    hide Four;
    var t := (w - x) / 0x1_0000_0000_0000_0000;
    assert w == x + 0x1_0000_0000 * (0x1_0000_0000 * t);
    FourShifts(x, 0x1_0000_0000 * t);
    assert w / 0x1_0000_0000 == x / 0x1_0000_0000 + 0x1_0000_0000 * t;
    FourShifts(x / 0x1_0000_0000, t);
  }

  lemma {:induction false} StepsAre(data: seq<I64>)
    requires data != []
    ensures Delta.DeltaBytes(data) == Join(StepParts(data))
  {
    hide FromLe, LittleEndian.Le, Step;
    if |data| > 1 {
      var n := |data| - 1;
      StepsAre(data[..n]);
      StepIs(data[n - 1], data[n]);
      JoinSnoc(StepParts(data));
      assert StepParts(data)[..n - 1] == StepParts(data[..n]);
    }
  }

  lemma {:induction false} DeltaIs(data: seq<I64>)
    ensures Delta.Encoded(data) == DeltaImage(data)
  {
    hide FromLe, LittleEndian.Le, Delta.DeltaBytes, Join, Eight;
    FieldBytesAre(|data|);
    if data == [] {
      assert U32Bytes(0) == [0, 0, 0, 0];
    } else {
      SignedBytesAre(data[0]);
      StepsAre(data);
    }
  }

  /** The base, enough values by the stored number, all its differences, and sums of them modulo 2^64. */
  predicate DeltaStands(b: seq<Byte>, n: nat, vals: seq<I64>) {
    && |vals| == n && |b| >= 12 && n <= Num4(b, 8) && 12 + 8 * (Num4(b, 8) - 1) <= |b|
    && (n > 0 ==> vals[0] == Signed8(b, 0))
    && forall i :: 1 <= i < n ==> Steps(b, vals[i - 1], vals[i], 12 + 8 * (i - 1))
  }

  predicate Steps(b: seq<Byte>, before: int, after: int, at: nat) {
    at + 8 <= |b| && (after - before - Signed8(b, at)) % 0x1_0000_0000_0000_0000 == 0
  }

  /** Any bytes: no values are always given, and more exactly when they stand in the bytes. */
  lemma {:induction false} DeltaIff(b: seq<Byte>, n: nat, vals: seq<I64>)
    ensures Delta.Decoded(b, n) == Some(vals) <==> if n == 0 then vals == [] else DeltaStands(b, n, vals)
  {
    hide FromLe, ReadU32, Num4, Signed8, Delta.Resum;
    if n > 0 && |b| >= 12 {
      ReadFour(b, 8);
      if n <= Num4(b, 8) && 12 + 8 * (Num4(b, 8) - 1) <= |b| && |vals| == n {
        ResumIff(b, n, vals);
      }
    }
  }

  lemma {:induction false} ResumIff(b: seq<Byte>, n: nat, vals: seq<I64>)
    requires 0 < n == |vals| && 12 + 8 * (n - 1) <= |b|
    ensures Delta.Resum(b, n) == vals
            <==> vals[0] == Signed8(b, 0) && forall i :: 1 <= i < n ==> Steps(b, vals[i - 1], vals[i], 12 + 8 * (i - 1))
  {
    hide Delta.Resum, Signed8, Steps;
    if n == 1 {
      ResumFirst(b, vals[0]);
    } else {
      var init := vals[..n - 1];
      ResumIff(b, n - 1, init);
      ResumStep(b, n, vals[n - 1]);
      assert vals == init + [vals[n - 1]];
      assert Delta.Resum(b, n)[..n - 1] == Delta.Resum(b, n - 1);
    }
  }

  lemma {:induction false} ResumFirst(b: seq<Byte>, v: I64)
    requires 12 <= |b|
    ensures Delta.Resum(b, 1) == [v] <==> v == Signed8(b, 0)
  {
    hide FromLe, ReadU64, Num8, Signed8, ToI64;
    ReadEight(b, 0);
    var r := Delta.Resum(b, 1);
    assert r == [r[0]];
  }

  lemma {:induction false} ResumStep(b: seq<Byte>, n: nat, v: I64)
    requires 1 < n && 12 + 8 * (n - 1) <= |b|
    ensures var before, all := Delta.Resum(b, n - 1), Delta.Resum(b, n);
            all[..n - 1] == before && (all[n - 1] == v <==> Steps(b, before[n - 2], v, 12 + 8 * (n - 2)))
  {
    hide FromLe, ReadU64, Num8, Signed8, ToI64, Delta.Plus;
    var at := 12 + 8 * (n - 2);
    ReadEight(b, at);
    PlusIff(Delta.Resum(b, n - 1)[n - 2], ToI64(ReadU64(b[at..at + 8])), v);
  }

  lemma PlusIff(a: I64, d: I64, s: I64)
    ensures var x: int, y: int, z: int := a, d, s;
            Delta.Plus(a, d) == s <==> (z - x - y) % 0x1_0000_0000_0000_0000 == 0
  {}

  // ----- dictionaries -----

  function IndexParts(indices: seq<nat>): seq<seq<Byte>> {
    seq(|indices|, i requires 0 <= i < |indices| => Four(indices[i]))
  }

  /** The number of entries, the entries, the number of values, the index of each. */
  function DictionaryImage(dict: seq<Scalar>, indices: seq<nat>): seq<Byte> {
    Four(|dict|) + (Join(ValueParts(dict)) + (Four(|indices|) + Join(IndexParts(indices))))
  }

  lemma {:induction false} IndicesAre(indices: seq<nat>)
    ensures Dictionary.IndexBytes(indices) == Join(IndexParts(indices))
  {
    hide FromLe, LittleEndian.Le, Four;
    if indices != [] {
      var n := |indices| - 1;
      IndicesAre(indices[..n]);
      FieldBytesAre(indices[n]);
      JoinSnoc(IndexParts(indices));
      assert IndexParts(indices)[..n] == IndexParts(indices[..n]);
    }
  }

  lemma {:induction false} DictionaryIs(dict: seq<Scalar>, indices: seq<nat>)
    ensures Dictionary.Layout(dict, indices) == DictionaryImage(dict, indices)
  {
    hide FromLe, LittleEndian.Le, Four, Join, AllBytes, Dictionary.IndexBytes;
    FieldBytesAre(|dict|);
    FieldBytesAre(|indices|);
    AllBytesAre(dict);
    IndicesAre(indices);
  }

  /** The entries, the number of values, and an index of an entry for each value, from the front. */
  predicate DictionaryStands(t: ColType, b: seq<Byte>, vals: seq<Scalar>, dict: seq<Scalar>, ends: seq<nat>) {
    && |b| >= 4 && Num4(b, 0) == |dict| && StandAll(t, dict, b, ends) && ends[0] == 4
    && var at := ends[|dict|];
       && at + 4 + 4 * |vals| <= |b| && Num4(b, at) == |vals|
       && forall i :: 0 <= i < |vals| ==> Indexed(b, dict, at + 4 + 4 * i, vals[i])
  }

  predicate Indexed(b: seq<Byte>, dict: seq<Scalar>, at: nat, v: Scalar) {
    at + 4 <= |b| && Num4(b, at) < |dict| && v == dict[Num4(b, at)]
  }

  lemma {:induction false} ResolveIff(dict: seq<Scalar>, b: seq<Byte>, off: nat, vals: seq<Scalar>)
    ensures Dictionary.Resolve(dict, b, off, |vals|) == Some(vals)
            <==> forall i :: 0 <= i < |vals| ==> Indexed(b, dict, off + 4 * i, vals[i])
  {
    hide FromLe, ReadU32, Num4;
    if vals != [] {
      var n := |vals| - 1;
      ResolveIff(dict, b, off, vals[..n]);
      if off + 4 * n + 4 <= |b| {
        ReadFour(b, off + 4 * n);
      }
      assert vals == vals[..n] + [vals[n]];
    }
  }

  /** Any bytes: no values are always given, and more exactly when they stand in the bytes with a dictionary. */
  lemma {:induction false} DictionaryIff(t: ColType, b: seq<Byte>, n: nat, vals: seq<Scalar>)
    ensures Dictionary.Decoded(t, b, n) == Some(vals)
            <==> |vals| == n && (n == 0 || exists dict, ends :: DictionaryStands(t, b, vals, dict, ends))
  {
    hide StandAll, Indexed, Num4, ReadU32, ReadAll, Dictionary.Resolve, ReadValue;
    if Dictionary.Decoded(t, b, n) == Some(vals) && n > 0 {
      DictionaryFound(t, b, vals);
    }
    if |vals| == n && n > 0 {
      if dict, ends :| DictionaryStands(t, b, vals, dict, ends) {
        DictionaryRead(t, b, vals, dict, ends);
      }
    }
  }

  lemma {:induction false} DictionaryFound(t: ColType, b: seq<Byte>, vals: seq<Scalar>)
    requires vals != [] && Dictionary.Decoded(t, b, |vals|) == Some(vals)
    ensures exists dict, ends :: DictionaryStands(t, b, vals, dict, ends)
  {
    hide Stands, Num4, ReadU32, ReadAll, Dictionary.Resolve, ReadValue;
    ReadFour(b, 0);
    var entries := ReadAll(t, b, 4, Num4(b, 0)).value;
    var ends := ReadStands(t, b, 4, Num4(b, 0));
    ReadFour(b, entries.1);
    ResolveIff(entries.0, b, entries.1 + 4, vals);
    assert Indexed(b, entries.0, entries.1 + 4 + 4 * (|vals| - 1), vals[|vals| - 1]);
    assert DictionaryStands(t, b, vals, entries.0, ends);
  }

  lemma {:induction false} DictionaryRead(t: ColType, b: seq<Byte>, vals: seq<Scalar>, dict: seq<Scalar>,
                                          ends: seq<nat>)
    requires vals != [] && DictionaryStands(t, b, vals, dict, ends)
    ensures Dictionary.Decoded(t, b, |vals|) == Some(vals)
  {
    hide Stands, Num4, ReadU32, ReadAll, Dictionary.Resolve, ReadValue, Indexed;
    ReadFour(b, 0);
    StandsRead(t, b, ends, dict);
    ReadFour(b, ends[|dict|]);
    ResolveIff(dict, b, ends[|dict|] + 4, vals);
  }
}
