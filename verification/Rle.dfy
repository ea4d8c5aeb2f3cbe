/** encoding/rle.go: runs of equal values as (value, count) pairs. */
module Rle {
  import opened Types
  import opened Relation
  import opened LittleEndian
  import opened Codecs

  datatype Run = Run(val: Scalar, count: nat)

  function Repeat(v: Scalar, n: nat): seq<Scalar> {
    seq(n, _ => v)
  }

  function Expand(runs: seq<Run>): seq<Scalar> {
    if runs == [] then [] else Repeat(runs[0].val, runs[0].count) + Expand(runs[1..])
  }

  /** The maximal runs of data, in order. */
  function RunsOf(data: seq<Scalar>): seq<Run> {
    if data == [] then []
    else
      var runs, v := RunsOf(data[..|data| - 1]), data[|data| - 1];
      var m := |runs| - 1;
      if runs != [] && runs[m].val == v then runs[..m] + [Run(v, runs[m].count + 1)] else runs + [Run(v, 1)]
  }

  lemma {:induction false} ExpandConcat(a: seq<Run>, b: seq<Run>)
    ensures Expand(a + b) == Expand(a) + Expand(b)
  {
    if a == [] {
      assert a + b == b;
    } else {
      assert (a + b)[1..] == a[1..] + b;
      ExpandConcat(a[1..], b);
    }
  }

  lemma ExpandOne(v: Scalar, n: nat)
    ensures Expand([Run(v, n)]) == Repeat(v, n)
  {}

  lemma OpenRun(runs: seq<Run>, v: Scalar)
    ensures Expand(runs + [Run(v, 1)]) == Expand(runs) + [v]
  {
    ExpandConcat(runs, [Run(v, 1)]);
    ExpandOne(v, 1);
    assert Repeat(v, 1) == [v];
  }

  lemma LengthenRun(runs: seq<Run>, v: Scalar, n: nat)
    ensures Expand(runs + [Run(v, n + 1)]) == Expand(runs + [Run(v, n)]) + [v]
  {
    ExpandConcat(runs, [Run(v, n + 1)]);
    ExpandConcat(runs, [Run(v, n)]);
    ExpandOne(v, n);
    ExpandOne(v, n + 1);
    assert Expand(runs) + (Repeat(v, n) + [v]) == Expand(runs) + Repeat(v, n) + [v];
    assert Repeat(v, n + 1) == Repeat(v, n) + [v];
  }

  lemma {:induction false} RunsSpell(data: seq<Scalar>)
    ensures Expand(RunsOf(data)) == data
  {
    if data != [] {
      var init, v := data[..|data| - 1], data[|data| - 1];
      var runs := RunsOf(init);
      var m := |runs| - 1;
      RunsSpell(init);
      SplitLast(data);
      if runs != [] && runs[m].val == v {
        SplitLast(runs);
        LengthenRun(runs[..m], v, runs[m].count);
      } else {
        OpenRun(runs, v);
      }
    }
  }

  /** No run is empty and neighbours differ, so the runs are the longest possible. */
  lemma {:induction false} RunsMaximal(data: seq<Scalar>)
    ensures var runs := RunsOf(data);
            && |runs| <= |data|
            && (forall i :: 0 <= i < |runs| ==> 0 < runs[i].count <= |data| && runs[i].val in data)
            && (forall i :: 0 <= i < |runs| - 1 ==> runs[i].val != runs[i + 1].val)
  {
    hide Expand;
    if data != [] {
      RunsMaximal(data[..|data| - 1]);
      SplitLast(data);
    }
  }

  function RunBytes(r: Run): seq<Byte> {
    ValueBytes(r.val) + U32Bytes(r.count % 0x1_0000_0000)
  }

  function RunsBytes(runs: seq<Run>): seq<Byte> {
    if runs == [] then [] else RunsBytes(runs[..|runs| - 1]) + RunBytes(runs[|runs| - 1])
  }

  lemma RunsBytesSnoc(runs: seq<Run>, r: Run)
    ensures RunsBytes(runs + [r]) == RunsBytes(runs) + RunBytes(r)
  {}

  /** Close the current run when the value changes, and the last one at the end. */
  method EncodeRle(data: seq<Scalar>) returns (buf: seq<Byte>)
    ensures buf == RunsBytes(RunsOf(data))
  {
    hide RunBytes;
    buf := [];
    if |data| == 0 {
      return;
    }
    var runVal, runCount: nat := data[0], 1;
    ghost var closed: seq<Run> := [];
    FirstRun(data);
    for i := 1 to |data|
      invariant RunsOf(data[..i]) == closed + [Run(runVal, runCount)] && buf == RunsBytes(closed)
    {
      NextRun(data, i, closed, runVal, runCount);
      if data[i] == runVal {
        runCount := runCount + 1;
      } else {
        RunsBytesSnoc(closed, Run(runVal, runCount));
        buf := buf + RunBytes(Run(runVal, runCount));
        closed := closed + [Run(runVal, runCount)];
        runVal, runCount := data[i], 1;
      }
    }
    assert data[..|data|] == data;
    RunsBytesSnoc(closed, Run(runVal, runCount));
    buf := buf + RunBytes(Run(runVal, runCount));
  }

  lemma FirstRun(data: seq<Scalar>)
    requires data != []
    ensures RunsOf(data[..1]) == [] + [Run(data[0], 1)]
  {}

  lemma NextRun(data: seq<Scalar>, i: nat, closed: seq<Run>, runVal: Scalar, runCount: nat)
    requires i < |data| && RunsOf(data[..i]) == closed + [Run(runVal, runCount)]
    ensures RunsOf(data[..i + 1])
            == if data[i] == runVal then closed + [Run(runVal, runCount + 1)]
               else closed + [Run(runVal, runCount)] + [Run(data[i], 1)]
  {
    assert data[..i + 1][..i] == data[..i];
    assert (closed + [Run(runVal, runCount)])[..|closed|] == closed;
  }

  // ----- decoding -----

  function Min(a: nat, b: nat): nat {
    if a < b then a else b
  }

  /** Up to need values of the runs from off on: None when the bytes run out first. */
  function DecodeRuns(t: ColType, b: seq<Byte>, off: nat, need: nat): (r: Option<seq<Scalar>>)
    ensures r.Some? ==> |r.value| == need
    decreases |b| - off
  {
    if need == 0 then Some([])
    else
      var v := ReadValue(t, b, off);
      if v.None? then None
      else
        var n := ReadU32At(b, v.value.1);
        if n.None? then None
        else
          var k := Min(n.value, need);
          Glue(Repeat(v.value.0, k), DecodeRuns(t, b, v.value.1 + 4, need - k))
  }

  function Glue(done: seq<Scalar>, rest: Option<seq<Scalar>>): Option<seq<Scalar>> {
    if rest.None? then None else Some(done + rest.value)
  }

  lemma GlueEnds(done: seq<Scalar>, rest: Option<seq<Scalar>>)
    ensures Glue([], rest) == rest && Glue(done, Some([])) == Some(done)
  {
    if rest.Some? {
      assert [] + rest.value == rest.value;
    }
    assert done + [] == done;
  }

  lemma GlueGlue(a: seq<Scalar>, b: seq<Scalar>, rest: Option<seq<Scalar>>)
    ensures Glue(a, Glue(b, rest)) == Glue(a + b, rest)
  {
    if rest.Some? {
      assert a + (b + rest.value) == a + b + rest.value;
    }
  }

  /** Append a run, stopping at the requested number of values. */
  method AppendRun(result: seq<Scalar>, v: Scalar, runLen: nat, count: nat) returns (r: seq<Scalar>)
    requires |result| <= count
    ensures r == result + Repeat(v, Min(runLen, count - |result|))
  {
    r := result;
    var j := 0;
    while j < runLen && |r| < count
      invariant j <= Min(runLen, count - |result|) && r == result + Repeat(v, j)
    {
      r := r + [v];
      j := j + 1;
    }
  }

  /**
   * Total on any bytes, zero-length runs included: an error, or exactly count values. The
   * offset advances on every turn, so the loop ends.
   */
  method DecodeRle(t: ColType, encoded: seq<Byte>, count: nat) returns (r: Option<seq<Scalar>>)
    ensures r == DecodeRuns(t, encoded, 0, count)
  {
    hide ReadValue, ReadU32At;
    var result: seq<Scalar>, offset := [], 0;
    GlueEnds([], DecodeRuns(t, encoded, 0, count));
    while |result| < count
      invariant |result| <= count && offset <= |encoded|
      invariant DecodeRuns(t, encoded, 0, count) == Glue(result, DecodeRuns(t, encoded, offset, count - |result|))
      decreases |encoded| - offset
    {
      var v := ReadValue(t, encoded, offset);
      if v.None? {
        return None;
      }
      var n := ReadU32At(encoded, v.value.1);
      if n.None? {
        return None;
      }
      GlueGlue(result, Repeat(v.value.0, Min(n.value, count - |result|)),
               DecodeRuns(t, encoded, v.value.1 + 4, count - |result| - Min(n.value, count - |result|)));
      result := AppendRun(result, v.value.0, n.value, count);
      offset := v.value.1 + 4;
    }
    GlueEnds(result, None);
    r := Some(result);
  }

  predicate FitRuns(runs: seq<Run>, t: ColType) {
    forall i :: 0 <= i < |runs| ==> Fits(runs[i].val, t) && runs[i].count < 0x1_0000_0000
  }

  lemma {:induction false} RunsBytesCons(runs: seq<Run>)
    requires runs != []
    ensures RunsBytes(runs) == RunBytes(runs[0]) + RunsBytes(runs[1..])
  {
    hide RunBytes;
    var n := |runs| - 1;
    if n == 0 {
      assert runs[..0] == [] && runs[1..] == [] && RunsBytes([]) == [];
    } else {
      RunsBytesCons(runs[..n]);
      assert runs[..n][1..] == runs[1..][..n - 1];
      var first, middle, last := RunBytes(runs[0]), RunsBytes(runs[1..][..n - 1]), RunBytes(runs[n]);
      assert (first + middle) + last == first + (middle + last);
    }
  }

  /** Decoding stops anywhere inside the runs with the values so far. */
  lemma {:induction false} DecodeBack(t: ColType, b: seq<Byte>, off: nat, runs: seq<Run>, k: nat)
    requires FitRuns(runs, t) && Holds(b, off, RunsBytes(runs)) && k <= |Expand(runs)|
    ensures DecodeRuns(t, b, off, k) == Some(Expand(runs)[..k])
    decreases |runs|
  {
    hide Holds, ReadValue, ReadU32At, RunsBytes, RunBytes;
    if k > 0 {
      var run := runs[0];
      ReadRunBack(t, b, off, runs);
      var next, m := off + |RunBytes(run)|, Min(run.count, k);
      ExpandTake(run, Expand(runs[1..]), k);
      DecodeBack(t, b, next, runs[1..], k - m);
    }
  }

  lemma ReadRunBack(t: ColType, b: seq<Byte>, off: nat, runs: seq<Run>)
    requires FitRuns(runs, t) && Holds(b, off, RunsBytes(runs)) && runs != []
    ensures var v := runs[0].val;
            && ReadValue(t, b, off) == Some((v, off + |ValueBytes(v)|))
            && ReadU32At(b, off + |ValueBytes(v)|) == Some(runs[0].count)
            && |RunBytes(runs[0])| == |ValueBytes(v)| + 4
            && Holds(b, off + |RunBytes(runs[0])|, RunsBytes(runs[1..]))
  {
    hide Holds, ReadValue, ValueBytes, RunsBytes, FromLe;
    var run := runs[0];
    RunsBytesCons(runs);
    HoldsConcat(b, off, RunBytes(run), RunsBytes(runs[1..]));
    HoldsConcat(b, off, ValueBytes(run.val), U32Bytes(run.count));
    ReadBack(t, b, off, run.val);
    ReadU32Back(b, off + |ValueBytes(run.val)|, run.count);
  }

  lemma ExpandTake(run: Run, rest: seq<Scalar>, k: nat)
    requires k <= run.count + |rest|
    ensures var m := Min(run.count, k);
            k - m <= |rest| && (Repeat(run.val, run.count) + rest)[..k] == Repeat(run.val, m) + rest[..k - m]
  {}

  /** Decoding gives back the first k values, for every k up to their number. */
  lemma RleRoundTrip(t: ColType, data: seq<Scalar>, k: nat)
    requires FitAll(data, t) && |data| < 0x1_0000_0000 && k <= |data|
    ensures DecodeRuns(t, RunsBytes(RunsOf(data)), 0, k) == Some(data[..k])
  {
    hide Holds, ReadValue, RunsBytes;
    var bytes := RunsBytes(RunsOf(data));
    RunsMaximal(data);
    RunsSpell(data);
    HoldsWhole(bytes);
    DecodeBack(t, bytes, 0, RunsOf(data), k);
  }
}
