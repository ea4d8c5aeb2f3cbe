/** exec/predicate.go: narrowing a selection by a comparison on one column. */
module Predicates {
  import opened Types
  import opened Bitmap
  import opened Batches
  import opened Relation

  /** The selection stays inside the vector. */
  ghost predicate Inside(vec: Vector, sel: Selection)
    reads vec, vec.nulls, sel
  {
    && vec.Valid() && sel.Valid()
    && (forall k :: 0 <= k < sel.n ==> sel.Idx()[k] < vec.length)
  }

  lemma KeptStep(p: Pred, cs: seq<Cell>, idx: seq<nat>, k: nat)
    requires k < |cs| == |idx|
    ensures Pick(idx, Kept(p, cs[..k + 1])) == Pick(idx, Kept(p, cs[..k])) + (if Match(p, cs[k]) then [idx[k]] else [])
    ensures |Kept(p, cs[..k])| <= k
  {
    assert cs[..k + 1][..k] == cs[..k];
  }

  /**
   * out becomes the positions of input whose cell satisfies p, in order. Handed one
   * selection twice, the opening Reset empties the input as well and nothing survives.
   */
  method Eval(p: Pred, vec: Vector, input: Selection, out: Selection)
    requires Inside(vec, input) && vec.typ == PredType(p)
    requires out.Valid()
    modifies out
    ensures out.Valid()
    ensures input == out ==> out.n == 0
    ensures input != out ==>
        out.Idx() == Pick(input.Idx(), Kept(p, Gather(vec.Cells(), input.Idx())))
  {
    out.Reset();
    var hasNulls := HasNulls(vec.nulls.data);
    if input == out {
    } else if !hasNulls {
      EvalNoNulls(p, vec, input, out);
    } else {
      EvalNulls(p, vec, input, out);
    }
  }

  /** The loop for a vector without nulls. */
  method EvalNoNulls(p: Pred, vec: Vector, input: Selection, out: Selection)
    requires Inside(vec, input) && vec.typ == PredType(p) && true !in Bits(vec.nulls.data)
    requires out.Valid() && input != out && out.n == 0
    modifies out
    ensures out.Valid()
    ensures out.Idx() == Pick(input.Idx(), Kept(p, Gather(vec.Cells(), input.Idx())))
  {
    ghost var cs := Gather(vec.Cells(), input.Idx());
    ghost var idx := input.Idx();
    for k := 0 to input.n
      invariant out.Valid() && out.Idx() == Pick(idx, Kept(p, cs[..k]))
    {
      KeptStep(p, cs, idx, k);
      var i := input.buf[k];
      assert cs[k] == Val(vec.vals[i]);
      if Test(p, vec.vals[i]) {
        out.AppendUnchecked(i);
      }
    }
    assert cs[..input.n] == cs;
  }

  /** The loop that skips null rows. */
  method EvalNulls(p: Pred, vec: Vector, input: Selection, out: Selection)
    requires Inside(vec, input) && vec.typ == PredType(p)
    requires out.Valid() && input != out && out.n == 0
    modifies out
    ensures out.Valid()
    ensures out.Idx() == Pick(input.Idx(), Kept(p, Gather(vec.Cells(), input.Idx())))
  {
    ghost var cs := Gather(vec.Cells(), input.Idx());
    ghost var idx := input.Idx();
    for k := 0 to input.n
      invariant out.Valid() && out.Idx() == Pick(idx, Kept(p, cs[..k]))
    {
      KeptStep(p, cs, idx, k);
      var i := input.buf[k];
      var isNull := IsNull(vec.nulls.data, i);
      if !isNull && Test(p, vec.vals[i]) {
        out.AppendUnchecked(i);
      }
    }
    assert cs[..input.n] == cs;
  }
}
