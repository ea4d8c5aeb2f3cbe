/** Arbitrary runs of one aggregator: any interleaving of Grow, Update and Reset. */
module AggregatorRuns {
  import opened Types
  import opened Relation
  import opened Batches
  import opened Predicates
  import opened Aggregation
  import opened Aggregators

  /** One call: Grow to a number of groups, Update with cells routed to given groups, or Reset. */
  datatype Act = Enlarge(groups: nat) | Route(cells: seq<Cell>, gids: seq<nat>) | Wipe

  function Zeros(fn: AggFn, n: nat): (slots: seq<Slot>)
    ensures |slots| == n
  {
    seq(n, _ => ZeroSlot(fn))
  }

  /** How many groups there are after a run that starts with n. */
  function Size(n: nat, script: seq<Act>): nat {
    if script == [] then n
    else
      var before, last := Size(n, script[..|script| - 1]), script[|script| - 1];
      if last.Enlarge? && last.groups > before then last.groups else before
  }

  /** Every Update is given one group a cell, and a group that is there. */
  predicate Runnable(n: nat, script: seq<Act>) {
    script == [] ||
    var init, last := script[..|script| - 1], script[|script| - 1];
    && Runnable(n, init)
    && (last.Route? ==>
          |last.cells| == |last.gids| && forall k :: 0 <= k < |last.gids| ==> last.gids[k] < Size(n, init))
  }

  function ActOn(ar: Arith, fn: AggFn, slots: seq<Slot>, a: Act): (r: seq<Slot>)
    requires a.Route? ==> |a.cells| == |a.gids| && forall k :: 0 <= k < |a.gids| ==> a.gids[k] < |slots|
    ensures |r| == if a.Enlarge? && a.groups > |slots| then a.groups else |slots|
  {
    match a
    case Enlarge(groups) => if groups > |slots| then slots + Zeros(fn, groups - |slots|) else slots
    case Route(cells, gids) => Scatter(ar, fn, slots, cells, gids)
    case Wipe => Zeros(fn, |slots|)
  }

  /** The slots a run leaves behind. */
  function Run(ar: Arith, fn: AggFn, slots: seq<Slot>, script: seq<Act>): (r: seq<Slot>)
    requires Runnable(|slots|, script)
    ensures |r| == Size(|slots|, script)
  {
    if script == [] then slots
    else ActOn(ar, fn, Run(ar, fn, slots, script[..|script| - 1]), script[|script| - 1])
  }

  /** The cells of one Update routed to group g, in order. */
  function Routed(cells: seq<Cell>, gids: seq<nat>, g: nat): seq<Cell>
    requires |cells| == |gids|
  {
    if cells == [] then []
    else
      var n := |cells| - 1;
      Routed(cells[..n], gids[..n], g) + (if gids[n] == g then [cells[n]] else [])
  }

  /** All cells routed to group g since the last Reset, in the order of the calls. */
  function Fed(n: nat, script: seq<Act>, g: nat): seq<Cell>
    requires Runnable(n, script)
  {
    if script == [] then []
    else
      var before, last := Fed(n, script[..|script| - 1], g), script[|script| - 1];
      match last
      case Enlarge(_) => before
      case Route(cells, gids) => before + Routed(cells, gids, g)
      case Wipe => []
  }

  /** One Update extends the fold of every slot by the cells routed to it. */
  lemma {:induction false} ScatterFold(ar: Arith, fn: AggFn, slots: seq<Slot>, cells: seq<Cell>, gids: seq<nat>,
                                       g: nat, before: seq<Cell>)
    requires |cells| == |gids| && (forall k :: 0 <= k < |gids| ==> gids[k] < |slots|) && g < |slots|
    requires slots[g] == Fold(ar, fn, before)
    ensures Scatter(ar, fn, slots, cells, gids)[g] == Fold(ar, fn, before + Routed(cells, gids, g))
  {
    if cells == [] {
      assert before + [] == before;
    } else {
      var n := |cells| - 1;
      var some := Routed(cells[..n], gids[..n], g);
      ScatterFold(ar, fn, slots, cells[..n], gids[..n], g, before);
      if gids[n] == g {
        FoldSnoc(ar, fn, before + some, cells[n]);
        assert before + some + [cells[n]] == before + (some + [cells[n]]);
      } else {
        assert some + [] == some;
      }
    }
  }

  /**
   * Whatever the interleaving of Grow, Update and Reset and however rows are routed, each slot is
   * the left fold of the cells routed to its group since the last Reset.
   */
  lemma {:induction false} RunFolds(ar: Arith, fn: AggFn, n: nat, script: seq<Act>, g: nat)
    requires Runnable(n, script) && g < Size(n, script)
    ensures Run(ar, fn, Zeros(fn, n), script)[g] == Fold(ar, fn, Fed(n, script, g))
  {
    if script != [] {
      var init, last := script[..|script| - 1], script[|script| - 1];
      var slots := Run(ar, fn, Zeros(fn, n), init);
      if g < |slots| {
        RunFolds(ar, fn, n, init, g);
        if last.Route? {
          ScatterFold(ar, fn, slots, last.cells, last.gids, g, Fed(n, init, g));
        }
      } else {
        NothingFed(n, init, g);
      }
    }
  }

  /** A group that is not there yet has been fed nothing. */
  lemma {:induction false} NothingFed(n: nat, script: seq<Act>, g: nat)
    requires Runnable(n, script) && Size(n, script) <= g
    ensures Fed(n, script, g) == []
  {
    if script != [] {
      var init, last := script[..|script| - 1], script[|script| - 1];
      NothingFed(n, init, g);
      if last.Route? {
        NothingRouted(last.cells, last.gids, g);
      }
    }
  }

  lemma {:induction false} NothingRouted(cells: seq<Cell>, gids: seq<nat>, g: nat)
    requires |cells| == |gids| && forall k :: 0 <= k < |gids| ==> gids[k] < g
    ensures Routed(cells, gids, g) == []
  {
    if cells != [] {
      NothingRouted(cells[..|cells| - 1], gids[..|cells| - 1], g);
    }
  }

  // ----- on the object -----

  /** A call on an aggregator with the batch it is handed. */
  datatype Call = GrowTo(groups: nat) | UpdateWith(vec: Vector, sel: Selection, gids: Option<seq<nat>>) | ResetAll

  function Touched(c: Call): set<object> {
    if c.UpdateWith? then {c.vec, c.vec.nulls, c.sel} else {}
  }

  ghost predicate Suits(c: Call, fn: AggFn)
    reads Touched(c)
  {
    c.UpdateWith? ==>
      Inside(c.vec, c.sel) && (fn.Count? || c.vec.typ == fn.t) && (c.gids.None? || |c.gids.value| == c.sel.n)
  }

  /** What a call does: it updates with the selected cells of its batch. */
  ghost function Meant(c: Call, fn: AggFn): Act
    requires Suits(c, fn)
    reads Touched(c)
  {
    match c
    case GrowTo(groups) => Enlarge(groups)
    case UpdateWith(vec, sel, gids) =>
      Route(Gather(vec.Cells(), sel.Idx()), if gids.Some? then gids.value else seq(sel.n, _ => 0))
    case ResetAll => Wipe
  }

  ghost predicate Spells(calls: seq<Call>, fn: AggFn, script: seq<Act>)
    reads set i, o | 0 <= i < |calls| && o in Touched(calls[i]) :: o
  {
    |calls| == |script| && forall i :: 0 <= i < |calls| ==> Suits(calls[i], fn) && Meant(calls[i], fn) == script[i]
  }

  /** One call does what it means to the slots; a scalar Update needs slot 0. */
  method Perform(agg: Aggregator, c: Call, ghost a: Act)
    requires agg.Valid() && agg !in Touched(c) && Suits(c, agg.fn) && a == Meant(c, agg.fn)
    requires c.UpdateWith? && c.gids.None? ==> 0 < |agg.Slots()|
    requires a.Route? ==> |a.cells| == |a.gids| && forall k :: 0 <= k < |a.gids| ==> a.gids[k] < |agg.Slots()|
    modifies agg
    ensures agg.Valid() && agg.Slots() == ActOn(agg.ar, agg.fn, old(agg.Slots()), a)
  {
    match c {
      case GrowTo(groups) =>
        agg.Grow(groups);
        assert agg.Slots() == ActOn(agg.ar, agg.fn, old(agg.Slots()), a);
      case UpdateWith(vec, sel, gids) =>
        agg.Update(vec, sel, gids);
      case ResetAll =>
        agg.Reset();
    }
  }

  /**
   * Any run of calls on a fresh aggregator: its slots are the folds of what was routed to each
   * group, in the order of the calls. The batches handed to Update are fixed for the whole run;
   * a batch that is refilled between two calls is what RunFolds speaks of, and what the operators do.
   */
  method RunCalls(ar: Arith, fn: AggFn, groups: nat, calls: seq<Call>, ghost script: seq<Act>) returns (agg: Aggregator)
    requires FnOk(fn) && Spells(calls, fn, script) && Runnable(groups, script)
    requires forall i :: 0 <= i < |calls| && calls[i].UpdateWith? && calls[i].gids.None? ==>
        0 < Size(groups, script[..i])
    ensures fresh(agg) && agg.Valid() && agg.ar == ar && agg.fn == fn
    ensures |agg.Slots()| == Size(groups, script)
    ensures forall g :: 0 <= g < |agg.Slots()| ==> agg.Slots()[g] == Fold(ar, fn, Fed(groups, script, g))
  {
    hide Fed, Fold, Size;
    agg := new Aggregator(ar, fn, groups);
    ghost var zeros := Zeros(fn, groups);
    assert script[..0] == [];
    for i := 0 to |calls|
      invariant fresh(agg) && agg.Valid() && agg.ar == ar && agg.fn == fn
      invariant Runnable(groups, script[..i]) && agg.Slots() == Run(ar, fn, zeros, script[..i])
    {
      RunnablePrefix(groups, script, i + 1);
      assert script[..i + 1][..i] == script[..i];
      Perform(agg, calls[i], script[i]);
    }
    assert script[..|script|] == script;
    forall g | 0 <= g < |agg.Slots()|
      ensures agg.Slots()[g] == Fold(ar, fn, Fed(groups, script, g))
    {
      RunFolds(ar, fn, groups, script, g);
    }
  }

  lemma {:induction false} RunnablePrefix(n: nat, script: seq<Act>, i: nat)
    requires Runnable(n, script) && i <= |script|
    ensures Runnable(n, script[..i])
    decreases |script|
  {
    if i < |script| {
      RunnablePrefix(n, script[..|script| - 1], i);
      assert script[..|script| - 1][..i] == script[..i];
    } else {
      assert script[..i] == script;
    }
  }
}
