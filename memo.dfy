/** The memoization slot behind every selector hook: the host framework's
    `useMemo`, made explicit. One slot belongs to one component instance and
    holds the dependency list and result of the last combiner run. */
module Memo {

  datatype Option<T> = None | Some(value: T)

  /** What a slot remembers after a combiner run. */
  datatype Entry<T, R> = Entry(deps: seq<T>, result: R)

  /** Two dependency lists are equal when they have the same length and are
      equal position by position. */
  predicate SameDeps<T(==)>(a: seq<T>, b: seq<T>)
    decreases |a|
  {
    if a == [] || b == [] then a == [] && b == []
    else a[0] == b[0] && SameDeps(a[1..], b[1..])
  }

  /** The pairwise comparison is exactly equality of the two lists: a list
      that differs in one position, or in its length, is not the same. */
  lemma {:induction false} SameDepsIsEquality<T>(a: seq<T>, b: seq<T>)
    ensures SameDeps(a, b) <==> a == b
    decreases |a|
  {
    if a != [] && b != [] {
      SameDepsIsEquality(a[1..], b[1..]);
      assert a == [a[0]] + a[1..];
      assert b == [b[0]] + b[1..];
    }
  }

  /** Changing any single dependency makes the lists differ. */
  lemma SingleChangeDiffers<T>(deps: seq<T>, i: nat, v: T)
    requires i < |deps| && v != deps[i]
    ensures !SameDeps(deps, deps[i := v])
  {
    SameDepsIsEquality(deps, deps[i := v]);
    assert deps[i := v][i] != deps[i];
  }

  /** The slot holds an entry whose dependency list equals `deps`. */
  predicate Hit<T(==), R>(last: Option<Entry<T, R>>, deps: seq<T>)
  {
    last.Some? && SameDeps(last.value.deps, deps)
  }

  /** The outcome of one invocation of a slot: its new contents and the
      value handed back to the caller. */
  datatype StepOutcome<T, R> = StepOutcome(slot: Option<Entry<T, R>>, value: R)

  /** One invocation: reuse the stored result on a hit, otherwise run
      `compute` on the new dependencies and remember both. */
  function Step<T(==), R>(last: Option<Entry<T, R>>, compute: seq<T> -> R, deps: seq<T>): StepOutcome<T, R>
  {
    if Hit(last, deps) then StepOutcome(last, last.value.result)
    else StepOutcome(Some(Entry(deps, compute(deps))), compute(deps))
  }

  /** A sequence of renders against one slot: the slot afterwards, the value
      returned by each render, and how many times `compute` ran. */
  datatype RunOutcome<T, R> = RunOutcome(slot: Option<Entry<T, R>>, results: seq<R>, calls: nat)

  function Run<T(==), R>(last: Option<Entry<T, R>>, compute: seq<T> -> R, renders: seq<seq<T>>): RunOutcome<T, R>
    decreases |renders|
  {
    if renders == [] then RunOutcome(last, [], 0)
    else
      var before := Run(last, compute, renders[..|renders| - 1]);
      var deps := renders[|renders| - 1];
      var step := Step(before.slot, compute, deps);
      RunOutcome(step.slot, before.results + [step.value],
                 before.calls + if Hit(before.slot, deps) then 0 else 1)
  }

  /** The slot's stored result is what `compute` gives for its stored
      dependencies (true of every slot only ever fed by one pure combiner). */
  ghost predicate Consistent<T, R>(last: Option<Entry<T, R>>, compute: seq<T> -> R)
  {
    last.Some? ==> last.value.result == compute(last.value.deps)
  }

  /** Memoization is transparent: every render returns exactly what the
      combiner would return on that render's dependencies, the slot stays
      consistent, and it ends up holding the last render's dependencies. */
  lemma {:induction false} RunIsTransparent<T, R>(last: Option<Entry<T, R>>, compute: seq<T> -> R, renders: seq<seq<T>>)
    requires Consistent(last, compute)
    ensures var o := Run(last, compute, renders);
      && |o.results| == |renders|
      && (forall i :: 0 <= i < |renders| ==> o.results[i] == compute(renders[i]))
      && Consistent(o.slot, compute)
      && (renders != [] ==> o.slot.Some? && o.slot.value.deps == renders[|renders| - 1])
      && (renders == [] ==> o.slot == last)
    decreases |renders|
  {
    if renders != [] {
      var prefix := renders[..|renders| - 1];
      RunIsTransparent(last, compute, prefix);
      var before := Run(last, compute, prefix);
      var deps := renders[|renders| - 1];
      if Hit(before.slot, deps) {
        SameDepsIsEquality(before.slot.value.deps, deps);
      }
    }
  }

  /** The number of renders whose dependency list differs from the previous
      render's, counting the first render after `prev` when `prev` is None. */
  function Changes<T(==)>(prev: Option<seq<T>>, renders: seq<seq<T>>): nat
    decreases |renders|
  {
    if renders == [] then 0
    else
      var n := |renders|;
      var earlier := if n == 1 then prev else Some(renders[n - 2]);
      Changes(prev, renders[..n - 1]) + if earlier == Some(renders[n - 1]) then 0 else 1
  }

  function DepsOf<T, R>(last: Option<Entry<T, R>>): Option<seq<T>>
  {
    if last.Some? then Some(last.value.deps) else None
  }

  /** The combiner runs exactly once per change of the dependency list: on
      the first render of an empty slot and whenever a render's list differs
      from the one before it, and never otherwise. */
  lemma {:induction false} RunCallsCountChanges<T, R>(last: Option<Entry<T, R>>, compute: seq<T> -> R, renders: seq<seq<T>>)
    ensures Run(last, compute, renders).calls == Changes(DepsOf(last), renders)
    ensures DepsOf(Run(last, compute, renders).slot)
            == if renders == [] then DepsOf(last) else Some(renders[|renders| - 1])
    decreases |renders|
  {
    if renders != [] {
      var n := |renders|;
      var prefix := renders[..n - 1];
      RunCallsCountChanges(last, compute, prefix);
      var before := Run(last, compute, prefix);
      assert n > 1 ==> prefix[|prefix| - 1] == renders[n - 2];
      if before.slot.Some? {
        SameDepsIsEquality(before.slot.value.deps, renders[n - 1]);
      }
    }
  }

  /** The per-instance slot: the last dependency list and result, plus a
      ghost count of combiner runs. */
  class MemoSlot<T(==), R> {
    var last: Option<Entry<T, R>>
    ghost var calls: nat

    /** A component instance starts with an empty slot. */
    constructor ()
      ensures last == None && calls == 0
    {
      last := None;
      calls := 0;
    }

    /** `useMemo(() => compute(...deps), deps)`: compare `deps` with the stored
        list and run `compute` only when they differ. */
    method Use(compute: seq<T> -> R, deps: seq<T>) returns (r: R)
      modifies this
      ensures last == Step(old(last), compute, deps).slot
      ensures r == Step(old(last), compute, deps).value
      ensures old(last) == None ==> r == compute(deps) && calls == old(calls) + 1
      ensures old(last).Some? && old(last).value.deps == deps ==>
                r == old(last).value.result && last == old(last) && calls == old(calls)
      ensures old(last).Some? && old(last).value.deps != deps ==>
                r == compute(deps) && last == Some(Entry(deps, r)) && calls == old(calls) + 1
    {
      if last.Some? {
        SameDepsIsEquality(last.value.deps, deps);
      }
      if last.Some? && SameDeps(last.value.deps, deps) {
        r := last.value.result;
      } else {
        r := compute(deps);
        last := Some(Entry(deps, r));
        calls := calls + 1;
      }
    }
  }
}
