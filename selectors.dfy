/** The three selector-hook constructors. Each resolves a dependency list
    from the call arguments and memoizes a combiner run on that list, in the
    per-instance slot the hook is called with. */
module Selectors {
  import opened Memo

  /** A resolver extracts one dependency from the whole argument list. */
  type Resolver<!T> = seq<T> -> T

  /** `resolvers.map(resolver => resolver(...args))`: every resolver gets the
      same full argument list, and the results keep the resolvers' order. */
  function ResolveResolvers<T>(resolvers: seq<Resolver<T>>, args: seq<T>): (deps: seq<T>)
    ensures |deps| == |resolvers|
    ensures forall i :: 0 <= i < |resolvers| ==> deps[i] == resolvers[i](args)
    decreases |resolvers|
  {
    if resolvers == [] then []
    else [resolvers[0](args)] + ResolveResolvers(resolvers[1..], args)
  }

  /** Resolving a concatenation of resolver lists concatenates the results:
      each resolver's value lands at its declaration position. */
  lemma {:induction false} ResolveResolversAppend<T>(r1: seq<Resolver<T>>, r2: seq<Resolver<T>>, args: seq<T>)
    ensures ResolveResolvers(r1 + r2, args) == ResolveResolvers(r1, args) + ResolveResolvers(r2, args)
    decreases |r1|
  {
    if r1 != [] {
      assert (r1 + r2)[1..] == r1[1..] + r2;
      ResolveResolversAppend(r1[1..], r2, args);
    }
  }

  /** A selector as the constructors leave it: how a call's arguments become
      the dependency list, and what the memoized call computes from it. */
  datatype Selector<!T, R> = Selector(dependencies: seq<T> -> seq<T>, compute: seq<T> -> R)

  /** `createSelector`: the arguments are the dependencies and the combiner's
      arguments. */
  function CreateSelector<T, R>(combiner: seq<T> -> R): Selector<T, R>
  {
    Selector(args => args, combiner)
  }

  /** `createStateSelector`: the dependencies are the resolvers' values. */
  function CreateStateSelector<T, R>(resolvers: seq<Resolver<T>>, combiner: seq<T> -> R): Selector<T, R>
  {
    Selector(args => ResolveResolvers(resolvers, args), combiner)
  }

  /** A resolver object: its own keys in `Object.keys` order and the resolver
      stored under each of them. */
  datatype ResolverObject<!T> = ResolverObject(keys: seq<string>, fields: map<string, Resolver<T>>)
  {
    /** Keys are distinct and are exactly the object's properties. */
    ghost predicate Valid()
    {
      (forall i, j :: 0 <= i < j < |keys| ==> keys[i] != keys[j])
      && (forall k :: k in fields <==> k in keys)
    }
  }

  /** `keys.map(key => dependencyResolversMap[key])`. */
  function ObjectResolvers<T>(obj: ResolverObject<T>): (rs: seq<Resolver<T>>)
    requires obj.Valid()
    ensures |rs| == |obj.keys|
    ensures forall i :: 0 <= i < |obj.keys| ==> obj.keys[i] in obj.fields && rs[i] == obj.fields[obj.keys[i]]
  {
    seq(|obj.keys|, i requires 0 <= i < |obj.keys| => obj.fields[obj.keys[i]])
  }

  /** The `reduce` over `keys` that assigns `dependencies[index]` to
      `value[key]` in an accumulator that starts as `{}`: key `keys[i]` is
      bound to `deps[i]`. (A key with no dependency at its index is left
      unbound; the selector always supplies one per key.) */
  function BuildRecord<T>(keys: seq<string>, deps: seq<T>): (record: map<string, T>)
    requires forall i, j :: 0 <= i < j < |keys| ==> keys[i] != keys[j]
    ensures forall k :: k in record ==> k in keys
    ensures forall i :: 0 <= i < |keys| && i < |deps| ==> keys[i] in record && record[keys[i]] == deps[i]
    ensures |keys| <= |deps| ==> forall k :: k in record <==> k in keys
    decreases |keys|
  {
    if keys == [] then map[]
    else
      var index := |keys| - 1;
      var value := BuildRecord(keys[..index], deps);
      assert forall i :: 0 <= i < index ==> keys[..index][i] == keys[i];
      if index < |deps| then value[keys[index] := deps[index]] else value
  }

  /** With one dependency per key, records are equal exactly when the
      positional dependency lists are: memoizing on the list is memoizing on
      the record's contents. */
  lemma BuildRecordInjective<T>(keys: seq<string>, d1: seq<T>, d2: seq<T>)
    requires forall i, j :: 0 <= i < j < |keys| ==> keys[i] != keys[j]
    requires |d1| == |keys| && |d2| == |keys|
    ensures BuildRecord(keys, d1) == BuildRecord(keys, d2) <==> d1 == d2
  {
    if BuildRecord(keys, d1) == BuildRecord(keys, d2) {
      forall i | 0 <= i < |keys| ensures d1[i] == d2[i] {
        assert BuildRecord(keys, d1)[keys[i]] == BuildRecord(keys, d2)[keys[i]];
      }
    }
  }

  /** `createStructuredSelector`: the dependencies are the resolvers' values
      in key order, and the combiner gets a record binding each key to its
      value. */
  function CreateStructuredSelector<T, R>(obj: ResolverObject<T>, combiner: map<string, T> -> R): Selector<T, R>
    requires obj.Valid()
  {
    var resolvers := ObjectResolvers(obj);
    Selector(args => ResolveResolvers(resolvers, args), deps => combiner(BuildRecord(obj.keys, deps)))
  }

  /** Unfolding helper: the two halves of a structured selector, spelled out
      as its definition gives them. It states nothing beyond that definition;
      the lemmas below call it to keep their proofs small. */
  lemma StructuredParts<T, R>(obj: ResolverObject<T>, combiner: map<string, T> -> R, args: seq<T>)
    requires obj.Valid()
    ensures var sel := CreateStructuredSelector(obj, combiner);
      && sel.dependencies(args) == ResolveResolvers(ObjectResolvers(obj), args)
      && sel.compute(sel.dependencies(args)) == combiner(BuildRecord(obj.keys, sel.dependencies(args)))
  {
  }

  /** One call of a selector hook in the component instance that owns `slot`. */
  method Select<T(==), R>(slot: MemoSlot<T, R>, sel: Selector<T, R>, args: seq<T>) returns (r: R)
    modifies slot
    ensures slot.last == Step(old(slot.last), sel.compute, sel.dependencies(args)).slot
    ensures r == Step(old(slot.last), sel.compute, sel.dependencies(args)).value
    ensures slot.calls == old(slot.calls) + if Hit(old(slot.last), sel.dependencies(args)) then 0 else 1
  {
    var deps := sel.dependencies(args);
    if slot.last.Some? {
      SameDepsIsEquality(slot.last.value.deps, deps);
    }
    r := slot.Use(sel.compute, deps);
  }

  /** A sequence of renders of one component instance, each calling the hook
      once with that render's arguments. */
  function Render<T(==), R>(sel: Selector<T, R>, last: Option<Entry<T, R>>, calls: seq<seq<T>>): RunOutcome<T, R>
  {
    Run(last, sel.compute, DependencyLists(sel, calls))
  }

  /** The dependency list of each call, in call order. */
  function DependencyLists<T, R>(sel: Selector<T, R>, calls: seq<seq<T>>): (lists: seq<seq<T>>)
    ensures |lists| == |calls|
    ensures forall i :: 0 <= i < |calls| ==> lists[i] == sel.dependencies(calls[i])
  {
    seq(|calls|, i requires 0 <= i < |calls| => sel.dependencies(calls[i]))
  }

  /** What every selector does over a component's lifetime: each render
      returns the combiner's value on that render's dependencies, and the
      combiner runs once per change of the dependency list. */
  lemma RenderSpec<T, R>(sel: Selector<T, R>, calls: seq<seq<T>>)
    ensures var o := Render(sel, None, calls);
      && |o.results| == |calls|
      && (forall i :: 0 <= i < |calls| ==> o.results[i] == sel.compute(sel.dependencies(calls[i])))
      && o.calls == Changes(None, DependencyLists(sel, calls))
  {
    var lists := DependencyLists(sel, calls);
    RunIsTransparent(None, sel.compute, lists);
    RunCallsCountChanges(None, sel.compute, lists);
  }

  /** `createSelector`: the combiner sees the call's own arguments, and it
      re-runs exactly when the argument list differs from the previous call's. */
  lemma CreateSelectorRenders<T, R>(combiner: seq<T> -> R, calls: seq<seq<T>>)
    ensures var o := Render(CreateSelector(combiner), None, calls);
      && |o.results| == |calls|
      && (forall i :: 0 <= i < |calls| ==> o.results[i] == combiner(calls[i]))
      && o.calls == Changes(None, calls)
  {
    var sel := CreateSelector(combiner);
    RenderSpec(sel, calls);
    assert DependencyLists(sel, calls) == calls;
  }

  /** `createStateSelector`: a stored entry is reused exactly when every
      resolver gives the same value as on the call that stored it, however
      the raw arguments differ. */
  lemma StateSelectorKeyedOnResolvedValues<T, R>(resolvers: seq<Resolver<T>>, combiner: seq<T> -> R,
                                                 stored: seq<T>, result: R, args: seq<T>)
    ensures var sel := CreateStateSelector(resolvers, combiner);
      Hit(Some(Entry(sel.dependencies(stored), result)), sel.dependencies(args))
      <==> forall i :: 0 <= i < |resolvers| ==> resolvers[i](stored) == resolvers[i](args)
  {
    var d1, d2 := ResolveResolvers(resolvers, stored), ResolveResolvers(resolvers, args);
    SameDepsIsEquality(d1, d2);
    if forall i :: 0 <= i < |resolvers| ==> resolvers[i](stored) == resolvers[i](args) {
      assert d1 == d2;
    }
  }

  /** One key of the record built from a resolver object's values: it is
      bound to that key's own resolver's value on `args`. */
  lemma ObjectRecordAt<T>(obj: ResolverObject<T>, args: seq<T>, k: string)
    requires obj.Valid()
    ensures var record := BuildRecord(obj.keys, ResolveResolvers(ObjectResolvers(obj), args));
      k in record ==> k in obj.fields && record[k] == obj.fields[k](args)
  {
    var resolvers := ObjectResolvers(obj);
    var deps := ResolveResolvers(resolvers, args);
    if k in BuildRecord(obj.keys, deps) {
      var i :| 0 <= i < |obj.keys| && obj.keys[i] == k;
      assert deps[i] == resolvers[i](args);
    }
  }

  /** The record built from a resolver object's values has exactly the
      object's keys, each bound to its own resolver's value on `args`. */
  lemma ObjectRecord<T>(obj: ResolverObject<T>, args: seq<T>)
    requires obj.Valid()
    ensures var record := BuildRecord(obj.keys, ResolveResolvers(ObjectResolvers(obj), args));
      && (forall k :: k in record <==> k in obj.fields)
      && (forall k :: k in record ==> record[k] == obj.fields[k](args))
  {
    var record := BuildRecord(obj.keys, ResolveResolvers(ObjectResolvers(obj), args));
    forall k | k in record ensures record[k] == obj.fields[k](args) {
      ObjectRecordAt(obj, args, k);
    }
  }

  /** One key's resolver agrees on two argument lists exactly when the
      resolved lists agree at that key's position. */
  lemma ObjectValueAt<T>(obj: ResolverObject<T>, stored: seq<T>, args: seq<T>, i: nat)
    requires obj.Valid() && i < |obj.keys|
    ensures var resolvers := ObjectResolvers(obj);
      obj.keys[i] in obj.fields
      && (ResolveResolvers(resolvers, stored)[i] == ResolveResolvers(resolvers, args)[i]
          <==> obj.fields[obj.keys[i]](stored) == obj.fields[obj.keys[i]](args))
  {
  }

  /** Resolving a resolver object on two argument lists gives the same
      positional list exactly when every key's resolver agrees. */
  lemma ObjectValuesAgree<T>(obj: ResolverObject<T>, stored: seq<T>, args: seq<T>)
    requires obj.Valid()
    ensures var resolvers := ObjectResolvers(obj);
      ResolveResolvers(resolvers, stored) == ResolveResolvers(resolvers, args)
      <==> forall k :: k in obj.fields ==> obj.fields[k](stored) == obj.fields[k](args)
  {
    var resolvers := ObjectResolvers(obj);
    var d1, d2 := ResolveResolvers(resolvers, stored), ResolveResolvers(resolvers, args);
    if forall k :: k in obj.fields ==> obj.fields[k](stored) == obj.fields[k](args) {
      forall i | 0 <= i < |obj.keys| ensures d1[i] == d2[i] {
        ObjectValueAt(obj, stored, args, i);
      }
      assert d1 == d2;
    }
    if d1 == d2 {
      forall k | k in obj.fields ensures obj.fields[k](stored) == obj.fields[k](args) {
        var i :| 0 <= i < |obj.keys| && obj.keys[i] == k;
        ObjectValueAt(obj, stored, args, i);
      }
    }
  }

  /** `createStructuredSelector`: on a miss the combiner receives a record
      whose keys are exactly the resolver object's keys, each bound to its own
      resolver's value on the call's arguments. */
  lemma StructuredSelectorRecord<T, R>(obj: ResolverObject<T>, combiner: map<string, T> -> R, args: seq<T>)
    requires obj.Valid()
    ensures var sel := CreateStructuredSelector(obj, combiner);
      var record := BuildRecord(obj.keys, sel.dependencies(args));
      && sel.compute(sel.dependencies(args)) == combiner(record)
      && (forall k :: k in record <==> k in obj.fields)
      && (forall k :: k in record ==> record[k] == obj.fields[k](args))
  {
    StructuredParts(obj, combiner, args);
    ObjectRecord(obj, args);
  }

  /** `createStructuredSelector` memoizes on the positional dependency list:
      a stored entry is reused exactly when every key's resolver gives the
      same value, which is exactly when the rebuilt record would be equal. */
  lemma StructuredSelectorKeyedOnResolvedValues<T, R>(obj: ResolverObject<T>, combiner: map<string, T> -> R,
                                                      stored: seq<T>, result: R, args: seq<T>)
    requires obj.Valid()
    ensures var sel := CreateStructuredSelector(obj, combiner);
      var hit := Hit(Some(Entry(sel.dependencies(stored), result)), sel.dependencies(args));
      && (hit <==> forall k :: k in obj.fields ==> obj.fields[k](stored) == obj.fields[k](args))
      && (hit <==> BuildRecord(obj.keys, sel.dependencies(stored)) == BuildRecord(obj.keys, sel.dependencies(args)))
  {
    StructuredParts(obj, combiner, stored);
    StructuredParts(obj, combiner, args);
    var resolvers := ObjectResolvers(obj);
    var d1, d2 := ResolveResolvers(resolvers, stored), ResolveResolvers(resolvers, args);
    SameDepsIsEquality(d1, d2);
    BuildRecordInjective(obj.keys, d1, d2);
    ObjectValuesAgree(obj, stored, args);
  }
}
