# react-selector-hooks, modelled in Dafny

`react-selector-hooks` builds selector hooks for React components: a hook
resolves a list of dependencies from the arguments it is called with and
re-runs a combiner only when that list differs from the one seen on the
previous render of the same component instance. There are three
constructors:

- `createSelector(combiner)`: the call arguments are the dependency list and
  the combiner's arguments;
- `createStateSelector(resolvers, combiner)`: every resolver is applied to the
  same argument list, in order, and the combiner gets their values;
- `createStructuredSelector(resolverObject, combiner)`: the resolvers are
  taken from an object in `Object.keys` order, and the combiner gets a fresh
  record binding each key to its resolver's value.

The memoization itself is React's `useMemo`. Here it is an explicit
per-instance slot, the class `Memo.MemoSlot`. The slot holds the last
dependency list and result, plus a ghost count of combiner runs. Its method
`Use` compares the new list with the stored one: equal means same length and
equal elements. It re-runs the combiner only when they differ.

Files:

- `memo.dfy` (module `Memo`): the slot class. It also holds the pure
  specification of one invocation (`Step`) and of a sequence of renders
  (`Run`), and the lemmas about them: memoization is transparent, and the
  combiner runs once per change of the dependency list.
- `selectors.dfy` (module `Selectors`): `resolveResolvers`, the three
  constructors, the key and resolver extraction, and the `reduce` that builds
  the structured record. It also holds the lemmas about what each
  constructor's hook memoizes on.
- `scenarios.dfy` (module `Scenarios`): the three render sequences of the
  repository's tests, replayed on a small model of the JavaScript values they
  use. Objects carry an identity, so a spread copy is a different argument
  with equal properties.

A selector is a `Selectors.Selector`: a function from the call arguments to
the dependency list, and the computation the slot memoizes. Generic values
are `T(==)`. Resolvers are `seq<T> -> T`, combiners `seq<T> -> R`, and
structured combiners `map<string, T> -> R`. A resolver object is its key
sequence (distinct, in `Object.keys` order) plus the map from each key to its
resolver.

The record passed to a structured combiner is built inside the memoized
computation (src/index.js:24-31). So it is built only when the combiner runs,
not on every render. The model follows the code here.

## Model

| member | source | states |
|---|---|---|
| `Memo.SameDeps` | src/index.js:4 | The slot's dependency comparison: same length and equal position by position. No contract of its own; see `Memo.SameDepsIsEquality`. |
| `Memo.Step` | src/index.js:3-4 | One `useMemo` call: reuse on a hit, otherwise run the combiner and store the new list and result. No contract of its own; see `Memo.MemoSlot.Use`, `Memo.RunIsTransparent` and `Memo.RunCallsCountChanges`. |
| `Memo.Run` | src/index.js:3-4 | A sequence of `useMemo` calls against one slot. No contract of its own; see `Memo.RunIsTransparent` and `Memo.RunCallsCountChanges`. |
| `Memo.SameDepsIsEquality` | src/index.js:4 | The slot's pairwise comparison holds exactly when the two dependency lists are equal: same length and the same value at every position. |
| `Memo.SingleChangeDiffers` | src/index.js:4 | Replacing any single dependency with a different value makes the list compare unequal to the old one. |
| `Memo.MemoSlot.constructor` | src/index.js:3-4 | A component instance's slot starts empty, with no combiner runs. |
| `Memo.MemoSlot.Use` | src/index.js:3-4 | On an empty slot the combiner runs once and its result is returned. On an equal list the stored result is returned, with no run and the slot unchanged. On a different list the combiner runs exactly once more on the new list, and its result is returned and stored with that list. |
| `Memo.RunIsTransparent` | src/index.js:3-4 | Over any sequence of renders of a slot fed by one pure combiner, each render returns exactly the combiner's value on that render's dependencies. The slot ends up holding the last render's list. |
| `Memo.RunCallsCountChanges` | src/index.js:3-4 | Over any sequence of renders, the combiner runs exactly as many times as the dependency list changes. That is the first render of an empty slot plus every render whose list differs from the previous one. |
| `Selectors.ResolveResolvers` | src/index.js:6-7 | The resolved list has one entry per resolver. Entry i is resolver i applied to the full argument list. |
| `Selectors.ResolveResolversAppend` | src/index.js:6-7 | Resolving concatenated resolver lists concatenates the results, so each resolver's value keeps its declaration position. |
| `Selectors.CreateSelector` | src/index.js:9-12 | `createSelector`: the call's arguments are both the dependency list and the combiner's arguments. No contract of its own; see `Selectors.CreateSelectorRenders`. |
| `Selectors.CreateStateSelector` | src/index.js:14-17 | `createStateSelector`: the dependency list is the resolvers' values on the call's arguments. No contract of its own; see `Selectors.StateSelectorKeyedOnResolvedValues`. |
| `Selectors.CreateStructuredSelector` | src/index.js:19-35 | `createStructuredSelector`: dependencies are the object's resolvers' values in key order, and a run hands the combiner the record of them. No contract of its own; see `Selectors.StructuredSelectorRecord` and `Selectors.StructuredSelectorKeyedOnResolvedValues`. |
| `Selectors.Render` | src/index.js:10-11 | A sequence of hook calls in one component instance. No contract of its own; see `Selectors.RenderSpec`. |
| `Selectors.RenderSpec` | src/index.js:3-4 | For any selector, each render returns the combiner's value on that render's resolved dependencies. The combiner runs once per change of the resolved list. |
| `Selectors.CreateSelectorRenders` | src/index.js:9-12 | For `createSelector`, each render returns the combiner applied to the call's own arguments. The combiner re-runs exactly when the argument list differs from the previous call's. |
| `Selectors.StateSelectorKeyedOnResolvedValues` | src/index.js:14-17 | For `createStateSelector`, a stored entry is reused exactly when every resolver gives the same value as on the call that stored it, however different the raw arguments are. |
| `Selectors.ObjectResolvers` | src/index.js:20-21 | The extracted resolver list follows the key order, and entry i is the resolver stored under key i. |
| `Selectors.BuildRecord` | src/index.js:27-30 | The `reduce` binds key i to dependency i for every key that has one, and adds no other key. With one dependency per key, the record's key set is exactly the keys. |
| `Selectors.BuildRecordInjective` | src/index.js:27-30 | With one dependency per key, two records are equal exactly when their dependency lists are equal. |
| `Selectors.ObjectRecord` | src/index.js:20-30 | The record built from a resolver object's values has exactly the object's keys. Each key is bound to its own resolver's value on the arguments. |
| `Selectors.StructuredSelectorRecord` | src/index.js:19-35 | On a recompute, the structured combiner is handed a record whose key set is exactly the resolver object's keys. Each key is bound to its resolver's value on the call's arguments. |
| `Selectors.ObjectValuesAgree` | src/index.js:20-23 | A resolver object's resolved lists for two calls are equal exactly when every key's resolver agrees on the two calls. |
| `Selectors.StructuredSelectorKeyedOnResolvedValues` | src/index.js:22-33 | The structured selector memoizes on the positional list. A stored entry is reused exactly when every key's resolver agrees, which is exactly when the rebuilt record would be equal. |
| `Selectors.Select` | src/index.js:10-11 | One hook call resolves the dependencies from the arguments and then performs one slot invocation on them. The combiner count grows by one exactly on a miss. |
| `Scenarios.CreateSelectorTest` | __tests__/index.js:21-44 | `createSelector((a, b) => a + b)` rendered with (2, 3), (2, 3), (4, 3) returns 5, 5, 7 and runs the combiner twice. |
| `Scenarios.CreateStateSelectorTest` | __tests__/index.js:46-86 | The five renders resolve the dependency lists (2, 3), (2, 3), (10, 3), (10, 3), (10, 6); the combiner runs on (2, 3), (10, 3), (10, 6). The renders return 5, 5, 13, 13, 16 with three runs. The spread copy changes the raw arguments but does not trigger a run. |
| `Scenarios.StructuredSelectorTestRecords` | __tests__/index.js:103-128 | The structured test's combiner receives {x: 2, y: 3}, {x: 10, y: 3} and {x: 10, y: 6} on its three runs. |
| `Scenarios.CreateStructuredSelectorTest` | __tests__/index.js:88-131 | The structured test's five renders return 5, 5, 13, 13, 16 with three combiner runs. |

## Left out

- React itself is not modelled: component rendering, the test renderer, snapshots, and the hook rules (unconditional calls, render phase only). The caller passes the slot of the component instance explicitly.
- The internals of `useMemo` are not modelled. When the dependency list's length changes between calls, the slot treats the lists as different and recomputes. Nothing is claimed about what React itself does in that case.
- `Object.is` edge cases (NaN, +0 and -0) are not modelled. Dependencies are compared with Dafny's equality on `T`.
- Exceptions thrown by resolvers or combiners are not modelled: resolvers and combiners are total functions. The source only propagates such exceptions.
- Variadic calls are not modelled. A call's arguments are one `seq<T>`, and each call site has a fixed arity.
- Resolver-call counting is not modelled. Resolvers run on every call (`Selectors.Select` always resolves), but only combiner runs are counted.
- The order of `Object.keys` is an input, not derived. A resolver object is given by its key sequence, so JavaScript's property-ordering rules, such as integer-like keys first, are not modelled.
- Selectors.BuildRecord: a key with no dependency at its index is left out of the record rather than bound to `undefined`. That case never arises, because the structured selector resolves one dependency per key.
- Scenarios: the JavaScript values cover only what the tests use. `+` is modelled on numbers only, and property access yields `undefined` for a missing property or a non-object. Objects are compared by identity and properties together (Dafny equality on `Value`), not by identity alone as `Object.is` does, so a mutated object would compare unequal to itself; the tests never mutate an object.
- rollup.config.js and .babelrc.js are build configuration, with no behaviour to model.
