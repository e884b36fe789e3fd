/** The three render sequences of the repository's tests, replayed against
    the model: what each render returns, what the combiner is handed and how
    many times it runs. */
module Scenarios {
  import opened Memo
  import opened Selectors

  /** The JavaScript values the tests pass around. An object carries an
      identity, so a spread copy `{ ...obj }` is a different object with equal
      properties. */
  datatype Value = Undefined | Num(n: int) | Str(s: string) | Obj(id: nat, props: map<string, Value>)

  /** `args[i]`, which is `undefined` past the end. */
  function Arg(args: seq<Value>, i: nat): Value
  {
    if i < |args| then args[i] else Undefined
  }

  /** `v[key]` on an object; `undefined` for a missing property. */
  function Prop(v: Value, key: string): Value
  {
    if v.Obj? && key in v.props then v.props[key] else Undefined
  }

  /** `a + b` on numbers (the only operands the tests add). */
  function Plus(a: Value, b: Value): Value
  {
    if a.Num? && b.Num? then Num(a.n + b.n) else Undefined
  }

  /** `(state, path) => state[path]` */
  function StateAtPath(args: seq<Value>): Value
  {
    var path := Arg(args, 1);
    if path.Str? then Prop(Arg(args, 0), path.s) else Undefined
  }

  /** `state => state.b` */
  function StateB(args: seq<Value>): Value
  {
    Prop(Arg(args, 0), "b")
  }

  /** `(a, b) => a + b` */
  function Sum(args: seq<Value>): Value
  {
    Plus(Arg(args, 0), Arg(args, 1))
  }

  /** `({ x, y }) => x + y` */
  function SumXY(record: map<string, Value>): Value
  {
    Plus(if "x" in record then record["x"] else Undefined, if "y" in record then record["y"] else Undefined)
  }

  /** `{ a: 2, b: 3, c: 10 }`, its spread copy, and a copy with `b: 6`. */
  const Props: map<string, Value> := map["a" := Num(2), "b" := Num(3), "c" := Num(10)]
  const State1: Value := Obj(1, Props)
  const State2: Value := Obj(2, Props)
  const State3: Value := Obj(3, Props["b" := Num(6)])

  /** The five renders `(state, path)` of the state and structured tests. */
  const StateRenders: seq<seq<Value>> :=
    [[State1, Str("a")], [State1, Str("a")], [State1, Str("c")], [State2, Str("c")], [State3, Str("c")]]

  /** The two resolvers of the state and structured tests, resolved. */
  lemma ResolvedPair(args: seq<Value>)
    ensures ResolveResolvers([StateAtPath, StateB], args) == [StateAtPath(args), StateB(args)]
  {
    var deps := ResolveResolvers([StateAtPath, StateB], args);
    assert deps[0] == StateAtPath(args) && deps[1] == StateB(args);
  }

  /** The dependency lists of the five renders, as the tests expect them. */
  const ExpectedLists: seq<seq<Value>> :=
    [[Num(2), Num(3)], [Num(2), Num(3)], [Num(10), Num(3)], [Num(10), Num(3)], [Num(10), Num(6)]]

  /** Three changes of the dependency list over the five renders. */
  lemma ExpectedListsChanges()
    ensures Changes(None, ExpectedLists) == 3
  {
    var ls := ExpectedLists;
    assert ls[..1] == [ls[0]];
    assert ls[..2][..1] == ls[..1];
    assert ls[..3][..2] == ls[..2];
    assert ls[..4][..3] == ls[..3];
    assert ls[..5] == ls;
    assert ls[..5][..4] == ls[..4];
    assert Changes(None, ls[..1]) == 1;
    assert Changes(None, ls[..2]) == 1;
    assert Changes(None, ls[..3]) == 2;
    assert Changes(None, ls[..4]) == 2;
  }

  /** `createSelector((a, b) => a + b)` rendered with (2, 3), (2, 3), (4, 3):
      5, 5, 7, with the combiner run twice. */
  lemma CreateSelectorTest()
    ensures var o := Render(CreateSelector(Sum), None, [[Num(2), Num(3)], [Num(2), Num(3)], [Num(4), Num(3)]]);
      o.results == [Num(5), Num(5), Num(7)] && o.calls == 2
  {
    var calls := [[Num(2), Num(3)], [Num(2), Num(3)], [Num(4), Num(3)]];
    CreateSelectorRenders(Sum, calls);
    assert calls[..1] == [calls[0]];
    assert calls[..2][..1] == calls[..1];
    assert calls[..3] == calls;
    assert calls[..3][..2] == calls[..2];
    assert Changes(None, calls[..1]) == 1;
    assert Changes(None, calls[..2]) == 1;
  }

  /** `createStateSelector([state[path], state.b], (a, b) => a + b)`: the
      combiner is handed (2, 3), (10, 3), (10, 6) and returns 5, 5, 13, 13, 16
      over the five renders; the spread copy in the fourth render changes the
      raw arguments but not the resolved values, so it runs three times. */
  lemma CreateStateSelectorTest()
    ensures var sel := CreateStateSelector([StateAtPath, StateB], Sum);
      var o := Render(sel, None, StateRenders);
      && DependencyLists(sel, StateRenders) == ExpectedLists
      && StateRenders[3] != StateRenders[2]
      && o.results == [Num(5), Num(5), Num(13), Num(13), Num(16)]
      && o.calls == 3
  {
    var sel := CreateStateSelector([StateAtPath, StateB], Sum);
    var lists := DependencyLists(sel, StateRenders);
    forall i | 0 <= i < 5 ensures lists[i] == ExpectedLists[i] {
      ResolvedPair(StateRenders[i]);
    }
    assert lists == ExpectedLists;
    RenderSpec(sel, StateRenders);
    ExpectedListsChanges();
  }

  /** `{ x: (state, path) => state[path], y: state => state.b }` */
  const XY: ResolverObject<Value> := ResolverObject(["x", "y"], map["x" := StateAtPath, "y" := StateB])

  lemma XYResolvers()
    ensures XY.Valid() && ObjectResolvers(XY) == [StateAtPath, StateB]
  {
    assert forall k :: k in XY.keys <==> k == "x" || k == "y";
    var rs := ObjectResolvers(XY);
    assert rs[0] == StateAtPath && rs[1] == StateB;
  }

  /** The reduce over `["x", "y"]` builds `{ x, y }`. */
  lemma XYRecord(x: Value, y: Value)
    ensures BuildRecord(["x", "y"], [x, y]) == map["x" := x, "y" := y]
  {
    var keys := ["x", "y"];
    assert keys[..1] == ["x"] && keys[..1][..0] == [];
    assert BuildRecord(keys[..1], [x, y]) == map["x" := x];
  }

  /** The structured selector on one render: its dependencies are the two
      resolvers' values, and a run hands the combiner the record of them. */
  lemma XYRender(args: seq<Value>)
    ensures XY.Valid()
    ensures var sel := CreateStructuredSelector(XY, SumXY);
      && sel.dependencies(args) == [StateAtPath(args), StateB(args)]
      && BuildRecord(XY.keys, sel.dependencies(args)) == map["x" := StateAtPath(args), "y" := StateB(args)]
      && sel.compute(sel.dependencies(args)) == Plus(StateAtPath(args), StateB(args))
  {
    XYResolvers();
    StructuredParts(XY, SumXY, args);
    ResolvedPair(args);
    XYRecord(StateAtPath(args), StateB(args));
  }

  /** The records the structured test's combiner is handed on its three
      runs: {x: 2, y: 3}, {x: 10, y: 3} and {x: 10, y: 6}. */
  lemma StructuredSelectorTestRecords()
    ensures XY.Valid()
    ensures var sel := CreateStructuredSelector(XY, SumXY);
      && BuildRecord(XY.keys, sel.dependencies(StateRenders[0])) == map["x" := Num(2), "y" := Num(3)]
      && BuildRecord(XY.keys, sel.dependencies(StateRenders[2])) == map["x" := Num(10), "y" := Num(3)]
      && BuildRecord(XY.keys, sel.dependencies(StateRenders[4])) == map["x" := Num(10), "y" := Num(6)]
  {
    XYRender(StateRenders[0]);
    XYRender(StateRenders[2]);
    XYRender(StateRenders[4]);
  }

  /** The structured test's dependency lists are the state test's. */
  lemma XYLists()
    ensures XY.Valid()
    ensures DependencyLists(CreateStructuredSelector(XY, SumXY), StateRenders) == ExpectedLists
  {
    XYResolvers();
    var lists := DependencyLists(CreateStructuredSelector(XY, SumXY), StateRenders);
    forall i | 0 <= i < 5 ensures lists[i] == ExpectedLists[i] {
      XYRender(StateRenders[i]);
    }
  }

  /** `createStructuredSelector({ x: state[path], y: state.b }, ({ x, y }) => x + y)`
      over the five renders returns 5, 5, 13, 13, 16, with three combiner runs. */
  lemma CreateStructuredSelectorTest()
    ensures XY.Valid()
    ensures var o := Render(CreateStructuredSelector(XY, SumXY), None, StateRenders);
      o.results == [Num(5), Num(5), Num(13), Num(13), Num(16)] && o.calls == 3
  {
    XYResolvers();
    var sel := CreateStructuredSelector(XY, SumXY);
    XYLists();
    RenderSpec(sel, StateRenders);
    var o := Render(sel, None, StateRenders);
    forall i | 0 <= i < 5 ensures o.results[i] == Plus(ExpectedLists[i][0], ExpectedLists[i][1]) {
      XYRender(StateRenders[i]);
    }
    assert o.results == [Num(5), Num(5), Num(13), Num(13), Num(16)];
    ExpectedListsChanges();
  }
}
