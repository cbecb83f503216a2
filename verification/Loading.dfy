/**
 Running a compiled schema. Validation reads the nodes of the graph that the compiler hands out, and
 no run leaves that graph, so no run meets a function field that was never assigned.
 */
module Loading {
  import opened Values
  import opened Schema
  import opened Machine
  import opened Keywords
  import opened Termination
  import opened Recursion
  import T = SchemaTree
  import B = Blueprint
  import R = RefResolver
  import S = SchemaCompiler
  import F = References

  // ---------------------------------------------------------------------------------------
  // From compiled nodes to the nodes of a run
  // ---------------------------------------------------------------------------------------

  type Pairs = seq<(string, Address)>

  function OneOf(links: B.Links, kw: T.Single): Option<Address> {
    if kw in links.ones then Some(links.ones[kw]) else None
  }

  function ManyOf(links: B.Links, kw: T.Listed): Option<seq<Address>> {
    if kw in links.lists then Some(links.lists[kw]) else None
  }

  function HashOf(links: B.Links, kw: T.Keyed): Option<Pairs> {
    if kw in links.hashes then Some(links.hashes[kw]) else None
  }

  /** A hash as a map. */
  function MapOf(pairs: Pairs): map<string, Address>
    decreases |pairs|
  {
    if pairs == [] then map[]
    else var last := pairs[|pairs| - 1]; MapOf(pairs[..|pairs| - 1])[last.0 := last.1]
  }

  function Keyed(pairs: Pairs): seq<(Key, Address)>
    decreases |pairs|
  {
    if pairs == [] then [] else Keyed(pairs[..|pairs| - 1]) + [(Name(pairs[|pairs| - 1].0), pairs[|pairs| - 1].1)]
  }

  /** The node a run reads: functions, reference and children from the graph, plain values as in `rest`. */
  function Loaded(node: B.Compiled, rest: Node): Node {
    var links, f := node.links, node.functions;
    var properties, dependencies := HashOf(links, T.Properties), HashOf(links, T.Dependencies);
    Node(
      if f.validation.Some? then f.validation.value else rest.validation,
      if node.refSchema.Some? then node.refSchema.value else rest.refSchema,
      if f.typeCheck.Some? then f.typeCheck.value else rest.typeCheck,
      f.typeFlags,
      OneOf(links, T.If), OneOf(links, T.Then), OneOf(links, T.Else), OneOf(links, T.Not),
      ManyOf(links, T.AllOf), ManyOf(links, T.AnyOf), ManyOf(links, T.OneOf),
      rest.formatKey, rest.maxLength, rest.minLength,
      OneOf(links, T.Items), ManyOf(links, T.ItemsList), OneOf(links, T.AdditionalItems), OneOf(links, T.Contains),
      rest.maxItems, rest.minItems, rest.maxContains, rest.minContains,
      if properties.Some? then Some(MapOf(properties.value)) else None,
      HashOf(links, T.PatternProperties),
      OneOf(links, T.PropertyNames), OneOf(links, T.AdditionalProperties),
      rest.maxProperties, rest.minProperties, rest.required,
      if dependencies.Some? then Some(Keyed(dependencies.value)) else None)
  }

  /** The world has the nodes of the graph. */
  ghost predicate Loads(w: World, nodes: seq<B.Compiled>) {
    forall i: Address :: i < |nodes| ==> w.nodes(i) == Loaded(nodes[i], w.nodes(i))
  }

  /** Every node of the graph is safe to run. */
  ghost predicate AllSafe(nodes: seq<B.Compiled>) {
    forall i :: 0 <= i < |nodes| ==> S.IsSafe(nodes, nodes[i])
  }

  lemma {:induction false} MapHolds(pairs: Pairs, name: string)
    requires name in MapOf(pairs)
    ensures MapOf(pairs)[name] in R.Seconds(pairs)
    decreases |pairs|
  {
    var last := pairs[|pairs| - 1];
    if name != last.0 { MapHolds(pairs[..|pairs| - 1], name); }
  }

  lemma {:induction false} PairHolds(pairs: Pairs, p: (string, Address))
    requires p in pairs
    ensures p.1 in R.Seconds(pairs)
    decreases |pairs|
  {
    if p != pairs[|pairs| - 1] { PairHolds(pairs[..|pairs| - 1], p); }
  }

  lemma {:induction false} KeyedHolds(pairs: Pairs, d: (Key, Address))
    requires d in Keyed(pairs)
    ensures d.1 in R.Seconds(pairs)
    decreases |pairs|
  {
    var last := pairs[|pairs| - 1];
    if d != (Name(last.0), last.1) { KeyedHolds(pairs[..|pairs| - 1], d); }
  }

  ghost predicate InField(links: B.Links, target: Address) {
    exists g :: target in R.FieldOf(links, g)
  }

  lemma DownInField(node: B.Compiled, rest: Node, target: Address)
    requires DownEdge(Loaded(node, rest), target)
    ensures InField(node.links, target)
  {
    var loaded := Loaded(node, rest);
    if Some(target) in {loaded.itemsSchema, loaded.additionalItems, loaded.contains} {
      var kw := if loaded.itemsSchema == Some(target) then T.Items
                else if loaded.contains == Some(target) then T.Contains else T.AdditionalItems;
      assert target in R.FieldOf(node.links, T.One(kw));
    } else if Some(target) in {loaded.propertyNames, loaded.additionalProperties} {
      var kw := if loaded.propertyNames == Some(target) then T.PropertyNames else T.AdditionalProperties;
      assert target in R.FieldOf(node.links, T.One(kw));
    } else if loaded.items.Some? && target in loaded.items.value {
      assert target in R.FieldOf(node.links, T.Many(T.ItemsList));
    } else if loaded.properties.Some? && target in loaded.properties.value.Values {
      var name :| name in loaded.properties.value && loaded.properties.value[name] == target;
      MapHolds(node.links.hashes[T.Properties], name);
      assert target in R.FieldOf(node.links, T.Named(T.Properties));
    } else {
      var p :| p in loaded.patternProperties.value && p.1 == target;
      PairHolds(node.links.hashes[T.PatternProperties], p);
      assert target in R.FieldOf(node.links, T.Named(T.PatternProperties));
    }
  }

  lemma InPlaceInField(node: B.Compiled, rest: Node, target: Address)
    requires InPlaceEdge(Loaded(node, rest), target) && node.functions.validation == Some(ByKeywords)
    ensures InField(node.links, target)
  {
    var loaded := Loaded(node, rest);
    if Some(target) in {loaded.ifSchema, loaded.thenSchema, loaded.elseSchema, loaded.notSchema} {
      var kw := if loaded.ifSchema == Some(target) then T.If else if loaded.thenSchema == Some(target) then T.Then
                else if loaded.elseSchema == Some(target) then T.Else else T.Not;
      assert target in R.FieldOf(node.links, T.One(kw));
    } else if loaded.allOf.Some? && target in loaded.allOf.value {
      assert target in R.FieldOf(node.links, T.Many(T.AllOf));
    } else if loaded.anyOf.Some? && target in loaded.anyOf.value {
      assert target in R.FieldOf(node.links, T.Many(T.AnyOf));
    } else if loaded.oneOf.Some? && target in loaded.oneOf.value {
      assert target in R.FieldOf(node.links, T.Many(T.OneOf));
    } else {
      var d :| d in loaded.dependencies.value && d.1 == target;
      KeyedHolds(node.links.hashes[T.Dependencies], d);
      assert target in R.FieldOf(node.links, T.Named(T.Dependencies));
    }
  }

  /** Edges of a safe node stay in the graph. */
  lemma EdgesInside(nodes: seq<B.Compiled>, node: B.Compiled, rest: Node, target: Address)
    requires S.IsSafe(nodes, node)
    requires InPlaceEdge(Loaded(node, rest), target) || DownEdge(Loaded(node, rest), target)
    ensures target < |nodes|
  {
    if DownEdge(Loaded(node, rest), target) {
      DownInField(node, rest, target);
    } else if node.functions.validation == Some(ByKeywords) {
      InPlaceInField(node, rest, target);
    }
  }

  // ---------------------------------------------------------------------------------------
  // Programs that agree within a graph
  // ---------------------------------------------------------------------------------------

  ghost predicate StaysInside(step: Step, n: nat) {
    forall goal: Goal :: Starts(step, goal) ==> goal.0 < n
  }

  ghost predicate AllInside(steps: seq<Step>, n: nat) {
    forall s :: s in steps ==> StaysInside(s, n)
  }

  ghost predicate AgreesOn(p: Program, q: Program, n: nat, goal: Goal) {
    goal.0 < n ==> p.body(goal) == q.body(goal) && AllInside(p.body(goal), n)
  }

  ghost predicate Agree(p: Program, q: Program, n: nat) {
    forall goal: Goal :: AgreesOn(p, q, n, goal)
  }

  lemma {:induction false} ExecAgrees(p: Program, q: Program, n: nat, fuel: nat, steps: seq<Step>, st: State)
    requires Agree(p, q, n) && AllInside(steps, n)
    ensures Exec(p, fuel, steps, st) == Exec(q, fuel, steps, st)
    decreases fuel, 3, |steps|
  {
    if steps != [] {
      assert steps[0] in steps;
      StepAgrees(p, q, n, fuel, steps[0], st);
      var r := ExecStep(p, fuel, steps[0], st);
      if r.outcome.Finished? { ExecAgrees(p, q, n, fuel, steps[1..], r.state); }
    }
  }

  lemma {:induction false} StepAgrees(p: Program, q: Program, n: nat, fuel: nat, step: Step, st: State)
    requires Agree(p, q, n) && StaysInside(step, n)
    ensures ExecStep(p, fuel, step, st) == ExecStep(q, fuel, step, st)
    decreases fuel, 2, 0
  {
    match step
    case Call(goal) =>
      assert Starts(step, goal) && AgreesOn(p, q, n, goal);
      if fuel > 0 { ExecAgrees(p, q, n, fuel - 1, p.body(goal), st); }
    case Probe(goals, limit, combiner) =>
      assert forall g :: g in goals ==> Starts(step, g);
      CountAgrees(p, q, n, fuel, goals, limit, 0, st);
      var c := Count(p, fuel, goals, limit, 0, st);
      if c.outcome.Finished? {
        match Next(combiner, c.count)
        case Reports(_) =>
        case Then(goal, _) =>
          assert NextStarts(combiner, c.count, goal) && Starts(step, goal);
          IsValidAgrees(p, q, n, fuel, goal, c.state);
      }
    case _ =>
  }

  lemma {:induction false} CountAgrees(
    p: Program, q: Program, n: nat, fuel: nat, goals: seq<Goal>, limit: nat, count: nat, st: State)
    requires Agree(p, q, n) && forall g :: g in goals ==> g.0 < n
    ensures Count(p, fuel, goals, limit, count, st) == Count(q, fuel, goals, limit, count, st)
    decreases fuel, 1, |goals|
  {
    if goals != [] && count != limit {
      IsValidAgrees(p, q, n, fuel, goals[0], st);
      var r := IsValid(p, fuel, goals[0], st);
      if r.outcome.Finished? {
        CountAgrees(p, q, n, fuel, goals[1..], limit, if r.valid then count + 1 else count, r.state);
      }
    }
  }

  lemma {:induction false} IsValidAgrees(p: Program, q: Program, n: nat, fuel: nat, goal: Goal, st: State)
    requires Agree(p, q, n) && goal.0 < n
    ensures IsValid(p, fuel, goal, st) == IsValid(q, fuel, goal, st)
    decreases fuel, 0, 0
  {
    assert AgreesOn(p, q, n, goal);
    if fuel > 0 { ExecAgrees(p, q, n, fuel - 1, p.body(goal), st.(quiet := true)); }
  }

  // ---------------------------------------------------------------------------------------
  // Worlds that agree within a graph
  // ---------------------------------------------------------------------------------------

  /** The worlds have the same node at `id` and the same given checks. */
  ghost predicate Same(v: World, w: World, id: Address) {
    v.nodes(id) == w.nodes(id) && v.leaf == w.leaf && v.matches == w.matches
  }

  lemma {:induction false} SameMatched(v: World, w: World, patterns: Pairs, name: string, value: Data)
    requires v.matches == w.matches
    ensures MatchedSteps(v, patterns, name, value) == MatchedSteps(w, patterns, name, value)
    ensures Matched(v, patterns, name) == Matched(w, patterns, name)
    decreases |patterns|
  {
    if patterns != [] { SameMatched(v, w, patterns[..|patterns| - 1], name, value); }
  }

  lemma {:induction false} SameProperties(v: World, w: World, id: Address, members: seq<(Key, Data)>)
    requires Same(v, w, id)
    ensures PropertySteps(v, id, members) == PropertySteps(w, id, members)
    decreases |members|
  {
    if members != [] {
      var last := |members| - 1;
      SameProperties(v, w, id, members[..last]);
      if members[last].0.Name? {
        SameMatched(v, w, Patterns(v.nodes(id)), members[last].0.name, members[last].1);
      }
    }
  }

  lemma SameNumbers(v: World, w: World, id: Address, data: Data)
    requires Same(v, w, id)
    ensures IntegerSteps(v, id, data) == IntegerSteps(w, id, data)
            && NumberSteps(v, id, data) == NumberSteps(w, id, data)
  {
  }

  lemma SameArrays(v: World, w: World, id: Address, data: Data)
    requires Same(v, w, id)
    ensures StringSteps(v, id, data) == StringSteps(w, id, data) && ArraySteps(v, id, data) == ArraySteps(w, id, data)
  {
  }

  lemma SameObjects(v: World, w: World, id: Address, data: Data)
    requires Same(v, w, id)
    ensures ObjectSteps(v, id, data) == ObjectSteps(w, id, data)
  {
    if data.Object? { SameProperties(v, w, id, data.members); }
  }

  lemma SameType(v: World, w: World, id: Address, data: Data)
    requires Same(v, w, id)
    ensures TypeSteps(v, id, data) == TypeSteps(w, id, data)
  {
    SameNumbers(v, w, id, data);
    SameArrays(v, w, id, data);
    SameObjects(v, w, id, data);
  }

  lemma SameBody(v: World, w: World, goal: Goal)
    requires Same(v, w, goal.0)
    ensures Body(v, goal) == Body(w, goal)
  {
    SameType(v, w, goal.0, goal.1);
  }

  // ---------------------------------------------------------------------------------------
  // Runs stay inside
  // ---------------------------------------------------------------------------------------

  lemma BodyInside(w: World, nodes: seq<B.Compiled>, goal: Goal)
    requires Loads(w, nodes) && AllSafe(nodes) && goal.0 < |nodes|
    ensures AllInside(Body(w, goal), |nodes|)
  {
    var node := w.nodes(goal.0);
    BodyInward(w, goal);
    forall s, g: Goal | s in Body(w, goal) && Starts(s, g) ensures g.0 < |nodes| {
      assert Inward(node, goal.1, g);
      assert node == Loaded(nodes[goal.0], node);
      EdgesInside(nodes, nodes[goal.0], node, g.0);
    }
  }

  /** Whatever lies outside a graph of safe nodes, no run that starts inside reads it. */
  lemma RunsStayInside(v: World, w: World, nodes: seq<B.Compiled>, fuel: nat, root: Address, data: Data)
    requires Loads(v, nodes) && AllSafe(nodes) && root < |nodes|
    requires forall i: Address :: i < |nodes| ==> Same(v, w, i)
    ensures Validate(v, fuel, root, data) == Validate(w, fuel, root, data)
    ensures Valid(v, fuel, root, data) == Valid(w, fuel, root, data)
  {
    var p, q := ProgramOf(v), ProgramOf(w);
    forall goal: Goal ensures AgreesOn(p, q, |nodes|, goal) {
      if goal.0 < |nodes| {
        BodyInside(v, nodes, goal);
        SameBody(v, w, goal);
      }
    }
    assert AgreesOn(p, q, |nodes|, (root, data));
    ExecAgrees(p, q, |nodes|, fuel, p.body((root, data)), Fresh());
    IsValidAgrees(p, q, |nodes|, fuel + 1, (root, data), Fresh());
  }

  /** So it is for what the compiler hands out: all nodes are safe, and runs from its root stay inside. */
  lemma CompiledRuns(
    work: B.Work, lib: B.Library, schema: Data, nodes: seq<B.Compiled>, v: World, w: World, fuel: nat, data: Data)
    requires B.IsWork(work, lib)
    requires var all, refs := F.NodesOf(work, schema), F.RefsOf(work, schema);
      R.NoneUnresolved(lib, refs, all, 0, |all|) && R.BoundIn(lib, refs, all, nodes, 0, |all|)
    requires Loads(v, nodes) && forall i: Address :: i < |nodes| ==> Same(v, w, i)
    ensures AllSafe(nodes)
    ensures Validate(v, fuel, 0, data) == Validate(w, fuel, 0, data)
            && Valid(v, fuel, 0, data) == Valid(w, fuel, 0, data)
  {
    forall i | 0 <= i < |nodes| ensures S.IsSafe(nodes, nodes[i]) {
      S.CompiledIsSafe(work, lib, schema, nodes, i);
    }
    F.NodeFirst(work, lib, F.WholeSchema(schema), F.TOP, 0);
    RunsStayInside(v, w, nodes, fuel, 0, data);
  }
}
