/**
 Which probes give their depth back. Over a datum without anything inside, every probe does; over any
 other datum some schema does not let it. A graph without probes leaks nothing. And a run leaves the
 path slots only where the nesting of the document and what has leaked reach them together.
 */
module Leaks {
  import opened Values
  import opened Schema
  import opened Machine
  import opened Keywords
  import opened Laws
  import opened Addressing
  import opened Depth
  import opened Termination
  import opened Recursion
  import opened Simulation
  import opened Drift
  import opened Entry

  // ---------------------------------------------------------------------------------------
  // Data with nothing inside
  // ---------------------------------------------------------------------------------------

  /** No items and no members that validation looks at. */
  predicate IsFlat(data: Data) {
    && (data.Array? ==> data.items == [])
    && (data.Object? ==> forall i :: 0 <= i < |data.members| ==> data.members[i].0.Foreign?)
  }

  /** A step that stays at the datum. */
  ghost predicate IsStill(step: Step, data: Data) {
    !step.Place? && forall goal: Goal :: Starts(step, goal) ==> goal.1 == data
  }

  ghost predicate AllStill(steps: seq<Step>, data: Data) { forall s :: s in steps ==> IsStill(s, data) }

  lemma StillConcat(a: seq<Step>, b: seq<Step>, data: Data)
    requires AllStill(a, data) && AllStill(b, data)
    ensures AllStill(a + b, data)
  {
    assert forall s :: s in a + b ==> s in a || s in b;
  }

  lemma StillFive(a: seq<Step>, b: seq<Step>, c: seq<Step>, d: seq<Step>, e: seq<Step>, data: Data)
    requires AllStill(a, data) && AllStill(b, data) && AllStill(c, data) && AllStill(d, data) && AllStill(e, data)
    ensures AllStill(a + b + c + d + e, data)
  {
    StillConcat(a, b, data);
    StillConcat(a + b, c, data);
    StillConcat(a + b + c, d, data);
    StillConcat(a + b + c + d, e, data);
  }

  lemma PlainIsStill(steps: seq<Step>, data: Data)
    requires Plain(steps)
    ensures AllStill(steps, data)
  {
  }

  lemma ArrayStill(w: World, id: Address, data: Data)
    requires data.Array? && IsFlat(data)
    ensures AllStill(ArraySteps(w, id, data), data)
  {
    var node := w.nodes(id);
    var a := When(node.maxItems.Some? && |data.items| > AsLong(node.maxItems.value), id, data, "maxItems");
    var b := When(node.minItems.Some? && |data.items| < AsLong(node.minItems.value), id, data, "minItems");
    EmptyItems(node, data.items, data);
    EmptyContains(node, id, data);
    StillFive(a, b, Leaf(w, id, Unique, data, "uniqueItems"), ItemsSteps(node, data.items),
              ContainsSteps(node, id, data), data);
  }

  lemma EmptyItems(node: Node, items: seq<Data>, data: Data)
    requires items == []
    ensures AllStill(ItemsSteps(node, items), data)
  {
    assert ItemsSteps(node, items) == [] || ItemsSteps(node, items) == [Descend, Ascend];
  }

  lemma EmptyContains(node: Node, id: Address, data: Data)
    requires data.Array? && data.items == []
    ensures AllStill(ContainsSteps(node, id, data), data)
  {
  }

  lemma {:induction false} ForeignProperties(w: World, id: Address, members: seq<(Key, Data)>)
    requires forall i :: 0 <= i < |members| ==> members[i].0.Foreign?
    ensures PropertySteps(w, id, members) == []
    decreases |members|
  {
    if members != [] { ForeignProperties(w, id, members[..|members| - 1]); }
  }

  lemma {:induction false} DependenciesStill(data: Data, deps: seq<(Key, Address)>)
    requires data.Object?
    ensures AllStill(DependencySteps(data, deps), data)
    decreases |deps|
  {
    if deps != [] {
      var last := |deps| - 1;
      DependenciesStill(data, deps[..last]);
      var tail := if HasKey(data.members, deps[last].0) then [Call((deps[last].1, data))] else [];
      StillConcat(DependencySteps(data, deps[..last]), tail, data);
    }
  }

  lemma ObjectStill(w: World, id: Address, data: Data)
    requires data.Object? && IsFlat(data)
    ensures AllStill(ObjectSteps(w, id, data), data)
  {
    var node := w.nodes(id);
    var over := node.maxProperties.Some? && |data.members| > AsULong(node.maxProperties.value);
    var short := node.minProperties.Some? && |data.members| < AsULong(node.minProperties.value);
    var required := if node.required.Some? then RequiredSteps(id, data, node.required.value) else [];
    var dependencies := if node.dependencies.Some? then DependencySteps(data, node.dependencies.value) else [];
    if node.required.Some? { RequiredPlain(id, data, node.required.value); }
    if node.dependencies.Some? { DependenciesStill(data, node.dependencies.value); }
    ForeignProperties(w, id, data.members);
    assert Nested(PropertySteps(w, id, data.members)) == [Descend, Ascend];
    StillFive(When(over, id, data, "maxProperties"), When(short, id, data, "minProperties"), required, dependencies,
              Nested(PropertySteps(w, id, data.members)), data);
  }

  lemma KindsStill(w: World, id: Address, data: Data)
    requires IsFlat(data)
    ensures AllStill(IntegerSteps(w, id, data), data) && AllStill(NumberSteps(w, id, data), data)
    ensures AllStill(StringSteps(w, id, data), data) && AllStill(ArraySteps(w, id, data), data)
    ensures AllStill(ObjectSteps(w, id, data), data)
  {
    NumericPlain(w, id, data);
    PlainKinds(w, id, data);
    PlainIsStill(IntegerSteps(w, id, data), data);
    PlainIsStill(NumberSteps(w, id, data), data);
    PlainIsStill(StringSteps(w, id, data), data);
    if data.Array? { ArrayStill(w, id, data); } else { PlainIsStill(ArraySteps(w, id, data), data); }
    if data.Object? { ObjectStill(w, id, data); } else { PlainIsStill(ObjectSteps(w, id, data), data); }
  }

  lemma TypeStill(w: World, id: Address, data: Data)
    requires IsFlat(data)
    ensures AllStill(TypeSteps(w, id, data), data)
  {
    TypeCases(w, id, data);
    KindStill(w, id, data, TypeSteps(w, id, data));
  }

  lemma KindStill(w: World, id: Address, data: Data, steps: seq<Step>)
    requires IsFlat(data) && IsKind(w, id, data, steps)
    ensures AllStill(steps, data)
  {
    if IsShort(steps, data) { ShortStill(steps, data); } else { KindsStill(w, id, data); }
  }

  lemma ShortStill(steps: seq<Step>, data: Data)
    requires IsShort(steps, data)
    ensures AllStill(steps, data)
  {
  }

  lemma BranchesStill(node: Node, id: Address, data: Data)
    ensures AllStill(IfSteps(node, data), data) && AllStill(NotSteps(node, data), data)
    ensures AllStill(AllOfSteps(node, id, data), data) && AllStill(AnyOfSteps(node, id, data), data)
    ensures AllStill(OneOfSteps(node, id, data), data)
  {
  }

  lemma BodyStill(w: World, goal: Goal)
    requires IsFlat(goal.1)
    ensures AllStill(Body(w, goal), goal.1)
  {
    var (id, data) := goal;
    var node := w.nodes(id);
    if node.validation.ByKeywords? {
      TypeStill(w, id, data);
      BranchesStill(node, id, data);
      var c, e := Leaf(w, id, Const, data, "const"), Leaf(w, id, Enum, data, "enum");
      StillFive(TypeSteps(w, id, data), c, e, IfSteps(node, data), NotSteps(node, data), data);
      var first := TypeSteps(w, id, data) + c + e + IfSteps(node, data) + NotSteps(node, data);
      var x, y, z := AllOfSteps(node, id, data), AnyOfSteps(node, id, data), OneOfSteps(node, id, data);
      StillConcat(first, x, data);
      StillConcat(first + x, y, data);
      StillConcat(first + x + y, z, data);
    }
  }

  // ---------------------------------------------------------------------------------------
  // Runs that stay at a datum
  // ---------------------------------------------------------------------------------------

  /** Everything at the datum stays there. */
  ghost predicate KeepsStill(prog: Program, data: Data) {
    InPlace(prog) && forall id :: AllStill(prog.body((id, data)), data)
  }

  lemma EmitStill(problems: seq<Problem>, st: State)
    ensures var r := EmitAll(problems, st); r.state.context == st.context && r.state.leaked == st.leaked
    decreases |problems|
  {
    if problems != [] {
      var r := Emit(problems[0], st);
      if r.outcome.Finished? { EmitStill(problems[1..], r.state); }
    }
  }

  /** Such a run ends, or throws, where it should be, and leaks nothing. */
  lemma {:induction false} ExecStill(
    prog: Program, fuel: nat, steps: seq<Step>, data: Data, from: Position, to: Position, st: State)
    requires KeepsStill(prog, data) && Walks(prog, steps, data, from, to) && AllStill(steps, data) && !from.At?
    ensures var r := Exec(prog, fuel, steps, st);
      && (r.outcome.Finished? ==> Base(r.state, to) == Base(st, from) && r.state.leaked == st.leaked)
      && (r.outcome.Thrown? ==> r.state.context.depth == Base(st, from) && r.state.leaked == st.leaked)
    decreases fuel, 3, |steps|
  {
    if steps != [] {
      var next := Move(prog, steps[0], data, from).value;
      assert steps[0] in steps;
      StepStill(prog, fuel, steps[0], data, from, st);
      var r := ExecStep(prog, fuel, steps[0], st);
      if r.outcome.Finished? { ExecStill(prog, fuel, steps[1..], data, next, to, r.state); }
    }
  }

  lemma {:induction false} StepStill(prog: Program, fuel: nat, step: Step, data: Data, from: Position, st: State)
    requires KeepsStill(prog, data) && Move(prog, step, data, from).Some? && IsStill(step, data) && !from.At?
    ensures var r, to := ExecStep(prog, fuel, step, st), Move(prog, step, data, from).value;
      && !to.At?
      && (r.outcome.Finished? ==> Base(r.state, to) == Base(st, from) && r.state.leaked == st.leaked)
      && (r.outcome.Thrown? ==> r.state.context.depth == Base(st, from) && r.state.leaked == st.leaked)
    decreases fuel, 2, 0
  {
    match step
    case Report(problem) => EmitStill([problem], st);
    case Call(goal) =>
      assert Starts(step, goal);
      if fuel > 0 { ExecStill(prog, fuel - 1, prog.body(goal), data, Here, Here, st); }
    case Probe(goals, limit, combiner) => ProbeStill(prog, fuel, goals, limit, combiner, data, st);
    case _ =>
  }

  lemma {:induction false} ProbeStill(
    prog: Program, fuel: nat, goals: seq<Goal>, limit: nat, combiner: Combiner, data: Data, st: State)
    requires KeepsStill(prog, data) && IsStill(Probe(goals, limit, combiner), data)
    ensures var r := ExecStep(prog, fuel, Probe(goals, limit, combiner), st);
      r.outcome.Finished? || r.outcome.Thrown? ==>
        r.state.context.depth == st.context.depth && r.state.leaked == st.leaked
    decreases fuel, 1, |goals| + 1
  {
    forall g: Goal | g in goals ensures g.1 == data { assert Starts(Probe(goals, limit, combiner), g); }
    CountStill(prog, fuel, goals, limit, 0, data, st);
    var c := Count(prog, fuel, goals, limit, 0, st);
    if c.outcome.Finished? {
      match Next(combiner, c.count)
      case Reports(problems) => EmitStill(problems, c.state);
      case Then(goal, problem) =>
        assert NextStarts(combiner, c.count, goal) && Starts(Probe(goals, limit, combiner), goal);
        IsValidStill(prog, fuel, goal, data, c.state);
        var p := IsValid(prog, fuel, goal, c.state);
        if p.outcome.Finished? { EmitStill(if p.valid then [] else [problem], p.state); }
    }
  }

  lemma {:induction false} CountStill(
    prog: Program, fuel: nat, goals: seq<Goal>, limit: nat, count: nat, data: Data, st: State)
    requires KeepsStill(prog, data) && forall g: Goal :: g in goals ==> g.1 == data
    ensures var c := Count(prog, fuel, goals, limit, count, st);
      && !c.outcome.Thrown?
      && (c.outcome.Finished? ==> c.state.context.depth == st.context.depth && c.state.leaked == st.leaked)
    decreases fuel, 1, |goals|
  {
    if goals != [] && count != limit {
      IsValidStill(prog, fuel, goals[0], data, st);
      var p := IsValid(prog, fuel, goals[0], st);
      if p.outcome.Finished? {
        CountStill(prog, fuel, goals[1..], limit, if p.valid then count + 1 else count, data, p.state);
      }
    }
  }

  lemma {:induction false} IsValidStill(prog: Program, fuel: nat, goal: Goal, data: Data, st: State)
    requires KeepsStill(prog, data) && goal.1 == data
    ensures var p := IsValid(prog, fuel, goal, st);
      && !p.outcome.Thrown?
      && (p.outcome.Finished? ==> p.state.context.depth == st.context.depth && p.state.leaked == st.leaked)
    decreases fuel, 0, 0
  {
    if fuel > 0 { ExecStill(prog, fuel - 1, prog.body(goal), data, Here, Here, st.(quiet := true)); }
  }

  /** Every completed probe over a datum with nothing inside gives the depth back and leaks nothing. */
  lemma FlatRestores(w: World, fuel: nat, id: Address, data: Data, st: State)
    requires IsFlat(data) && IsValid(ProgramOf(w), fuel, (id, data), st).outcome.Finished?
    ensures var p := IsValid(ProgramOf(w), fuel, (id, data), st);
      p.state.context.depth == st.context.depth && p.state.leaked == st.leaked
  {
    KeywordsInPlace(w);
    forall id ensures AllStill(ProgramOf(w).body((id, data)), data) { BodyStill(w, (id, data)); }
    IsValidStill(ProgramOf(w), fuel, (id, data), data, st);
  }

  // ---------------------------------------------------------------------------------------
  // Data with something inside
  // ---------------------------------------------------------------------------------------

  /** `{"items": false, "additionalProperties": false}`, with every leaf check passing. */
  function Nothing(): World {
    World(
      id => if id == 0 then BARE.(itemsSchema := Some(1), additionalProperties := Some(1))
            else BARE.(validation := AlwaysFalse),
      (_, _, _) => Pass,
      (_, _) => false)
  }

  /** Down, to a slot, and into what nothing satisfies. */
  ghost predicate GoesIn(steps: seq<Step>, slot: Slot, inside: Data, rest: seq<Step>) {
    steps == [Descend, Place(slot), Call((1, inside))] + rest
  }

  lemma {:induction false} VisitsHead(targets: seq<Address>, items: seq<Data>, n: nat) returns (rest: seq<Step>)
    requires 0 < n <= |targets| && n <= |items|
    ensures Visits(targets, items, 0, n) == [Place(IndexSlot(0)), Call((targets[0], items[0]))] + rest
    decreases n
  {
    if n == 1 {
      assert Visits(targets, items, 0, 0) == [];
      rest := [];
    } else {
      rest := VisitsHead(targets, items, n - 1);
      rest := rest + [Place(IndexSlot(n - 1)), Call((targets[n - 1], items[n - 1]))];
    }
  }

  /** A node with no keywords but those of a type. */
  predicate IsTyped(w: World, id: Address, data: Data) {
    var node := w.nodes(id);
    && node.validation.ByKeywords? && node.typeCheck.ByDataType?
    && w.leaf(id, Const, data).Pass? && w.leaf(id, Enum, data).Pass? && w.leaf(id, Unique, data).Pass?
    && ProbesNothing(node)
    && node.maxItems.None? && node.minItems.None? && node.maxProperties.None? && node.minProperties.None?
    && node.required.None? && node.dependencies.None?
  }

  lemma TypeOnly(w: World, id: Address, data: Data)
    requires IsTyped(w, id, data)
    ensures Body(w, (id, data)) == DataTypeSteps(w, id, data)
  {
  }

  lemma ArrayOnly(w: World, id: Address, data: Data)
    requires IsTyped(w, id, data) && data.Array?
    ensures Body(w, (id, data)) == ItemsSteps(w.nodes(id), data.items)
  {
    TypeOnly(w, id, data);
    ItemsOnly(w, id, data);
  }

  lemma ItemsOnly(w: World, id: Address, data: Data)
    requires IsTyped(w, id, data) && data.Array?
    ensures ArraySteps(w, id, data) == ItemsSteps(w.nodes(id), data.items)
  {
  }

  lemma ObjectOnly(w: World, id: Address, data: Data)
    requires IsTyped(w, id, data) && data.Object?
    ensures Body(w, (id, data)) == Nested(PropertySteps(w, id, data.members))
  {
    TypeOnly(w, id, data);
    MembersOnly(w, id, data);
  }

  lemma MembersOnly(w: World, id: Address, data: Data)
    requires IsTyped(w, id, data) && data.Object?
    ensures ObjectSteps(w, id, data) == Nested(PropertySteps(w, id, data.members))
  {
  }

  lemma NamedMember(name: string, value: Data)
    ensures MemberSteps(Nothing(), 0, Name(name), value) == [Place(NameSlot(name)), Call((1, value))]
  {
  }

  lemma {:induction false} PropertiesHead(members: seq<(Key, Data)>)
    returns (slot: Slot, inside: Data, rest: seq<Step>)
    requires exists i :: 0 <= i < |members| && members[i].0.Name?
    ensures PropertySteps(Nothing(), 0, members) == [Place(slot), Call((1, inside))] + rest
    decreases |members|
  {
    var init, last := members[..|members| - 1], members[|members| - 1];
    if exists i :: 0 <= i < |init| && init[i].0.Name? {
      slot, inside, rest := PropertiesHead(init);
      rest := rest + MemberSteps(Nothing(), 0, last.0, last.1);
    } else {
      ForeignProperties(Nothing(), 0, init);
      NamedMember(last.0.name, last.1);
      slot, inside, rest := NameSlot(last.0.name), last.1, [];
    }
  }

  lemma ArrayGoesIn(items: seq<Data>) returns (rest: seq<Step>)
    requires items != []
    ensures GoesIn(ItemsSteps(Nothing().nodes(0), items), IndexSlot(0), items[0], rest)
  {
    var targets: seq<Address> := seq(|items|, _ => 1);
    rest := VisitsHead(targets, items, |items|);
    rest := rest + [Ascend];
  }

  lemma BodyGoesIn(data: Data) returns (slot: Slot, inside: Data, rest: seq<Step>)
    requires !IsFlat(data)
    ensures GoesIn(Body(Nothing(), (0, data)), slot, inside, rest)
  {
    assert IsTyped(Nothing(), 0, data);
    if data.Array? {
      ArrayOnly(Nothing(), 0, data);
      slot, inside := IndexSlot(0), data.items[0];
      rest := ArrayGoesIn(data.items);
    } else {
      ObjectOnly(Nothing(), 0, data);
      slot, inside, rest := PropertiesHead(data.members);
      rest := rest + [Ascend];
    }
  }

  /** Going in throws one level down. */
  lemma ThrowsInside(prog: Program, fuel: nat, steps: seq<Step>, slot: Slot, inside: Data, rest: seq<Step>, st: State)
    requires prog.body((1, inside)) == [Report(Problem(1, inside, "false_schema"))]
    requires GoesIn(steps, slot, inside, rest) && fuel > 0 && st.quiet
    requires 0 <= st.context.depth && st.context.depth + 1 < |st.context.path| == MAX_CONTEXT_DEPTH
    ensures var r := Exec(prog, fuel, steps, st);
      r.outcome.Thrown? && r.state.context.depth == st.context.depth + 1
  {
    var st1 := Deeper(st);
    var st2 := st1.(context := st1.context.(path := st1.context.path[st1.context.depth := slot]));
    var tail := [Place(slot), Call((1, inside))] + rest;
    assert steps[1..] == tail && tail[1..] == [Call((1, inside))] + rest;
    assert ExecStep(prog, fuel, steps[0], st) == Result(Finished, st1);
    assert ExecStep(prog, fuel, tail[0], st1) == Result(Finished, st2);
    var report := [Report(Problem(1, inside, "false_schema"))];
    assert ExecStep(prog, fuel - 1, report[0], st2) == Result(Thrown, st2);
    assert Exec(prog, fuel - 1, report, st2) == Result(Thrown, st2);
    assert ExecStep(prog, fuel, tail[1..][0], st2) == Result(Thrown, st2);
    assert Exec(prog, fuel, tail[1..], st2) == Result(Thrown, st2);
    assert Exec(prog, fuel, tail, st1) == Result(Thrown, st2);
  }

  ghost predicate Restores(w: World, fuel: nat, root: Address, data: Data) {
    var p := Valid(w, fuel, root, data);
    p.outcome.Finished? ==> p.state.context.depth == 0
  }

  /** Something inside is enough for some schema to keep a level. */
  lemma InsideLeaks(data: Data, fuel: nat)
    requires !IsFlat(data) && fuel > 0
    ensures var p := Valid(Nothing(), fuel, 0, data);
      p.outcome.Finished? && !p.valid && p.state.context.depth == 1
    ensures !Restores(Nothing(), fuel, 0, data)
  {
    var slot, inside, rest := BodyGoesIn(data);
    var prog := ProgramOf(Nothing());
    assert prog.body((1, inside)) == [Report(Problem(1, inside, "false_schema"))];
    ThrowsInside(prog, fuel, Body(Nothing(), (0, data)), slot, inside, rest, Fresh().(quiet := true));
  }

  /**
   All schemas give the depth back over a datum exactly when it has no items and no members under string
   keys: something that can be seen before the call.
   */
  lemma DepthRestored(data: Data)
    ensures (forall w, fuel: nat, root: Address :: Restores(w, fuel, root, data)) <==> IsFlat(data)
  {
    if IsFlat(data) {
      forall w, fuel: nat, root: Address ensures Restores(w, fuel, root, data) {
        if Valid(w, fuel, root, data).outcome.Finished? { FlatRestores(w, fuel + 1, root, data, Fresh()); }
      }
    } else {
      InsideLeaks(data, 1);
    }
  }

  // ---------------------------------------------------------------------------------------
  // Graphs without probes
  // ---------------------------------------------------------------------------------------

  /** None of the keywords that probe: `if` with a branch, `not`, the combinators and `contains`. */
  predicate ProbesNothing(node: Node) {
    && (node.ifSchema.None? || (node.thenSchema.None? && node.elseSchema.None?))
    && node.notSchema.None? && node.allOf.None? && node.anyOf.None? && node.oneOf.None? && node.contains.None?
  }

  ghost predicate NoProbes(steps: seq<Step>) { forall s :: s in steps ==> !s.Probe? }

  lemma {:induction false} VisitsProbeless(targets: seq<Address>, items: seq<Data>, from: nat, upTo: nat)
    requires upTo <= |targets| && upTo <= |items|
    ensures NoProbes(Visits(targets, items, from, upTo))
    decreases upTo
  {
    if from < upTo { VisitsProbeless(targets, items, from, upTo - 1); }
  }

  lemma ItemsProbeless(node: Node, items: seq<Data>)
    ensures NoProbes(ItemsSteps(node, items))
  {
    if node.itemsSchema.Some? {
      VisitsProbeless(seq(|items|, _ => node.itemsSchema.value), items, 0, |items|);
    } else if node.items.Some? {
      var tuple := node.items.value;
      VisitsProbeless(tuple, items, 0, Least(|tuple|, |items|));
      if |items| > |tuple| && node.additionalItems.Some? {
        VisitsProbeless(seq(|items|, _ => node.additionalItems.value), items, |tuple|, |items|);
      }
    }
  }

  lemma {:induction false} DependenciesProbeless(data: Data, deps: seq<(Key, Address)>)
    requires data.Object?
    ensures NoProbes(DependencySteps(data, deps))
    decreases |deps|
  {
    if deps != [] { DependenciesProbeless(data, deps[..|deps| - 1]); }
  }

  lemma {:induction false} MatchedProbeless(w: World, patterns: seq<(string, Address)>, name: string, value: Data)
    ensures NoProbes(MatchedSteps(w, patterns, name, value))
    decreases |patterns|
  {
    if patterns != [] { MatchedProbeless(w, patterns[..|patterns| - 1], name, value); }
  }

  lemma {:induction false} PropertiesProbeless(w: World, id: Address, members: seq<(Key, Data)>)
    ensures NoProbes(PropertySteps(w, id, members))
    decreases |members|
  {
    if members != [] {
      var last := members[|members| - 1];
      PropertiesProbeless(w, id, members[..|members| - 1]);
      if last.0.Name? { MatchedProbeless(w, Patterns(w.nodes(id)), last.0.name, last.1); }
    }
  }

  lemma KindsProbeless(w: World, id: Address, data: Data)
    requires w.nodes(id).contains.None?
    ensures NoProbes(IntegerSteps(w, id, data)) && NoProbes(NumberSteps(w, id, data))
    ensures NoProbes(StringSteps(w, id, data)) && NoProbes(ArraySteps(w, id, data))
    ensures NoProbes(ObjectSteps(w, id, data))
  {
    NumericPlain(w, id, data);
    PlainKinds(w, id, data);
    if data.Array? { ItemsProbeless(w.nodes(id), data.items); }
    if data.Object? { ObjectProbeless(w, id, data); }
  }

  lemma TypeProbeless(w: World, id: Address, data: Data)
    requires w.nodes(id).contains.None?
    ensures NoProbes(TypeSteps(w, id, data))
  {
    TypeCases(w, id, data);
    KindProbeless(w, id, data, TypeSteps(w, id, data));
  }

  lemma KindProbeless(w: World, id: Address, data: Data, steps: seq<Step>)
    requires w.nodes(id).contains.None? && IsKind(w, id, data, steps)
    ensures NoProbes(steps)
  {
    KindsProbeless(w, id, data);
  }

  lemma ObjectProbeless(w: World, id: Address, data: Data)
    requires data.Object?
    ensures NoProbes(ObjectSteps(w, id, data))
  {
    var node := w.nodes(id);
    var over := node.maxProperties.Some? && |data.members| > AsULong(node.maxProperties.value);
    var short := node.minProperties.Some? && |data.members| < AsULong(node.minProperties.value);
    var required := if node.required.Some? then RequiredSteps(id, data, node.required.value) else [];
    var dependencies := if node.dependencies.Some? then DependencySteps(data, node.dependencies.value) else [];
    if node.required.Some? { RequiredPlain(id, data, node.required.value); }
    if node.dependencies.Some? { DependenciesProbeless(data, node.dependencies.value); }
    PropertiesProbeless(w, id, data.members);
    ProbelessFive(When(over, id, data, "maxProperties"), When(short, id, data, "minProperties"), required,
                  dependencies, Nested(PropertySteps(w, id, data.members)));
  }

  lemma ProbelessFive(a: seq<Step>, b: seq<Step>, c: seq<Step>, d: seq<Step>, e: seq<Step>)
    requires NoProbes(a) && NoProbes(b) && NoProbes(c) && NoProbes(d) && NoProbes(e)
    ensures NoProbes(a + b + c + d + e)
  {
  }

  lemma BodyProbeless(w: World, goal: Goal)
    requires ProbesNothing(w.nodes(goal.0))
    ensures NoProbes(Body(w, goal))
  {
    if w.nodes(goal.0).validation.ByKeywords? { TypeProbeless(w, goal.0, goal.1); }
  }

  ghost predicate Unleaked(st: State, after: State) {
    && after.leaked == st.leaked && |st.events| <= |after.events|
    && forall k :: |st.events| <= k < |after.events| ==> after.events[k].leaked == st.leaked
  }

  lemma {:induction false} ExecProbeless(prog: Program, fuel: nat, steps: seq<Step>, st: State)
    requires NoProbes(steps) && forall goal :: NoProbes(prog.body(goal))
    ensures Unleaked(st, Exec(prog, fuel, steps, st).state)
    decreases fuel, |steps|
  {
    if steps != [] {
      assert steps[0] in steps;
      StepProbeless(prog, fuel, steps[0], st);
      StepDisciplined(prog, fuel, steps[0], st);
      var r := ExecStep(prog, fuel, steps[0], st);
      if r.outcome.Finished? {
        ExecProbeless(prog, fuel, steps[1..], r.state);
        ExecDisciplined(prog, fuel, steps[1..], r.state);
        UnleakedOn(st, r.state, Exec(prog, fuel, steps[1..], r.state).state);
      }
    }
  }

  lemma UnleakedOn(a: State, b: State, c: State)
    requires Unleaked(a, b) && Unleaked(b, c) && b.events <= c.events
    ensures Unleaked(a, c)
  {
    forall k | |a.events| <= k < |c.events| ensures c.events[k].leaked == a.leaked {
      if k < |b.events| { assert c.events[k] == b.events[k]; }
    }
  }

  lemma {:induction false} StepProbeless(prog: Program, fuel: nat, step: Step, st: State)
    requires !step.Probe? && forall goal :: NoProbes(prog.body(goal))
    ensures Unleaked(st, ExecStep(prog, fuel, step, st).state)
    decreases fuel, 0
  {
    if step.Call? && fuel > 0 { ExecProbeless(prog, fuel - 1, prog.body(step.goal), st); }
  }

  /** In a graph without probes nothing leaks, and every reported path leads to the reported datum. */
  lemma ProbelessPathsLead(w: World, fuel: nat, root: Address, data: Data)
    requires forall id :: ProbesNothing(w.nodes(id))
    ensures var r := Validate(w, fuel, root, data).state;
      && r.leaked == 0
      && forall k :: 0 <= k < |r.events| ==>
           var here := r.events[k].context;
           InSlots(here) && Leads(data, here.path[1..here.depth + 1], r.events[k].problem.data)
  {
    forall goal ensures NoProbes(ProgramOf(w).body(goal)) { BodyProbeless(w, goal); }
    BodyProbeless(w, (root, data));
    ExecProbeless(ProgramOf(w), fuel, Body(w, (root, data)), Fresh());
    var r := Validate(w, fuel, root, data).state;
    forall k | 0 <= k < |r.events|
      ensures var here := r.events[k].context;
        InSlots(here) && Leads(data, here.path[1..here.depth + 1], r.events[k].problem.data)
    {
      ErrorPathsLead(w, fuel, root, data, k);
    }
  }

  // ---------------------------------------------------------------------------------------
  // Leaving the slots
  // ---------------------------------------------------------------------------------------

  /** Goals that a step starts are about nothing higher than its datum. */
  ghost predicate Sinks(step: Step, data: Data) {
    forall goal: Goal :: Starts(step, goal) ==> Height(goal.1) <= Height(data)
  }

  ghost predicate AllSink(steps: seq<Step>, data: Data) { forall s :: s in steps ==> Sinks(s, data) }

  ghost predicate KeepsSinking(prog: Program) {
    InPlace(prog) && forall goal: Goal :: AllSink(prog.body(goal), goal.1)
  }

  /** Out of slots only where what is left of the document and what has leaked reach the end of them. */
  ghost predicate Reached(outcome: Outcome, after: State, level: int, height: nat) {
    outcome.OutOfSlots? ==> level + height + after.leaked + 1 >= MAX_CONTEXT_DEPTH
  }

  ghost function LevelOf(st: State, pos: Position): int { Base(st, pos) - st.leaked }

  lemma {:induction false} EmitReach(problems: seq<Problem>, st: State)
    requires Sound(st, Here)
    ensures !EmitAll(problems, st).outcome.OutOfSlots?
    decreases |problems|
  {
    if problems != [] {
      var r := Emit(problems[0], st);
      if r.outcome.Finished? { EmitReach(problems[1..], r.state); }
    }
  }

  lemma {:induction false} ExecReach(
    prog: Program, fuel: nat, steps: seq<Step>, data: Data, from: Position, to: Position, st: State)
    requires KeepsSinking(prog) && Walks(prog, steps, data, from, to) && AllSink(steps, data)
    requires Sound(st, from) && 0 <= st.leaked
    ensures var r := Exec(prog, fuel, steps, st); Reached(r.outcome, r.state, LevelOf(st, from), Height(data))
    decreases fuel, 3, |steps|
  {
    if steps != [] {
      var next := Move(prog, steps[0], data, from).value;
      assert steps[0] in steps;
      StepReach(prog, fuel, steps[0], data, from, st);
      StepKept(prog, fuel, steps[0], data, from, st);
      var r := ExecStep(prog, fuel, steps[0], st);
      if r.outcome.Finished? { ExecReach(prog, fuel, steps[1..], data, next, to, r.state); }
    }
  }

  lemma {:induction false} StepReach(prog: Program, fuel: nat, step: Step, data: Data, from: Position, st: State)
    requires KeepsSinking(prog) && Move(prog, step, data, from).Some? && Sinks(step, data)
    requires Sound(st, from) && 0 <= st.leaked
    ensures var r := ExecStep(prog, fuel, step, st); Reached(r.outcome, r.state, LevelOf(st, from), Height(data))
    decreases fuel, 2, 0
  {
    match step
    case Report(problem) => EmitReach([problem], st);
    case Call(goal) =>
      assert Starts(step, goal);
      if fuel > 0 { CallReach(prog, fuel, goal, data, from, st); }
    case Probe(goals, limit, combiner) => ProbeReach(prog, fuel, goals, limit, combiner, data, st);
    case _ =>
  }

  lemma {:induction false} CallReach(prog: Program, fuel: nat, goal: Goal, data: Data, from: Position, st: State)
    requires KeepsSinking(prog) && fuel > 0 && Sound(st, from) && 0 <= st.leaked
    requires (from.Here? && goal.1 == data) || (from.At? && Edge(data, from.slot, goal.1))
    ensures var r := Exec(prog, fuel - 1, prog.body(goal), st);
      Reached(r.outcome, r.state, LevelOf(st, from), Height(data))
    decreases fuel, 1, 0
  {
    assert Sound(st, Here);
    if from.At? { EdgeLower(data, from.slot, goal.1); }
    ExecReach(prog, fuel - 1, prog.body(goal), goal.1, Here, Here, st);
  }

  lemma {:induction false} ProbeReach(
    prog: Program, fuel: nat, goals: seq<Goal>, limit: nat, combiner: Combiner, data: Data, st: State)
    requires KeepsSinking(prog) && Sinks(Probe(goals, limit, combiner), data) && Sound(st, Here) && 0 <= st.leaked
    ensures var r := ExecStep(prog, fuel, Probe(goals, limit, combiner), st);
      Reached(r.outcome, r.state, LevelOf(st, Here), Height(data))
    decreases fuel, 1, |goals| + 1
  {
    forall g: Goal | g in goals ensures Height(g.1) <= Height(data) { assert Starts(Probe(goals, limit, combiner), g); }
    CountReach(prog, fuel, goals, limit, 0, data, st);
    CountKept(prog, fuel, goals, limit, 0, st);
    var c := Count(prog, fuel, goals, limit, 0, st);
    if c.outcome.Finished? {
      match Next(combiner, c.count)
      case Reports(problems) => EmitReach(problems, c.state);
      case Then(goal, problem) =>
        assert NextStarts(combiner, c.count, goal) && Starts(Probe(goals, limit, combiner), goal);
        IsValidReach(prog, fuel, goal, data, c.state);
        IsValidKept(prog, fuel, goal, c.state);
        var p := IsValid(prog, fuel, goal, c.state);
        if p.outcome.Finished? { EmitReach(if p.valid then [] else [problem], p.state); }
    }
  }

  lemma {:induction false} CountReach(
    prog: Program, fuel: nat, goals: seq<Goal>, limit: nat, count: nat, data: Data, st: State)
    requires KeepsSinking(prog) && Sound(st, Here) && 0 <= st.leaked
    requires forall g: Goal :: g in goals ==> Height(g.1) <= Height(data)
    ensures var c := Count(prog, fuel, goals, limit, count, st);
      Reached(c.outcome, c.state, LevelOf(st, Here), Height(data))
    decreases fuel, 1, |goals|
  {
    if goals != [] && count != limit {
      IsValidReach(prog, fuel, goals[0], data, st);
      IsValidKept(prog, fuel, goals[0], st);
      var p := IsValid(prog, fuel, goals[0], st);
      if p.outcome.Finished? {
        CountReach(prog, fuel, goals[1..], limit, if p.valid then count + 1 else count, data, p.state);
      }
    }
  }

  lemma {:induction false} IsValidReach(prog: Program, fuel: nat, goal: Goal, data: Data, st: State)
    requires KeepsSinking(prog) && Sound(st, Here) && 0 <= st.leaked && Height(goal.1) <= Height(data)
    ensures var p := IsValid(prog, fuel, goal, st);
      Reached(p.outcome, p.state, LevelOf(st, Here), Height(data))
    decreases fuel, 0, 0
  {
    if fuel > 0 { ExecReach(prog, fuel - 1, prog.body(goal), goal.1, Here, Here, st.(quiet := true)); }
  }

  lemma KeywordsSink(w: World)
    ensures KeepsSinking(ProgramOf(w))
  {
    KeywordsInPlace(w);
    forall goal: Goal ensures AllSink(ProgramOf(w).body(goal), goal.1) { BodyInward(w, goal); }
  }

  /**
   A run leaves the slots only on a document whose nesting, with the depth leaked by then, reaches the
   last of them.
   */
  lemma {:induction false} OnlyDeepOrLeaked(w: World, fuel: nat, root: Address, data: Data)
    ensures var loud := Validate(w, fuel, root, data);
      loud.outcome.OutOfSlots? ==> Height(data) + loud.state.leaked + 1 >= 1000
    ensures var quiet := Valid(w, fuel, root, data);
      quiet.outcome.OutOfSlots? ==> Height(data) + quiet.state.leaked + 1 >= 1000
  {
    LoudReach(w, fuel, root, data);
    QuietReach(w, fuel, root, data);
  }

  lemma {:induction false} LoudReach(w: World, fuel: nat, root: Address, data: Data)
    ensures var loud := Validate(w, fuel, root, data);
      loud.outcome.OutOfSlots? ==> Height(data) + loud.state.leaked + 1 >= 1000
  {
    FreshSound();
    KeywordsSink(w);
    BodyStays(w, (root, data));
    assert AllSink(ProgramOf(w).body((root, data)), data);
    ExecReach(ProgramOf(w), fuel, Body(w, (root, data)), data, Here, Here, Fresh());
  }

  lemma {:induction false} QuietReach(w: World, fuel: nat, root: Address, data: Data)
    ensures var quiet := Valid(w, fuel, root, data);
      quiet.outcome.OutOfSlots? ==> Height(data) + quiet.state.leaked + 1 >= 1000
  {
    FreshSound();
    KeywordsSink(w);
    IsValidReach(ProgramOf(w), fuel + 1, (root, data), data, Fresh());
  }

  /** So on a graph without probes a document leaves the slots only by its own nesting. */
  lemma ProbelessLeavesByNesting(w: World, fuel: nat, root: Address, data: Data)
    requires forall id :: ProbesNothing(w.nodes(id))
    ensures Validate(w, fuel, root, data).outcome.OutOfSlots? ==> Height(data) + 1 >= 1000
  {
    OnlyDeepOrLeaked(w, fuel, root, data);
    ProbelessPathsLead(w, fuel, root, data);
  }
}
