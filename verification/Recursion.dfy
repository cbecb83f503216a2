/**
 Recursive schemas. Edges that stay on the same datum (`$ref`, `if`/`then`/`else`, `not`, the
 combinators, `dependencies`) are in place; all others go to a smaller datum. If the in-place edges
 can be ranked, validation of every finite datum ends; a cycle of `$ref`s never does.
 */
module Recursion {
  import opened Values
  import opened Schema
  import opened Machine
  import opened Keywords
  import opened Draft7
  import opened Termination

  // ---------------------------------------------------------------------------------------
  // The measure
  // ---------------------------------------------------------------------------------------

  ghost predicate InPlaceEdge(node: Node, target: Address) {
    match node.validation
    case ByRef => target == node.refSchema
    case ByKeywords =>
      || Some(target) in {node.ifSchema, node.thenSchema, node.elseSchema, node.notSchema}
      || (node.allOf.Some? && target in node.allOf.value)
      || (node.anyOf.Some? && target in node.anyOf.value)
      || (node.oneOf.Some? && target in node.oneOf.value)
      || (node.dependencies.Some? && exists d :: d in node.dependencies.value && d.1 == target)
    case _ => false
  }

  /** Edges to what validates items, members or names. */
  ghost predicate DownEdge(node: Node, target: Address) {
    || Some(target) in {node.itemsSchema, node.additionalItems, node.contains}
    || Some(target) in {node.propertyNames, node.additionalProperties}
    || (node.items.Some? && target in node.items.value)
    || (node.properties.Some? && exists name :: name in node.properties.value && node.properties.value[name] == target)
    || (node.patternProperties.Some? && exists p :: p in node.patternProperties.value && p.1 == target)
  }

  /** The in-place edges form no cycle: every one of them lowers the rank. */
  ghost predicate Ranked(w: World, rank: Address -> nat, top: nat) {
    && (forall id :: rank(id) <= top)
    && (forall id, target :: InPlaceEdge(w.nodes(id), target) ==> rank(target) < rank(id))
  }

  function Measure(rank: Address -> nat, top: nat, goal: Goal): nat {
    Height(goal.1) * (top + 1) + rank(goal.0)
  }

  // ---------------------------------------------------------------------------------------
  // Every started goal is in place or inside
  // ---------------------------------------------------------------------------------------

  ghost predicate Inward(node: Node, data: Data, goal: Goal) {
    (goal.1 == data && InPlaceEdge(node, goal.0)) || (Height(goal.1) < Height(data) && DownEdge(node, goal.0))
  }

  ghost predicate AllInward(node: Node, data: Data, steps: seq<Step>) {
    forall s, goal :: s in steps && Starts(s, goal) ==> Inward(node, data, goal)
  }

  lemma InwardConcat(node: Node, data: Data, a: seq<Step>, b: seq<Step>)
    requires AllInward(node, data, a) && AllInward(node, data, b)
    ensures AllInward(node, data, a + b)
  {
    assert forall s :: s in a + b ==> s in a || s in b;
  }

  lemma InwardFive(node: Node, data: Data, a: seq<Step>, b: seq<Step>, c: seq<Step>, d: seq<Step>, e: seq<Step>)
    requires AllInward(node, data, a) && AllInward(node, data, b) && AllInward(node, data, c)
    requires AllInward(node, data, d) && AllInward(node, data, e)
    ensures AllInward(node, data, a + b + c + d + e)
  {
    InwardConcat(node, data, a, b);
    InwardConcat(node, data, a + b, c);
    InwardConcat(node, data, a + b + c, d);
    InwardConcat(node, data, a + b + c + d, e);
  }

  /** Steps that start nothing are no obstacle. */
  ghost predicate Plain(steps: seq<Step>) {
    forall s :: s in steps ==> s.Report? || s.Crash?
  }

  lemma NestedInward(node: Node, data: Data, steps: seq<Step>)
    requires AllInward(node, data, steps)
    ensures AllInward(node, data, Nested(steps))
  {
    InwardConcat(node, data, [Descend], steps);
    InwardConcat(node, data, [Descend] + steps, [Ascend]);
  }

  lemma {:induction false} VisitsInward(node: Node, targets: seq<Address>, data: Data, from: nat, upTo: nat)
    requires data.Array? && upTo <= |targets| && upTo <= |data.items|
    requires forall i :: 0 <= i < upTo ==> DownEdge(node, targets[i])
    ensures AllInward(node, data, Visits(targets, data.items, from, upTo))
    decreases upTo
  {
    if from < upTo {
      VisitsInward(node, targets, data, from, upTo - 1);
      ItemLower(data.items, upTo - 1);
      InwardConcat(node, data, Visits(targets, data.items, from, upTo - 1),
                   [Place(IndexSlot(upTo - 1)), Call((targets[upTo - 1], data.items[upTo - 1]))]);
    }
  }

  lemma ItemsInward(node: Node, data: Data)
    requires data.Array?
    ensures AllInward(node, data, ItemsSteps(node, data.items))
  {
    var items := data.items;
    if node.itemsSchema.Some? {
      var targets := seq(|items|, _ => node.itemsSchema.value);
      VisitsInward(node, targets, data, 0, |items|);
      NestedInward(node, data, Visits(targets, items, 0, |items|));
    } else if node.items.Some? {
      var targets := node.items.value;
      var upper := Least(|targets|, |items|);
      VisitsInward(node, targets, data, 0, upper);
      NestedInward(node, data, Visits(targets, items, 0, upper));
      if |items| > |targets| && node.additionalItems.Some? {
        var more := seq(|items|, _ => node.additionalItems.value);
        VisitsInward(node, more, data, |targets|, |items|);
        NestedInward(node, data, Visits(more, items, |targets|, |items|));
        InwardConcat(node, data, TupleSteps(targets, items),
                     AdditionalItemsSteps(node.additionalItems.value, |targets|, items));
      } else {
        InwardConcat(node, data, TupleSteps(targets, items), []);
      }
    }
  }

  lemma ContainsInward(node: Node, id: Address, data: Data)
    requires data.Array?
    ensures AllInward(node, data, ContainsSteps(node, id, data))
  {
    if node.contains.Some? {
      forall i | 0 <= i < |data.items| ensures Height(data.items[i]) < Height(data) {
        ItemLower(data.items, i);
      }
    }
  }

  lemma ArrayInward(w: World, id: Address, data: Data)
    requires data.Array?
    ensures AllInward(w.nodes(id), data, ArraySteps(w, id, data))
  {
    var node := w.nodes(id);
    ItemsInward(node, data);
    ContainsInward(node, id, data);
    InwardFive(node, data,
               When(node.maxItems.Some? && |data.items| > AsLong(node.maxItems.value), id, data, "maxItems"),
               When(node.minItems.Some? && |data.items| < AsLong(node.minItems.value), id, data, "minItems"),
               Leaf(w, id, Unique, data, "uniqueItems"),
               ItemsSteps(node, data.items), ContainsSteps(node, id, data));
  }

  lemma {:induction false} RequiredPlain(id: Address, data: Data, required: seq<Key>)
    requires data.Object?
    ensures Plain(RequiredSteps(id, data, required))
    decreases |required|
  {
    if required != [] { RequiredPlain(id, data, required[..|required| - 1]); }
  }

  lemma {:induction false} DependenciesInward(node: Node, data: Data, deps: seq<(Key, Address)>)
    requires data.Object? && forall d :: d in deps ==> InPlaceEdge(node, d.1)
    ensures AllInward(node, data, DependencySteps(data, deps))
    decreases |deps|
  {
    if deps != [] {
      var last := |deps| - 1;
      DependenciesInward(node, data, deps[..last]);
      var tail := if HasKey(data.members, deps[last].0) then [Call((deps[last].1, data))] else [];
      assert InPlaceEdge(node, deps[last].1);
      InwardConcat(node, data, DependencySteps(data, deps[..last]), tail);
    }
  }

  /** Only calls on a value or a name under an object, which are lower than it. */
  ghost predicate Lower(node: Node, steps: seq<Step>, bound: nat) {
    forall s :: s in steps ==> (s.Call? && Height(s.goal.1) <= bound && DownEdge(node, s.goal.0)) || s.Place?
  }

  lemma {:induction false} MatchedLower(
    w: World, node: Node, patterns: seq<(string, Address)>, name: string, value: Data, bound: nat)
    requires Height(value) <= bound && forall p :: p in patterns ==> DownEdge(node, p.1)
    ensures Lower(node, MatchedSteps(w, patterns, name, value), bound)
    decreases |patterns|
  {
    if patterns != [] { MatchedLower(w, node, patterns[..|patterns| - 1], name, value, bound); }
  }

  lemma LowerConcat(node: Node, a: seq<Step>, b: seq<Step>, bound: nat)
    requires Lower(node, a, bound) && Lower(node, b, bound)
    ensures Lower(node, a + b, bound)
  {
    assert forall s :: s in a + b ==> s in a || s in b;
  }

  lemma OwnLower(w: World, node: Node, name: string, value: Data, bound: nat)
    requires Height(value) <= bound
    ensures Lower(node, NameSteps(node, name), bound) && Lower(node, NamedSteps(node, name, value), bound)
    ensures Lower(node, AdditionalSteps(w, node, name, value), bound)
  {
  }

  lemma MemberStepsLower(w: World, id: Address, key: Key, value: Data, bound: nat)
    requires Height(value) <= bound
    ensures Lower(w.nodes(id), MemberSteps(w, id, key, value), bound)
  {
    if key.Name? {
      var node := w.nodes(id);
      var names, named := NameSteps(node, key.name), NamedSteps(node, key.name, value);
      var matched, more := MatchedSteps(w, Patterns(node), key.name, value), AdditionalSteps(w, node, key.name, value);
      OwnLower(w, node, key.name, value, bound);
      MatchedLower(w, node, Patterns(node), key.name, value, bound);
      LowerConcat(node, [Place(NameSlot(key.name))], names, bound);
      LowerConcat(node, [Place(NameSlot(key.name))] + names, named, bound);
      LowerConcat(node, [Place(NameSlot(key.name))] + names + named, matched, bound);
      LowerConcat(node, [Place(NameSlot(key.name))] + names + named + matched, more, bound);
    }
  }

  lemma {:induction false} PropertiesLower(w: World, id: Address, members: seq<(Key, Data)>, bound: nat)
    requires forall i :: 0 <= i < |members| ==> Height(members[i].1) <= bound
    ensures Lower(w.nodes(id), PropertySteps(w, id, members), bound)
    decreases |members|
  {
    if members != [] {
      var last := |members| - 1;
      PropertiesLower(w, id, members[..last], bound);
      MemberStepsLower(w, id, members[last].0, members[last].1, bound);
    }
  }

  lemma ObjectInward(w: World, id: Address, data: Data)
    requires data.Object? && w.nodes(id).validation.ByKeywords?
    ensures AllInward(w.nodes(id), data, ObjectSteps(w, id, data))
  {
    var node := w.nodes(id);
    var required := if node.required.Some? then RequiredSteps(id, data, node.required.value) else [];
    var dependencies := if node.dependencies.Some? then DependencySteps(data, node.dependencies.value) else [];
    if node.required.Some? { RequiredPlain(id, data, node.required.value); }
    if node.dependencies.Some? { DependenciesInward(node, data, node.dependencies.value); }
    forall i | 0 <= i < |data.members| ensures Height(data.members[i].1) <= MembersHeight(data.members) {
      MemberLower(data.members, i);
    }
    PropertiesLower(w, id, data.members, MembersHeight(data.members));
    NestedInward(node, data, PropertySteps(w, id, data.members));
    InwardFive(node, data,
               When(node.maxProperties.Some? && |data.members| > AsULong(node.maxProperties.value), id, data,
                 "maxProperties"),
               When(node.minProperties.Some? && |data.members| < AsULong(node.minProperties.value), id, data,
                 "minProperties"),
               required, dependencies, Nested(PropertySteps(w, id, data.members)));
  }

  lemma TypeInward(w: World, id: Address, data: Data)
    requires w.nodes(id).validation.ByKeywords?
    ensures AllInward(w.nodes(id), data, TypeSteps(w, id, data))
  {
    TypeCases(w, id, data);
    KindInward(w, id, data, TypeSteps(w, id, data));
  }

  lemma KindInward(w: World, id: Address, data: Data, steps: seq<Step>)
    requires w.nodes(id).validation.ByKeywords? && IsKind(w, id, data, steps)
    ensures AllInward(w.nodes(id), data, steps)
  {
    KindsInward(w, id, data);
    if IsShort(steps, data) { PlainInward(w.nodes(id), data, steps); }
  }

  lemma KindsInward(w: World, id: Address, data: Data)
    requires w.nodes(id).validation.ByKeywords?
    ensures AllInward(w.nodes(id), data, IntegerSteps(w, id, data))
    ensures AllInward(w.nodes(id), data, NumberSteps(w, id, data))
    ensures AllInward(w.nodes(id), data, StringSteps(w, id, data))
    ensures AllInward(w.nodes(id), data, ArraySteps(w, id, data))
    ensures AllInward(w.nodes(id), data, ObjectSteps(w, id, data))
  {
    NumericPlain(w, id, data);
    PlainKinds(w, id, data);
    PlainInward(w.nodes(id), data, IntegerSteps(w, id, data));
    PlainInward(w.nodes(id), data, NumberSteps(w, id, data));
    PlainInward(w.nodes(id), data, StringSteps(w, id, data));
    if data.Array? { ArrayInward(w, id, data); } else { PlainInward(w.nodes(id), data, ArraySteps(w, id, data)); }
    if data.Object? { ObjectInward(w, id, data); } else { PlainInward(w.nodes(id), data, ObjectSteps(w, id, data)); }
  }

  lemma PlainInward(node: Node, data: Data, steps: seq<Step>)
    requires Plain(steps)
    ensures AllInward(node, data, steps)
  {
  }

  lemma PlainFive(a: seq<Step>, b: seq<Step>, c: seq<Step>, d: seq<Step>, e: seq<Step>)
    requires Plain(a) && Plain(b) && Plain(c) && Plain(d) && Plain(e)
    ensures Plain(a + b + c + d + e)
  {
  }

  lemma NumericPlain(w: World, id: Address, data: Data)
    ensures Plain(IntegerSteps(w, id, data)) && Plain(NumberSteps(w, id, data))
  {
    PlainFive(Leaf(w, id, IntegerKeyword(MultipleOf), data, "multipleOf"),
              Leaf(w, id, IntegerKeyword(Maximum), data, "maximum"),
              Leaf(w, id, IntegerKeyword(ExclusiveMaximum), data, "exclusiveMaximum"),
              Leaf(w, id, IntegerKeyword(Minimum), data, "minimum"),
              Leaf(w, id, IntegerKeyword(ExclusiveMinimum), data, "exclusiveMinimum"));
    PlainFive(Leaf(w, id, NumberKeyword(MultipleOf), data, "multipleOf"),
              Leaf(w, id, NumberKeyword(Maximum), data, "maximum"),
              Leaf(w, id, NumberKeyword(ExclusiveMaximum), data, "exclusiveMaximum"),
              Leaf(w, id, NumberKeyword(Minimum), data, "minimum"),
              Leaf(w, id, NumberKeyword(ExclusiveMinimum), data, "exclusiveMinimum"));
  }

  lemma PlainKinds(w: World, id: Address, data: Data)
    ensures Plain(StringSteps(w, id, data))
    ensures !data.Array? ==> Plain(ArraySteps(w, id, data))
    ensures !data.Object? ==> Plain(ObjectSteps(w, id, data))
  {
    if data.Text? {
      var node := w.nodes(id);
      PlainFive(When(node.maxLength.Some? && |data.s| > AsLong(node.maxLength.value), id, data, "maxLength"),
                When(node.minLength.Some? && |data.s| < AsLong(node.minLength.value), id, data, "minLength"),
                Leaf(w, id, Pattern, data, "pattern"), Leaf(w, id, Format, data, node.formatKey), []);
    }
  }

  lemma BranchesInward(node: Node, id: Address, data: Data)
    requires node.validation.ByKeywords?
    ensures AllInward(node, data, IfSteps(node, data))
    ensures AllInward(node, data, NotSteps(node, data))
    ensures AllInward(node, data, AllOfSteps(node, id, data))
    ensures AllInward(node, data, AnyOfSteps(node, id, data))
    ensures AllInward(node, data, OneOfSteps(node, id, data))
  {
  }

  lemma BodyInward(w: World, goal: Goal)
    ensures AllInward(w.nodes(goal.0), goal.1, Body(w, goal))
  {
    var (id, data) := goal;
    var node := w.nodes(id);
    if node.validation.ByKeywords? {
      TypeInward(w, id, data);
      BranchesInward(node, id, data);
      var c, e := Leaf(w, id, Const, data, "const"), Leaf(w, id, Enum, data, "enum");
      assert Plain(c) && Plain(e);
      InwardFive(node, data, TypeSteps(w, id, data), c, e, IfSteps(node, data), NotSteps(node, data));
      var first := TypeSteps(w, id, data) + c + e + IfSteps(node, data) + NotSteps(node, data);
      var x, y, z := AllOfSteps(node, id, data), AnyOfSteps(node, id, data), OneOfSteps(node, id, data);
      InwardConcat(node, data, first, x);
      InwardConcat(node, data, first + x, y);
      InwardConcat(node, data, first + x + y, z);
    }
  }

  lemma Scale(a: nat, b: nat, k: nat)
    requires a < b
    ensures a * k + k <= b * k
  {
    assert (a + 1) * k <= b * k;
  }

  lemma InwardIsLower(w: World, rank: Address -> nat, top: nat, from: Goal, to: Goal)
    requires Ranked(w, rank, top) && Inward(w.nodes(from.0), from.1, to)
    ensures Measure(rank, top, to) < Measure(rank, top, from)
  {
    if Height(to.1) < Height(from.1) {
      assert rank(to.0) <= top;
      Scale(Height(to.1), Height(from.1), top + 1);
    }
  }

  lemma KeywordsDescend(w: World, rank: Address -> nat, top: nat)
    requires Ranked(w, rank, top)
    ensures Descends(ProgramOf(w), goal => Measure(rank, top, goal))
  {
    var measure := goal => Measure(rank, top, goal);
    forall goal ensures AllStartBelow(ProgramOf(w).body(goal), measure, measure(goal)) {
      BodyInward(w, goal);
      forall s, g | s in Body(w, goal) && Starts(s, g) ensures measure(g) < measure(goal) {
        InwardIsLower(w, rank, top, goal, g);
      }
    }
  }

  // ---------------------------------------------------------------------------------------
  // Ending, never ending, and what an ended run says
  // ---------------------------------------------------------------------------------------

  /** Validation of a finite datum ends within the measure, with recursive `$ref`s through items or properties. */
  lemma ValidationEnds(w: World, rank: Address -> nat, top: nat, root: Address, data: Data, fuel: nat)
    requires Ranked(w, rank, top) && Height(data) * (top + 1) + rank(root) <= fuel
    ensures !Validate(w, fuel, root, data).outcome.OutOfFuel?
    ensures !Valid(w, fuel, root, data).outcome.OutOfFuel?
  {
    KeywordsDescend(w, rank, top);
    var measure := (goal: Goal) => Measure(rank, top, goal);
    GoalEnds(ProgramOf(w), measure, fuel + 1, (root, data), Fresh());
    IsValidEnds(ProgramOf(w), measure, fuel + 1, (root, data), Fresh());
  }

  /** Once `valid?` has answered, the meaning is the same at every larger index. */
  lemma AnswerIsFinal(w: World, fuel: nat, more: nat, root: Address, data: Data)
    requires fuel <= more && Valid(w, fuel, root, data).outcome.Finished?
    ensures Valid(w, more, root, data) == Valid(w, fuel, root, data)
    ensures Sat(w, more, root, data) <==> Sat(w, fuel, root, data)
  {
    IsValidStable(ProgramOf(w), fuel + 1, more + 1, (root, data), Fresh());
    ValidMeansSat(w, fuel, root, data);
    ValidMeansSat(w, more, root, data);
  }

  /** Schemas that are only `$ref`s to each other. */
  ghost predicate RefLoop(w: World, loop: set<Address>) {
    forall id :: id in loop ==> w.nodes(id).validation.ByRef? && w.nodes(id).refSchema in loop
  }

  /** A loop of `$ref`s exhausts every call stack, whatever the datum. */
  lemma {:induction false} RefLoopNeverEnds(w: World, loop: set<Address>, id: Address, data: Data, fuel: nat, st: State)
    requires RefLoop(w, loop) && id in loop
    ensures Exec(ProgramOf(w), fuel, Body(w, (id, data)), st).outcome.OutOfFuel?
    decreases fuel
  {
    if fuel > 0 { RefLoopNeverEnds(w, loop, w.nodes(id).refSchema, data, fuel - 1, st); }
  }
}
