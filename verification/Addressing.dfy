/** Every step list the engine builds from a node and a datum is in place over that datum. */
module Addressing {
  import opened Values
  import opened Schema
  import opened Machine
  import opened Keywords
  import opened Laws

  lemma StaysConcat(prog: Program, a: seq<Step>, b: seq<Step>, data: Data)
    requires Stays(prog, a, data) && Stays(prog, b, data)
    ensures Stays(prog, a + b, data)
  {
    WalksConcat(prog, a, b, data, Here, Here, Here);
  }

  lemma LeafStays(w: World, id: Address, check: LeafCheck, data: Data, code: string)
    ensures Stays(ProgramOf(w), Leaf(w, id, check, data, code), data)
  {
    var v := w.leaf(id, check, data);
    if v.Raises? { assert LeafRaises(w, v.message); }
  }

  lemma BodyStays(w: World, goal: Goal)
    ensures Stays(ProgramOf(w), Body(w, goal), goal.1)
  {
    var (id, data) := goal;
    if w.nodes(id).validation.ByKeywords? {
      var node := w.nodes(id);
      TypeStays(w, id, data);
      LeafStays(w, id, Const, data, "const");
      LeafStays(w, id, Enum, data, "enum");
      var first := TypeSteps(w, id, data) + Leaf(w, id, Const, data, "const") + Leaf(w, id, Enum, data, "enum")
                   + IfSteps(node, data) + NotSteps(node, data);
      FiveStay(ProgramOf(w), TypeSteps(w, id, data), Leaf(w, id, Const, data, "const"),
               Leaf(w, id, Enum, data, "enum"), IfSteps(node, data), NotSteps(node, data), data);
      var a, b, c := AllOfSteps(node, id, data), AnyOfSteps(node, id, data), OneOfSteps(node, id, data);
      StaysConcat(ProgramOf(w), first, a, data);
      StaysConcat(ProgramOf(w), first + a, b, data);
      StaysConcat(ProgramOf(w), first + a + b, c, data);
    }
  }

  lemma TypeStays(w: World, id: Address, data: Data)
    ensures Stays(ProgramOf(w), TypeSteps(w, id, data), data)
  {
    TypeCases(w, id, data);
    KindStays(w, id, data, TypeSteps(w, id, data));
  }

  lemma KindStays(w: World, id: Address, data: Data, steps: seq<Step>)
    requires IsKind(w, id, data, steps)
    ensures Stays(ProgramOf(w), steps, data)
  {
    KindsStay(w, id, data);
    ShortStays(ProgramOf(w), steps, data);
  }

  lemma ShortStays(prog: Program, steps: seq<Step>, data: Data)
    ensures IsShort(steps, data) ==> Stays(prog, steps, data)
  {
    if |steps| == 1 && IsShort(steps, data) {
      ReportStays(prog, steps[0].problem, data);
      assert steps == [Report(steps[0].problem)];
    }
  }

  lemma KindsStay(w: World, id: Address, data: Data)
    ensures Stays(ProgramOf(w), IntegerSteps(w, id, data), data)
    ensures Stays(ProgramOf(w), NumberSteps(w, id, data), data)
    ensures Stays(ProgramOf(w), StringSteps(w, id, data), data)
    ensures Stays(ProgramOf(w), ArraySteps(w, id, data), data)
    ensures Stays(ProgramOf(w), ObjectSteps(w, id, data), data)
  {
    IntegerStays(w, id, data);
    NumberStays(w, id, data);
    StringStays(w, id, data);
    ReportStays(ProgramOf(w), Problem(id, data, "type_array"), data);
    ReportStays(ProgramOf(w), Problem(id, data, "type_object"), data);
    if data.Array? { ArrayStays(w, id, data); }
    if data.Object? { ObjectStays(w, id, data); }
  }

  lemma ReportStays(prog: Program, problem: Problem, data: Data)
    requires problem.data == data
    ensures Stays(prog, [Report(problem)], data)
  {
  }

  lemma FiveStay(prog: Program, a: seq<Step>, b: seq<Step>, c: seq<Step>, d: seq<Step>, e: seq<Step>, data: Data)
    requires Stays(prog, a, data) && Stays(prog, b, data) && Stays(prog, c, data)
    requires Stays(prog, d, data) && Stays(prog, e, data)
    ensures Stays(prog, a + b + c + d + e, data)
  {
    StaysConcat(prog, a, b, data);
    StaysConcat(prog, a + b, c, data);
    StaysConcat(prog, a + b + c, d, data);
    StaysConcat(prog, a + b + c + d, e, data);
  }

  lemma IntegerStays(w: World, id: Address, data: Data)
    ensures Stays(ProgramOf(w), IntegerSteps(w, id, data), data)
  {
    LeafStays(w, id, IntegerKeyword(MultipleOf), data, "multipleOf");
    LeafStays(w, id, IntegerKeyword(Maximum), data, "maximum");
    LeafStays(w, id, IntegerKeyword(ExclusiveMaximum), data, "exclusiveMaximum");
    LeafStays(w, id, IntegerKeyword(Minimum), data, "minimum");
    LeafStays(w, id, IntegerKeyword(ExclusiveMinimum), data, "exclusiveMinimum");
    FiveStay(ProgramOf(w),
             Leaf(w, id, IntegerKeyword(MultipleOf), data, "multipleOf"),
             Leaf(w, id, IntegerKeyword(Maximum), data, "maximum"),
             Leaf(w, id, IntegerKeyword(ExclusiveMaximum), data, "exclusiveMaximum"),
             Leaf(w, id, IntegerKeyword(Minimum), data, "minimum"),
             Leaf(w, id, IntegerKeyword(ExclusiveMinimum), data, "exclusiveMinimum"), data);
  }

  lemma NumberStays(w: World, id: Address, data: Data)
    ensures Stays(ProgramOf(w), NumberSteps(w, id, data), data)
  {
    LeafStays(w, id, NumberKeyword(MultipleOf), data, "multipleOf");
    LeafStays(w, id, NumberKeyword(Maximum), data, "maximum");
    LeafStays(w, id, NumberKeyword(ExclusiveMaximum), data, "exclusiveMaximum");
    LeafStays(w, id, NumberKeyword(Minimum), data, "minimum");
    LeafStays(w, id, NumberKeyword(ExclusiveMinimum), data, "exclusiveMinimum");
    FiveStay(ProgramOf(w),
             Leaf(w, id, NumberKeyword(MultipleOf), data, "multipleOf"),
             Leaf(w, id, NumberKeyword(Maximum), data, "maximum"),
             Leaf(w, id, NumberKeyword(ExclusiveMaximum), data, "exclusiveMaximum"),
             Leaf(w, id, NumberKeyword(Minimum), data, "minimum"),
             Leaf(w, id, NumberKeyword(ExclusiveMinimum), data, "exclusiveMinimum"), data);
  }

  lemma StringStays(w: World, id: Address, data: Data)
    ensures Stays(ProgramOf(w), StringSteps(w, id, data), data)
  {
    if data.Text? {
      var node := w.nodes(id);
      var s1 := When(node.maxLength.Some? && |data.s| > AsLong(node.maxLength.value), id, data, "maxLength");
      var t2 := When(node.minLength.Some? && |data.s| < AsLong(node.minLength.value), id, data, "minLength");
      StaysConcat(ProgramOf(w), s1, t2, data);
      LeafStays(w, id, Pattern, data, "pattern");
      StaysConcat(ProgramOf(w), s1 + t2, Leaf(w, id, Pattern, data, "pattern"), data);
      LeafStays(w, id, Format, data, node.formatKey);
      StaysConcat(ProgramOf(w), s1 + t2 + Leaf(w, id, Pattern, data, "pattern"),
        Leaf(w, id, Format, data, node.formatKey), data);
    }
  }

  // --- one level down ---

  ghost predicate Below(pos: Position) { !pos.Here? }

  /** A list that can start at any position below the datum and stays below it. */
  ghost predicate WalksBelow(prog: Program, steps: seq<Step>, data: Data, from: Position) {
    exists to :: Below(to) && Walks(prog, steps, data, from, to)
  }

  lemma NestedStays(prog: Program, steps: seq<Step>, data: Data)
    requires WalksBelow(prog, steps, data, Open)
    ensures Stays(prog, Nested(steps), data)
  {
    var to :| Below(to) && Walks(prog, steps, data, Open, to);
    assert Walks(prog, [Descend], data, Here, Open);
    WalksConcat(prog, [Descend], steps, data, Here, Open, to);
    assert Walks(prog, [Ascend], data, to, Here);
    WalksConcat(prog, [Descend] + steps, [Ascend], data, Here, to, Here);
  }

  lemma WalksBelowConcat(prog: Program, a: seq<Step>, b: seq<Step>, data: Data, from: Position)
    requires WalksBelow(prog, a, data, from)
    requires forall mid | Below(mid) :: WalksBelow(prog, b, data, mid)
    ensures WalksBelow(prog, a + b, data, from)
  {
    var mid :| Below(mid) && Walks(prog, a, data, from, mid);
    assert WalksBelow(prog, b, data, mid);
    var to :| Below(to) && Walks(prog, b, data, mid, to);
    WalksConcat(prog, a, b, data, from, mid, to);
  }

  lemma {:induction false} VisitsWalk(w: World, targets: seq<Address>, data: Data, from: nat, upTo: nat)
    requires data.Array? && upTo <= |targets| && upTo <= |data.items|
    ensures WalksBelow(ProgramOf(w), Visits(targets, data.items, from, upTo), data, Open)
    decreases upTo
  {
    if upTo <= from {
      assert Walks(ProgramOf(w), [], data, Open, Open);
    } else {
      VisitsWalk(w, targets, data, from, upTo - 1);
      var last := [Place(IndexSlot(upTo - 1)), Call((targets[upTo - 1], data.items[upTo - 1]))];
      forall mid | Below(mid) ensures WalksBelow(ProgramOf(w), last, data, mid) {
        assert Edge(data, IndexSlot(upTo - 1), data.items[upTo - 1]);
        assert Walks(ProgramOf(w), last[1..], data, At(IndexSlot(upTo - 1)), At(IndexSlot(upTo - 1)));
        assert Walks(ProgramOf(w), last, data, mid, At(IndexSlot(upTo - 1)));
      }
      WalksBelowConcat(ProgramOf(w), Visits(targets, data.items, from, upTo - 1), last, data, Open);
    }
  }

  lemma ItemsStay(w: World, node: Node, data: Data)
    requires data.Array?
    ensures Stays(ProgramOf(w), ItemsSteps(node, data.items), data)
  {
    var items := data.items;
    if node.itemsSchema.Some? {
      VisitsWalk(w, seq(|items|, _ => node.itemsSchema.value), data, 0, |items|);
      NestedStays(ProgramOf(w), Visits(seq(|items|, _ => node.itemsSchema.value), items, 0, |items|), data);
    } else if node.items.Some? {
      var targets := node.items.value;
      var upper := Least(|targets|, |items|);
      VisitsWalk(w, targets, data, 0, upper);
      NestedStays(ProgramOf(w), Visits(targets, items, 0, upper), data);
      if |items| > |targets| && node.additionalItems.Some? {
        var more := seq(|items|, _ => node.additionalItems.value);
        VisitsWalk(w, more, data, |targets|, |items|);
        NestedStays(ProgramOf(w), Visits(more, items, |targets|, |items|), data);
        StaysConcat(ProgramOf(w), TupleSteps(targets, items),
                    AdditionalItemsSteps(node.additionalItems.value, |targets|, items), data);
      } else {
        StaysConcat(ProgramOf(w), TupleSteps(targets, items), [], data);
      }
    }
  }

  lemma ArrayStays(w: World, id: Address, data: Data)
    requires data.Array?
    ensures Stays(ProgramOf(w), ArraySteps(w, id, data), data)
  {
    var node := w.nodes(id);
    var s1 := When(node.maxItems.Some? && |data.items| > AsLong(node.maxItems.value), id, data, "maxItems");
    var t2 := When(node.minItems.Some? && |data.items| < AsLong(node.minItems.value), id, data, "minItems");
    StaysConcat(ProgramOf(w), s1, t2, data);
    var t3 := Leaf(w, id, Unique, data, "uniqueItems");
    LeafStays(w, id, Unique, data, "uniqueItems");
    StaysConcat(ProgramOf(w), s1 + t2, t3, data);
    ItemsStay(w, node, data);
    StaysConcat(ProgramOf(w), s1 + t2 + t3, ItemsSteps(node, data.items), data);
    StaysConcat(ProgramOf(w), s1 + t2 + t3 + ItemsSteps(node, data.items), ContainsSteps(node, id, data), data);
  }

  // --- objects ---

  lemma {:induction false} RequiredStay(w: World, id: Address, data: Data, required: seq<Key>)
    requires data.Object?
    ensures Stays(ProgramOf(w), RequiredSteps(id, data, required), data)
    decreases |required|
  {
    if required != [] {
      var last := |required| - 1;
      RequiredStay(w, id, data, required[..last]);
      StaysConcat(ProgramOf(w), RequiredSteps(id, data, required[..last]),
                  When(!HasKey(data.members, required[last]), id, data, "required"), data);
    }
  }

  lemma {:induction false} DependenciesStay(w: World, data: Data, dependencies: seq<(Key, Address)>)
    requires data.Object?
    ensures Stays(ProgramOf(w), DependencySteps(data, dependencies), data)
    decreases |dependencies|
  {
    if dependencies != [] {
      var last := |dependencies| - 1;
      DependenciesStay(w, data, dependencies[..last]);
      var tail := if HasKey(data.members, dependencies[last].0) then [Call((dependencies[last].1, data))] else [];
      StaysConcat(ProgramOf(w), DependencySteps(data, dependencies[..last]), tail, data);
    }
  }

  /** At a slot, any calls on data under that slot keep the position. */
  ghost predicate Holds(prog: Program, steps: seq<Step>, data: Data, slot: Slot) {
    Walks(prog, steps, data, At(slot), At(slot))
  }

  lemma HoldsConcat(prog: Program, a: seq<Step>, b: seq<Step>, data: Data, slot: Slot)
    requires Holds(prog, a, data, slot) && Holds(prog, b, data, slot)
    ensures Holds(prog, a + b, data, slot)
  {
    WalksConcat(prog, a, b, data, At(slot), At(slot), At(slot));
  }

  lemma {:induction false} MatchedHold(
    w: World, patterns: seq<(string, Address)>, data: Data, name: string, value: Data)
    requires Edge(data, NameSlot(name), value)
    ensures Holds(ProgramOf(w), MatchedSteps(w, patterns, name, value), data, NameSlot(name))
    decreases |patterns|
  {
    if patterns != [] {
      var last := |patterns| - 1;
      MatchedHold(w, patterns[..last], data, name, value);
      var tail := if w.matches(patterns[last].0, name) then [Call((patterns[last].1, value))] else [];
      HoldsConcat(ProgramOf(w), MatchedSteps(w, patterns[..last], name, value), tail, data, NameSlot(name));
    }
  }

  lemma MemberWalks(w: World, id: Address, data: Data, i: nat, from: Position)
    requires data.Object? && i < |data.members| && Below(from)
    ensures WalksBelow(ProgramOf(w), MemberSteps(w, id, data.members[i].0, data.members[i].1), data, from)
  {
    var (key, value) := data.members[i];
    if key.Foreign? {
      assert Walks(ProgramOf(w), [], data, from, from);
    } else {
      var node := w.nodes(id);
      var slot := NameSlot(key.name);
      assert Edge(data, slot, value);
      assert Edge(data, slot, Text(key.name));
      var s1 := NameSteps(node, key.name);
      var t2 := NamedSteps(node, key.name, value);
      var t3 := MatchedSteps(w, Patterns(node), key.name, value);
      var t4 := AdditionalSteps(w, node, key.name, value);
      MatchedHold(w, Patterns(node), data, key.name, value);
      HoldsConcat(ProgramOf(w), s1, t2, data, slot);
      HoldsConcat(ProgramOf(w), s1 + t2, t3, data, slot);
      HoldsConcat(ProgramOf(w), s1 + t2 + t3, t4, data, slot);
      assert Walks(ProgramOf(w), [Place(slot)], data, from, At(slot));
      WalksConcat(ProgramOf(w), [Place(slot)], s1 + t2 + t3 + t4, data, from, At(slot), At(slot));
      assert [Place(slot)] + s1 + t2 + t3 + t4 == [Place(slot)] + (s1 + t2 + t3 + t4);
    }
  }

  lemma {:induction false} PropertiesWalk(w: World, id: Address, data: Data, n: nat)
    requires data.Object? && n <= |data.members|
    ensures WalksBelow(ProgramOf(w), PropertySteps(w, id, data.members[..n]), data, Open)
    decreases n
  {
    if n == 0 {
      assert Walks(ProgramOf(w), [], data, Open, Open);
    } else {
      PropertiesWalk(w, id, data, n - 1);
      var members := data.members[..n];
      assert members[..n - 1] == data.members[..n - 1];
      var last := MemberSteps(w, id, members[n - 1].0, members[n - 1].1);
      forall mid | Below(mid) ensures WalksBelow(ProgramOf(w), last, data, mid) {
        MemberWalks(w, id, data, n - 1, mid);
      }
      WalksBelowConcat(ProgramOf(w), PropertySteps(w, id, members[..n - 1]), last, data, Open);
    }
  }

  lemma ObjectStays(w: World, id: Address, data: Data)
    requires data.Object?
    ensures Stays(ProgramOf(w), ObjectSteps(w, id, data), data)
  {
    var node := w.nodes(id);
    var s1 := When(node.maxProperties.Some? && |data.members| > AsULong(node.maxProperties.value), id, data,
      "maxProperties");
    var t2 := When(node.minProperties.Some? && |data.members| < AsULong(node.minProperties.value), id, data,
      "minProperties");
    StaysConcat(ProgramOf(w), s1, t2, data);
    var t3 := if node.required.Some? then RequiredSteps(id, data, node.required.value) else [];
    if node.required.Some? { RequiredStay(w, id, data, node.required.value); }
    StaysConcat(ProgramOf(w), s1 + t2, t3, data);
    var t4 := if node.dependencies.Some? then DependencySteps(data, node.dependencies.value) else [];
    if node.dependencies.Some? { DependenciesStay(w, data, node.dependencies.value); }
    StaysConcat(ProgramOf(w), s1 + t2 + t3, t4, data);
    PropertiesWalk(w, id, data, |data.members|);
    assert data.members[..|data.members|] == data.members;
    NestedStays(ProgramOf(w), PropertySteps(w, id, data.members), data);
    StaysConcat(ProgramOf(w), s1 + t2 + t3 + t4, Nested(PropertySteps(w, id, data.members)), data);
  }

  lemma KeywordsInPlace(w: World)
    ensures InPlace(ProgramOf(w))
  {
    forall goal ensures Stays(ProgramOf(w), ProgramOf(w).body(goal), goal.1) {
      BodyStays(w, goal);
    }
  }
}
