/**
 The validation functions, in the order and with the early exits of the source, each proved to run
 exactly the steps of its keywords on the shared context. An outcome other than `Finished` unwinds.
 */
module Validator {
  import opened Values
  import opened Schema
  import opened Machine
  import opened Keywords
  import opened Running
  import opened Laws
  import opened Draft7
  import opened Entry
  import C = ContextObject

  /** A call through `validation_function`, one level further in. */
  method Invoke(w: World, fuel: nat, id: Address, data: Data, c: C.Context) returns (o: Outcome)
    requires c.Valid()
    modifies c, c.path
    ensures c.Valid() && Ran(w, fuel, [Call((id, data))], old(c.Now()), o, c.Now())
    decreases fuel, 0
  {
    Single(w, fuel, Call((id, data)), c.Now());
    if fuel == 0 { return OutOfFuel; }
    o := Dispatch(w, fuel - 1, id, data, c);
  }

  /** What `validation_function` points to. */
  method Dispatch(w: World, fuel: nat, id: Address, data: Data, c: C.Context) returns (o: Outcome)
    requires c.Valid()
    modifies c, c.path
    ensures c.Valid() && Ran(w, fuel, Body(w, (id, data)), old(c.Now()), o, c.Now())
    decreases fuel, 9
  {
    match w.nodes(id).validation
    case NoOp => o := Finished;
    case AlwaysFalse =>
      Reported(w, fuel, Problem(id, data, "false_schema"), c.Now());
      o := c.YieldError(id, data, "false_schema");
    case ByRef => o := Invoke(w, fuel, w.nodes(id).refSchema, data, c);
    case ByKeywords => o := ValidateKeywords(w, fuel, id, data, c);
  }

  /** `is_valid`. */
  method IsValid(w: World, fuel: nat, id: Address, data: Data, c: C.Context) returns (o: Outcome, valid: bool)
    requires c.Valid()
    modifies c, c.path
    ensures c.Valid()
    ensures Probed(o, valid, c.Now()) == Machine.IsValid(ProgramOf(w), fuel, (id, data), old(c.Now()))
    ensures !o.Thrown? && c.shortCircuitOnError == old(c.shortCircuitOnError) && c.errors == old(c.errors)
    decreases fuel, 0
  {
    IsValidDisciplined(ProgramOf(w), fuel, (id, data), c.Now());
    if fuel == 0 { return OutOfFuel, false; }
    ghost var entry := c.Now();
    var previous := c.shortCircuitOnError;
    c.shortCircuitOnError := true;
    assert c.Now() == entry.(quiet := true);
    o := Dispatch(w, fuel - 1, id, data, c);
    c.shortCircuitOnError := previous;
    match o
    case Finished => valid := true;
    case Thrown =>
      c.leaked := entry.leaked + c.depth - entry.context.depth;
      o, valid := Finished, false;
    case _ => valid := false;
  }

  /** A check whose inner working is given. */
  method CheckLeaf(w: World, fuel: nat, id: Address, check: LeafCheck, data: Data, code: string, c: C.Context)
    returns (o: Outcome)
    requires c.Valid()
    modifies c, c.path
    ensures c.Valid() && Ran(w, fuel, Leaf(w, id, check, data, code), old(c.Now()), o, c.Now())
  {
    match w.leaf(id, check, data)
    case Pass => o := Finished;
    case Fail =>
      Reported(w, fuel, Problem(id, data, code), c.Now());
      o := c.YieldError(id, data, code);
    case Raises(message) =>
      Single(w, fuel, Crash(message), c.Now());
      o := Raised(message);
  }

  /** Reports if the condition holds. */
  method YieldIf(w: World, fuel: nat, failed: bool, id: Address, data: Data, code: string, c: C.Context)
    returns (o: Outcome)
    requires c.Valid()
    modifies c, c.path
    ensures c.Valid() && Ran(w, fuel, When(failed, id, data, code), old(c.Now()), o, c.Now())
  {
    o := Finished;
    if failed {
      Reported(w, fuel, Problem(id, data, code), c.Now());
      o := c.YieldError(id, data, code);
    }
  }

  // ---------------------------------------------------------------------------------------
  // validate.c
  // ---------------------------------------------------------------------------------------

  method ValidateKeywords(w: World, fuel: nat, id: Address, data: Data, c: C.Context) returns (o: Outcome)
    requires c.Valid()
    modifies c, c.path
    ensures c.Valid() && Ran(w, fuel, KeywordSteps(w, id, data), old(c.Now()), o, c.Now())
    decreases fuel, 8
  {
    var node := w.nodes(id);
    ghost var s0 := c.Now();
    o := ValidateType(w, fuel, id, data, c);
    ghost var done, next, o1, s1 := TypeSteps(w, id, data), Leaf(w, id, Const, data, "const"), o, c.Now();
    if o.Finished? { o := CheckLeaf(w, fuel, id, Const, data, "const", c); }
    Onward(w, fuel, done, next, s0, o1, s1, o, c.Now());
    done, next, o1, s1 := done + next, Leaf(w, id, Enum, data, "enum"), o, c.Now();
    if o.Finished? { o := CheckLeaf(w, fuel, id, Enum, data, "enum", c); }
    Onward(w, fuel, done, next, s0, o1, s1, o, c.Now());
    done, next, o1, s1 := done + next, IfSteps(node, data), o, c.Now();
    if o.Finished? && node.ifSchema.Some? { o := ValidateIf(w, fuel, id, data, c); }
    Onward(w, fuel, done, next, s0, o1, s1, o, c.Now());
    done, next, o1, s1 := done + next, NotSteps(node, data), o, c.Now();
    if o.Finished? && node.notSchema.Some? { o := ValidateNot(w, fuel, id, data, c); }
    Onward(w, fuel, done, next, s0, o1, s1, o, c.Now());
    done, next, o1, s1 := done + next, AllOfSteps(node, id, data), o, c.Now();
    if o.Finished? && node.allOf.Some? { o := ValidateAllOf(w, fuel, id, data, c); }
    Onward(w, fuel, done, next, s0, o1, s1, o, c.Now());
    done, next, o1, s1 := done + next, AnyOfSteps(node, id, data), o, c.Now();
    if o.Finished? && node.anyOf.Some? { o := ValidateAnyOf(w, fuel, id, data, c); }
    Onward(w, fuel, done, next, s0, o1, s1, o, c.Now());
    done, next, o1, s1 := done + next, OneOfSteps(node, id, data), o, c.Now();
    if o.Finished? && node.oneOf.Some? { o := ValidateOneOf(w, fuel, id, data, c); }
    Onward(w, fuel, done, next, s0, o1, s1, o, c.Now());
  }

  /** What `type_validation_function` points to. */
  method ValidateType(w: World, fuel: nat, id: Address, data: Data, c: C.Context) returns (o: Outcome)
    requires c.Valid()
    modifies c, c.path
    ensures c.Valid() && Ran(w, fuel, TypeSteps(w, id, data), old(c.Now()), o, c.Now())
    decreases fuel, 7
  {
    match w.nodes(id).typeCheck
    case ByDataType => o := ValidateByDataType(w, fuel, id, data, c);
    case ByTypeList => o := ValidateByTypeList(w, fuel, id, data, c);
    case IsNull => o := YieldIf(w, fuel, !data.Null?, id, data, "type_null", c);
    case IsBool => o := YieldIf(w, fuel, !data.Bool?, id, data, "type_bool", c);
    case IsString => o := ValidateString(w, fuel, id, data, c);
    case IsInteger => o := ValidateInteger(w, fuel, id, data, c);
    case IsNumber => o := ValidateNumber(w, fuel, id, data, c);
    case IsArray => o := ValidateArray(w, fuel, id, data, c);
    case IsObject => o := ValidateObject(w, fuel, id, data, c);
    case NoTypeCheck => o := Finished;
  }

  method ValidateByDataType(w: World, fuel: nat, id: Address, data: Data, c: C.Context) returns (o: Outcome)
    requires c.Valid()
    modifies c, c.path
    ensures c.Valid() && Ran(w, fuel, DataTypeSteps(w, id, data), old(c.Now()), o, c.Now())
    decreases fuel, 6
  {
    match data
    case Integer(_) => o := ValidateInteger(w, fuel, id, data, c);
    case Float(_, _) => o := ValidateNumber(w, fuel, id, data, c);
    case Text(_) => o := ValidateString(w, fuel, id, data, c);
    case Object(_) => o := ValidateObject(w, fuel, id, data, c);
    case Array(_) => o := ValidateArray(w, fuel, id, data, c);
    case _ => o := Finished;
  }

  method ValidateByTypeList(w: World, fuel: nat, id: Address, data: Data, c: C.Context) returns (o: Outcome)
    requires c.Valid()
    modifies c, c.path
    ensures c.Valid() && Ran(w, fuel, TypeListSteps(w, id, data), old(c.Now()), o, c.Now())
    decreases fuel, 6
  {
    var flags := w.nodes(id).typeFlags;
    Reported(w, fuel, Problem(id, data, "type"), c.Now());
    if data.Null? && NullBit in flags {
      o := Finished;
    } else if data.Bool? && BoolBit in flags {
      o := Finished;
    } else if data.Integer? && IntegerBit in flags {
      o := ValidateInteger(w, fuel, id, data, c);
    } else if (data.Integer? || data.Float?) && NumberBit in flags {
      o := ValidateNumber(w, fuel, id, data, c);
    } else if data.Text? && StringBit in flags {
      o := ValidateString(w, fuel, id, data, c);
    } else if data.Object? && ObjectBit in flags {
      o := ValidateObject(w, fuel, id, data, c);
    } else if data.Array? && ArrayBit in flags {
      o := ValidateArray(w, fuel, id, data, c);
    } else if data.Other? {
      o := Finished;
    } else {
      o := c.YieldError(id, data, "type");
    }
  }

  // ---------------------------------------------------------------------------------------
  // validate_integer.c, validate_number.c, validate_string.c
  // ---------------------------------------------------------------------------------------

  method ValidateInteger(w: World, fuel: nat, id: Address, data: Data, c: C.Context) returns (o: Outcome)
    requires c.Valid()
    modifies c, c.path
    ensures c.Valid() && Ran(w, fuel, IntegerSteps(w, id, data), old(c.Now()), o, c.Now())
  {
    if !data.Integer? {
      Reported(w, fuel, Problem(id, data, "type_integer"), c.Now());
      o := c.YieldError(id, data, "type_integer");
    } else {
      o := CheckBounds(w, fuel, id, IntegerKeyword(MultipleOf), IntegerKeyword(Maximum),
             IntegerKeyword(ExclusiveMaximum), IntegerKeyword(Minimum), IntegerKeyword(ExclusiveMinimum), data, c);
    }
  }

  method ValidateNumber(w: World, fuel: nat, id: Address, data: Data, c: C.Context) returns (o: Outcome)
    requires c.Valid()
    modifies c, c.path
    ensures c.Valid() && Ran(w, fuel, NumberSteps(w, id, data), old(c.Now()), o, c.Now())
  {
    if !data.Integer? && !data.Float? {
      Reported(w, fuel, Problem(id, data, "type_number"), c.Now());
      o := c.YieldError(id, data, "type_number");
    } else {
      o := CheckBounds(w, fuel, id, NumberKeyword(MultipleOf), NumberKeyword(Maximum),
             NumberKeyword(ExclusiveMaximum), NumberKeyword(Minimum), NumberKeyword(ExclusiveMinimum), data, c);
    }
  }

  /** The five numeric keywords in the order both numeric validators take them. */
  method CheckBounds(w: World, fuel: nat, id: Address, multipleOf: LeafCheck, maximum: LeafCheck,
                     exclusiveMaximum: LeafCheck, minimum: LeafCheck, exclusiveMinimum: LeafCheck,
                     data: Data, c: C.Context)
    returns (o: Outcome)
    requires c.Valid()
    modifies c, c.path
    ensures c.Valid()
    ensures Ran(w, fuel, Leaf(w, id, multipleOf, data, "multipleOf") + Leaf(w, id, maximum, data, "maximum")
              + Leaf(w, id, exclusiveMaximum, data, "exclusiveMaximum") + Leaf(w, id, minimum, data, "minimum")
              + Leaf(w, id, exclusiveMinimum, data, "exclusiveMinimum"), old(c.Now()), o, c.Now())
  {
    ghost var s0 := c.Now();
    o := CheckLeaf(w, fuel, id, multipleOf, data, "multipleOf", c);
    ghost var done, next := Leaf(w, id, multipleOf, data, "multipleOf"), Leaf(w, id, maximum, data, "maximum");
    ghost var o1, s1 := o, c.Now();
    if o.Finished? { o := CheckLeaf(w, fuel, id, maximum, data, "maximum", c); }
    Onward(w, fuel, done, next, s0, o1, s1, o, c.Now());
    done, next, o1, s1 := done + next, Leaf(w, id, exclusiveMaximum, data, "exclusiveMaximum"), o, c.Now();
    if o.Finished? { o := CheckLeaf(w, fuel, id, exclusiveMaximum, data, "exclusiveMaximum", c); }
    Onward(w, fuel, done, next, s0, o1, s1, o, c.Now());
    done, next, o1, s1 := done + next, Leaf(w, id, minimum, data, "minimum"), o, c.Now();
    if o.Finished? { o := CheckLeaf(w, fuel, id, minimum, data, "minimum", c); }
    Onward(w, fuel, done, next, s0, o1, s1, o, c.Now());
    done, next, o1, s1 := done + next, Leaf(w, id, exclusiveMinimum, data, "exclusiveMinimum"), o, c.Now();
    if o.Finished? { o := CheckLeaf(w, fuel, id, exclusiveMinimum, data, "exclusiveMinimum", c); }
    Onward(w, fuel, done, next, s0, o1, s1, o, c.Now());
  }

  method ValidateString(w: World, fuel: nat, id: Address, data: Data, c: C.Context) returns (o: Outcome)
    requires c.Valid()
    modifies c, c.path
    ensures c.Valid() && Ran(w, fuel, StringSteps(w, id, data), old(c.Now()), o, c.Now())
  {
    if !data.Text? {
      Reported(w, fuel, Problem(id, data, "type_string"), c.Now());
      o := c.YieldError(id, data, "type_string");
      return;
    }
    var node := w.nodes(id);
    var over := node.maxLength.Some? && |data.s| > AsLong(node.maxLength.value);
    var short := node.minLength.Some? && |data.s| < AsLong(node.minLength.value);
    ghost var s0 := c.Now();
    o := YieldIf(w, fuel, over, id, data, "maxLength", c);
    ghost var done, next := When(over, id, data, "maxLength"), When(short, id, data, "minLength");
    ghost var o1, s1 := o, c.Now();
    if o.Finished? { o := YieldIf(w, fuel, short, id, data, "minLength", c); }
    Onward(w, fuel, done, next, s0, o1, s1, o, c.Now());
    done, next, o1, s1 := done + next, Leaf(w, id, Pattern, data, "pattern"), o, c.Now();
    if o.Finished? { o := CheckLeaf(w, fuel, id, Pattern, data, "pattern", c); }
    Onward(w, fuel, done, next, s0, o1, s1, o, c.Now());
    done, next, o1, s1 := done + next, Leaf(w, id, Format, data, node.formatKey), o, c.Now();
    if o.Finished? { o := CheckLeaf(w, fuel, id, Format, data, node.formatKey, c); }
    Onward(w, fuel, done, next, s0, o1, s1, o, c.Now());
  }

  // ---------------------------------------------------------------------------------------
  // validate_array.c
  // ---------------------------------------------------------------------------------------

  /** `ADD_TO_CONTEXT` and the call that follows it. */
  method VisitAt(w: World, fuel: nat, slot: Slot, id: Address, data: Data, c: C.Context) returns (o: Outcome)
    requires c.Valid()
    modifies c, c.path
    ensures c.Valid() && Ran(w, fuel, [Place(slot), Call((id, data))], old(c.Now()), o, c.Now())
    decreases fuel, 1
  {
    ghost var s0 := c.Now();
    Single(w, fuel, Place(slot), s0);
    o := c.Add(slot);
    ghost var o1, s1 := o, c.Now();
    if o.Finished? { o := Invoke(w, fuel, id, data, c); }
    Onward(w, fuel, [Place(slot)], [Call((id, data))], s0, o1, s1, o, c.Now());
    assert [Place(slot)] + [Call((id, data))] == [Place(slot), Call((id, data))];
  }

  method ValidateItems(w: World, fuel: nat, target: Address, items: seq<Data>, c: C.Context) returns (o: Outcome)
    requires c.Valid()
    modifies c, c.path
    ensures c.Valid()
    ensures Ran(w, fuel, AdditionalItemsSteps(target, 0, items), old(c.Now()), o, c.Now())
    decreases fuel, 3
  {
    o := ValidateItemsFrom(w, fuel, target, 0, items, c);
  }

  /** The loop shared by `validate_items` (from 0) and `validate_additional_items`. */
  method ValidateItemsFrom(w: World, fuel: nat, target: Address, from: nat, items: seq<Data>, c: C.Context)
    returns (o: Outcome)
    requires c.Valid()
    modifies c, c.path
    ensures c.Valid()
    ensures Ran(w, fuel, AdditionalItemsSteps(target, from, items), old(c.Now()), o, c.Now())
    decreases fuel, 2
  {
    ghost var s0, targets := c.Now(), seq(|items|, _ => target);
    ghost var visits := Visits(targets, items, from, |items|);
    Single(w, fuel, Descend, s0);
    o := c.Incr();
    ghost var o1, s1 := o, c.Now();
    if o.Finished? {
      var i := from;
      while i < |items| && o.Finished?
        invariant from <= i && (i <= |items| || i == from)
        invariant c.Valid()
        invariant Ran(w, fuel, Visits(targets, items, from, Least(i, |items|)), s1, o, c.Now())
        decreases |items| - i, o.Finished?
      {
        ghost var s2 := c.Now();
        o := VisitAt(w, fuel, IndexSlot(i), target, items[i], c);
        Onward(w, fuel, Visits(targets, items, from, i), [Place(IndexSlot(i)), Call((target, items[i]))],
             s1, Finished, s2, o, c.Now());
        i := i + 1;
      }
      if !o.Finished? {
        VisitsStop(w, fuel, targets, items, from, Least(i, |items|), |items|, s1, o, c.Now());
      }
    }
    Onward(w, fuel, [Descend], visits, s0, o1, s1, o, c.Now());
    ghost var o2, s2 := o, c.Now();
    Single(w, fuel, Ascend, s2);
    if o.Finished? { c.Decr(); }
    Onward(w, fuel, [Descend] + visits, [Ascend], s0, o2, s2, o, c.Now());
  }

  method ValidateWithMultipleItemsSchema(w: World, fuel: nat, targets: seq<Address>, items: seq<Data>, c: C.Context)
    returns (o: Outcome, allValidated: bool)
    requires c.Valid()
    modifies c, c.path
    ensures c.Valid() && Ran(w, fuel, TupleSteps(targets, items), old(c.Now()), o, c.Now())
    ensures allValidated <==> |items| <= |targets|
    decreases fuel, 2
  {
    var upper := Least(|targets|, |items|);
    allValidated := |items| <= |targets|;
    ghost var s0 := c.Now();
    ghost var visits := Visits(targets, items, 0, upper);
    Single(w, fuel, Descend, s0);
    o := c.Incr();
    ghost var o1, s1 := o, c.Now();
    if o.Finished? {
      var i := 0;
      while i < upper && o.Finished?
        invariant i <= upper
        invariant c.Valid()
        invariant Ran(w, fuel, Visits(targets, items, 0, i), s1, o, c.Now())
        decreases upper - i, o.Finished?
      {
        ghost var s2 := c.Now();
        o := VisitAt(w, fuel, IndexSlot(i), targets[i], items[i], c);
        Onward(w, fuel, Visits(targets, items, 0, i), [Place(IndexSlot(i)), Call((targets[i], items[i]))],
             s1, Finished, s2, o, c.Now());
        i := i + 1;
      }
      if !o.Finished? { VisitsStop(w, fuel, targets, items, 0, i, upper, s1, o, c.Now()); }
    }
    Onward(w, fuel, [Descend], visits, s0, o1, s1, o, c.Now());
    ghost var o2, s2 := o, c.Now();
    Single(w, fuel, Ascend, s2);
    if o.Finished? { c.Decr(); }
    Onward(w, fuel, [Descend] + visits, [Ascend], s0, o2, s2, o, c.Now());
  }

  method ValidateContains(w: World, fuel: nat, id: Address, data: Data, c: C.Context) returns (o: Outcome)
    requires c.Valid() && data.Array? && w.nodes(id).contains.Some?
    modifies c, c.path
    ensures c.Valid() && Ran(w, fuel, ContainsSteps(w.nodes(id), id, data), old(c.Now()), o, c.Now())
    decreases fuel, 2
  {
    var node := w.nodes(id);
    var contained := node.contains.value;
    ghost var s0, goals, limit := c.Now(), ForAll(contained, data.items), |data.items| + 1;
    ghost var combiner := Occurrences(id, contained, data, node.maxContains, node.minContains);
    var i, validCount := 0, 0;
    while i < |data.items|
      invariant 0 <= validCount <= i <= |data.items|
      invariant c.Valid()
      invariant Count(ProgramOf(w), fuel, goals, limit, 0, s0)
             == Count(ProgramOf(w), fuel, goals[i..], limit, validCount, c.Now())
    {
      CountNext(w, fuel, goals, limit, validCount, i, c.Now());
      var valid;
      o, valid := IsValid(w, fuel, contained, data.items[i], c);
      if !o.Finished? {
        ProbeFails(w, fuel, goals, limit, combiner, s0);
        return;
      }
      if valid { validCount := validCount + 1; }
      i := i + 1;
    }
    CountDone(w, fuel, goals, limit, validCount, i, c.Now());
    ghost var s1 := c.Now();
    o := ReportCount(w, validCount, id, data, c);
    ghost var problems := Next(combiner, validCount).problems;
    ProbeReports(w, fuel, goals, limit, combiner, s0, validCount, s1, problems, o, c.Now());
  }

  /** `maxContains` and then `minContains`, or `contains` itself when `minContains` is missing. */
  method ReportCount(w: World, validCount: nat, id: Address, data: Data, c: C.Context) returns (o: Outcome)
    requires c.Valid() && w.nodes(id).contains.Some?
    modifies c, c.path
    ensures c.Valid()
    ensures var node := w.nodes(id);
      var follow := Next(Occurrences(id, node.contains.value, data, node.maxContains, node.minContains), validCount);
      follow.Reports? && EmitAll(follow.problems, old(c.Now())) == Result(o, c.Now())
  {
    var node := w.nodes(id);
    var contained := node.contains.value;
    var over := node.maxContains.Some? && node.maxContains.value.Whole? && validCount > node.maxContains.value.n;
    ghost var p, s1 := Problem(id, data, "maxContains"), c.Now();
    ghost var first := if over then [p] else [];
    EmitOne(p, s1);
    o := Finished;
    if over { o := c.YieldError(id, data, "maxContains"); }
    assert EmitAll(first, s1) == Result(o, c.Now());
    if node.minContains.Some? && node.minContains.value.Whole? {
      ghost var q := Problem(id, data, "minContains");
      var short := validCount < node.minContains.value.n;
      EmitAllConcat(first, if short then [q] else [], s1);
      EmitOne(q, c.Now());
      if o.Finished? && short { o := c.YieldError(id, data, "minContains"); }
    } else {
      ghost var q := Problem(contained, data, "contains");
      EmitAllConcat(first, if validCount == 0 then [q] else [], s1);
      EmitOne(q, c.Now());
      if o.Finished? && validCount == 0 { o := c.YieldError(contained, data, "contains"); }
    }
  }

  lemma {:induction false} EmitAllConcat(a: seq<Problem>, b: seq<Problem>, st: State)
    ensures EmitAll(a + b, st) ==
            (var r := EmitAll(a, st); if r.outcome.Finished? then EmitAll(b, r.state) else r)
    decreases |a|
  {
    if a == [] {
      assert a + b == b;
    } else {
      assert (a + b)[0] == a[0] && (a + b)[1..] == a[1..] + b;
      var r := Emit(a[0], st);
      if r.outcome.Finished? { EmitAllConcat(a[1..], b, r.state); }
    }
  }

  method ValidateArray(w: World, fuel: nat, id: Address, data: Data, c: C.Context) returns (o: Outcome)
    requires c.Valid()
    modifies c, c.path
    ensures c.Valid() && Ran(w, fuel, ArraySteps(w, id, data), old(c.Now()), o, c.Now())
    decreases fuel, 5
  {
    if !data.Array? {
      Reported(w, fuel, Problem(id, data, "type_array"), c.Now());
      o := c.YieldError(id, data, "type_array");
      return;
    }
    var node := w.nodes(id);
    var over := node.maxItems.Some? && |data.items| > AsLong(node.maxItems.value);
    var short := node.minItems.Some? && |data.items| < AsLong(node.minItems.value);
    ghost var s0 := c.Now();
    o := YieldIf(w, fuel, over, id, data, "maxItems", c);
    ghost var done, next := When(over, id, data, "maxItems"), When(short, id, data, "minItems");
    ghost var o1, s1 := o, c.Now();
    if o.Finished? { o := YieldIf(w, fuel, short, id, data, "minItems", c); }
    Onward(w, fuel, done, next, s0, o1, s1, o, c.Now());
    done, next, o1, s1 := done + next, Leaf(w, id, Unique, data, "uniqueItems"), o, c.Now();
    if o.Finished? { o := CheckLeaf(w, fuel, id, Unique, data, "uniqueItems", c); }
    Onward(w, fuel, done, next, s0, o1, s1, o, c.Now());
    done, next, o1, s1 := done + next, ItemsSteps(node, data.items), o, c.Now();
    if o.Finished? { o := ValidateItemsKeyword(w, fuel, node, data.items, c); }
    Onward(w, fuel, done, next, s0, o1, s1, o, c.Now());
    done, next, o1, s1 := done + next, ContainsSteps(node, id, data), o, c.Now();
    if o.Finished? && node.contains.Some? { o := ValidateContains(w, fuel, id, data, c); }
    Onward(w, fuel, done, next, s0, o1, s1, o, c.Now());
  }

  /** `items` in both its forms, then `additionalItems` for what a tuple did not cover. */
  method ValidateItemsKeyword(w: World, fuel: nat, node: Node, items: seq<Data>, c: C.Context) returns (o: Outcome)
    requires c.Valid()
    modifies c, c.path
    ensures c.Valid() && Ran(w, fuel, ItemsSteps(node, items), old(c.Now()), o, c.Now())
    decreases fuel, 4
  {
    o := Finished;
    if node.itemsSchema.Some? {
      o := ValidateItems(w, fuel, node.itemsSchema.value, items, c);
    } else if node.items.Some? {
      ghost var s0 := c.Now();
      var allValidated;
      o, allValidated := ValidateWithMultipleItemsSchema(w, fuel, node.items.value, items, c);
      ghost var o1, s1 := o, c.Now();
      ghost var rest := if !allValidated && node.additionalItems.Some?
                        then AdditionalItemsSteps(node.additionalItems.value, |node.items.value|, items) else [];
      if o.Finished? && !allValidated && node.additionalItems.Some? {
        o := ValidateItemsFrom(w, fuel, node.additionalItems.value, |node.items.value|, items, c);
      }
      Onward(w, fuel, TupleSteps(node.items.value, items), rest, s0, o1, s1, o, c.Now());
    }
  }

  // ---------------------------------------------------------------------------------------
  // validate_object.c
  // ---------------------------------------------------------------------------------------

  method ValidateRequired(w: World, fuel: nat, id: Address, data: Data, required: seq<Key>, c: C.Context)
    returns (o: Outcome)
    requires c.Valid() && data.Object?
    modifies c, c.path
    ensures c.Valid() && Ran(w, fuel, RequiredSteps(id, data, required), old(c.Now()), o, c.Now())
  {
    ghost var s0 := c.Now();
    o := Finished;
    var i := 0;
    while i < |required| && o.Finished?
      invariant i <= |required|
      invariant c.Valid()
      invariant Ran(w, fuel, RequiredSteps(id, data, required[..i]), s0, o, c.Now())
      decreases |required| - i, o.Finished?
    {
      ghost var s1 := c.Now();
      var missing := !HasKey(data.members, required[i]);
      o := YieldIf(w, fuel, missing, id, data, "required", c);
      Onward(w, fuel, RequiredSteps(id, data, required[..i]), When(missing, id, data, "required"),
             s0, Finished, s1, o, c.Now());
      assert required[..i + 1][..i] == required[..i];
      i := i + 1;
    }
    if !o.Finished? {
      RequiredStop(w, fuel, id, data, required, i, s0, o, c.Now());
    } else {
      assert required[..i] == required;
    }
  }

  method ValidateDependencies(w: World, fuel: nat, data: Data, deps: seq<(Key, Address)>, c: C.Context)
    returns (o: Outcome)
    requires c.Valid() && data.Object?
    modifies c, c.path
    ensures c.Valid() && Ran(w, fuel, DependencySteps(data, deps), old(c.Now()), o, c.Now())
    decreases fuel, 4
  {
    ghost var s0 := c.Now();
    o := Finished;
    var i := 0;
    while i < |deps| && o.Finished?
      invariant i <= |deps|
      invariant c.Valid()
      invariant Ran(w, fuel, DependencySteps(data, deps[..i]), s0, o, c.Now())
      decreases |deps| - i, o.Finished?
    {
      ghost var s1 := c.Now();
      var present := HasKey(data.members, deps[i].0);
      if present { o := Invoke(w, fuel, deps[i].1, data, c); }
      Onward(w, fuel, DependencySteps(data, deps[..i]), if present then [Call((deps[i].1, data))] else [],
             s0, Finished, s1, o, c.Now());
      assert deps[..i + 1][..i] == deps[..i];
      i := i + 1;
    }
    if !o.Finished? {
      DependenciesStop(w, fuel, data, deps, i, s0, o, c.Now());
    } else {
      assert deps[..i] == deps;
    }
  }

  /** The iteration over `patternProperties`; `validated` says whether a pattern matched. */
  method ValidateByPatterns(w: World, fuel: nat, patterns: seq<(string, Address)>, name: string, value: Data,
                            c: C.Context)
    returns (o: Outcome, validated: bool)
    requires c.Valid()
    modifies c, c.path
    ensures c.Valid() && Ran(w, fuel, MatchedSteps(w, patterns, name, value), old(c.Now()), o, c.Now())
    ensures o.Finished? ==> (validated <==> Matched(w, patterns, name))
    decreases fuel, 1
  {
    ghost var s0 := c.Now();
    o, validated := Finished, false;
    var i := 0;
    while i < |patterns| && o.Finished?
      invariant i <= |patterns|
      invariant c.Valid()
      invariant Ran(w, fuel, MatchedSteps(w, patterns[..i], name, value), s0, o, c.Now())
      invariant o.Finished? ==> (validated <==> exists k :: 0 <= k < i && w.matches(patterns[k].0, name))
      decreases |patterns| - i, o.Finished?
    {
      ghost var s1 := c.Now();
      var matched := w.matches(patterns[i].0, name);
      if matched {
        o := Invoke(w, fuel, patterns[i].1, value, c);
        validated := true;
      }
      Onward(w, fuel, MatchedSteps(w, patterns[..i], name, value),
             if matched then [Call((patterns[i].1, value))] else [], s0, Finished, s1, o, c.Now());
      assert patterns[..i + 1][..i] == patterns[..i];
      i := i + 1;
    }
    if !o.Finished? {
      MatchedStop(w, fuel, patterns, name, value, i, s0, o, c.Now());
    } else {
      assert patterns[..i] == patterns;
    }
  }

  method ValidateObjectProperty(w: World, fuel: nat, id: Address, key: Key, value: Data, c: C.Context)
    returns (o: Outcome)
    requires c.Valid()
    modifies c, c.path
    ensures c.Valid() && Ran(w, fuel, MemberSteps(w, id, key, value), old(c.Now()), o, c.Now())
    decreases fuel, 2
  {
    if key.Foreign? { return Finished; }
    var node, name := w.nodes(id), key.name;
    ghost var s0 := c.Now();
    Single(w, fuel, Place(NameSlot(name)), s0);
    o := c.Add(NameSlot(name));
    var validated := false;

    ghost var done, next, o1, s1 := [Place(NameSlot(name))], NameSteps(node, name), o, c.Now();
    if o.Finished? && node.propertyNames.Some? {
      o := Invoke(w, fuel, node.propertyNames.value, Text(name), c);
    }
    Onward(w, fuel, done, next, s0, o1, s1, o, c.Now());

    done, next, o1, s1 := done + next, NamedSteps(node, name, value), o, c.Now();
    if o.Finished? && node.properties.Some? && name in node.properties.value {
      o := Invoke(w, fuel, node.properties.value[name], value, c);
      validated := true;
    }
    Onward(w, fuel, done, next, s0, o1, s1, o, c.Now());

    done, next, o1, s1 := done + next, MatchedSteps(w, Patterns(node), name, value), o, c.Now();
    if o.Finished? && node.patternProperties.Some? {
      var byPattern;
      o, byPattern := ValidateByPatterns(w, fuel, node.patternProperties.value, name, value, c);
      validated := validated || byPattern;
    }
    Onward(w, fuel, done, next, s0, o1, s1, o, c.Now());
    assert o.Finished? ==> (validated <==> Named(node, name) || Matched(w, Patterns(node), name));

    done, next, o1, s1 := done + next, AdditionalSteps(w, node, name, value), o, c.Now();
    if o.Finished? && node.additionalProperties.Some? && !validated {
      o := Invoke(w, fuel, node.additionalProperties.value, value, c);
    }
    Onward(w, fuel, done, next, s0, o1, s1, o, c.Now());
  }

  /** `rb_hash_foreach` over the members. */
  method ValidateEachProperty(w: World, fuel: nat, id: Address, members: seq<(Key, Data)>, c: C.Context)
    returns (o: Outcome)
    requires c.Valid()
    modifies c, c.path
    ensures c.Valid() && Ran(w, fuel, PropertySteps(w, id, members), old(c.Now()), o, c.Now())
    decreases fuel, 3
  {
    ghost var s1 := c.Now();
    o := Finished;
    var i := 0;
    while i < |members| && o.Finished?
      invariant i <= |members|
      invariant c.Valid()
      invariant Ran(w, fuel, PropertySteps(w, id, members[..i]), s1, o, c.Now())
      decreases |members| - i, o.Finished?
    {
      ghost var s2, more := c.Now(), MemberSteps(w, id, members[i].0, members[i].1);
      o := ValidateObjectProperty(w, fuel, id, members[i].0, members[i].1, c);
      Onward(w, fuel, PropertySteps(w, id, members[..i]), more, s1, Finished, s2, o, c.Now());
      PropertyAdded(w, id, members, i);
      i := i + 1;
    }
    if !o.Finished? {
      PropertiesStop(w, fuel, id, members, i, s1, o, c.Now());
    } else {
      assert members[..i] == members;
    }
  }

  lemma PropertyAdded(w: World, id: Address, members: seq<(Key, Data)>, i: nat)
    requires i < |members|
    ensures PropertySteps(w, id, members[..i + 1]) ==
            PropertySteps(w, id, members[..i]) + MemberSteps(w, id, members[i].0, members[i].1)
  {
    assert members[..i + 1][..i] == members[..i];
  }

  method ValidateProperties(w: World, fuel: nat, id: Address, members: seq<(Key, Data)>, c: C.Context)
    returns (o: Outcome)
    requires c.Valid()
    modifies c, c.path
    ensures c.Valid() && Ran(w, fuel, Nested(PropertySteps(w, id, members)), old(c.Now()), o, c.Now())
    decreases fuel, 4
  {
    ghost var s0, visits := c.Now(), PropertySteps(w, id, members);
    Single(w, fuel, Descend, s0);
    o := c.Incr();
    ghost var o1, s1 := o, c.Now();
    if o.Finished? { o := ValidateEachProperty(w, fuel, id, members, c); }
    Onward(w, fuel, [Descend], visits, s0, o1, s1, o, c.Now());
    ghost var o2, s2 := o, c.Now();
    Single(w, fuel, Ascend, s2);
    if o.Finished? { c.Decr(); }
    Onward(w, fuel, [Descend] + visits, [Ascend], s0, o2, s2, o, c.Now());
  }

  method ValidateObject(w: World, fuel: nat, id: Address, data: Data, c: C.Context) returns (o: Outcome)
    requires c.Valid()
    modifies c, c.path
    ensures c.Valid() && Ran(w, fuel, ObjectSteps(w, id, data), old(c.Now()), o, c.Now())
    decreases fuel, 5
  {
    if !data.Object? {
      Reported(w, fuel, Problem(id, data, "type_object"), c.Now());
      o := c.YieldError(id, data, "type_object");
      return;
    }
    var node := w.nodes(id);
    ghost var s0, done := c.Now(), LimitSteps(node, id, data);
    o := ValidateLimits(w, fuel, id, data, c);
    ghost var o1, s1 := o, c.Now();
    ghost var next := if node.required.Some? then RequiredSteps(id, data, node.required.value) else [];
    if o.Finished? && node.required.Some? {
      o := ValidateRequired(w, fuel, id, data, node.required.value, c);
    }
    Onward(w, fuel, done, next, s0, o1, s1, o, c.Now());
    done, o1, s1 := done + next, o, c.Now();
    next := if node.dependencies.Some? then DependencySteps(data, node.dependencies.value) else [];
    if o.Finished? && node.dependencies.Some? {
      o := ValidateDependencies(w, fuel, data, node.dependencies.value, c);
    }
    Onward(w, fuel, done, next, s0, o1, s1, o, c.Now());
    done, next, o1, s1 := done + next, Nested(PropertySteps(w, id, data.members)), o, c.Now();
    if o.Finished? { o := ValidateProperties(w, fuel, id, data.members, c); }
    Onward(w, fuel, done, next, s0, o1, s1, o, c.Now());
  }

  ghost function LimitSteps(node: Node, id: Address, data: Data): seq<Step>
    requires data.Object?
  {
    When(node.maxProperties.Some? && |data.members| > AsULong(node.maxProperties.value), id, data, "maxProperties")
    + When(node.minProperties.Some? && |data.members| < AsULong(node.minProperties.value), id, data, "minProperties")
  }

  /** `maxProperties` and `minProperties`. */
  method ValidateLimits(w: World, fuel: nat, id: Address, data: Data, c: C.Context) returns (o: Outcome)
    requires c.Valid() && data.Object?
    modifies c, c.path
    ensures c.Valid() && Ran(w, fuel, LimitSteps(w.nodes(id), id, data), old(c.Now()), o, c.Now())
  {
    var node := w.nodes(id);
    var over := node.maxProperties.Some? && |data.members| > AsULong(node.maxProperties.value);
    var short := node.minProperties.Some? && |data.members| < AsULong(node.minProperties.value);
    ghost var s0, next := c.Now(), When(short, id, data, "minProperties");
    o := YieldIf(w, fuel, over, id, data, "maxProperties", c);
    ghost var o1, s1 := o, c.Now();
    if o.Finished? { o := YieldIf(w, fuel, short, id, data, "minProperties", c); }
    Onward(w, fuel, When(over, id, data, "maxProperties"), next, s0, o1, s1, o, c.Now());
  }

  // ---------------------------------------------------------------------------------------
  // if.c, not.c, all_of.c, any_of.c, one_of.c
  // ---------------------------------------------------------------------------------------

  method ValidateIf(w: World, fuel: nat, id: Address, data: Data, c: C.Context) returns (o: Outcome)
    requires c.Valid() && w.nodes(id).ifSchema.Some?
    modifies c, c.path
    ensures c.Valid() && Ran(w, fuel, IfSteps(w.nodes(id), data), old(c.Now()), o, c.Now())
    decreases fuel, 2
  {
    var node := w.nodes(id);
    if node.thenSchema.None? && node.elseSchema.None? { return Finished; }
    ghost var goals, combiner := [(node.ifSchema.value, data)], Condition(data, node.thenSchema, node.elseSchema);
    ghost var s0 := c.Now();
    CountNext(w, fuel, goals, 2, 0, 0, s0);
    assert goals[0..] == goals;
    var valid;
    o, valid := IsValid(w, fuel, node.ifSchema.value, data, c);
    if !o.Finished? {
      ProbeFails(w, fuel, goals, 2, combiner, s0);
      return;
    }
    ghost var count: nat, s1 := if valid then 1 else 0, c.Now();
    CountDone(w, fuel, goals, 2, count, 1, s1);
    if valid && node.thenSchema.Some? {
      ProbeThen(w, fuel, goals, 2, combiner, s0, count, s1, (node.thenSchema.value, data),
                Problem(node.thenSchema.value, data, "if/then"));
      o := RunBranch(w, fuel, node.thenSchema.value, data, "if/then", c);
    } else if !valid && node.elseSchema.Some? {
      ProbeThen(w, fuel, goals, 2, combiner, s0, count, s1, (node.elseSchema.value, data),
                Problem(node.elseSchema.value, data, "if/else"));
      o := RunBranch(w, fuel, node.elseSchema.value, data, "if/else", c);
    } else {
      ProbeReports(w, fuel, goals, 2, combiner, s0, count, s1, [], Finished, s1);
    }
  }

  /** `run_then` and `run_else`. */
  method RunBranch(w: World, fuel: nat, id: Address, data: Data, code: string, c: C.Context) returns (o: Outcome)
    requires c.Valid()
    modifies c, c.path
    ensures c.Valid()
    ensures var p := Machine.IsValid(ProgramOf(w), fuel, (id, data), old(c.Now()));
            Result(o, c.Now()) ==
              if !p.outcome.Finished? then Result(p.outcome, p.state)
              else EmitAll(if p.valid then [] else [Problem(id, data, code)], p.state)
    decreases fuel, 1
  {
    var valid;
    o, valid := IsValid(w, fuel, id, data, c);
    if o.Finished? && !valid {
      EmitOne(Problem(id, data, code), c.Now());
      o := c.YieldError(id, data, code);
    }
  }

  method ValidateNot(w: World, fuel: nat, id: Address, data: Data, c: C.Context) returns (o: Outcome)
    requires c.Valid() && w.nodes(id).notSchema.Some?
    modifies c, c.path
    ensures c.Valid() && Ran(w, fuel, NotSteps(w.nodes(id), data), old(c.Now()), o, c.Now())
    decreases fuel, 2
  {
    var negated := w.nodes(id).notSchema.value;
    ghost var goals, combiner := [(negated, data)], Negation(negated, data);
    ghost var s0, problem := c.Now(), Problem(negated, data, "not");
    CountNext(w, fuel, goals, 2, 0, 0, s0);
    assert goals[0..] == goals;
    var valid;
    o, valid := IsValid(w, fuel, negated, data, c);
    if !o.Finished? {
      ProbeFails(w, fuel, goals, 2, combiner, s0);
      return;
    }
    ghost var count: nat, s1 := if valid then 1 else 0, c.Now();
    CountDone(w, fuel, goals, 2, count, 1, s1);
    EmitOne(problem, s1);
    if valid { o := c.YieldError(negated, data, "not"); }
    ProbeReports(w, fuel, goals, 2, combiner, s0, count, s1, if valid then [problem] else [], o, c.Now());
  }

  method ValidateAllOf(w: World, fuel: nat, id: Address, data: Data, c: C.Context) returns (o: Outcome)
    requires c.Valid() && w.nodes(id).allOf.Some?
    modifies c, c.path
    ensures c.Valid() && Ran(w, fuel, AllOfSteps(w.nodes(id), id, data), old(c.Now()), o, c.Now())
    decreases fuel, 2
  {
    var targets := w.nodes(id).allOf.value;
    ghost var s0, goals, limit := c.Now(), EachOf(targets, data), |targets| + 1;
    var i, validCount := 0, 0;
    while i < |targets|
      invariant 0 <= validCount <= i <= |targets|
      invariant c.Valid()
      invariant Count(ProgramOf(w), fuel, goals, limit, 0, s0)
             == Count(ProgramOf(w), fuel, goals[i..], limit, validCount, c.Now())
    {
      CountNext(w, fuel, goals, limit, validCount, i, c.Now());
      var valid;
      o, valid := IsValid(w, fuel, targets[i], data, c);
      if !o.Finished? {
        ProbeFails(w, fuel, goals, limit, All(id, data, |targets|), s0);
        return;
      }
      if valid { validCount := validCount + 1; }
      i := i + 1;
    }
    CountDone(w, fuel, goals, limit, validCount, i, c.Now());
    o := ReportTally(w, fuel, id, data, "allOf", validCount != |targets|, c, goals, limit,
                     All(id, data, |targets|), s0, validCount);
  }

  method ValidateAnyOf(w: World, fuel: nat, id: Address, data: Data, c: C.Context) returns (o: Outcome)
    requires c.Valid() && w.nodes(id).anyOf.Some?
    modifies c, c.path
    ensures c.Valid() && Ran(w, fuel, AnyOfSteps(w.nodes(id), id, data), old(c.Now()), o, c.Now())
    decreases fuel, 2
  {
    var targets := w.nodes(id).anyOf.value;
    ghost var s0, goals := c.Now(), EachOf(targets, data);
    var i := 0;
    while i < |targets|
      invariant 0 <= i <= |targets|
      invariant c.Valid()
      invariant Count(ProgramOf(w), fuel, goals, 1, 0, s0)
             == Count(ProgramOf(w), fuel, goals[i..], 1, 0, c.Now())
    {
      CountNext(w, fuel, goals, 1, 0, i, c.Now());
      var valid;
      o, valid := IsValid(w, fuel, targets[i], data, c);
      if !o.Finished? {
        ProbeFails(w, fuel, goals, 1, Any(id, data), s0);
        return;
      }
      if valid {
        CountDone(w, fuel, goals, 1, 1, i + 1, c.Now());
        ProbeReports(w, fuel, goals, 1, Any(id, data), s0, 1, c.Now(), [], Finished, c.Now());
        return Finished;
      }
      i := i + 1;
    }
    CountDone(w, fuel, goals, 1, 0, i, c.Now());
    o := ReportTally(w, fuel, id, data, "anyOf", true, c, goals, 1, Any(id, data), s0, 0);
  }

  method ValidateOneOf(w: World, fuel: nat, id: Address, data: Data, c: C.Context) returns (o: Outcome)
    requires c.Valid() && w.nodes(id).oneOf.Some?
    modifies c, c.path
    ensures c.Valid() && Ran(w, fuel, OneOfSteps(w.nodes(id), id, data), old(c.Now()), o, c.Now())
    decreases fuel, 2
  {
    var targets := w.nodes(id).oneOf.value;
    ghost var s0, goals := c.Now(), EachOf(targets, data);
    var validCount;
    o, validCount := CountOneOf(w, fuel, targets, data, c);
    if !o.Finished? {
      ProbeFails(w, fuel, goals, 2, One(id, data), s0);
      return;
    }
    o := ReportTally(w, fuel, id, data, "oneOf", validCount != 1, c, goals, 2, One(id, data), s0, validCount);
  }

  /** The loop of `validate_one_of`, which stops at the second valid branch. */
  method CountOneOf(w: World, fuel: nat, targets: seq<Address>, data: Data, c: C.Context)
    returns (o: Outcome, validCount: nat)
    requires c.Valid()
    modifies c, c.path
    ensures c.Valid()
    ensures var counted := Count(ProgramOf(w), fuel, EachOf(targets, data), 2, 0, old(c.Now()));
      counted.outcome == o && counted.state == c.Now() && (o.Finished? ==> counted.count == validCount)
    decreases fuel, 1
  {
    ghost var s0, goals := c.Now(), EachOf(targets, data);
    validCount := 0;
    var i := 0;
    while i < |targets|
      invariant 0 <= i <= |targets| && 0 <= validCount <= 1
      invariant c.Valid()
      invariant Count(ProgramOf(w), fuel, goals, 2, 0, s0)
             == Count(ProgramOf(w), fuel, goals[i..], 2, validCount, c.Now())
    {
      CountNext(w, fuel, goals, 2, validCount, i, c.Now());
      var valid;
      o, valid := IsValid(w, fuel, targets[i], data, c);
      if !o.Finished? { return; }
      if valid {
        validCount := validCount + 1;
        if validCount > 1 {
          CountDone(w, fuel, goals, 2, validCount, i + 1, c.Now());
          return;
        }
      }
      i := i + 1;
    }
    CountDone(w, fuel, goals, 2, validCount, i, c.Now());
    o := Finished;
  }

  /** What follows the loop of a keyword that reports when the count is not the right one. */
  method ReportTally(
    w: World, ghost fuel: nat, id: Address, data: Data, code: string, fails: bool, c: C.Context,
    ghost goals: seq<Goal>, ghost limit: nat, ghost combiner: Combiner, ghost s0: State, ghost count: nat)
    returns (o: Outcome)
    requires c.Valid() && Count(ProgramOf(w), fuel, goals, limit, 0, s0) == Counted(Finished, count, c.Now())
    requires Next(combiner, count) == Reports(if fails then [Problem(id, data, code)] else [])
    modifies c, c.path
    ensures c.Valid() && Ran(w, fuel, [Probe(goals, limit, combiner)], s0, o, c.Now())
  {
    ghost var s1, problem := c.Now(), Problem(id, data, code);
    EmitOne(problem, s1);
    o := Finished;
    if fails { o := c.YieldError(id, data, code); }
    ProbeReports(w, fuel, goals, limit, combiner, s0, count, s1, if fails then [problem] else [], o, c.Now());
  }

  // ---------------------------------------------------------------------------------------
  // schema.c
  // ---------------------------------------------------------------------------------------

  /** `validate` with a block: the errors it is called with, in order. */
  method RbValidate(w: World, fuel: nat, root: Address, data: Data) returns (o: Outcome, errors: seq<C.Error>)
    ensures var run := Validate(w, fuel, root, data);
      && o == run.outcome && |errors| == |run.state.events|
      && forall i :: 0 <= i < |errors| ==> errors[i] == C.Rendered(run.state.events[i])
    ensures o.Finished? ==> (errors == [] <==> Sat(w, fuel, root, data))
  {
    if Validate(w, fuel, root, data).outcome.Finished? { ValidateMeansSat(w, fuel, root, data); }
    var c := new C.Context();
    o := Dispatch(w, fuel, root, data, c);
    errors := c.errors;
  }

  /** `valid?`. */
  method RbValid(w: World, fuel: nat, root: Address, data: Data) returns (o: Outcome, valid: bool)
    ensures var answer := Valid(w, fuel, root, data);
            o == answer.outcome && valid == answer.valid
    ensures o.Finished? ==> (valid <==> Sat(w, fuel, root, data))
    ensures var loud := Validate(w, fuel, root, data);
            o.Finished? && valid <==> loud.outcome.Finished? && loud.state.events == []
  {
    EntryPointsAgree(w, fuel, root, data);
    if Valid(w, fuel, root, data).outcome.Finished? { ValidMeansSat(w, fuel, root, data); }
    var c := new C.Context();
    o, valid := IsValid(w, fuel + 1, root, data, c);
  }
}
