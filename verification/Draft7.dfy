/**
 What a compiled schema means, stated over the keywords and not over runs
 (sections 6.1 to 6.7 of JSON Schema Validation draft-07, section 8.3 of draft-handrews-json-schema-01),
 and the proof that the engine computes it. Two clauses are the program's own: the type of a Float
 without a fraction (see `TypesDiffer`), and `minContains` and `maxContains`, which draft-07 does not have
 (see `ContainsDiffers`).

 `$ref` can make the node graph cyclic, so the meaning is indexed by how many schema applications
 may be nested; a run that ends does not depend on the index (see Termination.dfy).
 */
module Draft7 {
  import opened Values
  import opened Schema
  import opened Machine
  import opened Keywords
  import opened Laws
  import opened Addressing
  import opened Counting
  import opened Meaning
  import opened Simulation

  // ---------------------------------------------------------------------------------------
  // The meaning
  // ---------------------------------------------------------------------------------------

  /** The datum satisfies the schema at the given depth of nesting. */
  ghost predicate Sat(w: World, fuel: nat, id: Address, data: Data) {
    Obeys(w, Meets(w, fuel), (id, data))
  }

  /** The schema applications that hold one level further in. */
  ghost function Meets(w: World, fuel: nat): Goal -> bool {
    if fuel == 0 then goal => false else goal => Obeys(w, Meets(w, fuel - 1), goal)
  }

  /** Every keyword of a schema, given which sub-schemas hold of which data; `$ref` hides its siblings. */
  ghost predicate Obeys(w: World, met: Goal -> bool, goal: Goal) {
    var (id, data) := goal;
    var node := w.nodes(id);
    match node.validation
    case NoOp => true
    case AlwaysFalse => false
    case ByRef => met((node.refSchema, data))
    case ByKeywords =>
      && TypeAllows(node, data)
      && (!node.typeCheck.NoTypeCheck? ==> KindSat(w, met, id, data))
      && w.leaf(id, Const, data).Pass?
      && w.leaf(id, Enum, data).Pass?
      && IfSat(met, node, data)
      && (node.notSchema.Some? ==> !met((node.notSchema.value, data)))
      && AllOfSat(met, node, data)
      && AnyOfSat(met, node, data)
      && OneOfSat(met, node, data)
  }

  predicate TypeAllows(node: Node, data: Data) {
    match node.typeCheck
    case ByDataType | NoTypeCheck => true
    case IsNull => data.Null?
    case IsBool => data.Bool?
    case IsString => data.Text?
    case IsInteger => data.Integer?
    case IsNumber => data.Integer? || data.Float?
    case IsArray => data.Array?
    case IsObject => data.Object?
    case ByTypeList =>
      match data
      case Null => NullBit in node.typeFlags
      case Bool(_) => BoolBit in node.typeFlags
      case Integer(_) => IntegerBit in node.typeFlags || NumberBit in node.typeFlags
      case Float(_, _) => NumberBit in node.typeFlags
      case Text(_) => StringBit in node.typeFlags
      case Array(_) => ArrayBit in node.typeFlags
      case Object(_) => ObjectBit in node.typeFlags
      case Other(_) => true
  }

  /** The type of section 6.1.1: any number with a zero fraction is an integer. */
  predicate DraftTypeAllows(node: Node, data: Data) {
    TypeAllows(node, data) || (data.Float? && data.integral && AsksInteger(node))
  }

  predicate AsksInteger(node: Node) {
    node.typeCheck.IsInteger? || (node.typeCheck.ByTypeList? && IntegerBit in node.typeFlags)
  }

  predicate AsksNumber(node: Node) {
    node.typeCheck.IsNumber? || (node.typeCheck.ByTypeList? && NumberBit in node.typeFlags)
  }

  /**
   The program's types are those of the draft exactly unless the datum is a Float without a fraction and
   the schema allows integers and not numbers.
   */
  lemma TypesDiffer(node: Node, data: Data)
    ensures TypeAllows(node, data) == DraftTypeAllows(node, data) <==>
            !(data.Float? && data.integral && AsksInteger(node) && !AsksNumber(node))
  {
  }

  /** Whether the numeric keywords are computed on longs rather than on doubles. */
  predicate OnLongs(node: Node, data: Data) {
    data.Integer? && !node.typeCheck.IsNumber? && (node.typeCheck.ByTypeList? ==> IntegerBit in node.typeFlags)
  }

  ghost predicate NumericSat(w: World, id: Address, data: Data, onLongs: bool) {
    forall kw | kw in {MultipleOf, Maximum, ExclusiveMaximum, Minimum, ExclusiveMinimum} ::
      w.leaf(id, if onLongs then IntegerKeyword(kw) else NumberKeyword(kw), data).Pass?
  }

  /** The keywords that apply to the datum's own kind. */
  ghost predicate KindSat(w: World, met: Goal -> bool, id: Address, data: Data) {
    var node := w.nodes(id);
    match data
    case Integer(_) | Float(_, _) => NumericSat(w, id, data, OnLongs(node, data))
    case Text(s) =>
      && (node.maxLength.Some? ==> |s| <= AsLong(node.maxLength.value))
      && (node.minLength.Some? ==> AsLong(node.minLength.value) <= |s|)
      && w.leaf(id, Pattern, data).Pass?
      && w.leaf(id, Format, data).Pass?
    case Array(items) =>
      && (node.maxItems.Some? ==> |items| <= AsLong(node.maxItems.value))
      && (node.minItems.Some? ==> AsLong(node.minItems.value) <= |items|)
      && w.leaf(id, Unique, data).Pass?
      && ItemsSat(met, node, items)
      && (node.contains.Some? ==> ContainsSat(met, node, items))
    case Object(members) =>
      && (node.maxProperties.Some? ==> |members| <= AsULong(node.maxProperties.value))
      && (node.minProperties.Some? ==> AsULong(node.minProperties.value) <= |members|)
      && (node.required.Some? ==> forall k | k in node.required.value :: HasKey(members, k))
      && (node.dependencies.Some? ==>
            forall d | d in node.dependencies.value :: HasKey(members, d.0) ==> met((d.1, data)))
      && MembersSat(w, met, node, members)
    case _ => true
  }

  ghost predicate ItemsSat(met: Goal -> bool, node: Node, items: seq<Data>) {
    if node.itemsSchema.Some? then
      forall i | 0 <= i < |items| :: met((node.itemsSchema.value, items[i]))
    else if node.items.Some? then
      var tuple := node.items.value;
      && (forall i | 0 <= i < |items| && i < |tuple| :: met((tuple[i], items[i])))
      && (node.additionalItems.Some? ==>
            forall i | |tuple| <= i < |items| :: met((node.additionalItems.value, items[i])))
    else true
  }

  ghost function ContainsHits(met: Goal -> bool, contained: Address, items: seq<Data>): set<nat> {
    set i: nat | i < |items| && met((contained, items[i]))
  }

  ghost predicate ContainsSat(met: Goal -> bool, node: Node, items: seq<Data>)
    requires node.contains.Some?
  {
    var hits := |ContainsHits(met, node.contains.value, items)|;
    && (node.maxContains.Some? && node.maxContains.value.Whole? ==> hits <= node.maxContains.value.n)
    && (if node.minContains.Some? && node.minContains.value.Whole? then node.minContains.value.n <= hits else 1 <= hits)
  }

  /** `contains` as section 6.4.6 has it. */
  ghost predicate DraftContains(met: Goal -> bool, node: Node, items: seq<Data>)
    requires node.contains.Some?
  {
    exists i: nat :: i < |items| && met((node.contains.value, items[i]))
  }

  function Bound(limit: Option<Limit>): Option<int> {
    if limit.Some? && limit.value.Whole? then Some(limit.value.n) else None
  }

  /**
   With `minContains` or `maxContains` the answer is another than the draft's exactly if nothing is found
   and nothing is asked for, or something is found and it is too little or too much.
   */
  lemma ContainsDiffers(met: Goal -> bool, node: Node, items: seq<Data>)
    requires node.contains.Some?
    ensures var hits := |ContainsHits(met, node.contains.value, items)|;
      var least, most := Bound(node.minContains), Bound(node.maxContains);
      ContainsSat(met, node, items) != DraftContains(met, node, items) <==>
        if hits == 0 then least.Some? && least.value <= 0 && (most.Some? ==> 0 <= most.value)
        else (least.Some? && hits < least.value) || (most.Some? && most.value < hits)
  {
    var hits := ContainsHits(met, node.contains.value, items);
    if i: nat :| i < |items| && met((node.contains.value, items[i])) { assert i in hits; }
    if |hits| > 0 { var i :| i in hits; }
  }

  /** Members under other keys than strings are not looked at. */
  ghost predicate EntrySat(w: World, met: Goal -> bool, node: Node, m: (Key, Data)) {
    m.0.Name? ==> MemberSat(w, met, node, m.0.name, m.1)
  }

  ghost predicate MembersSat(w: World, met: Goal -> bool, node: Node, members: seq<(Key, Data)>) {
    forall m | m in members :: EntrySat(w, met, node, m)
  }

  /** `additionalProperties` applies to what neither `properties` nor a pattern covers. */
  ghost predicate MemberSat(w: World, met: Goal -> bool, node: Node, name: string, value: Data) {
    && (node.propertyNames.Some? ==> met((node.propertyNames.value, Text(name))))
    && (Named(node, name) ==> met((node.properties.value[name], value)))
    && (forall p | p in Patterns(node) && w.matches(p.0, name) :: met((p.1, value)))
    && (node.additionalProperties.Some? && !Named(node, name)
        && !(exists p | p in Patterns(node) :: w.matches(p.0, name))
        ==> met((node.additionalProperties.value, value)))
  }

  ghost predicate IfSat(met: Goal -> bool, node: Node, data: Data) {
    node.ifSchema.Some? ==>
      if met((node.ifSchema.value, data))
      then node.thenSchema.Some? ==> met((node.thenSchema.value, data))
      else node.elseSchema.Some? ==> met((node.elseSchema.value, data))
  }

  ghost predicate AllOfSat(met: Goal -> bool, node: Node, data: Data) {
    node.allOf.Some? ==> forall i: nat | i < |node.allOf.value| :: met((node.allOf.value[i], data))
  }

  ghost predicate AnyOfSat(met: Goal -> bool, node: Node, data: Data) {
    node.anyOf.Some? ==> exists i: nat | i < |node.anyOf.value| :: met((node.anyOf.value[i], data))
  }

  ghost predicate OneOfSat(met: Goal -> bool, node: Node, data: Data) {
    node.oneOf.Some? ==> exists i: nat :: OnlyBranch(met, node.oneOf.value, data, i)
  }

  ghost predicate OnlyBranch(met: Goal -> bool, targets: seq<Address>, data: Data, i: nat) {
    && i < |targets| && met((targets[i], data))
    && forall j: nat | j < |targets| :: met((targets[j], data)) ==> j == i
  }

  // ---------------------------------------------------------------------------------------
  // The steps of a node mean what its keywords mean
  // ---------------------------------------------------------------------------------------

  lemma BodyMeans(w: World, met: Goal -> bool, goal: Goal)
    ensures AllHold(met, Body(w, goal)) <==> Obeys(w, met, goal)
  {
    var (id, data) := goal;
    var node := w.nodes(id);
    if node.validation.ByKeywords? {
      TypeMeans(w, met, id, data);
      LeafMeans(w, met, id, Const, data, "const");
      LeafMeans(w, met, id, Enum, data, "enum");
      IfMeans(met, node, data);
      NotMeans(met, node, data);
      CombinatorsMean(met, node, id, data);
      Spread(met, TypeSteps(w, id, data), Leaf(w, id, Const, data, "const"),
             Leaf(w, id, Enum, data, "enum"), IfSteps(node, data), NotSteps(node, data),
             AllOfSteps(node, id, data), AnyOfSteps(node, id, data), OneOfSteps(node, id, data));
    } else if node.validation.ByRef? {
      One(met, Call((node.refSchema, data)));
    } else if node.validation.AlwaysFalse? {
      One(met, Report(Problem(id, data, "false_schema")));
    }
  }

  lemma One(met: Goal -> bool, step: Step)
    ensures AllHold(met, [step]) <==> StepHolds(met, step)
  {
    assert step in [step];
  }

  lemma Both(met: Goal -> bool, a: seq<Step>, b: seq<Step>)
    ensures AllHold(met, a + b) <==> AllHold(met, a) && AllHold(met, b)
  {
    assert forall s :: s in a + b <==> s in a || s in b;
  }

  lemma Spread(met: Goal -> bool, a: seq<Step>, b: seq<Step>, c: seq<Step>, d: seq<Step>,
               e: seq<Step>, f: seq<Step>, g: seq<Step>, h: seq<Step>)
    ensures AllHold(met, a + b + c + d + e + f + g + h) <==>
            && AllHold(met, a) && AllHold(met, b) && AllHold(met, c) && AllHold(met, d)
            && AllHold(met, e) && AllHold(met, f) && AllHold(met, g) && AllHold(met, h)
  {
    FiveHold(met, a, b, c, d, e);
    Both(met, a + b + c + d + e, f);
    Both(met, a + b + c + d + e + f, g);
    Both(met, a + b + c + d + e + f + g, h);
  }

  lemma FiveHold(met: Goal -> bool, a: seq<Step>, b: seq<Step>, c: seq<Step>, d: seq<Step>, e: seq<Step>)
    ensures AllHold(met, a + b + c + d + e) <==>
            AllHold(met, a) && AllHold(met, b) && AllHold(met, c) && AllHold(met, d) && AllHold(met, e)
  {
    Both(met, a, b);
    Both(met, a + b, c);
    Both(met, a + b + c, d);
    Both(met, a + b + c + d, e);
  }

  ghost predicate Says<T(!new)>(met: Goal -> bool, each: T -> seq<Step>, holds: T -> bool, x: T) {
    AllHold(met, each(x)) <==> holds(x)
  }

  lemma {:induction false} FoldMeans<T(!new)>(
    met: Goal -> bool, steps: seq<T> -> seq<Step>, each: T -> seq<Step>, holds: T -> bool, xs: seq<T>)
    requires steps([]) == [] && forall init, x :: Extends(steps, each, init, x)
    requires forall x :: Says(met, each, holds, x)
    ensures AllHold(met, steps(xs)) <==> forall x :: x in xs ==> holds(x)
    decreases |xs|
  {
    if xs != [] {
      var init, last := xs[..|xs| - 1], xs[|xs| - 1];
      FoldMeans(met, steps, each, holds, init);
      assert xs == init + [last] && Extends(steps, each, init, last) && Says(met, each, holds, last);
      Both(met, steps(init), each(last));
      assert forall x :: x in xs <==> x in init || x == last;
    }
  }

  lemma LeafMeans(w: World, met: Goal -> bool, id: Address, check: LeafCheck, data: Data, code: string)
    ensures AllHold(met, Leaf(w, id, check, data, code)) <==> w.leaf(id, check, data).Pass?
  {
    match w.leaf(id, check, data)
    case Pass =>
    case Fail => One(met, Report(Problem(id, data, code)));
    case Raises(message) => One(met, Crash(message));
  }

  lemma WhenMeans(met: Goal -> bool, failed: bool, id: Address, data: Data, code: string)
    ensures AllHold(met, When(failed, id, data, code)) <==> !failed
  {
    if failed { One(met, Report(Problem(id, data, code))); }
  }

  lemma IfMeans(met: Goal -> bool, node: Node, data: Data)
    ensures AllHold(met, IfSteps(node, data)) <==> IfSat(met, node, data)
  {
    if IfSteps(node, data) != [] {
      One(met, IfSteps(node, data)[0]);
      TallyOne(met, (node.ifSchema.value, data));
    }
  }

  lemma NotMeans(met: Goal -> bool, node: Node, data: Data)
    ensures AllHold(met, NotSteps(node, data)) <==>
            (node.notSchema.Some? ==> !met((node.notSchema.value, data)))
  {
    if node.notSchema.Some? {
      One(met, NotSteps(node, data)[0]);
      TallyOne(met, (node.notSchema.value, data));
    }
  }

  lemma CombinatorsMean(met: Goal -> bool, node: Node, id: Address, data: Data)
    ensures AllHold(met, AllOfSteps(node, id, data)) <==> AllOfSat(met, node, data)
    ensures AllHold(met, AnyOfSteps(node, id, data)) <==> AnyOfSat(met, node, data)
    ensures AllHold(met, OneOfSteps(node, id, data)) <==> OneOfSat(met, node, data)
  {
    if node.allOf.Some? {
      One(met, AllOfSteps(node, id, data)[0]);
      EachOfMeans(met, node.allOf.value, data);
    }
    if node.anyOf.Some? {
      One(met, AnyOfSteps(node, id, data)[0]);
      EachOfMeans(met, node.anyOf.value, data);
    }
    if node.oneOf.Some? {
      One(met, OneOfSteps(node, id, data)[0]);
      EachOfMeans(met, node.oneOf.value, data);
    }
  }

  /** The tally over the branches of a combinator, in terms of the branches. */
  lemma EachOfMeans(met: Goal -> bool, targets: seq<Address>, data: Data)
    ensures var n := Tally(met, EachOf(targets, data));
      && n <= |targets|
      && (n == |targets| <==> forall i: nat | i < |targets| :: met((targets[i], data)))
      && (n > 0 <==> exists i: nat | i < |targets| :: met((targets[i], data)))
      && (n == 1 <==> exists i: nat :: OnlyBranch(met, targets, data, i))
  {
    var goals := EachOf(targets, data);
    TallyMeans(met, goals);
    assert forall i: nat | i < |targets| :: goals[i] == (targets[i], data);
    if i: nat :| Only(met, goals, i) { assert OnlyBranch(met, targets, data, i); }
    if i: nat :| OnlyBranch(met, targets, data, i) { assert Only(met, goals, i); }
  }

  lemma TypeMeans(w: World, met: Goal -> bool, id: Address, data: Data)
    ensures AllHold(met, TypeSteps(w, id, data)) <==>
            TypeAllows(w.nodes(id), data) && (!w.nodes(id).typeCheck.NoTypeCheck? ==> KindSat(w, met, id, data))
  {
    var node := w.nodes(id);
    if node.typeCheck.IsNull? {
      WhenMeans(met, !data.Null?, id, data, "type_null");
    } else if node.typeCheck.IsBool? {
      WhenMeans(met, !data.Bool?, id, data, "type_bool");
    } else if !TypeAllows(node, data) {
      assert |TypeSteps(w, id, data)| == 1;
      One(met, TypeSteps(w, id, data)[0]);
    } else if !node.typeCheck.NoTypeCheck? {
      match data
      case Integer(_) | Float(_, _) => NumbersMean(w, met, id, data);
      case Text(_) => StringMeans(w, met, id, data);
      case Array(_) => ArrayMeans(w, met, id, data);
      case Object(_) => ObjectMeans(w, met, id, data);
      case _ =>
    }
  }

  lemma NumbersMean(w: World, met: Goal -> bool, id: Address, data: Data)
    requires data.Integer? || data.Float?
    ensures data.Integer? ==> (AllHold(met, IntegerSteps(w, id, data)) <==> NumericSat(w, id, data, true))
    ensures AllHold(met, NumberSteps(w, id, data)) <==> NumericSat(w, id, data, false)
  {
    if data.Integer? {
      FiveMean(w, met, id, data, IntegerKeyword(MultipleOf), IntegerKeyword(Maximum),
        IntegerKeyword(ExclusiveMaximum), IntegerKeyword(Minimum), IntegerKeyword(ExclusiveMinimum));
    }
    FiveMean(w, met, id, data, NumberKeyword(MultipleOf), NumberKeyword(Maximum),
      NumberKeyword(ExclusiveMaximum), NumberKeyword(Minimum), NumberKeyword(ExclusiveMinimum));
  }

  lemma FiveMean(w: World, met: Goal -> bool, id: Address, data: Data,
                 a: LeafCheck, b: LeafCheck, c: LeafCheck, d: LeafCheck, e: LeafCheck)
    ensures AllHold(met, Leaf(w, id, a, data, "multipleOf") + Leaf(w, id, b, data, "maximum")
              + Leaf(w, id, c, data, "exclusiveMaximum") + Leaf(w, id, d, data, "minimum")
              + Leaf(w, id, e, data, "exclusiveMinimum")) <==>
            && w.leaf(id, a, data).Pass? && w.leaf(id, b, data).Pass? && w.leaf(id, c, data).Pass?
            && w.leaf(id, d, data).Pass? && w.leaf(id, e, data).Pass?
  {
    LeafMeans(w, met, id, a, data, "multipleOf");
    LeafMeans(w, met, id, b, data, "maximum");
    LeafMeans(w, met, id, c, data, "exclusiveMaximum");
    LeafMeans(w, met, id, d, data, "minimum");
    LeafMeans(w, met, id, e, data, "exclusiveMinimum");
    FiveHold(met, Leaf(w, id, a, data, "multipleOf"), Leaf(w, id, b, data, "maximum"),
             Leaf(w, id, c, data, "exclusiveMaximum"), Leaf(w, id, d, data, "minimum"),
             Leaf(w, id, e, data, "exclusiveMinimum"));
  }

  lemma StringMeans(w: World, met: Goal -> bool, id: Address, data: Data)
    requires data.Text?
    ensures AllHold(met, StringSteps(w, id, data)) <==> KindSat(w, met, id, data)
  {
    var node := w.nodes(id);
    var tooLong := node.maxLength.Some? && |data.s| > AsLong(node.maxLength.value);
    var tooShort := node.minLength.Some? && |data.s| < AsLong(node.minLength.value);
    var a, b := When(tooLong, id, data, "maxLength"), When(tooShort, id, data, "minLength");
    WhenMeans(met, tooLong, id, data, "maxLength");
    WhenMeans(met, tooShort, id, data, "minLength");
    LeafMeans(w, met, id, Pattern, data, "pattern");
    LeafMeans(w, met, id, Format, data, node.formatKey);
    Both(met, a, b);
    Both(met, a + b, Leaf(w, id, Pattern, data, "pattern"));
    Both(met, a + b + Leaf(w, id, Pattern, data, "pattern"), Leaf(w, id, Format, data, node.formatKey));
  }

  // --- arrays ---

  lemma NestedMeans(met: Goal -> bool, steps: seq<Step>)
    ensures AllHold(met, Nested(steps)) <==> AllHold(met, steps)
  {
    Both(met, [Descend], steps);
    Both(met, [Descend] + steps, [Ascend]);
  }

  lemma {:induction false} VisitsMean(
    met: Goal -> bool, targets: seq<Address>, items: seq<Data>, from: nat, upTo: nat)
    requires upTo <= |targets| && upTo <= |items|
    ensures AllHold(met, Visits(targets, items, from, upTo)) <==>
            forall i | from <= i < upTo :: met((targets[i], items[i]))
    decreases upTo
  {
    if from < upTo {
      VisitsMean(met, targets, items, from, upTo - 1);
      var last := [Place(IndexSlot(upTo - 1)), Call((targets[upTo - 1], items[upTo - 1]))];
      Both(met, Visits(targets, items, from, upTo - 1), last);
      assert last[1] in last;
    }
  }

  lemma ItemsMean(met: Goal -> bool, node: Node, items: seq<Data>)
    ensures AllHold(met, ItemsSteps(node, items)) <==> ItemsSat(met, node, items)
  {
    if node.itemsSchema.Some? {
      var targets := seq(|items|, _ => node.itemsSchema.value);
      VisitsMean(met, targets, items, 0, |items|);
      NestedMeans(met, Visits(targets, items, 0, |items|));
      assert forall i | 0 <= i < |items| :: targets[i] == node.itemsSchema.value;
    } else if node.items.Some? {
      var tuple := node.items.value;
      VisitsMean(met, tuple, items, 0, Least(|tuple|, |items|));
      NestedMeans(met, Visits(tuple, items, 0, Least(|tuple|, |items|)));
      if |items| > |tuple| && node.additionalItems.Some? {
        var more := seq(|items|, _ => node.additionalItems.value);
        VisitsMean(met, more, items, |tuple|, |items|);
        NestedMeans(met, Visits(more, items, |tuple|, |items|));
        assert forall i | 0 <= i < |items| :: more[i] == node.additionalItems.value;
        Both(met, TupleSteps(tuple, items), AdditionalItemsSteps(node.additionalItems.value, |tuple|, items));
      } else {
        Both(met, TupleSteps(tuple, items), []);
      }
    }
  }

  lemma ContainsMeans(met: Goal -> bool, node: Node, id: Address, data: Data)
    requires data.Array?
    ensures AllHold(met, ContainsSteps(node, id, data)) <==>
            (node.contains.Some? ==> ContainsSat(met, node, data.items))
  {
    if node.contains.Some? {
      var goals := ForAll(node.contains.value, data.items);
      One(met, ContainsSteps(node, id, data)[0]);
      TallyMeans(met, goals);
      assert Hits(met, goals) == ContainsHits(met, node.contains.value, data.items);
    }
  }

  lemma ArrayMeans(w: World, met: Goal -> bool, id: Address, data: Data)
    requires data.Array?
    ensures AllHold(met, ArraySteps(w, id, data)) <==> KindSat(w, met, id, data)
  {
    var node := w.nodes(id);
    var over := node.maxItems.Some? && |data.items| > AsLong(node.maxItems.value);
    var short := node.minItems.Some? && |data.items| < AsLong(node.minItems.value);
    var a, b := When(over, id, data, "maxItems"), When(short, id, data, "minItems");
    var c := Leaf(w, id, Unique, data, "uniqueItems");
    WhenMeans(met, over, id, data, "maxItems");
    WhenMeans(met, short, id, data, "minItems");
    LeafMeans(w, met, id, Unique, data, "uniqueItems");
    ItemsMean(met, node, data.items);
    ContainsMeans(met, node, id, data);
    FiveHold(met, a, b, c, ItemsSteps(node, data.items), ContainsSteps(node, id, data));
  }

  // --- objects ---

  lemma {:induction false} RequiredMeans(met: Goal -> bool, id: Address, data: Data, required: seq<Key>)
    requires data.Object?
    ensures AllHold(met, RequiredSteps(id, data, required)) <==>
            forall k | k in required :: HasKey(data.members, k)
    decreases |required|
  {
    if required != [] {
      var last := |required| - 1;
      RequiredMeans(met, id, data, required[..last]);
      WhenMeans(met, !HasKey(data.members, required[last]), id, data, "required");
      Both(met, RequiredSteps(id, data, required[..last]),
           When(!HasKey(data.members, required[last]), id, data, "required"));
      assert forall k :: k in required <==> k in required[..last] || k == required[last];
    }
  }

  lemma {:induction false} DependenciesMean(met: Goal -> bool, data: Data, deps: seq<(Key, Address)>)
    requires data.Object?
    ensures AllHold(met, DependencySteps(data, deps)) <==>
            forall d | d in deps :: HasKey(data.members, d.0) ==> met((d.1, data))
    decreases |deps|
  {
    if deps != [] {
      var last := |deps| - 1;
      DependenciesMean(met, data, deps[..last]);
      var tail := if HasKey(data.members, deps[last].0) then [Call((deps[last].1, data))] else [];
      Both(met, DependencySteps(data, deps[..last]), tail);
      One(met, Call((deps[last].1, data)));
      assert forall d :: d in deps <==> d in deps[..last] || d == deps[last];
    }
  }

  lemma {:induction false} MatchedMeans(
    w: World, met: Goal -> bool, patterns: seq<(string, Address)>, name: string, value: Data)
    ensures AllHold(met, MatchedSteps(w, patterns, name, value)) <==>
            forall p | p in patterns && w.matches(p.0, name) :: met((p.1, value))
    decreases |patterns|
  {
    if patterns != [] {
      var last := |patterns| - 1;
      MatchedMeans(w, met, patterns[..last], name, value);
      var tail := if w.matches(patterns[last].0, name) then [Call((patterns[last].1, value))] else [];
      Both(met, MatchedSteps(w, patterns[..last], name, value), tail);
      One(met, Call((patterns[last].1, value)));
      assert forall p :: p in patterns <==> p in patterns[..last] || p == patterns[last];
    }
  }

  lemma MemberMeans(w: World, met: Goal -> bool, id: Address, key: Key, value: Data)
    ensures AllHold(met, MemberSteps(w, id, key, value)) <==>
            (key.Name? ==> MemberSat(w, met, w.nodes(id), key.name, value))
  {
    if key.Name? {
      var node := w.nodes(id);
      var place := [Place(NameSlot(key.name))];
      var s1 := NameSteps(node, key.name);
      var s2 := NamedSteps(node, key.name, value);
      var s3 := MatchedSteps(w, Patterns(node), key.name, value);
      var s4 := AdditionalSteps(w, node, key.name, value);
      if s1 != [] { One(met, s1[0]); }
      if s2 != [] { One(met, s2[0]); }
      if s4 != [] { One(met, s4[0]); }
      MatchedMeans(w, met, Patterns(node), key.name, value);
      assert Matched(w, Patterns(node), key.name) <==> exists p | p in Patterns(node) :: w.matches(p.0, key.name);
      FiveHold(met, place, s1, s2, s3, s4);
    }
  }

  lemma PropertiesMean(w: World, met: Goal -> bool, id: Address, members: seq<(Key, Data)>)
    ensures AllHold(met, PropertySteps(w, id, members)) <==> MembersSat(w, met, w.nodes(id), members)
  {
    var steps := (ms: seq<(Key, Data)>) => PropertySteps(w, id, ms);
    var each := (m: (Key, Data)) => MemberSteps(w, id, m.0, m.1);
    var holds := (m: (Key, Data)) => EntrySat(w, met, w.nodes(id), m);
    forall init, m: (Key, Data) ensures Extends(steps, each, init, m) { assert (init + [m])[..|init|] == init; }
    forall m: (Key, Data) ensures Says(met, each, holds, m) { MemberMeans(w, met, id, m.0, m.1); }
    FoldMeans(met, steps, each, holds, members);
    assert forall m: (Key, Data) :: holds(m) == EntrySat(w, met, w.nodes(id), m);
  }

  lemma ObjectMeans(w: World, met: Goal -> bool, id: Address, data: Data)
    requires data.Object?
    ensures AllHold(met, ObjectSteps(w, id, data)) <==> KindSat(w, met, id, data)
  {
    var node := w.nodes(id);
    var over := node.maxProperties.Some? && |data.members| > AsULong(node.maxProperties.value);
    var short := node.minProperties.Some? && |data.members| < AsULong(node.minProperties.value);
    var a, b := When(over, id, data, "maxProperties"), When(short, id, data, "minProperties");
    var c := if node.required.Some? then RequiredSteps(id, data, node.required.value) else [];
    var d := if node.dependencies.Some? then DependencySteps(data, node.dependencies.value) else [];
    WhenMeans(met, over, id, data, "maxProperties");
    WhenMeans(met, short, id, data, "minProperties");
    if node.required.Some? { RequiredMeans(met, id, data, node.required.value); }
    if node.dependencies.Some? { DependenciesMean(met, data, node.dependencies.value); }
    PropertiesMean(w, met, id, data.members);
    NestedMeans(met, PropertySteps(w, id, data.members));
    FiveHold(met, a, b, c, d, Nested(PropertySteps(w, id, data.members)));
  }

  // ---------------------------------------------------------------------------------------
  // The entry points
  // ---------------------------------------------------------------------------------------

  ghost function MeaningOf(w: World): Family {
    fuel => Meets(w, fuel)
  }

  lemma GoalExplained(w: World, fuel: nat, goal: Goal)
    ensures Meets(w, fuel)(goal) <==> fuel > 0 && AllHold(Meets(w, fuel - 1), Body(w, goal))
  {
    if fuel > 0 { BodyMeans(w, Meets(w, fuel - 1), goal); }
  }

  lemma KeywordsExplained(w: World)
    ensures Explains(MeaningOf(w), ProgramOf(w))
  {
    var meets, prog := MeaningOf(w), ProgramOf(w);
    forall fuel: nat, goal
      ensures meets(fuel)(goal) <==> fuel > 0 && AllHold(meets(fuel - 1), prog.body(goal))
    {
      MeaningExplained(w, fuel, goal);
    }
  }

  lemma MeaningExplained(w: World, fuel: nat, goal: Goal)
    ensures MeaningOf(w)(fuel)(goal) <==>
            fuel > 0 && AllHold(MeaningOf(w)(fuel - 1), ProgramOf(w).body(goal))
  {
    GoalExplained(w, fuel, goal);
    assert MeaningOf(w)(fuel) == Meets(w, fuel);
    if fuel > 0 { assert MeaningOf(w)(fuel - 1) == Meets(w, fuel - 1); }
  }

  /** An answer of `valid?` is the meaning of the schema. */
  lemma ValidMeansSat(w: World, fuel: nat, root: Address, data: Data)
    requires Valid(w, fuel, root, data).outcome.Finished?
    ensures Valid(w, fuel, root, data).valid <==> Sat(w, fuel, root, data)
  {
    KeywordsExplained(w);
    IsValidMeans(ProgramOf(w), MeaningOf(w), fuel + 1, (root, data), Fresh());
  }

  /** A Float without a fraction is refused as an integer, though section 6.1.1 allows it. */
  lemma IntegralRefused(w: World, fuel: nat, root: Address, data: Data)
    requires data.Float? && data.integral && w.nodes(root).validation.ByKeywords?
    requires AsksInteger(w.nodes(root)) && !AsksNumber(w.nodes(root))
    requires Valid(w, fuel, root, data).outcome.Finished?
    ensures !Valid(w, fuel, root, data).valid && DraftTypeAllows(w.nodes(root), data)
  {
    ValidMeansSat(w, fuel, root, data);
  }

  /** A completed `validate` reports something exactly when the schema does not hold. */
  lemma ValidateMeansSat(w: World, fuel: nat, root: Address, data: Data)
    requires Validate(w, fuel, root, data).outcome.Finished?
    ensures Validate(w, fuel, root, data).state.events == [] <==> Sat(w, fuel, root, data)
  {
    KeywordsInPlace(w);
    AskAgrees(ProgramOf(w), fuel, (root, data));
    ValidMeansSat(w, fuel, root, data);
  }
}
