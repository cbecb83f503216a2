/** The steps of a compiled schema node on a datum, keyword by keyword in the engine's order. */
module Keywords {
  import opened Values
  import opened Schema
  import opened Machine

  function When(failed: bool, id: Address, data: Data, code: string): seq<Step> {
    if failed then [Report(Problem(id, data, code))] else []
  }

  function Leaf(w: World, id: Address, check: LeafCheck, data: Data, code: string): seq<Step> {
    match w.leaf(id, check, data)
    case Pass => []
    case Fail => [Report(Problem(id, data, code))]
    case Raises(message) => [Crash(message)]
  }

  function Body(w: World, goal: Goal): seq<Step> {
    var (id, data) := goal;
    match w.nodes(id).validation
    case NoOp => []
    case AlwaysFalse => [Report(Problem(id, data, "false_schema"))]
    case ByRef => [Call((w.nodes(id).refSchema, data))]
    case ByKeywords => KeywordSteps(w, id, data)
  }

  function KeywordSteps(w: World, id: Address, data: Data): seq<Step> {
    TypeSteps(w, id, data)
    + Leaf(w, id, Const, data, "const")
    + Leaf(w, id, Enum, data, "enum")
    + IfSteps(w.nodes(id), data)
    + NotSteps(w.nodes(id), data)
    + AllOfSteps(w.nodes(id), id, data)
    + AnyOfSteps(w.nodes(id), id, data)
    + OneOfSteps(w.nodes(id), id, data)
  }

  function TypeSteps(w: World, id: Address, data: Data): seq<Step> {
    match w.nodes(id).typeCheck
    case ByDataType => DataTypeSteps(w, id, data)
    case ByTypeList => TypeListSteps(w, id, data)
    case IsNull => When(!data.Null?, id, data, "type_null")
    case IsBool => When(!data.Bool?, id, data, "type_bool")
    case IsString => StringSteps(w, id, data)
    case IsInteger => IntegerSteps(w, id, data)
    case IsNumber => NumberSteps(w, id, data)
    case IsArray => ArraySteps(w, id, data)
    case IsObject => ObjectSteps(w, id, data)
    case NoTypeCheck => []
  }

  /** Nothing, or one report about the datum. */
  predicate IsShort(steps: seq<Step>, data: Data) {
    steps == [] || (|steps| == 1 && steps[0].Report? && steps[0].problem.data == data)
  }

  predicate IsKind(w: World, id: Address, data: Data, steps: seq<Step>) {
    || steps == IntegerSteps(w, id, data) || steps == NumberSteps(w, id, data) || steps == StringSteps(w, id, data)
    || steps == ArraySteps(w, id, data) || steps == ObjectSteps(w, id, data) || IsShort(steps, data)
  }

  /** A type function runs the keywords of one kind, reports, or does nothing. */
  lemma TypeCases(w: World, id: Address, data: Data)
    ensures IsKind(w, id, data, TypeSteps(w, id, data))
  {
    match w.nodes(id).typeCheck
    case ByDataType => DataTypeCases(w, id, data);
    case ByTypeList => ListTypeCases(w, id, data);
    case _ =>
  }

  lemma {:induction false} DataTypeCases(w: World, id: Address, data: Data)
    ensures IsKind(w, id, data, DataTypeSteps(w, id, data))
  {
  }

  lemma {:induction false} ListTypeCases(w: World, id: Address, data: Data)
    ensures IsKind(w, id, data, TypeListSteps(w, id, data))
  {
  }

  function DataTypeSteps(w: World, id: Address, data: Data): seq<Step> {
    match data
    case Integer(_) => IntegerSteps(w, id, data)
    case Float(_, _) => NumberSteps(w, id, data)
    case Text(_) => StringSteps(w, id, data)
    case Object(_) => ObjectSteps(w, id, data)
    case Array(_) => ArraySteps(w, id, data)
    case _ => []
  }

  function TypeListSteps(w: World, id: Address, data: Data): seq<Step> {
    var flags := w.nodes(id).typeFlags;
    var mismatch := [Report(Problem(id, data, "type"))];
    match data
    case Null => if NullBit in flags then [] else mismatch
    case Bool(_) => if BoolBit in flags then [] else mismatch
    case Integer(_) =>
      if IntegerBit in flags then IntegerSteps(w, id, data)
      else if NumberBit in flags then NumberSteps(w, id, data)
      else mismatch
    case Float(_, _) => if NumberBit in flags then NumberSteps(w, id, data) else mismatch
    case Text(_) => if StringBit in flags then StringSteps(w, id, data) else mismatch
    case Object(_) => if ObjectBit in flags then ObjectSteps(w, id, data) else mismatch
    case Array(_) => if ArrayBit in flags then ArraySteps(w, id, data) else mismatch
    case Other(_) => []
  }

  function IntegerSteps(w: World, id: Address, data: Data): seq<Step> {
    if !data.Integer? then [Report(Problem(id, data, "type_integer"))]
    else
      Leaf(w, id, IntegerKeyword(MultipleOf), data, "multipleOf")
      + Leaf(w, id, IntegerKeyword(Maximum), data, "maximum")
      + Leaf(w, id, IntegerKeyword(ExclusiveMaximum), data, "exclusiveMaximum")
      + Leaf(w, id, IntegerKeyword(Minimum), data, "minimum")
      + Leaf(w, id, IntegerKeyword(ExclusiveMinimum), data, "exclusiveMinimum")
  }

  function NumberSteps(w: World, id: Address, data: Data): seq<Step> {
    if !data.Integer? && !data.Float? then [Report(Problem(id, data, "type_number"))]
    else
      Leaf(w, id, NumberKeyword(MultipleOf), data, "multipleOf")
      + Leaf(w, id, NumberKeyword(Maximum), data, "maximum")
      + Leaf(w, id, NumberKeyword(ExclusiveMaximum), data, "exclusiveMaximum")
      + Leaf(w, id, NumberKeyword(Minimum), data, "minimum")
      + Leaf(w, id, NumberKeyword(ExclusiveMinimum), data, "exclusiveMinimum")
  }

  function StringSteps(w: World, id: Address, data: Data): seq<Step> {
    if !data.Text? then [Report(Problem(id, data, "type_string"))]
    else
      var node := w.nodes(id);
      When(node.maxLength.Some? && |data.s| > AsLong(node.maxLength.value), id, data, "maxLength")
      + When(node.minLength.Some? && |data.s| < AsLong(node.minLength.value), id, data, "minLength")
      + Leaf(w, id, Pattern, data, "pattern")
      + Leaf(w, id, Format, data, node.formatKey)
  }

  // --- arrays ---

  function ArraySteps(w: World, id: Address, data: Data): seq<Step> {
    if !data.Array? then [Report(Problem(id, data, "type_array"))]
    else
      var node := w.nodes(id);
      When(node.maxItems.Some? && |data.items| > AsLong(node.maxItems.value), id, data, "maxItems")
      + When(node.minItems.Some? && |data.items| < AsLong(node.minItems.value), id, data, "minItems")
      + Leaf(w, id, Unique, data, "uniqueItems")
      + ItemsSteps(node, data.items)
      + ContainsSteps(node, id, data)
  }

  function ItemsSteps(node: Node, items: seq<Data>): seq<Step> {
    if node.itemsSchema.Some? then
      Nested(Visits(seq(|items|, _ => node.itemsSchema.value), items, 0, |items|))
    else if node.items.Some? then
      TupleSteps(node.items.value, items)
      + (if |items| > |node.items.value| && node.additionalItems.Some?
         then AdditionalItemsSteps(node.additionalItems.value, |node.items.value|, items) else [])
    else []
  }

  function Nested(steps: seq<Step>): seq<Step> {
    [Descend] + steps + [Ascend]
  }

  function Visits(targets: seq<Address>, items: seq<Data>, from: nat, upTo: nat): seq<Step>
    requires upTo <= |targets| && upTo <= |items|
    decreases upTo
  {
    if upTo <= from then []
    else Visits(targets, items, from, upTo - 1)
         + [Place(IndexSlot(upTo - 1)), Call((targets[upTo - 1], items[upTo - 1]))]
  }

  function TupleSteps(targets: seq<Address>, items: seq<Data>): seq<Step> {
    Nested(Visits(targets, items, 0, Least(|targets|, |items|)))
  }

  function AdditionalItemsSteps(target: Address, from: nat, items: seq<Data>): seq<Step> {
    Nested(Visits(seq(|items|, _ => target), items, from, |items|))
  }

  function ContainsSteps(node: Node, id: Address, data: Data): seq<Step>
    requires data.Array?
  {
    if node.contains.None? then []
    else
      [Probe(ForAll(node.contains.value, data.items), |data.items| + 1,
             Occurrences(id, node.contains.value, data, node.maxContains, node.minContains))]
  }

  /** One schema against each of many data. */
  function ForAll(target: Address, items: seq<Data>): seq<Goal> {
    seq(|items|, i requires 0 <= i < |items| => (target, items[i]))
  }

  // --- objects ---

  function ObjectSteps(w: World, id: Address, data: Data): seq<Step> {
    if !data.Object? then [Report(Problem(id, data, "type_object"))]
    else
      var node := w.nodes(id);
      When(node.maxProperties.Some? && |data.members| > AsULong(node.maxProperties.value), id, data, "maxProperties")
      + When(node.minProperties.Some? && |data.members| < AsULong(node.minProperties.value), id, data, "minProperties")
      + (if node.required.Some? then RequiredSteps(id, data, node.required.value) else [])
      + (if node.dependencies.Some? then DependencySteps(data, node.dependencies.value) else [])
      + Nested(PropertySteps(w, id, data.members))
  }

  function RequiredSteps(id: Address, data: Data, required: seq<Key>): seq<Step>
    requires data.Object?
    decreases |required|
  {
    if required == [] then []
    else
      var last := |required| - 1;
      RequiredSteps(id, data, required[..last])
      + When(!HasKey(data.members, required[last]), id, data, "required")
  }

  function DependencySteps(data: Data, dependencies: seq<(Key, Address)>): seq<Step>
    requires data.Object?
    decreases |dependencies|
  {
    if dependencies == [] then []
    else
      var last := |dependencies| - 1;
      DependencySteps(data, dependencies[..last])
      + (if HasKey(data.members, dependencies[last].0) then [Call((dependencies[last].1, data))] else [])
  }

  function PropertySteps(w: World, id: Address, members: seq<(Key, Data)>): seq<Step>
    decreases |members|
  {
    if members == [] then []
    else
      var last := |members| - 1;
      PropertySteps(w, id, members[..last]) + MemberSteps(w, id, members[last].0, members[last].1)
  }

  function MemberSteps(w: World, id: Address, key: Key, value: Data): seq<Step> {
    if key.Foreign? then []
    else
      var node := w.nodes(id);
      [Place(NameSlot(key.name))]
      + NameSteps(node, key.name)
      + NamedSteps(node, key.name, value)
      + MatchedSteps(w, Patterns(node), key.name, value)
      + AdditionalSteps(w, node, key.name, value)
  }

  function NameSteps(node: Node, name: string): seq<Step> {
    if node.propertyNames.Some? then [Call((node.propertyNames.value, Text(name)))] else []
  }

  predicate Named(node: Node, name: string) {
    node.properties.Some? && name in node.properties.value
  }

  function NamedSteps(node: Node, name: string, value: Data): seq<Step> {
    if Named(node, name) then [Call((node.properties.value[name], value))] else []
  }

  function Patterns(node: Node): seq<(string, Address)> {
    if node.patternProperties.Some? then node.patternProperties.value else []
  }

  predicate Matched(w: World, patterns: seq<(string, Address)>, name: string) {
    exists i :: 0 <= i < |patterns| && w.matches(patterns[i].0, name)
  }

  function MatchedSteps(w: World, patterns: seq<(string, Address)>, name: string, value: Data): seq<Step>
    decreases |patterns|
  {
    if patterns == [] then []
    else
      var last := |patterns| - 1;
      MatchedSteps(w, patterns[..last], name, value)
      + (if w.matches(patterns[last].0, name) then [Call((patterns[last].1, value))] else [])
  }

  function AdditionalSteps(w: World, node: Node, name: string, value: Data): seq<Step> {
    if node.additionalProperties.Some? && !Named(node, name) && !Matched(w, Patterns(node), name)
    then [Call((node.additionalProperties.value, value))]
    else []
  }

  // --- combinators ---

  /** Many schemas against one datum. */
  function EachOf(targets: seq<Address>, data: Data): seq<Goal> {
    seq(|targets|, i requires 0 <= i < |targets| => (targets[i], data))
  }

  function IfSteps(node: Node, data: Data): seq<Step> {
    if node.ifSchema.None? || (node.thenSchema.None? && node.elseSchema.None?) then []
    else [Probe([(node.ifSchema.value, data)], 2, Condition(data, node.thenSchema, node.elseSchema))]
  }

  function NotSteps(node: Node, data: Data): seq<Step> {
    if node.notSchema.None? then []
    else [Probe([(node.notSchema.value, data)], 2, Negation(node.notSchema.value, data))]
  }

  function AllOfSteps(node: Node, id: Address, data: Data): seq<Step> {
    if node.allOf.None? then []
    else
      var n := |node.allOf.value|;
      [Probe(EachOf(node.allOf.value, data), n + 1, All(id, data, n))]
  }

  function AnyOfSteps(node: Node, id: Address, data: Data): seq<Step> {
    if node.anyOf.None? then [] else [Probe(EachOf(node.anyOf.value, data), 1, Any(id, data))]
  }

  function OneOfSteps(node: Node, id: Address, data: Data): seq<Step> {
    if node.oneOf.None? then [] else [Probe(EachOf(node.oneOf.value, data), 2, One(id, data))]
  }

  // --- the program ---

  /** The message is one that a leaf check lets escape. */
  ghost predicate LeafRaises(w: World, message: string) {
    exists id, check, data :: w.leaf(id, check, data) == Raises(message)
  }

  /** What a compiled schema runs. */
  ghost function ProgramOf(w: World): Program {
    Program(goal => Body(w, goal), message => LeafRaises(w, message))
  }

  /** `validate`: errors go to the block. */
  ghost function Validate(w: World, fuel: nat, root: Address, data: Data): Result {
    Run(ProgramOf(w), fuel, (root, data))
  }

  /** `valid?`. */
  ghost function Valid(w: World, fuel: nat, root: Address, data: Data): Probed {
    Ask(ProgramOf(w), fuel, (root, data))
  }
}
