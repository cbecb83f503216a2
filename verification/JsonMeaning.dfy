/**
 What a schema means, stated over the JSON of the schema itself, with the keywords and types written out.
 A subschema is named by the tokens that lead to it; nothing of the compiler appears here.
 */
module JsonMeaning {
  import opened Values
  import opened Bytes
  import opened Schema
  import T = SchemaTree

  /** A schema, the location where it stands, and a datum. */
  datatype Applied = Applied(at: seq<string>, schema: Data, data: Data)

  /**
   What is given: the checks that do not look at subschemas, regexes, the long that a Float truncates to,
   the hash key that a name of `required` is, the code of a `format` error, and the location that the
   `$ref` of a location leads to, with the schema there.
   */
  datatype Given = Given(
    leaf: (Data, LeafCheck, Data) -> Verdict,
    matches: (string, string) -> bool,
    truncate: Data -> int,
    key: Data -> Key,
    formatCode: Data -> string,
    refers: seq<string> -> (seq<string>, Data))

  /** The datum satisfies the schema. */
  ghost predicate JsonSat(e: Given, fuel: nat, x: Applied) { Satisfied(e, Holds(e, fuel), x) }

  /** The applications that hold one level further in. */
  ghost function Holds(e: Given, fuel: nat): Applied -> bool {
    if fuel == 0 then x => false else x => Satisfied(e, Holds(e, fuel - 1), x)
  }

  ghost predicate Satisfied(e: Given, met: Applied -> bool, x: Applied) {
    && x.schema != Bool(false)
    && (x.schema.Object? && x.schema.members != [] ==>
          if RefOf(x.schema).Some? then met(Referred(e, x)) else KeywordsHold(e, met, x))
  }

  ghost predicate KeywordsHold(e: Given, met: Applied -> bool, x: Applied) {
    && IsOfTypes(x.schema, x.data)
    && (LooksAtKind(x.schema) ==> KindHolds(e, met, x))
    && e.leaf(x.schema, Const, x.data).Pass? && e.leaf(x.schema, Enum, x.data).Pass?
    && IfHolds(met, x)
    && (HasOne(x.schema, "not") ==> !met(SubOne(x, "not", x.data)))
    && AllOfHolds(met, x) && AnyOfHolds(met, x) && OneOfHolds(met, x)
  }

  // ---------------------------------------------------------------------------------------
  // Subschemas
  // ---------------------------------------------------------------------------------------

  function Field(s: Data, keyword: string): Option<Data> { T.Lookup(s, keyword) }

  function RefOf(s: Data): Option<string> {
    match Field(s, "$ref")
    case Some(Text(ref)) => Some(ref)
    case _ => None
  }

  function Referred(e: Given, x: Applied): Applied {
    var (at, schema) := e.refers(x.at);
    Applied(at, schema, x.data)
  }

  /** A keyword with a schema: a hash, `true` or `false`. */
  predicate HasOne(s: Data, keyword: string) {
    var v := Field(s, keyword);
    v.Some? && (v.value.Object? || v.value == Bool(true) || v.value == Bool(false))
  }

  function SubOne(x: Applied, keyword: string, data: Data): Applied {
    var v := Field(x.schema, keyword);
    Applied(x.at + [keyword], if v.Some? then v.value else Null, data)
  }

  function ListUnder(s: Data, keyword: string): Option<seq<Data>> {
    match Field(s, keyword)
    case Some(Array(items)) => Some(items)
    case _ => None
  }

  function SubItem(x: Applied, keyword: string, i: nat, data: Data): Applied {
    var list := ListUnder(x.schema, keyword);
    Applied(x.at + [keyword, Decimal(i)], if list.Some? && i < |list.value| then list.value[i] else Null, data)
  }

  function HashUnder(s: Data, keyword: string): Option<seq<(Key, Data)>> {
    match Field(s, keyword)
    case Some(Object(members)) => Some(members)
    case _ => None
  }

  /** A hash keyword with a schema for the name. */
  predicate HasMember(s: Data, keyword: string, name: string) {
    var members := HashUnder(s, keyword);
    members.Some? && HasKey(members.value, Name(name))
  }

  function ValueUnder(s: Data, keyword: string, name: string): Data {
    var members := HashUnder(s, keyword);
    var v := if members.Some? then T.LookupIn(members.value, name) else None;
    if v.Some? then v.value else Null
  }

  function SubMember(x: Applied, keyword: string, name: string, data: Data): Applied {
    Applied(x.at + [keyword, name], ValueUnder(x.schema, keyword, name), data)
  }

  /** A list of names under `dependencies` stands for a schema that requires them of an object. */
  function Requiring(names: Data): Data { Object([(Name("required"), names), (Name("type"), Text("object"))]) }

  function SubDependency(x: Applied, name: string, data: Data): Applied {
    var v := ValueUnder(x.schema, "dependencies", name);
    Applied(x.at + ["dependencies", name], if v.Array? then Requiring(v) else v, data)
  }

  // ---------------------------------------------------------------------------------------
  // Types
  // ---------------------------------------------------------------------------------------

  const TYPES: set<string> := {"null", "boolean", "string", "integer", "number", "array", "object"}

  predicate IsOfType(data: Data, name: string) {
    match name
    case "null" => data.Null?
    case "boolean" => data.Bool?
    case "string" => data.Text?
    case "integer" => data.Integer?
    case "number" => data.Integer? || data.Float?
    case "array" => data.Array?
    case "object" => data.Object?
    case _ => false
  }

  predicate Lists(names: seq<Data>, name: string) { Text(name) in names }

  /** An object of no JSON type passes every list of types. */
  ghost predicate IsOfTypes(s: Data, data: Data) {
    match Field(s, "type")
    case Some(Array(names)) => data.Other? || exists name :: Lists(names, name) && IsOfType(data, name)
    case Some(Text(name)) => name in TYPES ==> IsOfType(data, name)
    case _ => true
  }

  /** Under a single type of an unknown name the keywords of the datum's kind are not looked at. */
  predicate LooksAtKind(s: Data) {
    match Field(s, "type")
    case Some(Text(name)) => name in TYPES
    case _ => true
  }

  /** Whether an Integer is compared as one, or as a double. */
  predicate ComparesLongs(s: Data, data: Data) {
    && data.Integer?
    && match Field(s, "type")
       case Some(Array(names)) => Lists(names, "integer")
       case Some(Text(name)) => name != "number"
       case _ => true
  }

  // ---------------------------------------------------------------------------------------
  // The keywords of a kind
  // ---------------------------------------------------------------------------------------

  function NumberUnder(e: Given, s: Data, keyword: string): Option<int> {
    match Field(s, keyword)
    case Some(Integer(n)) => Some(n)
    case Some(Float(tag, integral)) => Some(e.truncate(Float(tag, integral)))
    case _ => None
  }

  function IntegerUnder(s: Data, keyword: string): Option<int> {
    match Field(s, keyword)
    case Some(Integer(n)) => Some(n)
    case _ => None
  }

  /** As an unsigned long of 64 bits. */
  function Unsigned(n: int): int { if n < 0 then n + 0x1_0000_0000_0000_0000 else n }

  predicate IsTooMany(n: int, most: Option<int>) { most.Some? && n > most.value }

  predicate IsTooFew(n: int, least: Option<int>) { least.Some? && n < least.value }

  /** Members are counted against unsigned longs. */
  predicate HasTooMany(n: int, most: Option<int>) { most.Some? && n > Unsigned(most.value) }

  predicate HasTooFew(n: int, least: Option<int>) { least.Some? && n < Unsigned(least.value) }

  ghost predicate KindHolds(e: Given, met: Applied -> bool, x: Applied) {
    match x.data
    case Integer(_) | Float(_, _) => NumericHolds(e, x.schema, x.data)
    case Text(text) =>
      && !IsTooMany(|text|, NumberUnder(e, x.schema, "maxLength"))
      && !IsTooFew(|text|, NumberUnder(e, x.schema, "minLength"))
      && e.leaf(x.schema, Pattern, x.data).Pass? && e.leaf(x.schema, Format, x.data).Pass?
    case Array(items) =>
      && !IsTooMany(|items|, NumberUnder(e, x.schema, "maxItems"))
      && !IsTooFew(|items|, NumberUnder(e, x.schema, "minItems"))
      && e.leaf(x.schema, Unique, x.data).Pass?
      && ItemsHold(met, x, items)
      && (HasOne(x.schema, "contains") ==> ContainsHolds(met, x, items))
    case Object(members) =>
      && !HasTooMany(|members|, NumberUnder(e, x.schema, "maxProperties"))
      && !HasTooFew(|members|, NumberUnder(e, x.schema, "minProperties"))
      && RequiredHolds(e, x.schema, members)
      && DependenciesHold(met, x, members)
      && forall m | m in members && m.0.Name? :: MemberHolds(e, met, x, m.0.name, m.1)
    case _ => true
  }

  ghost predicate NumericHolds(e: Given, s: Data, data: Data) {
    forall kw | kw in {MultipleOf, Maximum, ExclusiveMaximum, Minimum, ExclusiveMinimum} ::
      e.leaf(s, if ComparesLongs(s, data) then IntegerKeyword(kw) else NumberKeyword(kw), data).Pass?
  }

  ghost predicate ItemsHold(met: Applied -> bool, x: Applied, items: seq<Data>) {
    if HasOne(x.schema, "items") then forall i | 0 <= i < |items| :: met(SubOne(x, "items", items[i]))
    else if ListUnder(x.schema, "items").Some? then
      var n := |ListUnder(x.schema, "items").value|;
      && (forall i: nat | i < |items| && i < n :: met(SubItem(x, "items", i, items[i])))
      && (HasOne(x.schema, "additionalItems") ==>
            forall i | n <= i < |items| :: met(SubOne(x, "additionalItems", items[i])))
    else true
  }

  /** How many items hold. */
  ghost function Contained(met: Applied -> bool, x: Applied, items: seq<Data>): nat {
    |set i: nat | i < |items| && met(SubOne(x, "contains", items[i]))|
  }

  ghost predicate ContainsHolds(met: Applied -> bool, x: Applied, items: seq<Data>) {
    var hits := Contained(met, x, items);
    && !IsTooMany(hits, IntegerUnder(x.schema, "maxContains"))
    && (if IntegerUnder(x.schema, "minContains").Some?
        then !IsTooFew(hits, IntegerUnder(x.schema, "minContains")) else hits > 0)
  }

  predicate RequiredHolds(e: Given, s: Data, members: seq<(Key, Data)>) {
    var names := ListUnder(s, "required");
    names.Some? ==> forall i | 0 <= i < |names.value| :: HasKey(members, e.key(names.value[i]))
  }

  ghost predicate DependenciesHold(met: Applied -> bool, x: Applied, members: seq<(Key, Data)>) {
    forall name | HasMember(x.schema, "dependencies", name) && HasKey(members, Name(name)) ::
      met(SubDependency(x, name, x.data))
  }

  /** A pattern of `patternProperties` that the name matches. */
  predicate Covers(e: Given, s: Data, pattern: string, name: string) {
    HasMember(s, "patternProperties", pattern) && e.matches(pattern, name)
  }

  ghost predicate MemberHolds(e: Given, met: Applied -> bool, x: Applied, name: string, value: Data) {
    && (HasOne(x.schema, "propertyNames") ==> met(SubOne(x, "propertyNames", Text(name))))
    && (HasMember(x.schema, "properties", name) ==> met(SubMember(x, "properties", name, value)))
    && PatternsHold(e, met, x, name, value)
    && (HasOne(x.schema, "additionalProperties") && IsAdditional(e, x.schema, name)
        ==> met(SubOne(x, "additionalProperties", value)))
  }

  ghost predicate PatternsHold(e: Given, met: Applied -> bool, x: Applied, name: string, value: Data) {
    forall pattern | Covers(e, x.schema, pattern, name) :: met(SubMember(x, "patternProperties", pattern, value))
  }

  /** Neither `properties` nor a pattern covers the name. */
  ghost predicate IsAdditional(e: Given, s: Data, name: string) {
    !HasMember(s, "properties", name) && !exists pattern :: Covers(e, s, pattern, name)
  }

  // ---------------------------------------------------------------------------------------
  // Combinations
  // ---------------------------------------------------------------------------------------

  ghost predicate IfHolds(met: Applied -> bool, x: Applied) {
    HasOne(x.schema, "if") ==>
      if met(SubOne(x, "if", x.data))
      then HasOne(x.schema, "then") ==> met(SubOne(x, "then", x.data))
      else HasOne(x.schema, "else") ==> met(SubOne(x, "else", x.data))
  }

  ghost predicate AllOfHolds(met: Applied -> bool, x: Applied) {
    var list := ListUnder(x.schema, "allOf");
    list.Some? ==> forall i: nat | i < |list.value| :: met(SubItem(x, "allOf", i, x.data))
  }

  ghost predicate AnyOfHolds(met: Applied -> bool, x: Applied) {
    var list := ListUnder(x.schema, "anyOf");
    list.Some? ==> exists i: nat | i < |list.value| :: met(SubItem(x, "anyOf", i, x.data))
  }

  ghost predicate OneOfHolds(met: Applied -> bool, x: Applied) {
    var list := ListUnder(x.schema, "oneOf");
    list.Some? ==> exists i: nat :: IsOnly(met, x, |list.value|, i)
  }

  ghost predicate IsOnly(met: Applied -> bool, x: Applied, n: nat, i: nat) {
    && i < n && met(SubItem(x, "oneOf", i, x.data))
    && forall j: nat | j < n :: met(SubItem(x, "oneOf", j, x.data)) ==> j == i
  }

  // ---------------------------------------------------------------------------------------
  // Consequences
  // ---------------------------------------------------------------------------------------

  lemma RequiringField(names: Data, keyword: string)
    ensures Field(Requiring(names), keyword) ==
            if keyword == "required" then Some(names) else if keyword == "type" then Some(Text("object")) else None
  {
    var members := Requiring(names).members;
    assert members[1..] == [(Name("type"), Text("object"))] && members[1..][1..] == [];
    assert T.LookupIn(members[1..], keyword) == if keyword == "type" then Some(Text("object")) else None;
  }

  /** Without these keywords a schema looks at the datum alone. */
  predicate IsBare(s: Data) {
    && (forall keyword | keyword in ONES :: Field(s, keyword).None?)
    && (forall keyword | keyword in MANIES :: Field(s, keyword).None?)
  }

  const ONES: set<string> := {"if", "not", "contains", "propertyNames", "additionalProperties"}
  const MANIES: set<string> := {"allOf", "anyOf", "oneOf", "properties", "patternProperties", "dependencies"}

  /** A list of names under `dependencies` holds of an object that has all of them, and of nothing else. */
  lemma NameListMeans(e: Given, met: Applied -> bool, x: Applied, names: seq<Data>)
    requires x.schema == Requiring(Array(names))
    requires forall check :: e.leaf(x.schema, check, x.data).Pass?
    ensures Satisfied(e, met, x) <==>
            x.data.Object? && forall i :: 0 <= i < |names| ==> HasKey(x.data.members, e.key(names[i]))
  {
    RequiringBare(Array(names));
    RequiringType(Array(names), x.data);
    if x.data.Object? { RequiringObject(e, met, x, names); }
    BareCombines(met, x);
  }

  lemma RequiringBare(names: Data)
    ensures IsBare(Requiring(names))
  {
    forall keyword | keyword in ONES || keyword in MANIES ensures Field(Requiring(names), keyword).None? {
      RequiringField(names, keyword);
    }
  }

  lemma RequiringType(names: Data, data: Data)
    ensures RefOf(Requiring(names)).None? && LooksAtKind(Requiring(names))
    ensures IsOfTypes(Requiring(names), data) <==> data.Object?
  {
    RequiringField(names, "$ref");
    RequiringField(names, "type");
  }

  lemma BareCombines(met: Applied -> bool, x: Applied)
    requires IsBare(x.schema)
    ensures IfHolds(met, x) && !HasOne(x.schema, "not")
    ensures AllOfHolds(met, x) && AnyOfHolds(met, x) && OneOfHolds(met, x)
  {
  }

  lemma RequiringObject(e: Given, met: Applied -> bool, x: Applied, names: seq<Data>)
    requires x.schema == Requiring(Array(names)) && IsBare(x.schema) && x.data.Object?
    ensures KindHolds(e, met, x) <==> forall i :: 0 <= i < |names| ==> HasKey(x.data.members, e.key(names[i]))
  {
    RequiringField(Array(names), "required");
    RequiringField(Array(names), "maxProperties");
    RequiringField(Array(names), "minProperties");
    forall m | m in x.data.members && m.0.Name? ensures MemberHolds(e, met, x, m.0.name, m.1) {
      BareMember(e, met, x, m.0.name, m.1);
    }
    assert DependenciesHold(met, x, x.data.members);
  }

  lemma BareMember(e: Given, met: Applied -> bool, x: Applied, name: string, value: Data)
    requires IsBare(x.schema)
    ensures MemberHolds(e, met, x, name, value)
  {
  }

  /** No object with an uncovered name gets past `additionalProperties: false`. */
  lemma FalseAdditional(e: Given, fuel: nat, x: Applied)
    requires Field(x.schema, "additionalProperties") == Some(Bool(false))
    requires RefOf(x.schema).None? && LooksAtKind(x.schema) && x.data.Object? && JsonSat(e, fuel, x)
    ensures forall m | m in x.data.members && m.0.Name? :: !IsAdditional(e, x.schema, m.0.name)
  {
    forall m | m in x.data.members && m.0.Name? ensures !IsAdditional(e, x.schema, m.0.name) {
      assert MemberHolds(e, Holds(e, fuel), x, m.0.name, m.1);
    }
  }
}
