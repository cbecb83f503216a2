/**
 What `validate` reports, stated over the JSON of the schema: one complaint for each keyword that the
 datum breaks, in the order of the keywords, with those of the subschemas that apply in their places.
 */
module Complaints {
  import opened Values
  import opened Schema
  import opened JsonMeaning

  /** The location of a schema, the datum it is applied to, and the code of the error. */
  datatype Complaint = Complaint(at: seq<string>, data: Data, code: string)

  /** What is reported of a schema applied to a datum. */
  ghost function Reported(e: Given, fuel: nat, x: Applied): seq<Complaint> { Said(e, Holds(e, fuel), Log(e, fuel), x) }

  /** What is reported one level further in. */
  ghost function Log(e: Given, fuel: nat): Applied -> seq<Complaint> {
    if fuel == 0 then x => [] else x => Said(e, Holds(e, fuel - 1), Log(e, fuel - 1), x)
  }

  function If(failed: bool, x: Applied, code: string): seq<Complaint> {
    if failed then [Complaint(x.at, x.data, code)] else []
  }

  ghost function Said(e: Given, met: Applied -> bool, log: Applied -> seq<Complaint>, x: Applied): seq<Complaint> {
    if x.schema == Bool(false) then If(true, x, "false_schema")
    else if !x.schema.Object? || x.schema.members == [] then []
    else if RefOf(x.schema).Some? then log(Referred(e, x))
    else KeywordsSaid(e, met, log, x)
  }

  ghost function KeywordsSaid(
    e: Given, met: Applied -> bool, log: Applied -> seq<Complaint>, x: Applied): seq<Complaint>
  {
    TypeSaid(e, met, log, x)
    + If(e.leaf(x.schema, Const, x.data).Fail?, x, "const")
    + If(e.leaf(x.schema, Enum, x.data).Fail?, x, "enum")
    + IfSaid(met, x)
    + NotSaid(met, x)
    + AllOfSaid(met, x)
    + AnyOfSaid(met, x)
    + OneOfSaid(met, x)
  }

  // ---------------------------------------------------------------------------------------
  // Types and kinds
  // ---------------------------------------------------------------------------------------

  function TypeCode(name: string): string {
    match name
    case "null" => "type_null"
    case "boolean" => "type_bool"
    case "string" => "type_string"
    case "integer" => "type_integer"
    case "number" => "type_number"
    case "array" => "type_array"
    case _ => "type_object"
  }

  ghost function TypeSaid(
    e: Given, met: Applied -> bool, log: Applied -> seq<Complaint>, x: Applied): seq<Complaint>
  {
    TypeOr(x, KindSaid(e, met, log, x))
  }

  /** A wrong type is the only complaint about the datum's kind. */
  ghost function TypeOr(x: Applied, kind: seq<Complaint>): seq<Complaint> {
    match Field(x.schema, "type")
    case Some(Array(names)) => if IsOfTypes(x.schema, x.data) then kind else If(true, x, "type")
    case Some(Text(name)) =>
      if name !in TYPES then [] else if IsOfType(x.data, name) then kind else If(true, x, TypeCode(name))
    case _ => kind
  }

  ghost function KindSaid(
    e: Given, met: Applied -> bool, log: Applied -> seq<Complaint>, x: Applied): seq<Complaint>
  {
    match x.data
    case Integer(_) | Float(_, _) => NumericSaid(e, x)
    case Text(text) => TextSaid(e, x, |text|)
    case Array(items) => ArraySaid(e, met, log, x, items)
    case Object(members) => ObjectSaid(e, log, x, members)
    case _ => []
  }

  function NumericSaid(e: Given, x: Applied): seq<Complaint> {
    LimitSaid(e, x, MultipleOf, "multipleOf")
    + LimitSaid(e, x, Maximum, "maximum")
    + LimitSaid(e, x, ExclusiveMaximum, "exclusiveMaximum")
    + LimitSaid(e, x, Minimum, "minimum")
    + LimitSaid(e, x, ExclusiveMinimum, "exclusiveMinimum")
  }

  function LimitSaid(e: Given, x: Applied, kw: NumericKeyword, code: string): seq<Complaint> {
    var check := if ComparesLongs(x.schema, x.data) then IntegerKeyword(kw) else NumberKeyword(kw);
    If(e.leaf(x.schema, check, x.data).Fail?, x, code)
  }

  function TextSaid(e: Given, x: Applied, n: nat): seq<Complaint> {
    If(IsTooMany(n, NumberUnder(e, x.schema, "maxLength")), x, "maxLength")
    + If(IsTooFew(n, NumberUnder(e, x.schema, "minLength")), x, "minLength")
    + If(e.leaf(x.schema, Pattern, x.data).Fail?, x, "pattern")
    + If(e.leaf(x.schema, Format, x.data).Fail?, x, e.formatCode(x.schema))
  }

  // --- arrays ---

  ghost function ArraySaid(
    e: Given, met: Applied -> bool, log: Applied -> seq<Complaint>, x: Applied, items: seq<Data>): seq<Complaint>
  {
    If(IsTooMany(|items|, NumberUnder(e, x.schema, "maxItems")), x, "maxItems")
    + If(IsTooFew(|items|, NumberUnder(e, x.schema, "minItems")), x, "minItems")
    + If(e.leaf(x.schema, Unique, x.data).Fail?, x, "uniqueItems")
    + ItemsSaid(log, x, items)
    + ContainsSaid(met, x, items)
  }

  ghost function ItemsSaid(log: Applied -> seq<Complaint>, x: Applied, items: seq<Data>): seq<Complaint> {
    if HasOne(x.schema, "items") then EachSaid(log, x, "items", items, 0, |items|)
    else if ListUnder(x.schema, "items").Some? then
      var n := |ListUnder(x.schema, "items").value|;
      TupleSaid(log, x, items, Least(n, |items|))
      + (if n < |items| && HasOne(x.schema, "additionalItems")
         then EachSaid(log, x, "additionalItems", items, n, |items|) else [])
    else []
  }

  /** One schema against the items from `lo` to `hi`. */
  ghost function EachSaid(
    log: Applied -> seq<Complaint>, x: Applied, keyword: string, items: seq<Data>, lo: nat, hi: nat): seq<Complaint>
    requires hi <= |items|
    decreases hi
  {
    if hi <= lo then []
    else EachSaid(log, x, keyword, items, lo, hi - 1) + log(SubOne(x, keyword, items[hi - 1]))
  }

  /** The first `n` items against their own schemas. */
  ghost function TupleSaid(log: Applied -> seq<Complaint>, x: Applied, items: seq<Data>, n: nat): seq<Complaint>
    requires n <= |items|
  {
    if n == 0 then [] else TupleSaid(log, x, items, n - 1) + log(SubItem(x, "items", n - 1, items[n - 1]))
  }

  ghost function ContainsSaid(met: Applied -> bool, x: Applied, items: seq<Data>): seq<Complaint> {
    if !HasOne(x.schema, "contains") then []
    else
      var hits, least := Contained(met, x, items), IntegerUnder(x.schema, "minContains");
      If(IsTooMany(hits, IntegerUnder(x.schema, "maxContains")), x, "maxContains")
      + (if least.Some? then If(IsTooFew(hits, least), x, "minContains")
         else If(hits == 0, SubOne(x, "contains", x.data), "contains"))
  }

  // --- objects ---

  ghost function ObjectSaid(
    e: Given, log: Applied -> seq<Complaint>, x: Applied, members: seq<(Key, Data)>): seq<Complaint>
  {
    var names, hash := ListUnder(x.schema, "required"), HashUnder(x.schema, "dependencies");
    If(HasTooMany(|members|, NumberUnder(e, x.schema, "maxProperties")), x, "maxProperties")
    + If(HasTooFew(|members|, NumberUnder(e, x.schema, "minProperties")), x, "minProperties")
    + (if names.Some? then RequiredSaid(e, x, members, names.value) else [])
    + (if hash.Some? then DependenciesSaid(log, x, members, hash.value) else [])
    + MembersSaid(e, log, x, members)
  }

  /** One complaint for each name that is missing. */
  function RequiredSaid(e: Given, x: Applied, members: seq<(Key, Data)>, names: seq<Data>): seq<Complaint>
    decreases |names|
  {
    if names == [] then []
    else
      var last := |names| - 1;
      RequiredSaid(e, x, members, names[..last]) + If(!HasKey(members, e.key(names[last])), x, "required")
  }

  /** The complaints of the schema of each key that is present. */
  ghost function DependenciesSaid(
    log: Applied -> seq<Complaint>, x: Applied, members: seq<(Key, Data)>, hash: seq<(Key, Data)>): seq<Complaint>
    decreases |hash|
  {
    if hash == [] then []
    else
      var init, key := hash[..|hash| - 1], hash[|hash| - 1].0;
      DependenciesSaid(log, x, members, init)
      + (if key.Name? && HasKey(members, key) then log(SubDependency(x, key.name, x.data)) else [])
  }

  ghost function MembersSaid(
    e: Given, log: Applied -> seq<Complaint>, x: Applied, members: seq<(Key, Data)>): seq<Complaint>
    decreases |members|
  {
    if members == [] then []
    else
      var init, last := members[..|members| - 1], members[|members| - 1];
      MembersSaid(e, log, x, init) + (if last.0.Name? then MemberSaid(e, log, x, last.0.name, last.1) else [])
  }

  ghost function MemberSaid(
    e: Given, log: Applied -> seq<Complaint>, x: Applied, name: string, value: Data): seq<Complaint>
  {
    var patterns := HashUnder(x.schema, "patternProperties");
    (if HasOne(x.schema, "propertyNames") then log(SubOne(x, "propertyNames", Text(name))) else [])
    + (if HasMember(x.schema, "properties", name) then log(SubMember(x, "properties", name, value)) else [])
    + (if patterns.Some? then PatternsSaid(e, log, x, name, value, patterns.value) else [])
    + (if HasOne(x.schema, "additionalProperties") && IsAdditional(e, x.schema, name)
       then log(SubOne(x, "additionalProperties", value)) else [])
  }

  /** The complaints of the schema of each pattern that matches. */
  ghost function PatternsSaid(
    e: Given, log: Applied -> seq<Complaint>, x: Applied, name: string, value: Data, hash: seq<(Key, Data)>)
    : seq<Complaint>
    decreases |hash|
  {
    if hash == [] then []
    else
      var init, key := hash[..|hash| - 1], hash[|hash| - 1].0;
      PatternsSaid(e, log, x, name, value, init)
      + (if key.Name? && e.matches(key.name, name) then log(SubMember(x, "patternProperties", key.name, value)) else [])
  }

  // ---------------------------------------------------------------------------------------
  // Combinations
  // ---------------------------------------------------------------------------------------

  ghost function IfSaid(met: Applied -> bool, x: Applied): seq<Complaint> {
    if !HasOne(x.schema, "if") then []
    else if met(SubOne(x, "if", x.data)) then BranchSaid(met, x, "then", "if/then")
    else BranchSaid(met, x, "else", "if/else")
  }

  ghost function BranchSaid(met: Applied -> bool, x: Applied, keyword: string, code: string): seq<Complaint> {
    var branch := SubOne(x, keyword, x.data);
    If(HasOne(x.schema, keyword) && !met(branch), branch, code)
  }

  ghost function NotSaid(met: Applied -> bool, x: Applied): seq<Complaint> {
    var negated := SubOne(x, "not", x.data);
    If(HasOne(x.schema, "not") && met(negated), negated, "not")
  }

  ghost function AllOfSaid(met: Applied -> bool, x: Applied): seq<Complaint> { If(!AllOfHolds(met, x), x, "allOf") }

  ghost function AnyOfSaid(met: Applied -> bool, x: Applied): seq<Complaint> { If(!AnyOfHolds(met, x), x, "anyOf") }

  ghost function OneOfSaid(met: Applied -> bool, x: Applied): seq<Complaint> { If(!OneOfHolds(met, x), x, "oneOf") }
}
