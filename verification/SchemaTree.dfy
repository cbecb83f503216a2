/**
 The schemas inside a schema, in the order in which the compiler creates them: single subschemas,
 arrays and hashes of subschemas, and the subschemas found under unknown keywords.
 */
module SchemaTree {
  import opened Values
  import opened Bytes

  datatype Single = If | Then | Else | Not | Items | AdditionalItems | Contains | PropertyNames | AdditionalProperties
  datatype Listed = AllOf | AnyOf | OneOf | ItemsList
  datatype Keyed = Properties | PatternProperties | Dependencies

  /** A place of a schema that holds subschemas. */
  datatype Group = One(one: Single) | Many(many: Listed) | Named(keyed: Keyed) | Loose

  /** The order in which `compile` visits them. */
  const GROUPS: seq<Group> := [
    One(If), One(Then), One(Else),
    Many(AllOf), Many(AnyOf), Many(OneOf), One(Not),
    One(Items), Many(ItemsList), One(AdditionalItems), One(Contains),
    One(PropertyNames), One(AdditionalProperties),
    Named(Properties), Named(PatternProperties), Named(Dependencies),
    Loose]

  function OneKeyword(kw: Single): string {
    match kw
    case If => "if"
    case Then => "then"
    case Else => "else"
    case Not => "not"
    case Items => "items"
    case AdditionalItems => "additionalItems"
    case Contains => "contains"
    case PropertyNames => "propertyNames"
    case AdditionalProperties => "additionalProperties"
  }

  function ManyKeyword(kw: Listed): string {
    match kw
    case AllOf => "allOf"
    case AnyOf => "anyOf"
    case OneOf => "oneOf"
    case ItemsList => "items"
  }

  function NamedKeyword(kw: Keyed): string {
    match kw
    case Properties => "properties"
    case PatternProperties => "patternProperties"
    case Dependencies => "dependencies"
  }

  /** Keys that never hold a loose subschema. */
  const KNOWN_KEYWORDS: set<string> := {
    "$id", "$ref", "$recursiveAnchor", "$recursiveRef",
    "type", "const", "enum",
    "if", "then", "else", "allOf", "anyOf", "oneOf", "not",
    "multipleOf", "maximum", "exclusiveMaximum", "minimum", "exclusiveMinimum",
    "maxLength", "minLength", "pattern", "format",
    "items", "additionalItems", "unevaluatedItems", "contains",
    "maxItems", "minItems", "uniqueItems", "maxContains", "minContains",
    "properties", "patternProperties", "additionalProperties", "unevaluatedProperties",
    "propertyNames", "maxProperties", "minProperties", "required", "dependentRequired", "dependencies"}

  predicate IsKnown(key: string) { key in KNOWN_KEYWORDS }

  /** A value that compiles to a loose or single subschema. */
  predicate IsShaped(value: Data) { value.Object? || value.Bool? }

  /** Hash lookup by a string key. */
  function LookupIn(members: seq<(Key, Data)>, name: string): (r: Option<Data>)
    ensures r.Some? <==> HasKey(members, Name(name))
    ensures r.Some? ==> exists i :: 0 <= i < |members| && members[i] == (Name(name), r.value)
  {
    if members == [] then None
    else if members[0].0 == Name(name) then
      assert members[0] == (Name(name), members[0].1);
      Some(members[0].1)
    else
      var r := LookupIn(members[1..], name);
      assert forall i :: 0 < i < |members| ==> members[i] == members[1..][i - 1];
      assert forall i :: 0 <= i < |members| - 1 ==> members[1..][i] == members[i + 1];
      r
  }

  function Lookup(schema: Data, name: string): Option<Data> {
    if schema.Object? then LookupIn(schema.members, name) else None
  }

  // ---------------------------------------------------------------------------------------
  // Children
  // ---------------------------------------------------------------------------------------

  /**
   A subschema: the tokens from its parent to it, whether Ruby gets a wrapper for it, whether the
   pointer of the base follows it, the regex that its key is turned into, and the value it is
   compiled from.
   */
  datatype Child = Child(tokens: seq<string>, exposed: bool, descends: bool, regex: Option<string>, source: Data)

  function OneKid(kw: Single, value: Data): Child { Child([OneKeyword(kw)], false, false, None, value) }

  function OneKids(schema: Data, kw: Single): seq<Child> {
    var v := Lookup(schema, OneKeyword(kw));
    if v.Some? && IsShaped(v.value) then [OneKid(kw, v.value)] else []
  }

  function ItemKid(kw: Listed, items: seq<Data>, i: nat): Child
    requires i < |items|
  {
    Child([ManyKeyword(kw), Decimal(i)], true, true, None, items[i])
  }

  function ItemKids(kw: Listed, items: seq<Data>, n: nat): seq<Child>
    requires n <= |items|
  {
    if n == 0 then [] else ItemKids(kw, items, n - 1) + [ItemKid(kw, items, n - 1)]
  }

  function ManyKids(schema: Data, kw: Listed): seq<Child> {
    var v := Lookup(schema, ManyKeyword(kw));
    if v.Some? && v.value.Array? then ItemKids(kw, v.value.items, |v.value.items|) else []
  }

  /** An array of names under `dependencies` stands for a schema that requires them of an object. */
  function DependencySource(value: Data): Data {
    if value.Array? then Object([(Name("required"), value), (Name("type"), Text("object"))]) else value
  }

  function MemberSource(kw: Keyed, value: Data): Data {
    if kw.Dependencies? then DependencySource(value) else value
  }

  function MemberKid(kw: Keyed, name: string, value: Data): Child {
    Child([NamedKeyword(kw), name], true, true, if kw.PatternProperties? then Some(name) else None,
      MemberSource(kw, value))
  }

  function MemberKids(kw: Keyed, members: seq<(Key, Data)>, n: nat): seq<Child>
    requires n <= |members|
  {
    if n == 0 then []
    else
      var (key, value) := members[n - 1];
      var before := MemberKids(kw, members, n - 1);
      if key.Name? then before + [MemberKid(kw, key.name, value)] else before
  }

  function NamedKids(schema: Data, kw: Keyed): seq<Child> {
    var v := Lookup(schema, NamedKeyword(kw));
    if v.Some? && v.value.Object? then MemberKids(kw, v.value.members, |v.value.members|) else []
  }

  function LooseKid(tokens: seq<string>, value: Data): Child { Child(tokens, false, true, None, value) }

  /** The subschemas of a value under an unknown keyword: itself, or those in nested arrays. */
  function Entries(value: Data, tokens: seq<string>): seq<Child>
    decreases Height(value), 1, 0
  {
    if IsShaped(value) then [LooseKid(tokens, value)]
    else if value.Array? then ArrayEntries(value.items, tokens, |value.items|)
    else []
  }

  function ArrayEntries(items: seq<Data>, tokens: seq<string>, n: nat): seq<Child>
    requires n <= |items|
    decreases 1 + ItemsHeight(items), 0, n
  {
    if n == 0 then []
    else
      ItemLower(items, n - 1);
      ArrayEntries(items, tokens, n - 1) + Entries(items[n - 1], tokens + [Decimal(n - 1)])
  }

  function LooseKids(members: seq<(Key, Data)>, n: nat): seq<Child>
    requires n <= |members|
  {
    if n == 0 then []
    else
      var (key, value) := members[n - 1];
      var before := LooseKids(members, n - 1);
      if key.Name? && !IsKnown(key.name) then before + Entries(value, [key.name]) else before
  }

  function GroupKids(schema: Data, g: Group): seq<Child> {
    match g
    case One(kw) => OneKids(schema, kw)
    case Many(kw) => ManyKids(schema, kw)
    case Named(kw) => NamedKids(schema, kw)
    case Loose => if schema.Object? then LooseKids(schema.members, |schema.members|) else []
  }

  /** The subschemas of each group of a schema. */
  type Parts = (Data, Group) -> seq<Child>

  function PartsOf(): Parts { (schema, g) => GroupKids(schema, g) }

  function GroupsKids(parts: Parts, schema: Data, gs: seq<Group>): seq<Child>
    decreases |gs|, Height(schema)
  {
    if gs == [] then [] else GroupsKids(parts, schema, gs[..|gs| - 1]) + parts(schema, gs[|gs| - 1])
  }

  /** A schema with keywords: anything else compiles to a node without children. */
  predicate HasKeywords(schema: Data) { schema.Object? && schema.members != [] }

  function Kids(schema: Data): seq<Child> {
    if HasKeywords(schema) then GroupsKids(PartsOf(), schema, GROUPS) else []
  }

  // ---------------------------------------------------------------------------------------
  // Children are smaller
  // ---------------------------------------------------------------------------------------

  ghost predicate AllLower(kids: seq<Child>, bound: nat) {
    forall c :: c in kids ==> Height(c.source) < bound
  }

  lemma LookupLower(schema: Data, name: string)
    requires Lookup(schema, name).Some?
    ensures Height(Lookup(schema, name).value) < Height(schema)
  {
    var v := LookupIn(schema.members, name).value;
    var i :| 0 <= i < |schema.members| && schema.members[i] == (Name(name), v);
    MemberLower(schema.members, i);
  }

  lemma {:induction false} ItemKidsLower(kw: Listed, items: seq<Data>, n: nat)
    requires n <= |items|
    ensures AllLower(ItemKids(kw, items, n), 1 + ItemsHeight(items))
    decreases n
  {
    if n > 0 {
      ItemKidsLower(kw, items, n - 1);
      ItemLower(items, n - 1);
    }
  }

  lemma DependencyLower(value: Data)
    ensures Height(DependencySource(value)) <= 1 + Height(value)
  {
    if value.Array? {
      var pair := (Name("required"), value);
      var members := [pair, (Name("type"), Text("object"))];
      assert members[1..] == [(Name("type"), Text("object"))];
      assert members[1..][1..] == [];
      assert MembersHeight(members[1..]) == 0;
      assert MemberHeight(pair) == Height(value);
      assert MembersHeight(members) == Height(value);
    }
  }

  lemma {:induction false} MemberKidsLower(kw: Keyed, members: seq<(Key, Data)>, n: nat)
    requires n <= |members|
    ensures AllLower(MemberKids(kw, members, n), 2 + MembersHeight(members))
    decreases n
  {
    if n > 0 {
      MemberKidsLower(kw, members, n - 1);
      MemberLower(members, n - 1);
      DependencyLower(members[n - 1].1);
    }
  }

  lemma {:induction false} EntriesLower(value: Data, tokens: seq<string>)
    ensures AllLower(Entries(value, tokens), 1 + Height(value))
    decreases Height(value), 1, 0
  {
    if value.Array? { ArrayEntriesLower(value.items, tokens, |value.items|); }
  }

  lemma {:induction false} ArrayEntriesLower(items: seq<Data>, tokens: seq<string>, n: nat)
    requires n <= |items|
    ensures AllLower(ArrayEntries(items, tokens, n), 1 + ItemsHeight(items))
    decreases 1 + ItemsHeight(items), 0, n
  {
    if n > 0 {
      ItemLower(items, n - 1);
      ArrayEntriesLower(items, tokens, n - 1);
      EntriesLower(items[n - 1], tokens + [Decimal(n - 1)]);
    }
  }

  lemma {:induction false} LooseKidsLower(members: seq<(Key, Data)>, n: nat)
    requires n <= |members|
    ensures AllLower(LooseKids(members, n), 1 + MembersHeight(members))
    decreases n
  {
    if n > 0 {
      LooseKidsLower(members, n - 1);
      MemberLower(members, n - 1);
      if members[n - 1].0.Name? { EntriesLower(members[n - 1].1, [members[n - 1].0.name]); }
    }
  }

  lemma GroupLower(schema: Data, g: Group)
    ensures AllLower(GroupKids(schema, g), Height(schema))
  {
    match g {
      case One(kw) =>
        if Lookup(schema, OneKeyword(kw)).Some? { LookupLower(schema, OneKeyword(kw)); }
      case Many(kw) =>
        var v := Lookup(schema, ManyKeyword(kw));
        if v.Some? && v.value.Array? {
          LookupLower(schema, ManyKeyword(kw));
          ItemKidsLower(kw, v.value.items, |v.value.items|);
        }
      case Named(kw) =>
        var v := Lookup(schema, NamedKeyword(kw));
        if v.Some? && v.value.Object? {
          LookupLower(schema, NamedKeyword(kw));
          MemberKidsLower(kw, v.value.members, |v.value.members|);
        }
      case Loose =>
        if schema.Object? { LooseKidsLower(schema.members, |schema.members|); }
    }
  }

  ghost predicate PartLower(parts: Parts, schema: Data, g: Group) { AllLower(parts(schema, g), Height(schema)) }

  lemma {:induction false} GroupsLower(parts: Parts, schema: Data, gs: seq<Group>)
    requires forall g :: PartLower(parts, schema, g)
    ensures AllLower(GroupsKids(parts, schema, gs), Height(schema))
    decreases |gs|
  {
    if gs != [] {
      GroupsLower(parts, schema, gs[..|gs| - 1]);
      assert PartLower(parts, schema, gs[|gs| - 1]);
    }
  }

  /** Every subschema is nested less deeply than the schema that holds it. */
  lemma KidsLower(schema: Data)
    ensures AllLower(Kids(schema), Height(schema))
  {
    forall g ensures PartLower(PartsOf(), schema, g) { GroupLower(schema, g); }
    GroupsLower(PartsOf(), schema, GROUPS);
  }
}
