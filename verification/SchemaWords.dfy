/**
 The words of a schema as the compiler takes them: what makes a schema be rejected, which keywords hold no
 schema, and the order in which subschemas are compiled.
 */
module SchemaWords {
  import opened Values
  import opened SchemaTree
  import opened Blueprint
  import opened Location
  import opened SchemaCompiler
  import F = References
  import J = JsonMeaning

  // ---------------------------------------------------------------------------------------
  // What is rejected
  // ---------------------------------------------------------------------------------------

  /** A list of types is not empty, and holds names of types, none twice. */
  predicate IsWellTyped(s: Data) {
    match J.Field(s, "type")
    case Some(Array(names)) =>
      && names != []
      && (forall i :: 0 <= i < |names| ==> names[i].Text? && names[i].s in J.TYPES)
      && forall i, j :: 0 <= i < j < |names| ==> names[i] != names[j]
    case _ => true
  }

  predicate HasRegexKeys(lib: Library, s: Data) {
    match J.Field(s, "patternProperties")
    case Some(Object(members)) =>
      forall i :: 0 <= i < |members| && members[i].0.Name? ==> lib.compiles(members[i].0.name)
    case _ => true
  }

  lemma FlagsApart(a: string, b: string)
    requires a in J.TYPES && b in J.TYPES
    ensures TypeFlagOf(a).Some? && TypeFlagOf(b).Some? && (TypeFlagOf(a) == TypeFlagOf(b) <==> a == b)
  {
  }

  lemma NamesKnown(name: string)
    ensures TypeFlagOf(name).Some? <==> name in J.TYPES
  {
  }

  lemma TypesAre(names: seq<Data>)
    ensures AreTypes(names) <==>
      names != []
      && (forall i :: 0 <= i < |names| ==> names[i].Text? && names[i].s in J.TYPES)
      && forall i, j :: 0 <= i < j < |names| ==> names[i] != names[j]
  {
    forall i | 0 <= i < |names| && names[i].Text? ensures IsTypeName(names[i]) <==> names[i].s in J.TYPES {
      NamesKnown(names[i].s);
    }
    forall i, j | 0 <= i < j < |names| && IsTypeName(names[i]) && IsTypeName(names[j])
      ensures FlagOf(names[i]) == FlagOf(names[j]) <==> names[i] == names[j]
    {
      FlagsApart(names[i].s, names[j].s);
    }
  }

  lemma AcceptedIs(lib: Library, s: Data)
    requires HasKeywords(s)
    ensures IsAccepted(lib, s) <==> IsWellTyped(s) && HasRegexKeys(lib, s)
  {
    assert J.Field(s, "type") == TypeValue(s);
    match J.Field(s, "type")
    case Some(Array(names)) => TypesAre(names);
    case _ =>
  }

  /** Compiling rejects a schema exactly if some location has a wrong list of types or a key that is no regex. */
  lemma RejectsInWords(w: Work, lib: Library, schema: Data)
    requires IsWork(w, lib) && IsRuby(schema)
    ensures w.sound(F.WholeSchema(schema)) <==> forall tokens :: CompilesAt(lib, schema, tokens)
  {
    RejectsForLocation(w, lib, F.WholeSchema(schema));
    forall tokens ensures CompilesAt(lib, schema, tokens) <==> !IsRefused(lib, schema, tokens) {
      var s := Locate(schema, tokens);
      if s.Some? && HasKeywords(s.value) { AcceptedIs(lib, s.value); }
    }
  }

  /** What stands at a location, if it has keywords, has types and keys that compile. */
  ghost predicate CompilesAt(lib: Library, schema: Data, tokens: seq<string>) {
    var s := Locate(schema, tokens);
    s.Some? && s.value.Object? && s.value.members != [] ==> IsWellTyped(s.value) && HasRegexKeys(lib, s.value)
  }

  // ---------------------------------------------------------------------------------------
  // Where no schemas are
  // ---------------------------------------------------------------------------------------

  /** Keywords whose value is never taken for a schema. */
  const VALUES: set<string> := {
    "$id", "$ref", "$recursiveAnchor", "$recursiveRef", "type", "const", "enum",
    "multipleOf", "maximum", "exclusiveMaximum", "minimum", "exclusiveMinimum",
    "maxLength", "minLength", "pattern", "format",
    "maxItems", "minItems", "uniqueItems", "maxContains", "minContains", "unevaluatedItems",
    "maxProperties", "minProperties", "required", "dependentRequired", "unevaluatedProperties"}

  /** Keywords that hold schemas in a form of their own. */
  const HOLDERS: set<string> := {
    "if", "then", "else", "not", "allOf", "anyOf", "oneOf",
    "items", "additionalItems", "contains", "propertyNames", "additionalProperties",
    "properties", "patternProperties", "dependencies"}

  lemma KnownAre(key: string)
    ensures IsKnown(key) <==> key in VALUES || key in HOLDERS
  {
  }

  lemma NotHeld(key: string)
    requires key !in HOLDERS
    ensures OneNamed(key).None? && ManyNamed(key).None? && KeyedNamed(key).None?
  {
  }

  /** Nothing under a keyword with a value of its own is compiled; under any other word a schema is. */
  lemma LooseSchemas(s: Data, key: string, value: Data, rest: seq<string>)
    requires HasKeywords(s) && J.Field(s, key) == Some(value) && key !in HOLDERS
    ensures key in VALUES ==> Locate(s, [key] + rest).None?
    ensures key !in VALUES && (value.Object? || value.Bool?) ==> Locate(s, [key] + rest) == Locate(value, rest)
  {
    KnownAre(key);
    NotHeld(key);
    LocateKey(s, key, value, [], rest);
    assert [key] + [] + rest == [key] + rest && [] + rest == rest;
  }

  // ---------------------------------------------------------------------------------------
  // The order of compilation
  // ---------------------------------------------------------------------------------------

  /** The place of a keyword in that order; subschemas under other words come last. */
  function Rank(key: string): nat {
    match key
    case "if" => 0
    case "then" => 1
    case "else" => 2
    case "allOf" => 3
    case "anyOf" => 4
    case "oneOf" => 5
    case "not" => 6
    case "items" => 7
    case "additionalItems" => 8
    case "contains" => 9
    case "propertyNames" => 10
    case "additionalProperties" => 11
    case "properties" => 12
    case "patternProperties" => 13
    case "dependencies" => 14
    case _ => 15
  }

  function RankOf(g: Group): nat {
    match g
    case One(kw) => Rank(OneKeyword(kw))
    case Many(kw) => Rank(ManyKeyword(kw))
    case Named(kw) => Rank(NamedKeyword(kw))
    case Loose => 15
  }

  lemma GroupRank(s: Data, g: Group, k: Child)
    requires HasKeywords(s) && IsRuby(s) && k in GroupKids(s, g)
    ensures k.tokens != [] && Rank(k.tokens[0]) == RankOf(g)
  {
    match g {
      case One(kw) =>
      case Many(kw) =>
        var items := Lookup(s, ManyKeyword(kw)).value.items;
        var i := ItemKidAt(kw, items, |items|, k);
      case Named(kw) =>
        var members := Lookup(s, NamedKeyword(kw)).value.members;
        var i := MemberKidAt(kw, members, |members|, k);
      case Loose =>
        LooseLeads(s, k, []);
        KnownAre(k.tokens[0]);
    }
  }

  ghost predicate IsOrdered(kids: seq<Child>) {
    forall i, j :: 0 <= i < j < |kids| ==> InOrder(kids[i], kids[j])
  }

  predicate InOrder(x: Child, y: Child) {
    x.tokens != [] && y.tokens != [] && Rank(x.tokens[0]) <= Rank(y.tokens[0])
  }

  /** The groups so far have ranks up to a bound. */
  ghost predicate RanksUpTo(kids: seq<Child>, bound: nat) {
    forall k :: k in kids ==> k.tokens != [] && Rank(k.tokens[0]) <= bound
  }

  ghost predicate HasRank(parts: Parts, s: Data, g: Group) {
    forall k :: k in parts(s, g) ==> k.tokens != [] && Rank(k.tokens[0]) == RankOf(g)
  }

  lemma {:induction false} GroupsOrdered(parts: Parts, s: Data, gs: seq<Group>, bound: nat)
    requires (forall g :: HasRank(parts, s, g)) && forall i, j :: 0 <= i <= j < |gs| ==> RankOf(gs[i]) <= RankOf(gs[j])
    requires forall i :: 0 <= i < |gs| ==> RankOf(gs[i]) <= bound
    ensures IsOrdered(GroupsKids(parts, s, gs)) && RanksUpTo(GroupsKids(parts, s, gs), bound)
    decreases |gs|
  {
    if gs != [] {
      var init, g := gs[..|gs| - 1], gs[|gs| - 1];
      GroupsOrdered(parts, s, init, RankOf(g));
      assert HasRank(parts, s, g);
      OrderedMore(GroupsKids(parts, s, init), parts(s, g), RankOf(g));
    }
  }

  lemma OrderedMore(xs: seq<Child>, ys: seq<Child>, rank: nat)
    requires IsOrdered(xs) && RanksUpTo(xs, rank)
    requires forall k :: k in ys ==> k.tokens != [] && Rank(k.tokens[0]) == rank
    ensures IsOrdered(xs + ys) && RanksUpTo(xs + ys, rank)
  {
    forall i, j | 0 <= i < j < |xs + ys| ensures InOrder((xs + ys)[i], (xs + ys)[j]) {
      if j >= |xs| {
        assert ys[j - |xs|] in ys;
        if i >= |xs| { assert ys[i - |xs|] in ys; } else { assert xs[i] in xs; }
      }
    }
  }

  lemma GroupsRanked()
    ensures forall i, j :: 0 <= i <= j < |GROUPS| ==> RankOf(GROUPS[i]) <= RankOf(GROUPS[j]) <= 15
  {
    assert RankOf(One(If)) == 0 && RankOf(One(Then)) == 1 && RankOf(One(Else)) == 2 && RankOf(Many(AllOf)) == 3;
    assert RankOf(Many(AnyOf)) == 4 && RankOf(Many(OneOf)) == 5 && RankOf(One(Not)) == 6;
    assert RankOf(One(Items)) == 7 && RankOf(Many(ItemsList)) == 7 && RankOf(One(AdditionalItems)) == 8;
    assert RankOf(One(Contains)) == 9 && RankOf(One(PropertyNames)) == 10 && RankOf(One(AdditionalProperties)) == 11;
    assert RankOf(Named(Properties)) == 12 && RankOf(Named(PatternProperties)) == 13;
    assert RankOf(Named(Dependencies)) == 14 && RankOf(Loose) == 15;
  }

  /** Subschemas are compiled in the order of the keywords that they stand under. */
  lemma KidsOrdered(s: Data)
    requires IsRuby(s)
    ensures IsOrdered(Kids(s))
  {
    if HasKeywords(s) {
      var parts := PartsOf();
      forall g ensures HasRank(parts, s, g) {
        forall k | k in parts(s, g) ensures k.tokens != [] && Rank(k.tokens[0]) == RankOf(g) { GroupRank(s, g, k); }
      }
      GroupsRanked();
      GroupsOrdered(parts, s, GROUPS, 15);
    }
  }
}
