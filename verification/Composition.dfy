/**
 From the JSON of a schema to the answers of validation. Whatever the schema's `$id`s, the graph that the
 compiler hands out, once loaded, means what the schema means as JSON, each `$ref` leading to the location
 it names; and where references are plain pointers, that location is the one the pointer spells.
 */
module Composition {
  import opened Values
  import opened Schema
  import opened Machine
  import opened Keywords
  import opened Draft7
  import opened JsonMeaning
  import opened BaseKeys
  import opened FieldPlaces
  import opened Naming
  import T = SchemaTree
  import B = Blueprint
  import D = Drift
  import L = Loading
  import R = RefResolver
  import S = SchemaCompiler
  import F = References
  import A = Location
  import Y = Layout
  import Z = Slashes
  import P = Pointer

  // ---------------------------------------------------------------------------------------
  // What a node answers and what its location answers
  // ---------------------------------------------------------------------------------------

  /** The schema at a place applied to a datum. */
  function On(p: Place, data: Data): Applied { Applied(p.tokens, p.source, data) }

  ghost predicate SameAnswer<V(!new)>(f: Goal -> V, g: Applied -> V, ps: seq<Place>, b: Address, data: Data) {
    b < |ps| ==> f((b, data)) == g(On(ps[b], data))
  }

  /** The nodes answer as their locations do. */
  ghost predicate SameAnswers<V(!new)>(f: Goal -> V, g: Applied -> V, ps: seq<Place>) {
    forall b: Address, data :: SameAnswer(f, g, ps, b, data)
  }

  lemma Answer<V(!new)>(f: Goal -> V, g: Applied -> V, ps: seq<Place>, b: Address, x: Applied, data: Data)
    requires SameAnswers(f, g, ps) && StandsAt(ps, b, x)
    ensures f((b, data)) == g(x.(data := data))
  {
    assert SameAnswer(f, g, ps, b, data);
  }

  /** A loaded node whose fields lead to the locations under the keywords of its place. */
  ghost predicate IsRead(ps: seq<Place>, p: Place, c: B.Compiled, node: Node) {
    node == L.Loaded(c, node) && LinksLead(ps, c.links, p)
  }

  /** What the node under a keyword with one schema answers. */
  ghost predicate OneSays<V(!new)>(
    f: Goal -> V, g: Applied -> V, p: Place, field: Option<Address>, keyword: string, data: Data)
  {
    && (field.Some? <==> HasOne(p.source, keyword))
    && (field.Some? ==> f((field.value, data)) == g(SubOne(On(p, data), keyword, data)))
  }

  lemma OneAnswers<V(!new)>(
    f: Goal -> V, g: Applied -> V, ps: seq<Place>, p: Place, c: B.Compiled, kw: T.Single, data: Data)
    requires SameAnswers(f, g, ps) && LinksLead(ps, c.links, p)
    ensures OneSays(f, g, p, L.OneOf(c.links, kw), T.OneKeyword(kw), data)
  {
    assert LeadsOne(ps, c.links, p, kw);
    if kw in c.links.ones { Answer(f, g, ps, c.links.ones[kw], SubOne(Of(p), T.OneKeyword(kw), Null), data); }
  }

  ghost predicate ItemSays<V(!new)>(
    f: Goal -> V, g: Applied -> V, p: Place, list: seq<Address>, keyword: string, j: nat, data: Data)
  {
    j < |list| ==> f((list[j], data)) == g(SubItem(On(p, data), keyword, j, data))
  }

  /** What the nodes under a keyword with a list of schemas answer. */
  ghost predicate ManySay<V(!new)>(
    f: Goal -> V, g: Applied -> V, p: Place, field: Option<seq<Address>>, keyword: string)
  {
    var list := ListUnder(p.source, keyword);
    && (field.Some? <==> list.Some?)
    && (field.Some? ==>
          |field.value| == |list.value| && forall j: nat, data :: ItemSays(f, g, p, field.value, keyword, j, data))
  }

  lemma ManyAnswers<V(!new)>(f: Goal -> V, g: Applied -> V, ps: seq<Place>, p: Place, c: B.Compiled, kw: T.Listed)
    requires SameAnswers(f, g, ps) && LinksLead(ps, c.links, p)
    ensures ManySay(f, g, p, L.ManyOf(c.links, kw), T.ManyKeyword(kw))
  {
    assert LeadsMany(ps, c.links, p, kw);
    if kw in c.links.lists {
      var keyword := T.ManyKeyword(kw);
      forall j: nat, data ensures ItemSays(f, g, p, c.links.lists[kw], keyword, j, data) {
        if j < |c.links.lists[kw]| { Answer(f, g, ps, c.links.lists[kw][j], SubItem(Of(p), keyword, j, Null), data); }
      }
    }
  }

  /** A pair of a hash keyword, and what its node answers. */
  lemma {:induction false} PairStands(
    ps: seq<Place>, p: Place, kw: T.Keyed, members: seq<(Key, Data)>, pairs: L.Pairs, pair: (string, Address))
    requires LeadsUpTo(ps, p, kw, members, pairs) && pair in pairs
    ensures HasKey(members, Name(pair.0)) && StandsAt(ps, pair.1, MemberOf(p, kw, pair.0))
    decreases |members|
  {
    var init, last := members[..|members| - 1], members[|members| - 1];
    if last.0.Name? && pair == pairs[|pairs| - 1] {
      assert members[|members| - 1].0 == Name(pair.0);
    } else {
      PairStands(ps, p, kw, init, if last.0.Name? then pairs[..|pairs| - 1] else pairs, pair);
      var i :| 0 <= i < |init| && init[i].0 == Name(pair.0);
      assert members[i].0 == Name(pair.0);
    }
  }

  /** A name with a subschema has a pair. */
  lemma {:induction false} NamePair(
    ps: seq<Place>, p: Place, kw: T.Keyed, members: seq<(Key, Data)>, pairs: L.Pairs, name: string)
    returns (pair: (string, Address))
    requires LeadsUpTo(ps, p, kw, members, pairs) && HasKey(members, Name(name))
    ensures pair in pairs && pair.0 == name
    decreases |members|
  {
    var init, last := members[..|members| - 1], members[|members| - 1];
    if last.0 == Name(name) {
      pair := pairs[|pairs| - 1];
    } else {
      var i :| 0 <= i < |members| && members[i].0 == Name(name);
      assert init[i].0 == Name(name);
      pair := NamePair(ps, p, kw, init, if last.0.Name? then pairs[..|pairs| - 1] else pairs, name);
    }
  }

  function MemberOn(p: Place, kw: T.Keyed, name: string, data: Data): Applied {
    if kw.Dependencies? then SubDependency(On(p, data), name, data)
    else SubMember(On(p, data), T.NamedKeyword(kw), name, data)
  }

  lemma PairAnswers<V(!new)>(
    f: Goal -> V, g: Applied -> V, ps: seq<Place>, p: Place, c: B.Compiled, kw: T.Keyed,
    pair: (string, Address), data: Data)
    requires SameAnswers(f, g, ps) && LinksLead(ps, c.links, p) && kw in c.links.hashes
    requires pair in c.links.hashes[kw]
    ensures HasMember(p.source, T.NamedKeyword(kw), pair.0)
    ensures f((pair.1, data)) == g(MemberOn(p, kw, pair.0, data))
  {
    assert LeadsNamed(ps, c.links, p, kw);
    PairStands(ps, p, kw, HashUnder(p.source, T.NamedKeyword(kw)).value, c.links.hashes[kw], pair);
    Answer(f, g, ps, pair.1, MemberOf(p, kw, pair.0), data);
  }

  lemma MemberPair(ps: seq<Place>, p: Place, c: B.Compiled, kw: T.Keyed, name: string) returns (pair: (string, Address))
    requires LinksLead(ps, c.links, p) && HasMember(p.source, T.NamedKeyword(kw), name)
    ensures kw in c.links.hashes && pair in c.links.hashes[kw] && pair.0 == name
  {
    assert LeadsNamed(ps, c.links, p, kw);
    pair := NamePair(ps, p, kw, HashUnder(p.source, T.NamedKeyword(kw)).value, c.links.hashes[kw], name);
  }

  // ---------------------------------------------------------------------------------------
  // Keyword by keyword
  // ---------------------------------------------------------------------------------------

  lemma BranchesSame(
    met: Goal -> bool, holds: Applied -> bool, ps: seq<Place>, p: Place, c: B.Compiled, node: Node, data: Data)
    requires SameAnswers(met, holds, ps) && IsRead(ps, p, c, node)
    ensures IfSat(met, node, data) <==> IfHolds(holds, On(p, data))
    ensures (node.notSchema.Some? ==> !met((node.notSchema.value, data))) <==>
            (HasOne(p.source, "not") ==> !holds(SubOne(On(p, data), "not", data)))
  {
    OneAnswers(met, holds, ps, p, c, T.If, data);
    OneAnswers(met, holds, ps, p, c, T.Then, data);
    OneAnswers(met, holds, ps, p, c, T.Else, data);
    OneAnswers(met, holds, ps, p, c, T.Not, data);
  }

  lemma AllOfSame(
    met: Goal -> bool, holds: Applied -> bool, ps: seq<Place>, p: Place, c: B.Compiled, node: Node, data: Data)
    requires SameAnswers(met, holds, ps) && IsRead(ps, p, c, node)
    ensures AllOfSat(met, node, data) <==> AllOfHolds(holds, On(p, data))
  {
    ManyAnswers(met, holds, ps, p, c, T.AllOf);
    if node.allOf.Some? {
      forall i: nat | i < |node.allOf.value|
        ensures met((node.allOf.value[i], data)) <==> holds(SubItem(On(p, data), "allOf", i, data))
      {
        assert ItemSays(met, holds, p, node.allOf.value, "allOf", i, data);
      }
    }
  }

  lemma AnyOfSame(
    met: Goal -> bool, holds: Applied -> bool, ps: seq<Place>, p: Place, c: B.Compiled, node: Node, data: Data)
    requires SameAnswers(met, holds, ps) && IsRead(ps, p, c, node)
    ensures AnyOfSat(met, node, data) <==> AnyOfHolds(holds, On(p, data))
  {
    ManyAnswers(met, holds, ps, p, c, T.AnyOf);
    if node.anyOf.Some? {
      forall i: nat | i < |node.anyOf.value|
        ensures met((node.anyOf.value[i], data)) <==> holds(SubItem(On(p, data), "anyOf", i, data))
      {
        assert ItemSays(met, holds, p, node.anyOf.value, "anyOf", i, data);
      }
    }
  }

  lemma OneOfSame(
    met: Goal -> bool, holds: Applied -> bool, ps: seq<Place>, p: Place, c: B.Compiled, node: Node, data: Data)
    requires SameAnswers(met, holds, ps) && IsRead(ps, p, c, node)
    ensures OneOfSat(met, node, data) <==> OneOfHolds(holds, On(p, data))
  {
    ManyAnswers(met, holds, ps, p, c, T.OneOf);
    if node.oneOf.Some? {
      var n := |node.oneOf.value|;
      forall i: nat | i < n
        ensures met((node.oneOf.value[i], data)) <==> holds(SubItem(On(p, data), "oneOf", i, data))
      {
        assert ItemSays(met, holds, p, node.oneOf.value, "oneOf", i, data);
      }
      forall i: nat
        ensures OnlyBranch(met, node.oneOf.value, data, i) <==> IsOnly(holds, On(p, data), n, i) {}
    }
  }

  lemma ItemsSame(
    met: Goal -> bool, holds: Applied -> bool, ps: seq<Place>, p: Place, c: B.Compiled, node: Node, data: Data)
    requires SameAnswers(met, holds, ps) && IsRead(ps, p, c, node) && data.Array?
    ensures ItemsSat(met, node, data.items) <==> ItemsHold(holds, On(p, data), data.items)
  {
    var items := data.items;
    OneAnswers(met, holds, ps, p, c, T.Items, Null);
    OneAnswers(met, holds, ps, p, c, T.AdditionalItems, Null);
    ManyAnswers(met, holds, ps, p, c, T.ItemsList);
    forall i: nat | i < |items|
      ensures node.itemsSchema.Some? ==>
                (met((node.itemsSchema.value, items[i])) <==> holds(SubOne(On(p, data), "items", items[i])))
      ensures node.additionalItems.Some? ==>
                (met((node.additionalItems.value, items[i])) <==>
                 holds(SubOne(On(p, data), "additionalItems", items[i])))
      ensures node.items.Some? && i < |node.items.value| ==>
                (met((node.items.value[i], items[i])) <==> holds(SubItem(On(p, data), "items", i, items[i])))
    {
      OneAnswers(met, holds, ps, p, c, T.Items, items[i]);
      OneAnswers(met, holds, ps, p, c, T.AdditionalItems, items[i]);
      if node.items.Some? { assert ItemSays(met, holds, p, node.items.value, "items", i, items[i]); }
    }
  }

  /** A numeric limit, as `compile` keeps it. */
  function LimitOf(e: Given, s: Data, keyword: string): Option<Limit> {
    match Field(s, keyword)
    case Some(Integer(n)) => Some(Whole(n))
    case Some(Float(tag, integral)) => Some(Fraction(e.truncate(Float(tag, integral))))
    case _ => None
  }

  /** The hash keys that some names are. */
  function KeysOf(e: Given, names: seq<Data>): (keys: seq<Key>)
    ensures |keys| == |names| && forall i :: 0 <= i < |names| ==> keys[i] == e.key(names[i])
  {
    seq(|names|, i requires 0 <= i < |names| => e.key(names[i]))
  }

  /** The limits, the list of names and the code of a `format` error of a node are those of its schema. */
  predicate HasValues(e: Given, s: Data, node: Node) {
    && node.maxLength == LimitOf(e, s, "maxLength") && node.minLength == LimitOf(e, s, "minLength")
    && node.maxItems == LimitOf(e, s, "maxItems") && node.minItems == LimitOf(e, s, "minItems")
    && node.maxContains == LimitOf(e, s, "maxContains") && node.minContains == LimitOf(e, s, "minContains")
    && node.maxProperties == LimitOf(e, s, "maxProperties") && node.minProperties == LimitOf(e, s, "minProperties")
    && node.required == RequiredOf(e, s) && node.formatKey == e.formatCode(s)
  }

  function RequiredOf(e: Given, s: Data): Option<seq<Key>> {
    var names := ListUnder(s, "required");
    if names.Some? then Some(KeysOf(e, names.value)) else None
  }

  /** What a limit is a number of, as a long, as an unsigned long and as a count. */
  lemma LimitSame(e: Given, s: Data, keyword: string)
    ensures var limit, n, count := LimitOf(e, s, keyword), NumberUnder(e, s, keyword), IntegerUnder(s, keyword);
      && (limit.Some? <==> n.Some?)
      && (limit.Some? ==> AsLong(limit.value) == n.value && AsULong(limit.value) == Unsigned(n.value))
      && (limit.Some? && limit.value.Whole? <==> count.Some?)
      && (count.Some? ==> limit == Some(Whole(count.value)))
  {
  }

  lemma ContainsSame(
    met: Goal -> bool, holds: Applied -> bool, ps: seq<Place>, p: Place, c: B.Compiled, node: Node, e: Given,
    data: Data)
    requires SameAnswers(met, holds, ps) && IsRead(ps, p, c, node) && HasValues(e, p.source, node) && data.Array?
    ensures node.contains.Some? <==> HasOne(p.source, "contains")
    ensures node.contains.Some? ==>
              |ContainsHits(met, node.contains.value, data.items)| == Contained(holds, On(p, data), data.items)
              && (ContainsSat(met, node, data.items) <==> ContainsHolds(holds, On(p, data), data.items))
  {
    var items := data.items;
    OneAnswers(met, holds, ps, p, c, T.Contains, Null);
    LimitSame(e, p.source, "maxContains");
    LimitSame(e, p.source, "minContains");
    if node.contains.Some? {
      forall i: nat | i < |items|
        ensures met((node.contains.value, items[i])) <==> holds(SubOne(On(p, data), "contains", items[i]))
      {
        OneAnswers(met, holds, ps, p, c, T.Contains, items[i]);
      }
      assert ContainsHits(met, node.contains.value, items) ==
             set i: nat | i < |items| && holds(SubOne(On(p, data), "contains", items[i]));
    }
  }

  lemma {:induction false} KeyedAre(pairs: L.Pairs, d: (Key, Address))
    ensures d in L.Keyed(pairs) <==> d.0.Name? && (d.0.name, d.1) in pairs
    decreases |pairs|
  {
    if pairs != [] {
      var init, last := pairs[..|pairs| - 1], pairs[|pairs| - 1];
      KeyedAre(init, d);
      assert forall x :: x in pairs <==> x in init || x == last;
    }
  }

  lemma DependenciesSame(
    met: Goal -> bool, holds: Applied -> bool, ps: seq<Place>, p: Place, c: B.Compiled, node: Node, data: Data)
    requires SameAnswers(met, holds, ps) && IsRead(ps, p, c, node) && data.Object?
    ensures (node.dependencies.Some? ==>
               forall d | d in node.dependencies.value :: HasKey(data.members, d.0) ==> met((d.1, data)))
            <==> DependenciesHold(holds, On(p, data), data.members)
  {
    if DependenciesHold(holds, On(p, data), data.members) && node.dependencies.Some? {
      forall d | d in node.dependencies.value && HasKey(data.members, d.0) ensures met((d.1, data)) {
        KeyedAre(c.links.hashes[T.Dependencies], d);
        PairAnswers(met, holds, ps, p, c, T.Dependencies, (d.0.name, d.1), data);
      }
    }
    if node.dependencies.Some? ==>
         forall d | d in node.dependencies.value :: HasKey(data.members, d.0) ==> met((d.1, data))
    {
      forall name | HasMember(p.source, "dependencies", name) && HasKey(data.members, Name(name))
        ensures holds(SubDependency(On(p, data), name, data))
      {
        var pair := MemberPair(ps, p, c, T.Dependencies, name);
        KeyedAre(c.links.hashes[T.Dependencies], (Name(name), pair.1));
        PairAnswers(met, holds, ps, p, c, T.Dependencies, pair, data);
      }
    }
  }

  // --- members ---

  lemma {:induction false} MapPair(pairs: L.Pairs, name: string)
    ensures name in L.MapOf(pairs) <==> exists pair :: pair in pairs && pair.0 == name
    ensures name in L.MapOf(pairs) ==> (name, L.MapOf(pairs)[name]) in pairs
    decreases |pairs|
  {
    if pairs != [] {
      var init, last := pairs[..|pairs| - 1], pairs[|pairs| - 1];
      MapPair(init, name);
      assert forall x :: x in pairs <==> x in init || x == last;
    }
  }

  lemma NamedSame<V(!new)>(
    f: Goal -> V, g: Applied -> V, ps: seq<Place>, p: Place, c: B.Compiled, node: Node, name: string, value: Data)
    requires SameAnswers(f, g, ps) && IsRead(ps, p, c, node)
    ensures Named(node, name) <==> HasMember(p.source, "properties", name)
    ensures Named(node, name) ==>
              f((node.properties.value[name], value)) == g(SubMember(On(p, value), "properties", name, value))
  {
    if HasMember(p.source, "properties", name) {
      var pair := MemberPair(ps, p, c, T.Properties, name);
      MapPair(c.links.hashes[T.Properties], name);
    }
    if Named(node, name) {
      MapPair(c.links.hashes[T.Properties], name);
      PairAnswers(f, g, ps, p, c, T.Properties, (name, node.properties.value[name]), value);
    }
  }

  /** Some pattern of a node matches exactly if some pattern of its schema does. */
  lemma CoversSame(w: World, e: Given, ps: seq<Place>, p: Place, c: B.Compiled, node: Node, name: string)
    requires IsRead(ps, p, c, node) && w.matches == e.matches
    ensures (exists x | x in Patterns(node) :: w.matches(x.0, name)) <==> exists y :: Covers(e, p.source, y, name)
  {
    if x :| x in Patterns(node) && w.matches(x.0, name) {
      assert LeadsNamed(ps, c.links, p, T.PatternProperties);
      PairStands(ps, p, T.PatternProperties, HashUnder(p.source, "patternProperties").value, Patterns(node), x);
      assert Covers(e, p.source, x.0, name);
    }
    if y :| Covers(e, p.source, y, name) { var pair := MemberPair(ps, p, c, T.PatternProperties, y); }
  }

  lemma PatternsSame(
    w: World, e: Given, met: Goal -> bool, holds: Applied -> bool, ps: seq<Place>, p: Place, c: B.Compiled, node: Node,
    name: string, value: Data)
    requires SameAnswers(met, holds, ps) && IsRead(ps, p, c, node) && w.matches == e.matches
    ensures (forall x | x in Patterns(node) && w.matches(x.0, name) :: met((x.1, value))) <==>
            PatternsHold(e, holds, On(p, value), name, value)
  {
    forall x | x in Patterns(node)
      ensures HasMember(p.source, "patternProperties", x.0)
      ensures met((x.1, value)) <==> holds(SubMember(On(p, value), "patternProperties", x.0, value))
    {
      PairAnswers(met, holds, ps, p, c, T.PatternProperties, x, value);
    }
    forall y | Covers(e, p.source, y, name) ensures exists x :: x in Patterns(node) && x.0 == y {
      var pair := MemberPair(ps, p, c, T.PatternProperties, y);
    }
    if forall x | x in Patterns(node) && w.matches(x.0, name) :: met((x.1, value)) {
      forall y | Covers(e, p.source, y, name) ensures holds(SubMember(On(p, value), "patternProperties", y, value)) {
        var x :| x in Patterns(node) && x.0 == y;
      }
    } else {
      var x :| x in Patterns(node) && w.matches(x.0, name) && !met((x.1, value));
      assert Covers(e, p.source, x.0, name);
    }
  }

  /** The datum that a schema is applied to does not matter to its members. */
  lemma AnyDatum(e: Given, holds: Applied -> bool, p: Place, data: Data, name: string, value: Data)
    ensures PatternsHold(e, holds, On(p, data), name, value) <==> PatternsHold(e, holds, On(p, value), name, value)
    ensures SubMember(On(p, data), "properties", name, value) == SubMember(On(p, value), "properties", name, value)
  {
    forall y
      ensures SubMember(On(p, data), "patternProperties", y, value)
           == SubMember(On(p, value), "patternProperties", y, value) {}
  }

  lemma AdditionalSame(
    w: World, e: Given, met: Goal -> bool, holds: Applied -> bool, ps: seq<Place>, p: Place, c: B.Compiled, node: Node,
    data: Data, name: string, value: Data)
    requires SameAnswers(met, holds, ps) && IsRead(ps, p, c, node) && w.matches == e.matches
    ensures (node.additionalProperties.Some? && !Named(node, name)
             && !(exists x | x in Patterns(node) :: w.matches(x.0, name))
             ==> met((node.additionalProperties.value, value))) <==>
            (HasOne(p.source, "additionalProperties") && IsAdditional(e, p.source, name)
             ==> holds(SubOne(On(p, data), "additionalProperties", value)))
  {
    OneAnswers(met, holds, ps, p, c, T.AdditionalProperties, value);
    NamedSame(met, holds, ps, p, c, node, name, value);
    CoversSame(w, e, ps, p, c, node, name);
  }

  lemma MemberSame(
    w: World, e: Given, met: Goal -> bool, holds: Applied -> bool, ps: seq<Place>, p: Place, c: B.Compiled, node: Node,
    data: Data, name: string, value: Data)
    requires SameAnswers(met, holds, ps) && IsRead(ps, p, c, node) && w.matches == e.matches
    ensures MemberSat(w, met, node, name, value) <==> MemberHolds(e, holds, On(p, data), name, value)
  {
    OneAnswers(met, holds, ps, p, c, T.PropertyNames, Text(name));
    NamedSame(met, holds, ps, p, c, node, name, value);
    PatternsSame(w, e, met, holds, ps, p, c, node, name, value);
    AnyDatum(e, holds, p, data, name, value);
    AdditionalSame(w, e, met, holds, ps, p, c, node, data, name, value);
  }

  // --- types and kinds ---

  /** The type fields of a node are those of its schema. */
  predicate HasTypes(s: Data, node: Node) {
    node.typeCheck == B.TypeCheckOf(s) && node.typeFlags == B.TypeFlagsOf(s)
  }

  /** The flag of a type name. */
  lemma FlagSame(name: string, flag: TypeFlag, data: Data)
    ensures B.TypeFlagOf(name).Some? <==> name in TYPES
    ensures B.TypeFlagOf(name) == Some(flag) ==> (HasFlag(data, flag) <==> IsOfType(data, name))
  {
  }

  predicate HasFlag(data: Data, flag: TypeFlag) {
    match flag
    case NullBit => data.Null?
    case BoolBit => data.Bool?
    case StringBit => data.Text?
    case IntegerBit => data.Integer?
    case NumberBit => data.Integer? || data.Float?
    case ArrayBit => data.Array?
    case ObjectBit => data.Object?
  }

  lemma TypeSame(s: Data, node: Node, data: Data)
    requires HasTypes(s, node)
    ensures TypeAllows(node, data) <==> IsOfTypes(s, data)
    ensures !node.typeCheck.NoTypeCheck? <==> LooksAtKind(s)
    ensures data.Integer? ==> (OnLongs(node, data) <==> ComparesLongs(s, data))
  {
    var t := Field(s, "type");
    assert t == B.TypeValue(s);
    if t.Some? && t.value.Array? {
      ListSame(t.value.items, node, data);
    } else if t.Some? && t.value.Text? {
      assert B.TypeFlagOf(t.value.s).Some? <==> t.value.s in TYPES;
    }
  }

  /** A flag of a list of types is listed by its name. */
  lemma FlagListed(names: seq<Data>, flag: TypeFlag, name: string)
    requires B.TypeFlagOf(name) == Some(flag)
    ensures flag in B.FlagsOf(names) <==> Lists(names, name)
  {
    if flag in B.FlagsOf(names) {
      var i :| 0 <= i < |names| && B.IsTypeName(names[i]) && B.FlagOf(names[i]) == flag;
      assert names[i] == Text(name);
    }
    if Lists(names, name) {
      var i :| 0 <= i < |names| && names[i] == Text(name);
      assert B.IsTypeName(names[i]) && B.FlagOf(names[i]) == flag;
    }
  }

  lemma ListSame(names: seq<Data>, node: Node, data: Data)
    requires node.typeCheck.ByTypeList? && node.typeFlags == B.FlagsOf(names)
    ensures TypeAllows(node, data) <==> data.Other? || exists name :: Lists(names, name) && IsOfType(data, name)
    ensures IntegerBit in node.typeFlags <==> Lists(names, "integer")
  {
    FlagListed(names, NullBit, "null");
    FlagListed(names, BoolBit, "boolean");
    FlagListed(names, StringBit, "string");
    FlagListed(names, IntegerBit, "integer");
    FlagListed(names, NumberBit, "number");
    FlagListed(names, ArrayBit, "array");
    FlagListed(names, ObjectBit, "object");
    if TypeAllows(node, data) && !data.Other? {
      var name := match data
        case Null => "null"
        case Bool(_) => "boolean"
        case Integer(_) => if IntegerBit in node.typeFlags then "integer" else "number"
        case Float(_, _) => "number"
        case Text(_) => "string"
        case Array(_) => "array"
        case _ => "object";
      assert Lists(names, name) && IsOfType(data, name);
    }
  }

  /** The checks of a node are those of its schema. */
  ghost predicate HasChecks(w: World, e: Given, i: Address, s: Data) {
    w.matches == e.matches && forall check, data :: w.leaf(i, check, data) == e.leaf(s, check, data)
  }

  lemma NumericSame(w: World, e: Given, i: Address, s: Data, node: Node, data: Data)
    requires HasChecks(w, e, i, s) && HasTypes(s, node) && (data.Integer? || data.Float?)
    ensures NumericSat(w, i, data, OnLongs(node, data)) <==> NumericHolds(e, s, data)
  {
    TypeSame(s, node, data);
  }

  lemma ObjectSame(
    w: World, e: Given, met: Goal -> bool, holds: Applied -> bool, ps: seq<Place>, i: Address, p: Place,
    c: B.Compiled, data: Data)
    requires SameAnswers(met, holds, ps) && IsRead(ps, p, c, w.nodes(i)) && HasChecks(w, e, i, p.source)
    requires HasValues(e, p.source, w.nodes(i)) && data.Object?
    ensures KindSat(w, met, i, data) <==> KindHolds(e, holds, On(p, data))
  {
    var node := w.nodes(i);
    LimitSame(e, p.source, "maxProperties");
    LimitSame(e, p.source, "minProperties");
    RequiredSame(e, p.source, node, data.members);
    DependenciesSame(met, holds, ps, p, c, node, data);
    forall m | m in data.members && m.0.Name?
      ensures EntrySat(w, met, node, m) <==> MemberHolds(e, holds, On(p, data), m.0.name, m.1)
    {
      MemberSame(w, e, met, holds, ps, p, c, node, data, m.0.name, m.1);
    }
  }

  lemma RequiredSame(e: Given, s: Data, node: Node, members: seq<(Key, Data)>)
    requires HasValues(e, s, node)
    ensures (node.required.Some? ==> forall k | k in node.required.value :: HasKey(members, k)) <==>
            RequiredHolds(e, s, members)
  {
    if node.required.Some? {
      var keys, names := node.required.value, ListUnder(s, "required").value;
      assert forall i :: 0 <= i < |names| ==> keys[i] == e.key(names[i]);
    }
  }

  lemma ArraySame(
    w: World, e: Given, met: Goal -> bool, holds: Applied -> bool, ps: seq<Place>, i: Address, p: Place,
    c: B.Compiled, data: Data)
    requires SameAnswers(met, holds, ps) && IsRead(ps, p, c, w.nodes(i)) && HasChecks(w, e, i, p.source)
    requires HasValues(e, p.source, w.nodes(i)) && data.Array?
    ensures KindSat(w, met, i, data) <==> KindHolds(e, holds, On(p, data))
  {
    LimitSame(e, p.source, "maxItems");
    LimitSame(e, p.source, "minItems");
    ItemsSame(met, holds, ps, p, c, w.nodes(i), data);
    ContainsSame(met, holds, ps, p, c, w.nodes(i), e, data);
  }

  lemma TextSame(
    w: World, e: Given, met: Goal -> bool, holds: Applied -> bool, i: Address, p: Place, data: Data)
    requires HasChecks(w, e, i, p.source) && HasValues(e, p.source, w.nodes(i)) && data.Text?
    ensures KindSat(w, met, i, data) <==> KindHolds(e, holds, On(p, data))
  {
    LimitSame(e, p.source, "maxLength");
    LimitSame(e, p.source, "minLength");
  }

  lemma KindSame(
    w: World, e: Given, met: Goal -> bool, holds: Applied -> bool, ps: seq<Place>, i: Address, p: Place,
    c: B.Compiled, data: Data)
    requires SameAnswers(met, holds, ps) && IsRead(ps, p, c, w.nodes(i)) && HasChecks(w, e, i, p.source)
    requires HasValues(e, p.source, w.nodes(i)) && HasTypes(p.source, w.nodes(i))
    ensures KindSat(w, met, i, data) <==> KindHolds(e, holds, On(p, data))
  {
    match data
    case Integer(_) | Float(_, _) => NumericSame(w, e, i, p.source, w.nodes(i), data);
    case Text(_) => TextSame(w, e, met, holds, i, p, data);
    case Array(_) => ArraySame(w, e, met, holds, ps, i, p, c, data);
    case Object(_) => ObjectSame(w, e, met, holds, ps, i, p, c, data);
    case _ =>
  }

  /** The keywords of a node and those of its schema hold of the same data. */
  lemma KeywordsSame(
    w: World, e: Given, met: Goal -> bool, holds: Applied -> bool, ps: seq<Place>, i: Address, p: Place,
    c: B.Compiled, data: Data)
    requires SameAnswers(met, holds, ps) && IsRead(ps, p, c, w.nodes(i)) && HasChecks(w, e, i, p.source)
    requires HasValues(e, p.source, w.nodes(i)) && HasTypes(p.source, w.nodes(i))
    requires w.nodes(i).validation.ByKeywords?
    ensures Obeys(w, met, (i, data)) <==> KeywordsHold(e, holds, On(p, data))
  {
    var node := w.nodes(i);
    TypeSame(p.source, node, data);
    KindSame(w, e, met, holds, ps, i, p, c, data);
    BranchesSame(met, holds, ps, p, c, node, data);
    AllOfSame(met, holds, ps, p, c, node, data);
    AnyOfSame(met, holds, ps, p, c, node, data);
    OneOfSame(met, holds, ps, p, c, node, data);
  }

  // ---------------------------------------------------------------------------------------
  // The graph of a schema
  // ---------------------------------------------------------------------------------------

  /** A node as a run reads it: child fields and functions from the graph, the rest from its schema. */
  ghost predicate IsLoaded(w: World, e: Given, nodes: seq<B.Compiled>, ps: seq<Place>, i: Address) {
    i < |ps| && i < |nodes| ==>
      && w.nodes(i) == L.Loaded(nodes[i], w.nodes(i)) && HasValues(e, ps[i].source, w.nodes(i))
      && HasChecks(w, e, i, ps[i].source)
  }

  ghost predicate Loads(w: World, e: Given, nodes: seq<B.Compiled>, ps: seq<Place>) {
    forall i: Address :: IsLoaded(w, e, nodes, ps, i)
  }

  /** The limits and the names that `required` lists, as `compile` keeps them. */
  function ReadValues(e: Given, s: Data): Node {
    D.BARE.(
      maxLength := LimitOf(e, s, "maxLength"), minLength := LimitOf(e, s, "minLength"),
      maxItems := LimitOf(e, s, "maxItems"), minItems := LimitOf(e, s, "minItems"),
      maxContains := LimitOf(e, s, "maxContains"), minContains := LimitOf(e, s, "minContains"),
      maxProperties := LimitOf(e, s, "maxProperties"), minProperties := LimitOf(e, s, "minProperties"),
      required := RequiredOf(e, s), formatKey := e.formatCode(s))
  }

  /** A graph as runs read it. */
  function Load(e: Given, nodes: seq<B.Compiled>, ps: seq<Place>): World {
    World(
      (i: Address) => if i < |nodes| && i < |ps| then L.Loaded(nodes[i], ReadValues(e, ps[i].source)) else D.BARE,
      (i: Address, check, data) => if i < |ps| then e.leaf(ps[i].source, check, data) else Pass,
      e.matches)
  }

  lemma LoadLoads(e: Given, nodes: seq<B.Compiled>, ps: seq<Place>)
    ensures Loads(Load(e, nodes, ps), e, nodes, ps)
  {
    var w := Load(e, nodes, ps);
    forall i: Address ensures IsLoaded(w, e, nodes, ps, i) {
      if i < |ps| && i < |nodes| { assert HasChecks(w, e, i, ps[i].source); }
    }
  }

  /** Where a `$ref` of a place leads: to the place of the node that it is bound to. */
  ghost predicate IsReferred(lib: B.Library, schema: Data, e: Given, ps: seq<Place>, i: Address) {
    i < |ps| && T.HasKeywords(ps[i].source) && B.TextOf(ps[i].source, "$ref").Some? ==>
      var target := R.Target(lib, F.RefsOf(B.WorkOf(lib), schema), B.NamesOf(lib, ps[i].source, ps[i].site.scope));
      target.Some? && target.value < |ps| ==>
        e.refers(ps[i].tokens) == (ps[target.value].tokens, ps[target.value].source)
  }

  ghost predicate RefersAsBound(lib: B.Library, schema: Data, e: Given) {
    forall i: Address :: IsReferred(lib, schema, e, PlacesOf(lib, schema), i)
  }

  /** What a node of the graph is. */
  lemma LoadedNode(lib: B.Library, schema: Data, nodes: seq<B.Compiled>, w: World, e: Given, i: Address)
    requires IsGraph(lib, schema, nodes) && Loads(w, e, nodes, PlacesOf(lib, schema)) && i < |PlacesOf(lib, schema)|
    ensures var p, node := PlacesOf(lib, schema)[i], w.nodes(i);
      && i < |nodes| && R.Plain(nodes[i]) == B.Root(B.FormOf(), lib, p.source, p.site, i)
      && node == L.Loaded(nodes[i], node) && HasValues(e, p.source, node) && HasChecks(w, e, i, p.source)
      && node.validation == B.FunctionsOf(p.source).validation.value
      && (T.HasKeywords(p.source) ==> HasTypes(p.source, node))
  {
    GraphNode(lib, schema, nodes, i);
    assert IsLoaded(w, e, nodes, PlacesOf(lib, schema), i);
  }

  /** A reference leads to the place it is bound to. */
  lemma LoadedReference(lib: B.Library, schema: Data, nodes: seq<B.Compiled>, w: World, e: Given, i: Address)
    requires IsGraph(lib, schema, nodes) && Loads(w, e, nodes, PlacesOf(lib, schema)) && i < |PlacesOf(lib, schema)|
    requires RefersAsBound(lib, schema, e) && w.nodes(i).validation.ByRef?
    ensures StandsAt(PlacesOf(lib, schema), w.nodes(i).refSchema, Referred(e, Of(PlacesOf(lib, schema)[i])))
  {
    var ps, work, refs := PlacesOf(lib, schema), B.WorkOf(lib), F.RefsOf(B.WorkOf(lib), schema);
    GraphNode(lib, schema, nodes, i);
    LoadedNode(lib, schema, nodes, w, e, i);
    assert IsReferred(lib, schema, e, ps, i);
    B.WorkHolds(lib);
    S.SchemaInRange(work, lib, F.WholeSchema(schema), F.TOP, 0, map[]);
    NodeCountIs(lib, schema);
    S.TargetInRange(lib, refs, B.NamesOf(lib, ps[i].source, ps[i].site.scope), |ps|);
  }

  /** A node obeys its keywords exactly if its location is satisfied. */
  lemma NodeSame(
    lib: B.Library, schema: Data, nodes: seq<B.Compiled>, w: World, e: Given, met: Goal -> bool,
    holds: Applied -> bool, i: Address, data: Data)
    requires A.IsRuby(schema) && IsGraph(lib, schema, nodes) && Loads(w, e, nodes, PlacesOf(lib, schema))
    requires RefersAsBound(lib, schema, e) && SameAnswers(met, holds, PlacesOf(lib, schema))
    requires i < |PlacesOf(lib, schema)|
    ensures Obeys(w, met, (i, data)) <==> Satisfied(e, holds, On(PlacesOf(lib, schema)[i], data))
  {
    var ps := PlacesOf(lib, schema);
    var p := ps[i];
    LoadedNode(lib, schema, nodes, w, e, i);
    assert RefOf(p.source) == B.TextOf(p.source, "$ref");
    if w.nodes(i).validation.ByKeywords? {
      NodeLeads(lib, schema, i, nodes[i]);
      KeywordsSame(w, e, met, holds, ps, i, p, nodes[i], data);
    } else if w.nodes(i).validation.ByRef? {
      LoadedReference(lib, schema, nodes, w, e, i);
      Answer(met, holds, ps, w.nodes(i).refSchema, Referred(e, Of(p)), data);
    }
  }

  lemma {:induction false} MeetsSame(
    lib: B.Library, schema: Data, nodes: seq<B.Compiled>, w: World, e: Given, fuel: nat)
    requires A.IsRuby(schema) && IsGraph(lib, schema, nodes) && Loads(w, e, nodes, PlacesOf(lib, schema))
    requires RefersAsBound(lib, schema, e)
    ensures SameAnswers(Meets(w, fuel), Holds(e, fuel), PlacesOf(lib, schema))
    decreases fuel
  {
    var ps, met, holds := PlacesOf(lib, schema), Meets(w, fuel), Holds(e, fuel);
    if fuel > 0 { MeetsSame(lib, schema, nodes, w, e, fuel - 1); }
    forall b: Address, data ensures SameAnswer(met, holds, ps, b, data) {
      if fuel > 0 && b < |ps| {
        NodeSame(lib, schema, nodes, w, e, Meets(w, fuel - 1), Holds(e, fuel - 1), b, data);
      }
    }
  }

  /** The compiled graph means what the schema means. */
  lemma GraphMeansBound(
    lib: B.Library, schema: Data, nodes: seq<B.Compiled>, w: World, e: Given, fuel: nat, data: Data)
    requires A.IsRuby(schema) && IsGraph(lib, schema, nodes) && Loads(w, e, nodes, PlacesOf(lib, schema))
    requires RefersAsBound(lib, schema, e)
    ensures Sat(w, fuel, 0, data) <==> JsonSat(e, fuel, Applied([], schema, data))
  {
    MeetsSame(lib, schema, nodes, w, e, fuel);
    NodeSame(lib, schema, nodes, w, e, Meets(w, fuel), Holds(e, fuel), 0, data);
  }

  /** Where a `$ref` leads: to the last location of the name that counts. */
  ghost predicate IsReferredTo(lib: B.Library, schema: Data, e: Given, ps: seq<Place>, i: Address, j: Address) {
    i < |ps| && j < |ps| && T.HasKeywords(ps[i].source) && RefOf(ps[i].source).Some?
    && NamesLast(lib, schema, NameOf(lib, schema, ps[i].tokens, RefOf(ps[i].source).value), j) ==>
      e.refers(ps[i].tokens) == (ps[j].tokens, ps[j].source)
  }

  ghost predicate RefersAsNamed(lib: B.Library, schema: Data, e: Given) {
    forall i: Address, j: Address :: IsReferredTo(lib, schema, e, PlacesOf(lib, schema), i, j)
  }

  lemma NamedIsBound(lib: B.Library, schema: Data, e: Given)
    requires A.IsRuby(schema) && RefersAsNamed(lib, schema, e)
    ensures RefersAsBound(lib, schema, e)
  {
    var ps := PlacesOf(lib, schema);
    forall i: Address ensures IsReferred(lib, schema, e, ps, i) {
      if i < |ps| && T.HasKeywords(ps[i].source) && B.TextOf(ps[i].source, "$ref").Some? {
        assert RefOf(ps[i].source) == B.TextOf(ps[i].source, "$ref");
        TargetIsNamed(lib, schema, i, RefOf(ps[i].source).value);
        var target := R.Target(lib, F.RefsOf(B.WorkOf(lib), schema), B.NamesOf(lib, ps[i].source, ps[i].site.scope));
        if target.Some? { assert IsReferredTo(lib, schema, e, ps, i, target.value); }
      }
    }
  }

  lemma GraphMeansSchema(
    lib: B.Library, schema: Data, nodes: seq<B.Compiled>, w: World, e: Given, fuel: nat, data: Data)
    requires A.IsRuby(schema) && IsGraph(lib, schema, nodes) && Loads(w, e, nodes, PlacesOf(lib, schema))
    requires RefersAsNamed(lib, schema, e)
    ensures Sat(w, fuel, 0, data) <==> JsonSat(e, fuel, Applied([], schema, data))
  {
    NamedIsBound(lib, schema, e);
    GraphMeansBound(lib, schema, nodes, w, e, fuel, data);
  }

  /** So a completed `valid?` answers whether the document satisfies the schema, and `validate` is silent if it does. */
  lemma AnswersMeanSchema(
    lib: B.Library, schema: Data, nodes: seq<B.Compiled>, w: World, e: Given, fuel: nat, data: Data)
    requires A.IsRuby(schema) && IsGraph(lib, schema, nodes) && Loads(w, e, nodes, PlacesOf(lib, schema))
    requires RefersAsNamed(lib, schema, e)
    ensures var answer := Valid(w, fuel, 0, data);
      answer.outcome.Finished? ==> (answer.valid <==> JsonSat(e, fuel, Applied([], schema, data)))
    ensures var run := Validate(w, fuel, 0, data);
      run.outcome.Finished? ==> (run.state.events == [] <==> JsonSat(e, fuel, Applied([], schema, data)))
  {
    GraphMeansSchema(lib, schema, nodes, w, e, fuel, data);
    if Valid(w, fuel, 0, data).outcome.Finished? { ValidMeansSat(w, fuel, 0, data); }
    if Validate(w, fuel, 0, data).outcome.Finished? { ValidateMeansSat(w, fuel, 0, data); }
  }

  // ---------------------------------------------------------------------------------------
  // Plain pointers
  // ---------------------------------------------------------------------------------------

  /** A place whose path its tokens spell, with no base in scope. */
  predicate IsPathed(p: Place) { p.site.path == "#" + Z.PrintSlashed(p.tokens) && p.site.scope == F.NOWHERE }

  ghost predicate AllPathed(ps: seq<Place>) { forall p :: p in ps ==> IsPathed(p) }

  lemma SiteKept(lib: B.Library, source: Data, site: Y.Site)
    requires F.HasNoId(source)
    ensures B.InnerSite(lib, source, site) == site
  {
  }

  lemma KidPathed(lib: B.Library, c: T.Child, at: Place)
    requires IsPathed(at) && F.HasNoId(at.source)
    ensures IsPathed(PlaceOf(lib, c, at))
  {
    SiteKept(lib, at.source, at.site);
    F.PathOn("#", at.tokens, c.tokens);
  }

  lemma {:induction false} TreePathed(lib: B.Library, c: T.Child, at: Place)
    requires at.source == c.source && F.IsSimple(c) && IsPathed(at)
    ensures AllPathed(Places(lib, Y.TreeOf(c), at))
    decreases Height(c.source), 1, 0
  {
    T.KidsLower(c.source);
    KidsPathed(lib, T.Kids(c.source), at, Height(c.source));
  }

  lemma {:induction false} KidsPathed(lib: B.Library, kids: seq<T.Child>, at: Place, bound: nat)
    requires T.AllLower(kids, bound) && (forall k :: k in kids ==> F.IsSimple(k))
    requires IsPathed(at) && F.HasNoId(at.source)
    ensures AllPathed(ForestPlaces(lib, Y.ForestOf(kids), at))
    decreases bound, 0, |kids|
  {
    if kids == [] {
      assert ForestPlaces(lib, Y.ForestOf(kids), at) == [];
    } else {
      var init, k := kids[..|kids| - 1], kids[|kids| - 1];
      KidsPathed(lib, init, at, bound);
      KidPathed(lib, k, at);
      TreePathed(lib, k, PlaceOf(lib, k, at));
      LastPlaces(lib, kids, at);
    }
  }

  /** The `$ref` of a location is the pointer that spells where it leads, with nothing percent-encoded. */
  ghost predicate PointsPlainly(lib: B.Library, schema: Data, e: Given, at: seq<string>) {
    var s := A.Locate(schema, at);
    s.Some? && T.HasKeywords(s.value) && B.TextOf(s.value, "$ref").Some? ==>
      var ref := B.TextOf(s.value, "$ref").value;
      var (tokens, there) := e.refers(at);
      && F.NoSlashes(tokens) && ref == "#" + P.Print(tokens) && lib.unescape(ref) == ref
      && (A.Locate(schema, tokens).Some? ==> there == A.Locate(schema, tokens).value)
  }

  /** Where references are plain pointers, each is bound to the location that it spells. */
  lemma PointersAreBound(lib: B.Library, schema: Data, e: Given)
    requires A.IsRuby(schema) && F.IsSimple(F.WholeSchema(schema))
    requires forall at :: PointsPlainly(lib, schema, e, at)
    ensures RefersAsBound(lib, schema, e)
  {
    var ps := PlacesOf(lib, schema);
    TreePathed(lib, F.WholeSchema(schema), Top(schema));
    PlacesAreLocations(lib, schema, []);
    forall i: Address ensures IsReferred(lib, schema, e, ps, i) {
      if i < |ps| { PointerReferred(lib, schema, e, ps, i); }
    }
  }

  lemma PointerReferred(lib: B.Library, schema: Data, e: Given, ps: seq<Place>, i: Address)
    requires A.IsRuby(schema) && F.IsSimple(F.WholeSchema(schema)) && ps == PlacesOf(lib, schema) && i < |ps|
    requires AllPathed(ps) && A.Locate(schema, ps[i].tokens) == Some(ps[i].source)
    requires PointsPlainly(lib, schema, e, ps[i].tokens)
    ensures IsReferred(lib, schema, e, ps, i)
  {
    var p := ps[i];
    if T.HasKeywords(p.source) && B.TextOf(p.source, "$ref").Some? {
      assert IsPathed(p);
      PointerBound(lib, schema, p.source, e.refers(p.tokens).0);
    }
  }

  lemma PointerBound(lib: B.Library, schema: Data, d: Data, tokens: seq<string>)
    requires A.IsRuby(schema) && F.IsSimple(F.WholeSchema(schema)) && F.NoSlashes(tokens)
    requires AllPathed(PlacesOf(lib, schema)) && T.HasKeywords(d)
    requires B.TextOf(d, "$ref") == Some("#" + P.Print(tokens))
    requires lib.unescape("#" + P.Print(tokens)) == "#" + P.Print(tokens)
    ensures var target := R.Target(lib, F.RefsOf(B.WorkOf(lib), schema), B.NamesOf(lib, d, F.NOWHERE));
      target.Some? ==>
        && target.value < |PlacesOf(lib, schema)| && PlacesOf(lib, schema)[target.value].tokens == tokens
        && A.Locate(schema, tokens) == Some(PlacesOf(lib, schema)[target.value].source)
  {
    B.WorkHolds(lib);
    F.RefIsWalk(B.WorkOf(lib), lib, schema, d, tokens);
    PlacesAreLocations(lib, schema, tokens);
    if A.Locate(schema, tokens).Some? {
      var j: nat :| j < |PlacesOf(lib, schema)| && PlacesOf(lib, schema)[j].tokens == tokens;
      assert PlacesOf(lib, schema)[j] in PlacesOf(lib, schema);
      NodesArePlaces(lib, schema, j);
    }
  }

  /**
   A schema without `$id`s whose references are plain pointers means what draft-07 says of its JSON, each
   `$ref` standing for the location that its pointer spells.
   */
  lemma PointersMean(
    lib: B.Library, schema: Data, nodes: seq<B.Compiled>, w: World, e: Given, fuel: nat, data: Data)
    requires A.IsRuby(schema) && F.IsSimple(F.WholeSchema(schema)) && IsGraph(lib, schema, nodes)
    requires Loads(w, e, nodes, PlacesOf(lib, schema)) && forall at :: PointsPlainly(lib, schema, e, at)
    ensures var answer := Valid(w, fuel, 0, data);
      answer.outcome.Finished? ==> (answer.valid <==> JsonSat(e, fuel, Applied([], schema, data)))
  {
    PointersAreBound(lib, schema, e);
    GraphMeansBound(lib, schema, nodes, w, e, fuel, data);
    if Valid(w, fuel, 0, data).outcome.Finished? { ValidMeansSat(w, fuel, 0, data); }
  }
}
