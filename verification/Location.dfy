/**
 Where subschemas are: a walk from a schema along pointer tokens to the schemas that the compiler
 compiles, defined without the compiler, and the agreement of the compiler's children with it.
 */
module Location {
  import opened Values
  import opened Bytes
  import opened SchemaTree
  import Ipv4

  // ---------------------------------------------------------------------------------------
  // Walks
  // ---------------------------------------------------------------------------------------

  /** The index an array token names. */
  function IndexIn(items: seq<Data>, token: string, n: nat): (r: Option<nat>)
    requires n <= |items|
    ensures r.Some? ==> r.value < n && Decimal(r.value) == token
    ensures r.None? ==> forall i: nat :: i < n ==> Decimal(i) != token
  {
    if n == 0 then None else if Decimal(n - 1) == token then Some(n - 1) else IndexIn(items, token, n - 1)
  }

  /** Evaluation of a JSON Pointer (section 4 of RFC 6901). */
  function Walk(d: Data, tokens: seq<string>): Option<Data>
    decreases |tokens|
  {
    if tokens == [] then Some(d)
    else if d.Object? then
      var v := LookupIn(d.members, tokens[0]);
      if v.None? then None else Walk(v.value, tokens[1..])
    else if d.Array? then
      var i := IndexIn(d.items, tokens[0], |d.items|);
      if i.None? then None else Walk(d.items[i.value], tokens[1..])
    else None
  }

  function OneNamed(key: string): Option<Single> {
    match key
    case "if" => Some(If)
    case "then" => Some(Then)
    case "else" => Some(Else)
    case "not" => Some(Not)
    case "items" => Some(Items)
    case "additionalItems" => Some(AdditionalItems)
    case "contains" => Some(Contains)
    case "propertyNames" => Some(PropertyNames)
    case "additionalProperties" => Some(AdditionalProperties)
    case _ => None
  }

  function ManyNamed(key: string): Option<Listed> {
    match key
    case "allOf" => Some(AllOf)
    case "anyOf" => Some(AnyOf)
    case "oneOf" => Some(OneOf)
    case "items" => Some(ItemsList)
    case _ => None
  }

  function KeyedNamed(key: string): Option<Keyed> {
    match key
    case "properties" => Some(Properties)
    case "patternProperties" => Some(PatternProperties)
    case "dependencies" => Some(Dependencies)
    case _ => None
  }

  /** The schema compiled at a location: where the tokens of a walk name a subschema throughout. */
  function Locate(schema: Data, tokens: seq<string>): Option<Data>
    decreases |tokens|, 1
  {
    if tokens == [] then Some(schema)
    else if !HasKeywords(schema) then None
    else
      var v := LookupIn(schema.members, tokens[0]);
      if v.None? then None else LocateUnder(tokens[0], v.value, tokens[1..])
  }

  /** A location under a keyword with some value. */
  function LocateUnder(key: string, value: Data, rest: seq<string>): Option<Data>
    decreases |rest|, 3
  {
    if OneNamed(key).Some? && IsShaped(value) then Locate(value, rest)
    else if ManyNamed(key).Some? && value.Array? then LocateItem(value.items, rest)
    else if KeyedNamed(key).Some? && value.Object? then LocateMember(KeyedNamed(key).value, value.members, rest)
    else if !IsKnown(key) then LocateEntry(value, rest)
    else None
  }

  function LocateItem(items: seq<Data>, rest: seq<string>): Option<Data>
    decreases |rest|, 0
  {
    if rest == [] then None
    else
      var i := IndexIn(items, rest[0], |items|);
      if i.None? then None else Locate(items[i.value], rest[1..])
  }

  function LocateMember(kw: Keyed, members: seq<(Key, Data)>, rest: seq<string>): Option<Data>
    decreases |rest|, 0
  {
    if rest == [] then None
    else
      var v := LookupIn(members, rest[0]);
      if v.None? then None else Locate(MemberSource(kw, v.value), rest[1..])
  }

  function LocateEntry(value: Data, rest: seq<string>): Option<Data>
    decreases |rest|, 2
  {
    if IsShaped(value) then Locate(value, rest)
    else if value.Array? && rest != [] then
      var i := IndexIn(value.items, rest[0], |value.items|);
      if i.None? then None else LocateEntry(value.items[i.value], rest[1..])
    else None
  }

  // ---------------------------------------------------------------------------------------
  // Schemas as Ruby builds them
  // ---------------------------------------------------------------------------------------

  predicate DistinctKeys(members: seq<(Key, Data)>) {
    forall i, j :: 0 <= i < j < |members| ==> members[i].0 != members[j].0
  }

  /** No hash inside has a key twice. */
  predicate IsRuby(d: Data)
    decreases d
  {
    match d
    case Array(items) => forall i :: 0 <= i < |items| ==> IsRuby(items[i])
    case Object(members) => DistinctKeys(members) && forall i :: 0 <= i < |members| ==> IsMember(members[i])
    case _ => true
  }

  predicate IsMember(member: (Key, Data))
    decreases member
  {
    IsRuby(member.1)
  }

  lemma {:induction false} LookupAt(members: seq<(Key, Data)>, i: nat, name: string)
    requires DistinctKeys(members) && i < |members| && members[i].0 == Name(name)
    ensures LookupIn(members, name) == Some(members[i].1)
    decreases i
  {
    if i > 0 { LookupAt(members[1..], i - 1, name); }
  }

  lemma LookupIsRuby(members: seq<(Key, Data)>, name: string)
    requires IsRuby(Object(members)) && LookupIn(members, name).Some?
    ensures IsRuby(LookupIn(members, name).value)
  {
    var i :| 0 <= i < |members| && members[i] == (Name(name), LookupIn(members, name).value);
    assert IsMember(members[i]);
  }

  lemma DependencyIsRuby(value: Data)
    requires IsRuby(value)
    ensures IsRuby(DependencySource(value))
  {
    if value.Array? {
      var members := [(Name("required"), value), (Name("type"), Text("object"))];
      assert IsMember(members[0]) && IsMember(members[1]);
    }
  }

  lemma {:induction false} DecimalInjective(i: nat, j: nat)
    requires Decimal(i) == Decimal(j)
    ensures i == j
  {
    Ipv4.DecimalValue(i);
    Ipv4.DecimalValue(j);
  }

  lemma {:induction false} IndexAt(items: seq<Data>, i: nat, n: nat)
    requires i < n <= |items|
    ensures IndexIn(items, Decimal(i), n) == Some(i)
    decreases n
  {
    if i < n - 1 {
      if Decimal(n - 1) == Decimal(i) { DecimalInjective(n - 1, i); }
      IndexAt(items, i, n - 1);
    }
  }

  // ---------------------------------------------------------------------------------------
  // The children of a schema are where their tokens lead
  // ---------------------------------------------------------------------------------------

  /** A subschema is well located: what lies inside it is what lies behind its tokens. */
  ghost predicate Leads(schema: Data, c: Child, rest: seq<string>) {
    Locate(schema, c.tokens + rest) == Locate(c.source, rest)
  }

  lemma HeadTail(key: string, more: seq<string>, rest: seq<string>)
    ensures ([key] + more + rest)[0] == key && ([key] + more + rest)[1..] == more + rest
  {
  }

  lemma LocateKey(schema: Data, key: string, value: Data, more: seq<string>, rest: seq<string>)
    requires HasKeywords(schema) && LookupIn(schema.members, key) == Some(value)
    ensures Locate(schema, [key] + more + rest) == LocateUnder(key, value, more + rest)
  {
    HeadTail(key, more, rest);
  }

  lemma UnderOne(kw: Single, value: Data, rest: seq<string>)
    requires IsShaped(value)
    ensures LocateUnder(OneKeyword(kw), value, rest) == Locate(value, rest)
  {
    assert OneNamed(OneKeyword(kw)) == Some(kw);
  }

  lemma UnderMany(kw: Listed, items: seq<Data>, rest: seq<string>)
    ensures LocateUnder(ManyKeyword(kw), Array(items), rest) == LocateItem(items, rest)
  {
    assert ManyNamed(ManyKeyword(kw)) == Some(kw);
  }

  lemma UnderNamed(kw: Keyed, members: seq<(Key, Data)>, rest: seq<string>)
    ensures LocateUnder(NamedKeyword(kw), Object(members), rest) == LocateMember(kw, members, rest)
  {
    var key := NamedKeyword(kw);
    assert OneNamed(key).None? && ManyNamed(key).None? && KeyedNamed(key) == Some(kw);
  }

  lemma KeywordsKnown(key: string)
    requires OneNamed(key).Some? || ManyNamed(key).Some? || KeyedNamed(key).Some?
    ensures IsKnown(key)
  {
  }

  lemma UnderUnknown(key: string, value: Data, rest: seq<string>)
    requires !IsKnown(key)
    ensures LocateUnder(key, value, rest) == LocateEntry(value, rest)
  {
    if OneNamed(key).Some? || ManyNamed(key).Some? || KeyedNamed(key).Some? { KeywordsKnown(key); }
  }

  lemma ItemIs(items: seq<Data>, i: nat, rest: seq<string>)
    requires i < |items|
    ensures LocateItem(items, [Decimal(i)] + rest) == Locate(items[i], rest)
  {
    IndexAt(items, i, |items|);
    assert ([Decimal(i)] + rest)[1..] == rest;
  }

  lemma MemberIs(kw: Keyed, members: seq<(Key, Data)>, i: nat, name: string, rest: seq<string>)
    requires DistinctKeys(members) && i < |members| && members[i].0 == Name(name)
    ensures LocateMember(kw, members, [name] + rest) == Locate(MemberSource(kw, members[i].1), rest)
  {
    LookupAt(members, i, name);
    assert ([name] + rest)[1..] == rest;
  }

  lemma OneLeads(schema: Data, kw: Single, c: Child, rest: seq<string>)
    requires HasKeywords(schema) && IsRuby(schema) && c in OneKids(schema, kw)
    ensures Leads(schema, c, rest) && IsRuby(c.source) && |c.tokens| == 1
  {
    var key := OneKeyword(kw);
    LookupIsRuby(schema.members, key);
    LocateKey(schema, key, c.source, [], rest);
    assert [key] + [] + rest == c.tokens + rest && [] + rest == rest;
    UnderOne(kw, c.source, rest);
  }

  lemma {:induction false} ItemKidAt(kw: Listed, items: seq<Data>, n: nat, c: Child) returns (i: nat)
    requires n <= |items| && c in ItemKids(kw, items, n)
    ensures i < n && c == ItemKid(kw, items, i)
    decreases n
  {
    if c == ItemKid(kw, items, n - 1) { i := n - 1; } else { i := ItemKidAt(kw, items, n - 1, c); }
  }

  lemma ManyLeads(schema: Data, kw: Listed, c: Child, rest: seq<string>)
    requires HasKeywords(schema) && IsRuby(schema) && c in ManyKids(schema, kw)
    ensures Leads(schema, c, rest) && IsRuby(c.source) && |c.tokens| == 2
  {
    var key := ManyKeyword(kw);
    var items := LookupIn(schema.members, key).value.items;
    LookupIsRuby(schema.members, key);
    var i := ItemKidAt(kw, items, |items|, c);
    LocateKey(schema, key, Array(items), [Decimal(i)], rest);
    assert [key] + [Decimal(i)] + rest == c.tokens + rest;
    UnderMany(kw, items, [Decimal(i)] + rest);
    ItemIs(items, i, rest);
  }

  lemma {:induction false} MemberKidAt(kw: Keyed, members: seq<(Key, Data)>, n: nat, c: Child) returns (i: nat)
    requires n <= |members| && c in MemberKids(kw, members, n)
    ensures i < n && members[i].0.Name?
    ensures c == MemberKid(kw, members[i].0.name, members[i].1)
    decreases n
  {
    if c in MemberKids(kw, members, n - 1) { i := MemberKidAt(kw, members, n - 1, c); } else { i := n - 1; }
  }

  lemma NamedLeads(schema: Data, kw: Keyed, c: Child, rest: seq<string>)
    requires HasKeywords(schema) && IsRuby(schema) && c in NamedKids(schema, kw)
    ensures Leads(schema, c, rest) && IsRuby(c.source) && |c.tokens| == 2
  {
    var key := NamedKeyword(kw);
    var members := LookupIn(schema.members, key).value.members;
    LookupIsRuby(schema.members, key);
    var i := MemberKidAt(kw, members, |members|, c);
    var name := members[i].0.name;
    NamedLocated(schema, kw, members, i, name, rest);
    assert [key] + [name] == c.tokens;
    MemberIsRuby(members, i);
  }

  lemma NamedLocated(
    schema: Data, kw: Keyed, members: seq<(Key, Data)>, i: nat, name: string, rest: seq<string>)
    requires HasKeywords(schema) && LookupIn(schema.members, NamedKeyword(kw)) == Some(Object(members))
    requires DistinctKeys(members) && i < |members| && members[i].0 == Name(name)
    ensures Locate(schema, [NamedKeyword(kw)] + [name] + rest) == Locate(MemberSource(kw, members[i].1), rest)
  {
    LocateKey(schema, NamedKeyword(kw), Object(members), [name], rest);
    UnderNamed(kw, members, [name] + rest);
    MemberIs(kw, members, i, name, rest);
  }

  lemma MemberIsRuby(members: seq<(Key, Data)>, i: nat)
    requires IsRuby(Object(members)) && i < |members|
    ensures IsRuby(members[i].1) && IsRuby(DependencySource(members[i].1))
  {
    assert IsMember(members[i]);
    DependencyIsRuby(members[i].1);
  }

  /** An entry under some tokens: they go on as far as arrays nest. */
  lemma {:induction false} EntryLeads(
    value: Data, tokens: seq<string>, c: Child, rest: seq<string>)
    returns (more: seq<string>)
    requires IsRuby(value) && c in Entries(value, tokens)
    ensures c.tokens == tokens + more && LocateEntry(value, more + rest) == Locate(c.source, rest) && IsRuby(c.source)
    decreases Height(value), 1, 0
  {
    if IsShaped(value) {
      more := [];
      assert more + rest == rest && tokens + [] == tokens;
    } else {
      more := ArrayEntryLeads(value.items, tokens, |value.items|, c, rest);
    }
  }

  lemma {:induction false} ArrayEntryLeads(items: seq<Data>, tokens: seq<string>, n: nat, c: Child, rest: seq<string>)
    returns (more: seq<string>)
    requires n <= |items| && IsRuby(Array(items)) && c in ArrayEntries(items, tokens, n)
    ensures c.tokens == tokens + more && LocateEntry(Array(items), more + rest) == Locate(c.source, rest)
    ensures more != [] && IsRuby(c.source)
    decreases 1 + ItemsHeight(items), 0, n
  {
    if c in ArrayEntries(items, tokens, n - 1) {
      more := ArrayEntryLeads(items, tokens, n - 1, c, rest);
    } else {
      ItemLower(items, n - 1);
      var inside := EntryLeads(items[n - 1], tokens + [Decimal(n - 1)], c, rest);
      more := [Decimal(n - 1)] + inside;
      assert tokens + [Decimal(n - 1)] + inside == tokens + more;
      IndexAt(items, n - 1, |items|);
      HeadTail(Decimal(n - 1), inside, rest);
    }
  }

  lemma {:induction false} LooseKidAt(members: seq<(Key, Data)>, n: nat, c: Child) returns (i: nat)
    requires n <= |members| && c in LooseKids(members, n)
    ensures i < n && members[i].0.Name? && !IsKnown(members[i].0.name)
    ensures c in Entries(members[i].1, [members[i].0.name])
    decreases n
  {
    if c in LooseKids(members, n - 1) { i := LooseKidAt(members, n - 1, c); } else { i := n - 1; }
  }

  lemma LooseLeads(schema: Data, c: Child, rest: seq<string>)
    requires HasKeywords(schema) && IsRuby(schema) && c in LooseKids(schema.members, |schema.members|)
    ensures Leads(schema, c, rest) && IsRuby(c.source) && |c.tokens| >= 1
    ensures !IsKnown(c.tokens[0])
  {
    var i := LooseKidAt(schema.members, |schema.members|, c);
    var key, value := schema.members[i].0.name, schema.members[i].1;
    assert IsMember(schema.members[i]);
    LookupAt(schema.members, i, key);
    var more := EntryLeads(value, [key], c, rest);
    LocateKey(schema, key, value, more, rest);
    UnderUnknown(key, value, more + rest);
  }

  /** Each child lies where its tokens lead. */
  lemma GroupLeads(schema: Data, g: Group, c: Child, rest: seq<string>)
    requires HasKeywords(schema) && IsRuby(schema) && c in GroupKids(schema, g)
    ensures Leads(schema, c, rest) && IsRuby(c.source) && |c.tokens| >= 1
  {
    match g {
      case One(kw) => OneLeads(schema, kw, c, rest);
      case Many(kw) => ManyLeads(schema, kw, c, rest);
      case Named(kw) => NamedLeads(schema, kw, c, rest);
      case Loose => LooseLeads(schema, c, rest);
    }
  }

  lemma {:induction false} GroupOf(parts: Parts, schema: Data, gs: seq<Group>, c: Child) returns (k: nat)
    requires c in GroupsKids(parts, schema, gs)
    ensures k < |gs| && c in parts(schema, gs[k])
    decreases |gs|
  {
    if c in GroupsKids(parts, schema, gs[..|gs| - 1]) {
      k := GroupOf(parts, schema, gs[..|gs| - 1], c);
    } else {
      k := |gs| - 1;
    }
  }

  lemma {:induction false} InGroups(parts: Parts, schema: Data, gs: seq<Group>, k: nat, c: Child)
    requires k < |gs| && c in parts(schema, gs[k])
    ensures c in GroupsKids(parts, schema, gs)
    decreases |gs|
  {
    if k < |gs| - 1 { InGroups(parts, schema, gs[..|gs| - 1], k, c); }
  }

  lemma KidLeads(schema: Data, c: Child, rest: seq<string>)
    requires IsRuby(schema) && c in Kids(schema)
    ensures Leads(schema, c, rest) && IsRuby(c.source) && |c.tokens| >= 1
  {
    var k := GroupOf(PartsOf(), schema, GROUPS, c);
    GroupLeads(schema, GROUPS[k], c, rest);
  }

  // ---------------------------------------------------------------------------------------
  // Every location goes through a child
  // ---------------------------------------------------------------------------------------

  /** A child on the way along some tokens. */
  ghost predicate OnTheWay(schema: Data, tokens: seq<string>, c: Child) {
    c.tokens <= tokens && Locate(c.source, tokens[|c.tokens|..]) == Locate(schema, tokens)
  }

  lemma {:induction false} ItemKidIn(kw: Listed, items: seq<Data>, i: nat, n: nat)
    requires i < n <= |items|
    ensures ItemKid(kw, items, i) in ItemKids(kw, items, n)
    decreases n
  {
    if i < n - 1 { ItemKidIn(kw, items, i, n - 1); }
  }

  lemma {:induction false} MemberKidIn(kw: Keyed, members: seq<(Key, Data)>, i: nat, n: nat, name: string)
    requires i < n <= |members| && members[i].0 == Name(name)
    ensures MemberKid(kw, name, members[i].1) in MemberKids(kw, members, n)
    decreases n
  {
    if i < n - 1 { MemberKidIn(kw, members, i, n - 1, name); }
  }

  lemma {:induction false} LooseKidIn(members: seq<(Key, Data)>, i: nat, n: nat, c: Child)
    requires i < n <= |members| && members[i].0.Name? && !IsKnown(members[i].0.name)
    requires c in Entries(members[i].1, [members[i].0.name])
    ensures c in LooseKids(members, n)
    decreases n
  {
    if i < n - 1 { LooseKidIn(members, i, n - 1, c); }
  }

  lemma {:induction false} ArrayEntryIn(items: seq<Data>, tokens: seq<string>, i: nat, n: nat, c: Child)
    requires i < n <= |items| && c in Entries(items[i], tokens + [Decimal(i)])
    ensures c in ArrayEntries(items, tokens, n)
    decreases n
  {
    if i < n - 1 { ArrayEntryIn(items, tokens, i, n - 1, c); }
  }

  /** Where a location under an unknown keyword starts. */
  lemma {:induction false} EntryFound(value: Data, before: seq<string>, rest: seq<string>) returns (c: Child)
    requires LocateEntry(value, rest).Some?
    ensures c in Entries(value, before)
    ensures c.tokens <= before + rest && Locate(c.source, (before + rest)[|c.tokens|..]) == LocateEntry(value, rest)
    decreases |rest|
  {
    if IsShaped(value) {
      c := LooseKid(before, value);
      assert (before + rest)[|before|..] == rest;
    } else {
      var i := IndexIn(value.items, rest[0], |value.items|).value;
      c := EntryFound(value.items[i], before + [Decimal(i)], rest[1..]);
      ArrayEntryIn(value.items, before, i, |value.items|, c);
      assert before + [Decimal(i)] + rest[1..] == before + rest;
    }
  }

  /** The location goes on as in the group. */
  ghost predicate GoesOn(g: Group, key: string, value: Data, rest: seq<string>) {
    var found := LocateUnder(key, value, rest);
    match g
    case One(kw) => OneKeyword(kw) == key && IsShaped(value) && found == Locate(value, rest)
    case Many(kw) => ManyKeyword(kw) == key && value.Array? && found == LocateItem(value.items, rest)
    case Named(kw) =>
      NamedKeyword(kw) == key && value.Object? && found == LocateMember(kw, value.members, rest)
    case Loose => !IsKnown(key) && found == LocateEntry(value, rest)
  }

  /** How a location goes on under a key. */
  lemma WayUnder(key: string, value: Data, rest: seq<string>) returns (g: Group)
    requires LocateUnder(key, value, rest).Some?
    ensures GoesOn(g, key, value, rest)
  {
    if OneNamed(key).Some? && IsShaped(value) {
      g := One(OneNamed(key).value);
    } else if ManyNamed(key).Some? && value.Array? {
      g := Many(ManyNamed(key).value);
    } else if KeyedNamed(key).Some? && value.Object? {
      g := Named(KeyedNamed(key).value);
    } else {
      g := Loose;
    }
  }

  lemma FirstKey(schema: Data, tokens: seq<string>) returns (key: string, value: Data, rest: seq<string>)
    requires tokens != [] && Locate(schema, tokens).Some?
    ensures tokens == [key] + rest && |rest| < |tokens| && HasKeywords(schema)
    ensures LookupIn(schema.members, key) == Some(value) && LocateUnder(key, value, rest) == Locate(schema, tokens)
  {
    key, rest := tokens[0], tokens[1..];
    value := LookupIn(schema.members, key).value;
  }

  lemma OneFound(schema: Data, kw: Single, value: Data, rest: seq<string>) returns (c: Child)
    requires HasKeywords(schema) && LookupIn(schema.members, OneKeyword(kw)) == Some(value) && IsShaped(value)
    ensures c in GroupKids(schema, One(kw)) && c.tokens <= [OneKeyword(kw)] + rest
    ensures Locate(c.source, ([OneKeyword(kw)] + rest)[|c.tokens|..]) == Locate(value, rest)
  {
    c := OneKid(kw, value);
    assert ([OneKeyword(kw)] + rest)[1..] == rest;
  }

  lemma ManyFound(schema: Data, kw: Listed, items: seq<Data>, rest: seq<string>) returns (c: Child)
    requires HasKeywords(schema) && LookupIn(schema.members, ManyKeyword(kw)) == Some(Array(items))
    requires LocateItem(items, rest).Some?
    ensures c in GroupKids(schema, Many(kw)) && c.tokens <= [ManyKeyword(kw)] + rest
    ensures Locate(c.source, ([ManyKeyword(kw)] + rest)[|c.tokens|..]) == LocateItem(items, rest)
  {
    var i := IndexIn(items, rest[0], |items|).value;
    c := ItemKid(kw, items, i);
    ItemKidIn(kw, items, i, |items|);
    TwoTokens(ManyKeyword(kw), rest);
  }

  lemma NamedFound(schema: Data, kw: Keyed, members: seq<(Key, Data)>, rest: seq<string>) returns (c: Child)
    requires HasKeywords(schema) && LookupIn(schema.members, NamedKeyword(kw)) == Some(Object(members))
    requires LocateMember(kw, members, rest).Some?
    ensures c in GroupKids(schema, Named(kw)) && c.tokens <= [NamedKeyword(kw)] + rest
    ensures Locate(c.source, ([NamedKeyword(kw)] + rest)[|c.tokens|..]) == LocateMember(kw, members, rest)
  {
    var v := LookupIn(members, rest[0]).value;
    var i :| 0 <= i < |members| && members[i] == (Name(rest[0]), v);
    c := MemberKid(kw, rest[0], v);
    MemberKidIn(kw, members, i, |members|, rest[0]);
    TwoTokens(NamedKeyword(kw), rest);
  }

  lemma LooseFound(schema: Data, key: string, value: Data, rest: seq<string>) returns (c: Child)
    requires HasKeywords(schema) && LookupIn(schema.members, key) == Some(value) && !IsKnown(key)
    requires LocateEntry(value, rest).Some?
    ensures c in GroupKids(schema, Loose) && c.tokens <= [key] + rest
    ensures Locate(c.source, ([key] + rest)[|c.tokens|..]) == LocateEntry(value, rest)
  {
    var i :| 0 <= i < |schema.members| && schema.members[i] == (Name(key), value);
    c := EntryFound(value, [key], rest);
    LooseKidIn(schema.members, i, |schema.members|, c);
  }

  /** The child on the way of a location. */
  lemma KidOfKey(schema: Data, tokens: seq<string>) returns (g: Group, c: Child)
    requires tokens != [] && Locate(schema, tokens).Some?
    ensures HasKeywords(schema) && c in GroupKids(schema, g) && OnTheWay(schema, tokens, c)
  {
    var key, value, rest := FirstKey(schema, tokens);
    g := WayUnder(key, value, rest);
    match g {
      case One(kw) => c := OneFound(schema, kw, value, rest);
      case Many(kw) => c := ManyFound(schema, kw, value.items, rest);
      case Named(kw) => c := NamedFound(schema, kw, value.members, rest);
      case Loose => c := LooseFound(schema, key, value, rest);
    }
  }

  lemma TwoTokens(key: string, rest: seq<string>)
    requires rest != []
    ensures [key, rest[0]] <= [key] + rest && ([key] + rest)[2..] == rest[1..]
  {
  }

  lemma KidFound(schema: Data, tokens: seq<string>) returns (c: Child)
    requires tokens != [] && Locate(schema, tokens).Some?
    ensures c in Kids(schema) && OnTheWay(schema, tokens, c)
  {
    var g;
    g, c := KidOfKey(schema, tokens);
    var k := GroupIndex(g);
    InGroups(PartsOf(), schema, GROUPS, k, c);
  }

  lemma GroupIndex(g: Group) returns (k: nat)
    ensures k < |GROUPS| && GROUPS[k] == g
  {
    k := match g
      case One(If) => 0
      case One(Then) => 1
      case One(Else) => 2
      case Many(AllOf) => 3
      case Many(AnyOf) => 4
      case Many(OneOf) => 5
      case One(Not) => 6
      case One(Items) => 7
      case Many(ItemsList) => 8
      case One(AdditionalItems) => 9
      case One(Contains) => 10
      case One(PropertyNames) => 11
      case One(AdditionalProperties) => 12
      case Named(Properties) => 13
      case Named(PatternProperties) => 14
      case Named(Dependencies) => 15
      case Loose => 16;
  }

  // ---------------------------------------------------------------------------------------
  // Locations and plain walks
  // ---------------------------------------------------------------------------------------

  /**
   What is compiled at a location is what the pointer walk reaches there, except that an array of
   names under `dependencies` stands for the schema that requires them.
   */
  lemma {:induction false} LocateWalks(d: Data, tokens: seq<string>)
    requires Locate(d, tokens).Some?
    ensures Walk(d, tokens).Some?
    ensures var w := Walk(d, tokens).value;
      Locate(d, tokens).value == w || (w.Array? && Locate(d, tokens).value == DependencySource(w))
    decreases |tokens|, 0
  {
    if tokens != [] {
      var key, value, rest := FirstKey(d, tokens);
      var g := WayUnder(key, value, rest);
      match g {
        case One(kw) => LocateWalks(value, rest);
        case Many(kw) => LocateWalks(value.items[IndexIn(value.items, rest[0], |value.items|).value], rest[1..]);
        case Named(kw) => MemberWalks(kw, LookupIn(value.members, rest[0]).value, rest[1..]);
        case Loose => EntryWalks(value, rest);
      }
    }
  }

  lemma {:induction false} MemberWalks(kw: Keyed, value: Data, rest: seq<string>)
    requires Locate(MemberSource(kw, value), rest).Some?
    ensures Walk(value, rest).Some?
    ensures var d, w := Locate(MemberSource(kw, value), rest).value, Walk(value, rest).value;
      d == w || (w.Array? && d == DependencySource(w))
    decreases |rest|, 1
  {
    if kw.Dependencies? && value.Array? {
      if rest != [] { NoLocationInside(value, rest); }
    } else {
      LocateWalks(value, rest);
    }
  }

  /** The stand-in schema holds no subschema. */
  lemma NoLocationInside(value: Data, rest: seq<string>)
    requires value.Array? && rest != []
    ensures Locate(DependencySource(value), rest).None?
  {
    var members := [(Name("required"), value), (Name("type"), Text("object"))];
    assert members[1..] == [(Name("type"), Text("object"))];
    assert members[1..][1..] == [];
  }

  lemma {:induction false} EntryWalks(value: Data, rest: seq<string>)
    requires LocateEntry(value, rest).Some?
    ensures Walk(value, rest).Some?
    ensures var d, w := LocateEntry(value, rest).value, Walk(value, rest).value;
      d == w || (w.Array? && d == DependencySource(w))
    decreases |rest|, 1
  {
    if IsShaped(value) {
      LocateWalks(value, rest);
    } else {
      EntryWalks(value.items[IndexIn(value.items, rest[0], |value.items|).value], rest[1..]);
    }
  }
}
