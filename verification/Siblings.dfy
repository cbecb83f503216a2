/** No child of a schema lies on the way to another: their tokens are never one a prefix of the other. */
module Siblings {
  import opened Values
  import opened Bytes
  import opened SchemaTree
  import opened Location

  predicate Comparable(x: seq<string>, y: seq<string>) { x <= y || y <= x }

  ghost predicate Clash(x: Child, y: Child) { Comparable(x.tokens, y.tokens) }

  ghost predicate Apart(kids: seq<Child>) {
    forall i, j :: 0 <= i < j < |kids| ==> !Clash(kids[i], kids[j])
  }

  ghost predicate AllApart(xs: seq<Child>, ys: seq<Child>) {
    forall x, y :: x in xs && y in ys ==> !Clash(x, y)
  }

  lemma ApartAdded(xs: seq<Child>, ys: seq<Child>)
    requires Apart(xs) && Apart(ys) && AllApart(xs, ys)
    ensures Apart(xs + ys)
  {
    var all := xs + ys;
    forall i, j | 0 <= i < j < |all| ensures !Clash(all[i], all[j]) {
      if j < |xs| {
      } else if i >= |xs| {
        assert all[i] == ys[i - |xs|] && all[j] == ys[j - |xs|];
      } else {
        assert all[i] in xs && all[j] in ys;
      }
    }
  }

  lemma OneApart(xs: seq<Child>, y: Child)
    requires Apart(xs) && forall x :: x in xs ==> !Clash(x, y)
    ensures Apart(xs + [y])
  {
    ApartAdded(xs, [y]);
  }

  lemma HeadsApart(x: Child, y: Child)
    requires x.tokens != [] && y.tokens != [] && x.tokens[0] != y.tokens[0]
    ensures !Clash(x, y)
  {
  }

  lemma SecondsApart(key: string, a: string, b: string, x: seq<string>, y: seq<string>)
    requires a != b && [key, a] <= x && [key, b] <= y
    ensures !Comparable(x, y)
  {
    assert x[1] == a && y[1] == b;
  }

  // ---------------------------------------------------------------------------------------
  // Within a group
  // ---------------------------------------------------------------------------------------

  lemma {:induction false} ItemsApart(kw: Listed, items: seq<Data>, n: nat)
    requires n <= |items|
    ensures Apart(ItemKids(kw, items, n))
    decreases n
  {
    if n > 0 {
      ItemsApart(kw, items, n - 1);
      var xs, y := ItemKids(kw, items, n - 1), ItemKid(kw, items, n - 1);
      forall x | x in xs ensures !Clash(x, y) {
        var i := ItemKidAt(kw, items, n - 1, x);
        if Decimal(i) == Decimal(n - 1) { DecimalInjective(i, n - 1); }
        SecondsApart(ManyKeyword(kw), Decimal(i), Decimal(n - 1), x.tokens, y.tokens);
      }
      OneApart(xs, y);
    }
  }

  lemma {:induction false} MembersApart(kw: Keyed, members: seq<(Key, Data)>, n: nat)
    requires n <= |members| && DistinctKeys(members)
    ensures Apart(MemberKids(kw, members, n))
    decreases n
  {
    if n > 0 {
      MembersApart(kw, members, n - 1);
      var (key, value) := members[n - 1];
      if key.Name? {
        var xs, y := MemberKids(kw, members, n - 1), MemberKid(kw, key.name, value);
        forall x | x in xs ensures !Clash(x, y) {
          var i := MemberKidAt(kw, members, n - 1, x);
          SecondsApart(NamedKeyword(kw), members[i].0.name, key.name, x.tokens, y.tokens);
        }
        OneApart(xs, y);
      }
    }
  }

  lemma {:induction false} EntryExtends(value: Data, tokens: seq<string>, c: Child)
    requires c in Entries(value, tokens)
    ensures tokens <= c.tokens
    decreases Height(value), 1, 0
  {
    if !IsShaped(value) { var i := ArrayEntryExtends(value.items, tokens, |value.items|, c); }
  }

  lemma {:induction false} ArrayEntryExtends(items: seq<Data>, tokens: seq<string>, n: nat, c: Child) returns (i: nat)
    requires n <= |items| && c in ArrayEntries(items, tokens, n)
    ensures i < n && tokens + [Decimal(i)] <= c.tokens
    decreases 1 + ItemsHeight(items), 0, n
  {
    if c in ArrayEntries(items, tokens, n - 1) {
      i := ArrayEntryExtends(items, tokens, n - 1, c);
    } else {
      i := n - 1;
      ItemLower(items, n - 1);
      EntryExtends(items[n - 1], tokens + [Decimal(n - 1)], c);
    }
  }

  lemma {:induction false} EntriesApart(value: Data, tokens: seq<string>)
    ensures Apart(Entries(value, tokens))
    decreases Height(value), 1, 0
  {
    if !IsShaped(value) && value.Array? { ArrayEntriesApart(value.items, tokens, |value.items|); }
  }

  lemma {:induction false} ArrayEntriesApart(items: seq<Data>, tokens: seq<string>, n: nat)
    requires n <= |items|
    ensures Apart(ArrayEntries(items, tokens, n))
    decreases 1 + ItemsHeight(items), 0, n
  {
    if n > 0 {
      ItemLower(items, n - 1);
      ArrayEntriesApart(items, tokens, n - 1);
      var xs, ys := ArrayEntries(items, tokens, n - 1), Entries(items[n - 1], tokens + [Decimal(n - 1)]);
      EntriesApart(items[n - 1], tokens + [Decimal(n - 1)]);
      forall x, y | x in xs && y in ys ensures !Clash(x, y) {
        var i := ArrayEntryExtends(items, tokens, n - 1, x);
        EntryExtends(items[n - 1], tokens + [Decimal(n - 1)], y);
        if Decimal(i) == Decimal(n - 1) { DecimalInjective(i, n - 1); }
        StepsApart(tokens, Decimal(i), Decimal(n - 1), x.tokens, y.tokens);
      }
      ApartAdded(xs, ys);
    }
  }

  lemma StepsApart(tokens: seq<string>, a: string, b: string, x: seq<string>, y: seq<string>)
    requires a != b && tokens + [a] <= x && tokens + [b] <= y
    ensures !Comparable(x, y)
  {
    var n := |tokens|;
    assert x[n] == (tokens + [a])[n] && y[n] == (tokens + [b])[n];
  }

  lemma {:induction false} LooseApart(members: seq<(Key, Data)>, n: nat)
    requires n <= |members| && DistinctKeys(members)
    ensures Apart(LooseKids(members, n))
    decreases n
  {
    if n > 0 {
      LooseApart(members, n - 1);
      var (key, value) := members[n - 1];
      if key.Name? && !IsKnown(key.name) {
        var xs, ys := LooseKids(members, n - 1), Entries(value, [key.name]);
        EntriesApart(value, [key.name]);
        forall x, y | x in xs && y in ys ensures !Clash(x, y) {
          var i := LooseKidAt(members, n - 1, x);
          EntryExtends(members[i].1, [members[i].0.name], x);
          EntryExtends(value, [key.name], y);
          StepsApart([], members[i].0.name, key.name, x.tokens, y.tokens);
        }
        ApartAdded(xs, ys);
      }
    }
  }

  lemma GroupApart(schema: Data, g: Group)
    requires IsRuby(schema)
    ensures Apart(GroupKids(schema, g))
  {
    match g {
      case One(kw) =>
      case Many(kw) =>
        var v := Lookup(schema, ManyKeyword(kw));
        if v.Some? && v.value.Array? { ItemsApart(kw, v.value.items, |v.value.items|); }
      case Named(kw) =>
        var v := Lookup(schema, NamedKeyword(kw));
        if v.Some? && v.value.Object? {
          LookupIsRuby(schema.members, NamedKeyword(kw));
          MembersApart(kw, v.value.members, |v.value.members|);
        }
      case Loose =>
        if schema.Object? { LooseApart(schema.members, |schema.members|); }
    }
  }

  // ---------------------------------------------------------------------------------------
  // Across groups
  // ---------------------------------------------------------------------------------------

  /** The first token of a child and the value the schema has under it. */
  ghost predicate Heads(schema: Data, g: Group, key: string) {
    var v := Lookup(schema, key);
    match g
    case One(kw) => key == OneKeyword(kw) && v.Some? && IsShaped(v.value)
    case Many(kw) => key == ManyKeyword(kw) && v.Some? && v.value.Array?
    case Named(kw) => key == NamedKeyword(kw) && v.Some? && v.value.Object?
    case Loose => !IsKnown(key)
  }

  lemma ChildHeads(schema: Data, g: Group, c: Child)
    requires c in GroupKids(schema, g)
    ensures c.tokens != [] && Heads(schema, g, c.tokens[0])
  {
    match g {
      case One(kw) =>
      case Many(kw) =>
        var items := Lookup(schema, ManyKeyword(kw)).value.items;
        var i := ItemKidAt(kw, items, |items|, c);
      case Named(kw) =>
        var members := Lookup(schema, NamedKeyword(kw)).value.members;
        var i := MemberKidAt(kw, members, |members|, c);
      case Loose =>
        var i := LooseKidAt(schema.members, |schema.members|, c);
        EntryExtends(schema.members[i].1, [schema.members[i].0.name], c);
    }
  }

  lemma KeywordsApart(a: Single, b: Single, c: Listed, d: Listed, e: Keyed, f: Keyed)
    ensures OneNamed(OneKeyword(a)) == Some(a) && ManyNamed(ManyKeyword(c)) == Some(c)
            && KeyedNamed(NamedKeyword(e)) == Some(e)
    ensures KeyedNamed(OneKeyword(a)).None?
    ensures IsKnown(OneKeyword(a)) && IsKnown(ManyKeyword(c)) && IsKnown(NamedKeyword(e))
  {
  }

  lemma OneHead(schema: Data, g: Group, other: Group, key: string)
    requires Heads(schema, g, key) && Heads(schema, other, key)
    ensures g == other
  {
    var one, many, named :=
      (if g.One? then g.one else If), (if g.Many? then g.many else AllOf), (if g.Named? then g.keyed else Properties);
    var one', many', named' :=
      (if other.One? then other.one else If), (if other.Many? then other.many else AllOf),
      (if other.Named? then other.keyed else Properties);
    KeywordsApart(one, one', many, many', named, named');
    KeywordsApart(one', one, many', many, named', named);
  }

  lemma {:induction false} GroupsApart(schema: Data, gs: seq<Group>)
    requires IsRuby(schema) && forall i, j :: 0 <= i < j < |gs| ==> gs[i] != gs[j]
    ensures Apart(GroupsKids(PartsOf(), schema, gs))
    decreases |gs|
  {
    if gs != [] {
      var init, g := gs[..|gs| - 1], gs[|gs| - 1];
      GroupsApart(schema, init);
      GroupApart(schema, g);
      var xs, ys := GroupsKids(PartsOf(), schema, init), GroupKids(schema, g);
      forall x, y | x in xs && y in ys ensures !Clash(x, y) {
        var k := GroupOf(PartsOf(), schema, init, x);
        ChildHeads(schema, gs[k], x);
        ChildHeads(schema, g, y);
        if x.tokens[0] == y.tokens[0] { OneHead(schema, gs[k], g, x.tokens[0]); }
        HeadsApart(x, y);
      }
      ApartAdded(xs, ys);
    }
  }

  /** The children of a schema are apart. */
  lemma KidsApart(schema: Data)
    requires IsRuby(schema)
    ensures Apart(Kids(schema))
  {
    forall i, j | 0 <= i < j < |GROUPS| ensures GROUPS[i] != GROUPS[j] {
      DistinctGroups(i, j);
    }
    GroupsApart(schema, GROUPS);
  }

  lemma DistinctGroups(i: nat, j: nat)
    requires i < j < |GROUPS|
    ensures GROUPS[i] != GROUPS[j]
  {
  }
}
