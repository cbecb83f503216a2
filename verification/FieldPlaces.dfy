/**
 Where the children of a node are. The fields of the node of a schema with keywords lead, keyword by
 keyword, to the nodes compiled at the locations under that keyword.
 */
module FieldPlaces {
  import opened Values
  import opened Schema
  import opened SchemaTree
  import opened Layout
  import opened Blueprint
  import opened References
  import opened BaseKeys
  import opened RefResolver
  import opened Location
  import J = JsonMeaning

  // ---------------------------------------------------------------------------------------
  // The places of the children of a place
  // ---------------------------------------------------------------------------------------

  /** The places below a place. */
  ghost function BelowOf(lib: Library): Place -> seq<Place> {
    (p: Place) => ForestPlaces(lib, ForestOf(Kids(p.source)), p)
  }

  /** Right after a place stand the places below it. */
  ghost predicate HoldsBelow(below: Place -> seq<Place>, ps: seq<Place>, i: nat) {
    i < |ps| && i + 1 + |below(ps[i])| <= |ps| && ps[i + 1..i + 1 + |below(ps[i])|] == below(ps[i])
  }

  ghost predicate AllHoldBelow(below: Place -> seq<Place>, ps: seq<Place>) {
    forall i :: 0 <= i < |ps| ==> HoldsBelow(below, ps, i)
  }

  lemma BelowBoth(below: Place -> seq<Place>, x: seq<Place>, y: seq<Place>)
    requires AllHoldBelow(below, x) && AllHoldBelow(below, y)
    ensures AllHoldBelow(below, x + y)
  {
    forall i | 0 <= i < |x + y| ensures HoldsBelow(below, x + y, i) {
      var at, n := (x + y)[i], |below((x + y)[i])|;
      if i < |x| {
        assert HoldsBelow(below, x, i);
        assert (x + y)[i + 1..i + 1 + n] == x[i + 1..i + 1 + n];
      } else {
        assert HoldsBelow(below, y, i - |x|);
        assert (x + y)[i + 1..i + 1 + n] == y[i - |x| + 1..i - |x| + 1 + n];
      }
    }
  }

  lemma BelowFirst(below: Place -> seq<Place>, at: Place)
    requires AllHoldBelow(below, below(at))
    ensures AllHoldBelow(below, [at] + below(at))
  {
    var all := [at] + below(at);
    forall i | 0 <= i < |all| ensures HoldsBelow(below, all, i) {
      if i == 0 {
        assert all[1..] == below(at);
      } else {
        assert HoldsBelow(below, below(at), i - 1);
        var n := |below(all[i])|;
        assert all[i + 1..i + 1 + n] == below(at)[i..i + n];
      }
    }
  }

  lemma {:induction false} TreeBelow(lib: Library, c: Child, at: Place, below: Place -> seq<Place>)
    requires at.source == c.source && below == BelowOf(lib)
    ensures AllHoldBelow(below, Places(lib, TreeOf(c), at))
    decreases Height(c.source), 1, 0
  {
    KidsLower(c.source);
    KidsBelowEach(lib, Kids(c.source), at, Height(c.source), below);
    BelowFirst(below, at);
  }

  lemma {:induction false} KidsBelowEach(
    lib: Library, kids: seq<Child>, at: Place, bound: nat, below: Place -> seq<Place>)
    requires AllLower(kids, bound) && below == BelowOf(lib)
    ensures AllHoldBelow(below, ForestPlaces(lib, ForestOf(kids), at))
    decreases bound, 0, |kids|
  {
    if kids != [] {
      var init, k := kids[..|kids| - 1], kids[|kids| - 1];
      KidsBelowEach(lib, init, at, bound, below);
      TreeBelow(lib, k, PlaceOf(lib, k, at), below);
      BelowBoth(below, ForestPlaces(lib, ForestOf(init), at), Places(lib, TreeOf(k), PlaceOf(lib, k, at)));
      LastPlaces(lib, kids, at);
    } else {
      assert ForestPlaces(lib, ForestOf(kids), at) == [];
    }
  }

  lemma LastPlaces(lib: Library, kids: seq<Child>, at: Place)
    requires kids != []
    ensures var init, k := kids[..|kids| - 1], kids[|kids| - 1];
      ForestPlaces(lib, ForestOf(kids), at) ==
      ForestPlaces(lib, ForestOf(init), at) + Places(lib, TreeOf(k), PlaceOf(lib, k, at))
  {
  }

  /** Where the n-th of some children starts. */
  ghost function Offset(kids: seq<Child>, n: nat): nat
    requires n <= |kids|
  {
    ForestSize(ForestOf(kids[..n]))
  }

  lemma {:induction false} KidPlace(lib: Library, kids: seq<Child>, at: Place, n: nat)
    requires n < |kids|
    ensures var ps := ForestPlaces(lib, ForestOf(kids), at);
      Offset(kids, n) < |ps| && ps[Offset(kids, n)] == PlaceOf(lib, kids[n], at)
    decreases |kids|
  {
    var init, k := kids[..|kids| - 1], kids[|kids| - 1];
    LastPlaces(lib, kids, at);
    if n < |init| {
      KidPlace(lib, init, at, n);
      assert init[..n] == kids[..n];
    } else {
      ForestPlacesCount(lib, ForestOf(init), at);
    }
  }

  ghost predicate IsChildPlace(lib: Library, ps: seq<Place>, i: nat, k: Child, b: Address) {
    i < |ps| && b < |ps| && ps[b] == PlaceOf(lib, k, ps[i])
  }

  lemma AllBelow(lib: Library, schema: Data)
    ensures AllHoldBelow(BelowOf(lib), PlacesOf(lib, schema))
  {
    TreeBelow(lib, WholeSchema(schema), Top(schema), BelowOf(lib));
  }

  /** What stands below a place are the trees of its children. */
  ghost predicate IsBelow(lib: Library, below: Place -> seq<Place>, p: Place, kids: seq<Child>) {
    below(p) == ForestPlaces(lib, ForestOf(kids), p)
  }

  /** The place of the n-th child of the node at `i`. */
  lemma ChildPlace(
    lib: Library, ps: seq<Place>, below: Place -> seq<Place>, i: nat, kids: seq<Child>, n: nat, k: Child, b: Address)
    requires AllHoldBelow(below, ps) && i < |ps| && IsBelow(lib, below, ps[i], kids)
    requires n < |kids| && k == kids[n] && b == i + 1 + Offset(kids, n)
    ensures IsChildPlace(lib, ps, i, k, b)
  {
    assert HoldsBelow(below, ps, i);
    KidPlace(lib, kids, ps[i], n);
    assert ps[i + 1..i + 1 + |below(ps[i])|][Offset(kids, n)] == ps[i + 1 + Offset(kids, n)];
  }

  // ---------------------------------------------------------------------------------------
  // The addresses of the children of a node
  // ---------------------------------------------------------------------------------------

  lemma {:induction false} AddressAt(kids: seq<Child>, base: Address, j: nat)
    requires j < |kids|
    ensures |Addresses(ForestOf(kids), base)| == |kids| && Addresses(ForestOf(kids), base)[j] == base + Offset(kids, j)
    decreases |kids|
  {
    var init := kids[..|kids| - 1];
    AddressCount(init, base);
    if j < |init| {
      AddressAt(init, base, j);
      assert init[..j] == kids[..j];
    }
  }

  /** The children of the groups before the k-th. */
  function Before(source: Data, gs: seq<Group>, k: nat): seq<Child>
    requires k <= |gs|
  {
    GroupsKids(PartsOf(), source, gs[..k])
  }

  lemma {:induction false} BeforeIsPrefix(source: Data, gs: seq<Group>, k: nat)
    requires k < |gs|
    ensures Before(source, gs, k) + GroupKids(source, gs[k]) <= GroupsKids(PartsOf(), source, gs)
    decreases |gs|
  {
    var init := gs[..|gs| - 1];
    if k < |init| {
      BeforeIsPrefix(source, init, k);
      assert init[..k] == gs[..k];
    }
  }

  /** The addresses of some children of the node at `i`, given those before them. */
  function KidAddresses(before: seq<Child>, own: seq<Child>, i: Address): seq<Address> {
    Addresses(ForestOf(own), i + 1 + ForestSize(ForestOf(before)))
  }

  /** The j-th of some children is one of all, and its address is where that one starts. */
  ghost predicate IsAmong(kids: seq<Child>, m: nat, own: seq<Child>, addresses: seq<Address>, i: Address, j: nat) {
    && j < |own| && j < |addresses| && m + j < |kids|
    && kids[m + j] == own[j] && addresses[j] == i + 1 + Offset(kids, m + j)
  }

  lemma AmongKids(kids: seq<Child>, before: seq<Child>, own: seq<Child>, j: nat, i: Address)
    requires before + own <= kids && j < |own|
    ensures IsAmong(kids, |before|, own, KidAddresses(before, own, i), i, j)
  {
    assert (before + own)[|before| + j] == own[j];
    assert kids[..|before| + j] == before + own[..j];
    RoomOfMore(before, own[..j], i + 1);
    AddressAt(own, i + 1 + ForestSize(ForestOf(before)), j);
  }

  // ---------------------------------------------------------------------------------------
  // The child fields of a node
  // ---------------------------------------------------------------------------------------

  /** The field of a group is set, to the addresses of its children, where the keyword has the right form. */
  predicate IsSet(links: Links, schema: Data, g: Group, addresses: seq<Address>) {
    match g
    case One(kw) => (kw in links.ones <==> addresses != []) && (addresses != [] ==> links.ones[kw] == addresses[0])
    case Many(kw) => (kw in links.lists <==> J.ListUnder(schema, ManyKeyword(kw)).Some?)
                     && (J.ListUnder(schema, ManyKeyword(kw)).Some? ==> links.lists[kw] == addresses)
    case Named(kw) => (kw in links.hashes <==> J.HashUnder(schema, NamedKeyword(kw)).Some?)
                      && (J.HashUnder(schema, NamedKeyword(kw)).Some? ==>
                            links.hashes[kw] == Zip(NamedKids(schema, kw), addresses))
    case Loose => true
  }

  predicate IsUnset(links: Links, g: Group) {
    match g
    case One(kw) => kw !in links.ones
    case Many(kw) => kw !in links.lists
    case Named(kw) => kw !in links.hashes
    case Loose => true
  }

  lemma SetNow(schema: Data, links: Links, g: Group, addresses: seq<Address>)
    requires IsUnset(links, g)
    ensures IsSet(SetGroup(schema, links, g, addresses), schema, g, addresses)
  {
  }

  lemma SetKept(
    schema: Data, links: Links, g: Group, addresses: seq<Address>, other: Group, others: seq<Address>)
    requires g != other
    ensures IsUnset(links, other) ==> IsUnset(SetGroup(schema, links, g, addresses), other)
    ensures IsSet(links, schema, other, others) ==> IsSet(SetGroup(schema, links, g, addresses), schema, other, others)
  {
  }

  ghost predicate Fills(q: Form, schema: Data, links: Links, g: Group, addresses: seq<Address>) {
    q.fill(schema, links, g, addresses) == SetGroup(schema, links, g, addresses)
  }

  ghost predicate Lies(q: Form, base: Address, kids: seq<Child>) {
    q.lie(base, kids) == Addresses(ForestOf(kids), base) && q.size(kids) == ForestSize(ForestOf(kids))
  }

  /** The form that the compiler fills. */
  ghost predicate IsForm(q: Form) {
    && q.parts == PartsOf() && (forall schema, g :: SamePart(q.parts, schema, g))
    && (forall base: Address, kids :: Lies(q, base, kids))
    && forall schema, links, g, addresses :: Fills(q, schema, links, g, addresses)
  }

  lemma FormIs()
    ensures IsForm(FormOf())
  {
    var q := FormOf();
    forall schema, g ensures SamePart(q.parts, schema, g) {}
    forall base: Address, kids ensures Lies(q, base, kids) {}
    forall schema, links, g, addresses ensures Fills(q, schema, links, g, addresses) {}
  }

  /** The addresses that the field of the k-th group gets. */
  function GroupAddresses(q: Form, schema: Data, gs: seq<Group>, base: Address, k: nat): seq<Address>
    requires k < |gs|
  {
    q.lie(base + q.size(GroupsKids(q.parts, schema, gs[..k])), q.parts(schema, gs[k]))
  }

  lemma GrownLast(q: Form, schema: Data, gs: seq<Group>, base: Address)
    requires IsForm(q) && gs != []
    ensures var init, g := gs[..|gs| - 1], gs[|gs| - 1];
      Grown(q, schema, gs, base) ==
      SetGroup(schema, Grown(q, schema, init, base), g, GroupAddresses(q, schema, gs, base, |init|))
  {
    var init, g := gs[..|gs| - 1], gs[|gs| - 1];
    assert gs[..|init|] == init;
    assert Fills(q, schema, Grown(q, schema, init, base), g, GroupAddresses(q, schema, gs, base, |init|));
  }

  lemma {:induction false} GrownUnset(q: Form, schema: Data, gs: seq<Group>, base: Address, other: Group)
    requires IsForm(q) && other !in gs
    ensures IsUnset(Grown(q, schema, gs, base), other)
    decreases |gs|
  {
    if gs != [] {
      var init, g := gs[..|gs| - 1], gs[|gs| - 1];
      GrownUnset(q, schema, init, base, other);
      GrownLast(q, schema, gs, base);
      SetKept(schema, Grown(q, schema, init, base), g, GroupAddresses(q, schema, gs, base, |init|), other, []);
    }
  }

  lemma EarlierAddresses(q: Form, schema: Data, gs: seq<Group>, base: Address, k: nat)
    requires k < |gs| - 1
    ensures GroupAddresses(q, schema, gs[..|gs| - 1], base, k) == GroupAddresses(q, schema, gs, base, k)
  {
    assert gs[..|gs| - 1][..k] == gs[..k];
  }

  lemma {:induction false} GrownSet(q: Form, schema: Data, gs: seq<Group>, base: Address, k: nat)
    requires IsForm(q) && AreDistinct(gs) && k < |gs|
    ensures IsSet(Grown(q, schema, gs, base), schema, gs[k], GroupAddresses(q, schema, gs, base, k))
    decreases |gs|
  {
    var init, g := gs[..|gs| - 1], gs[|gs| - 1];
    var links, addresses := Grown(q, schema, init, base), GroupAddresses(q, schema, gs, base, |init|);
    GrownLast(q, schema, gs, base);
    if k == |init| {
      GrownUnset(q, schema, init, base, g);
      SetNow(schema, links, g, addresses);
    } else {
      GrownSet(q, schema, init, base, k);
      EarlierAddresses(q, schema, gs, base, k);
      SetKept(schema, links, g, addresses, gs[k], GroupAddresses(q, schema, gs, base, k));
    }
  }

  /** The addresses in terms of what comes before. */
  lemma FormAddresses(q: Form, source: Data, gs: seq<Group>, i: Address, k: nat)
    requires IsForm(q) && k < |gs|
    ensures GroupAddresses(q, source, gs, i + 1, k) ==
            KidAddresses(Before(source, gs, k), GroupKids(source, gs[k]), i)
  {
    var before, own := Before(source, gs, k), GroupKids(source, gs[k]);
    assert SamePart(q.parts, source, gs[k]);
    assert Lies(q, 0, before) && Lies(q, i + 1 + ForestSize(ForestOf(before)), own);
  }

  /** The children of the k-th group, and where they are compiled. */
  ghost predicate FieldLeads(lib: Library, ps: seq<Place>, links: Links, i: nat, g: Group) {
    i < |ps| && exists addresses :: FieldAt(lib, ps, links, i, g, addresses)
  }

  ghost predicate FieldAt(lib: Library, ps: seq<Place>, links: Links, i: nat, g: Group, addresses: seq<Address>)
    requires i < |ps|
  {
    var own := GroupKids(ps[i].source, g);
    && IsSet(links, ps[i].source, g, addresses) && |addresses| == |own|
    && forall j :: 0 <= j < |own| ==> IsChildPlace(lib, ps, i, own[j], addresses[j])
  }

  lemma GroupLeadsTo(
    lib: Library, q: Form, ps: seq<Place>, below: Place -> seq<Place>, links: Links, i: nat, gs: seq<Group>, k: nat)
    requires IsForm(q) && AllHoldBelow(below, ps) && below == BelowOf(lib) && i < |ps| && AreDistinct(gs) && k < |gs|
    requires Kids(ps[i].source) == GroupsKids(PartsOf(), ps[i].source, gs)
    requires links == Grown(q, ps[i].source, gs, i + 1)
    ensures FieldLeads(lib, ps, links, i, gs[k])
  {
    var source := ps[i].source;
    var before, own := Before(source, gs, k), GroupKids(source, gs[k]);
    var addresses := KidAddresses(before, own, i);
    FormAddresses(q, source, gs, i, k);
    GrownSet(q, source, gs, i + 1, k);
    BeforeIsPrefix(source, gs, k);
    KidsLead(lib, ps, below, i, Kids(source), before, own);
    assert FieldAt(lib, ps, links, i, gs[k], addresses);
  }

  lemma KidsLead(
    lib: Library, ps: seq<Place>, below: Place -> seq<Place>, i: nat, kids: seq<Child>, before: seq<Child>,
    own: seq<Child>)
    requires AllHoldBelow(below, ps) && i < |ps| && IsBelow(lib, below, ps[i], kids) && before + own <= kids
    ensures var addresses := KidAddresses(before, own, i);
      |addresses| == |own| && forall j :: 0 <= j < |own| ==> IsChildPlace(lib, ps, i, own[j], addresses[j])
  {
    AddressCount(own, i + 1 + ForestSize(ForestOf(before)));
    forall j | 0 <= j < |own| ensures IsChildPlace(lib, ps, i, own[j], KidAddresses(before, own, i)[j]) {
      AmongKids(kids, before, own, j, i);
      ChildPlace(lib, ps, below, i, kids, |before| + j, own[j], KidAddresses(before, own, i)[j]);
    }
  }

  /** Every field of the node of a schema with keywords leads to the places of its children. */
  lemma FieldsLead(lib: Library, schema: Data, i: nat, links: Links, g: Group)
    requires i < |PlacesOf(lib, schema)| && HasKeywords(PlacesOf(lib, schema)[i].source)
    requires links == Grown(FormOf(), PlacesOf(lib, schema)[i].source, GROUPS, i + 1)
    ensures FieldLeads(lib, PlacesOf(lib, schema), links, i, g)
  {
    FormIs();
    AllBelow(lib, schema);
    GroupsDistinct();
    PositionIs(g);
    GroupLeadsTo(lib, FormOf(), PlacesOf(lib, schema), BelowOf(lib), links, i, GROUPS, Position(g));
  }

  // ---------------------------------------------------------------------------------------
  // Fields and locations
  // ---------------------------------------------------------------------------------------

  /** The node of some schema at a location, whatever the datum. */
  ghost predicate StandsAt(ps: seq<Place>, b: Address, x: J.Applied) {
    b < |ps| && ps[b].tokens == x.at && ps[b].source == x.schema
  }

  function Of(p: Place): J.Applied { J.Applied(p.tokens, p.source, Null) }

  ghost predicate LeadsOne(ps: seq<Place>, links: Links, p: Place, kw: Single) {
    var keyword := OneKeyword(kw);
    && (kw in links.ones <==> J.HasOne(p.source, keyword))
    && (kw in links.ones ==> StandsAt(ps, links.ones[kw], J.SubOne(Of(p), keyword, Null)))
  }

  ghost predicate LeadsMany(ps: seq<Place>, links: Links, p: Place, kw: Listed) {
    var keyword := ManyKeyword(kw);
    var list := J.ListUnder(p.source, keyword);
    && (kw in links.lists <==> list.Some?)
    && (kw in links.lists ==>
          && |links.lists[kw]| == |list.value|
          && forall j: nat :: j < |list.value| ==>
               StandsAt(ps, links.lists[kw][j], J.SubItem(Of(p), keyword, j, Null)))
  }

  /** The subschema of a name. */
  function MemberOf(p: Place, kw: Keyed, name: string): J.Applied {
    if kw.Dependencies? then J.SubDependency(Of(p), name, Null) else J.SubMember(Of(p), NamedKeyword(kw), name, Null)
  }

  /** The pairs of a hash keyword are its members with string keys, in order. */
  ghost predicate LeadsUpTo(
    ps: seq<Place>, p: Place, kw: Keyed, members: seq<(Key, Data)>, pairs: seq<(string, Address)>)
    decreases |members|
  {
    if members == [] then pairs == []
    else
      var init, last := members[..|members| - 1], members[|members| - 1];
      if last.0.Foreign? then LeadsUpTo(ps, p, kw, init, pairs)
      else
        && pairs != [] && LeadsUpTo(ps, p, kw, init, pairs[..|pairs| - 1])
        && pairs[|pairs| - 1].0 == last.0.name
        && StandsAt(ps, pairs[|pairs| - 1].1, MemberOf(p, kw, last.0.name))
  }

  ghost predicate LeadsNamed(ps: seq<Place>, links: Links, p: Place, kw: Keyed) {
    var members := J.HashUnder(p.source, NamedKeyword(kw));
    && (kw in links.hashes <==> members.Some?)
    && (kw in links.hashes ==> LeadsUpTo(ps, p, kw, members.value, links.hashes[kw]))
  }

  lemma OneLeadsTo(lib: Library, ps: seq<Place>, links: Links, i: nat, kw: Single)
    requires FieldLeads(lib, ps, links, i, One(kw))
    ensures LeadsOne(ps, links, ps[i], kw)
  {
    var addresses :| FieldAt(lib, ps, links, i, One(kw), addresses);
    if J.HasOne(ps[i].source, OneKeyword(kw)) {
      assert IsChildPlace(lib, ps, i, OneKids(ps[i].source, kw)[0], addresses[0]);
    }
  }

  lemma {:induction false} ItemKidsAt(kw: Listed, items: seq<Data>, n: nat)
    requires n <= |items|
    ensures |ItemKids(kw, items, n)| == n
    ensures forall j: nat :: j < n ==> ItemKids(kw, items, n)[j] == ItemKid(kw, items, j)
    decreases n
  {
    if n > 0 { ItemKidsAt(kw, items, n - 1); }
  }

  lemma ManyLeadsTo(lib: Library, ps: seq<Place>, links: Links, i: nat, kw: Listed)
    requires FieldLeads(lib, ps, links, i, Many(kw))
    ensures LeadsMany(ps, links, ps[i], kw)
  {
    var addresses :| FieldAt(lib, ps, links, i, Many(kw), addresses);
    var keyword := ManyKeyword(kw);
    var list := J.ListUnder(ps[i].source, keyword);
    if list.Some? {
      ItemKidsAt(kw, list.value, |list.value|);
      forall j: nat | j < |list.value| ensures StandsAt(ps, addresses[j], J.SubItem(Of(ps[i]), keyword, j, Null)) {
        assert IsChildPlace(lib, ps, i, ManyKids(ps[i].source, kw)[j], addresses[j]);
      }
    }
  }

  ghost predicate HasHash(p: Place, kw: Keyed, members: seq<(Key, Data)>) {
    J.HashUnder(p.source, NamedKeyword(kw)) == Some(members) && DistinctKeys(members)
  }

  /** A member of a hash keyword without a key twice is the one that its name looks up. */
  lemma MemberIs(p: Place, kw: Keyed, members: seq<(Key, Data)>, i: nat)
    requires HasHash(p, kw, members) && i < |members| && members[i].0.Name?
    ensures var k := MemberKid(kw, members[i].0.name, members[i].1);
      MemberOf(p, kw, members[i].0.name) == J.Applied(p.tokens + k.tokens, k.source, Null)
  {
    LookupAt(members, i, members[i].0.name);
  }

  lemma {:induction false} LastMember(
    lib: Library, ps: seq<Place>, i: nat, kw: Keyed, members: seq<(Key, Data)>, n: nat, kids: seq<Child>,
    addresses: seq<Address>)
    requires i < |ps| && n < |members| && members[n].0.Name? && HasHash(ps[i], kw, members)
    requires kids != [] && |addresses| == |kids|
    requires kids[|kids| - 1] == MemberKid(kw, members[n].0.name, members[n].1)
    requires IsChildPlace(lib, ps, i, kids[|kids| - 1], addresses[|kids| - 1])
    ensures var last, pairs := |kids| - 1, Zip(kids, addresses);
      && pairs != [] && pairs[..|pairs| - 1] == Zip(kids[..last], addresses[..last])
      && pairs[|pairs| - 1].0 == members[n].0.name
      && StandsAt(ps, pairs[|pairs| - 1].1, MemberOf(ps[i], kw, members[n].0.name))
  {
    MemberIs(ps[i], kw, members, n);
  }

  /** Children and the addresses they are compiled at. */
  ghost predicate AreAt(lib: Library, ps: seq<Place>, i: nat, kids: seq<Child>, addresses: seq<Address>) {
    |addresses| == |kids| && forall j :: 0 <= j < |kids| ==> IsChildPlace(lib, ps, i, kids[j], addresses[j])
  }

  lemma AllButLast(lib: Library, ps: seq<Place>, i: nat, kids: seq<Child>, addresses: seq<Address>)
    requires AreAt(lib, ps, i, kids, addresses) && kids != []
    ensures AreAt(lib, ps, i, kids[..|kids| - 1], addresses[..|kids| - 1])
    ensures IsChildPlace(lib, ps, i, kids[|kids| - 1], addresses[|kids| - 1])
  {
    var last := |kids| - 1;
    forall j | 0 <= j < last ensures IsChildPlace(lib, ps, i, kids[..last][j], addresses[..last][j]) {
      assert IsChildPlace(lib, ps, i, kids[j], addresses[j]);
    }
  }

  lemma {:induction false} LeadsOneMore(
    ps: seq<Place>, p: Place, kw: Keyed, members: seq<(Key, Data)>, n: nat, pairs: seq<(string, Address)>)
    requires n < |members|
    requires if members[n].0.Foreign? then LeadsUpTo(ps, p, kw, members[..n], pairs)
      else
        && pairs != [] && LeadsUpTo(ps, p, kw, members[..n], pairs[..|pairs| - 1])
        && pairs[|pairs| - 1].0 == members[n].0.name
        && StandsAt(ps, pairs[|pairs| - 1].1, MemberOf(p, kw, members[n].0.name))
    ensures LeadsUpTo(ps, p, kw, members[..n + 1], pairs)
  {
    assert members[..n + 1][..n] == members[..n];
  }

  lemma {:induction false} NamedMore(
    lib: Library, ps: seq<Place>, i: nat, kw: Keyed, members: seq<(Key, Data)>, n: nat, kids: seq<Child>,
    addresses: seq<Address>)
    requires i < |ps| && n < |members| && members[n].0.Name? && HasHash(ps[i], kw, members)
    requires kids != [] && |addresses| == |kids|
    requires kids[|kids| - 1] == MemberKid(kw, members[n].0.name, members[n].1)
    requires IsChildPlace(lib, ps, i, kids[|kids| - 1], addresses[|kids| - 1])
    requires LeadsUpTo(ps, ps[i], kw, members[..n], Zip(kids[..|kids| - 1], addresses[..|kids| - 1]))
    ensures LeadsUpTo(ps, ps[i], kw, members[..n + 1], Zip(kids, addresses))
  {
    LastMember(lib, ps, i, kw, members, n, kids, addresses);
    LeadsOneMore(ps, ps[i], kw, members, n, Zip(kids, addresses));
  }

  lemma KidAdded(kids: seq<Child>, init: seq<Child>, last: Child)
    requires kids == init + [last]
    ensures kids != [] && kids[..|kids| - 1] == init && kids[|kids| - 1] == last && |kids| - 1 == |init|
  {
  }

  lemma {:induction false} MembersLead(
    lib: Library, ps: seq<Place>, i: nat, kw: Keyed, members: seq<(Key, Data)>, n: nat, kids: seq<Child>,
    addresses: seq<Address>)
    requires i < |ps| && n <= |members| && kids == MemberKids(kw, members, n) && HasHash(ps[i], kw, members)
    requires AreAt(lib, ps, i, kids, addresses)
    ensures LeadsUpTo(ps, ps[i], kw, members[..n], Zip(kids, addresses))
    decreases n
  {
    if n > 0 {
      var init := MemberKids(kw, members, n - 1);
      if members[n - 1].0.Foreign? {
        MembersLead(lib, ps, i, kw, members, n - 1, init, addresses);
        LeadsOneMore(ps, ps[i], kw, members, n - 1, Zip(init, addresses));
      } else {
        KidAdded(kids, init, MemberKid(kw, members[n - 1].0.name, members[n - 1].1));
        AllButLast(lib, ps, i, kids, addresses);
        MembersLead(lib, ps, i, kw, members, n - 1, init, addresses[..|init|]);
        NamedMore(lib, ps, i, kw, members, n - 1, kids, addresses);
      }
    }
  }

  lemma NamedLeadsTo(lib: Library, ps: seq<Place>, links: Links, i: nat, kw: Keyed)
    requires FieldLeads(lib, ps, links, i, Named(kw)) && IsRuby(ps[i].source)
    ensures LeadsNamed(ps, links, ps[i], kw)
  {
    var addresses :| FieldAt(lib, ps, links, i, Named(kw), addresses);
    var hash := J.HashUnder(ps[i].source, NamedKeyword(kw));
    if hash.Some? {
      LookupIsRuby(ps[i].source.members, NamedKeyword(kw));
      MembersLead(lib, ps, i, kw, hash.value, |hash.value|, NamedKids(ps[i].source, kw), addresses);
      assert hash.value[..|hash.value|] == hash.value;
    }
  }

  /** All child fields of a node lead to the locations under their keywords. */
  ghost predicate LinksLead(ps: seq<Place>, links: Links, p: Place) {
    && (forall kw :: LeadsOne(ps, links, p, kw)) && (forall kw :: LeadsMany(ps, links, p, kw))
    && (forall kw :: LeadsNamed(ps, links, p, kw))
  }

  lemma {:induction false} LocateIsRuby(schema: Data, tokens: seq<string>)
    requires IsRuby(schema) && Locate(schema, tokens).Some?
    ensures IsRuby(Locate(schema, tokens).value)
    decreases |tokens|
  {
    if tokens != [] {
      var k := KidFound(schema, tokens);
      var more := tokens[|k.tokens|..];
      KidLeads(schema, k, more);
      assert tokens == k.tokens + more;
      LocateIsRuby(k.source, more);
    }
  }

  /** The fields of a node lead to the nodes at the locations under the keywords of its schema. */
  lemma NodeLeads(lib: Library, schema: Data, i: nat, node: Compiled)
    requires i < |PlacesOf(lib, schema)| && HasKeywords(PlacesOf(lib, schema)[i].source) && IsRuby(schema)
    requires Plain(node) == Root(FormOf(), lib, PlacesOf(lib, schema)[i].source, PlacesOf(lib, schema)[i].site, i)
    ensures LinksLead(PlacesOf(lib, schema), node.links, PlacesOf(lib, schema)[i])
  {
    var ps, links := PlacesOf(lib, schema), node.links;
    PlacesAreLocations(lib, schema, ps[i].tokens);
    LocateIsRuby(schema, ps[i].tokens);
    forall kw ensures LeadsOne(ps, links, ps[i], kw) {
      FieldsLead(lib, schema, i, links, One(kw));
      OneLeadsTo(lib, ps, links, i, kw);
    }
    forall kw ensures LeadsMany(ps, links, ps[i], kw) {
      FieldsLead(lib, schema, i, links, Many(kw));
      ManyLeadsTo(lib, ps, links, i, kw);
    }
    forall kw ensures LeadsNamed(ps, links, ps[i], kw) {
      FieldsLead(lib, schema, i, links, Named(kw));
      NamedLeadsTo(lib, ps, links, i, kw);
    }
  }
}
