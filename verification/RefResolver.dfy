/**
 Binding `$ref`s. The traversal visits the children of a node field by field, in an order of its
 own; every node of the tree is bound, or some `$ref` of the tree names nothing.
 */
module RefResolver {
  import opened Values
  import opened Schema
  import opened SchemaTree
  import opened Layout
  import opened Blueprint
  import opened RefDecoder
  import opened CompilerObject

  // ---------------------------------------------------------------------------------------
  // Child fields
  // ---------------------------------------------------------------------------------------

  function Seconds(pairs: seq<(string, Address)>): seq<Address>
    decreases |pairs|
  {
    if pairs == [] then [] else Seconds(pairs[..|pairs| - 1]) + [pairs[|pairs| - 1].1]
  }

  /** The addresses in the field of a group. */
  function FieldOf(links: Links, g: Group): seq<Address> {
    match g
    case One(kw) => if kw in links.ones then [links.ones[kw]] else []
    case Many(kw) => if kw in links.lists then links.lists[kw] else []
    case Named(kw) => if kw in links.hashes then Seconds(links.hashes[kw]) else []
    case Loose => links.nested
  }

  lemma {:induction false} SecondsOfZip(kids: seq<Child>, addresses: seq<Address>)
    requires |kids| == |addresses|
    ensures Seconds(Zip(kids, addresses)) == addresses
    decreases |kids|
  {
    if kids != [] {
      var last := |kids| - 1;
      SecondsOfZip(kids[..last], addresses[..last]);
      assert Zip(kids, addresses)[..|Zip(kids, addresses)| - 1] == Zip(kids[..last], addresses[..last]);
      assert addresses == addresses[..last] + [addresses[last]];
    }
  }

  lemma FieldSet(schema: Data, links: Links, g: Group, addresses: seq<Address>)
    requires FieldOf(links, g) == [] && |addresses| == |GroupKids(schema, g)|
    ensures FieldOf(SetGroup(schema, links, g, addresses), g) == addresses
  {
    match g {
      case One(kw) =>
      case Many(kw) =>
      case Named(kw) => SecondsOfZip(NamedKids(schema, kw), addresses);
      case Loose =>
    }
  }

  lemma FieldKept(schema: Data, links: Links, g: Group, addresses: seq<Address>, other: Group)
    requires g != other
    ensures FieldOf(SetGroup(schema, links, g, addresses), other) == FieldOf(links, other)
  {
  }

  predicate AreDistinct(gs: seq<Group>) {
    forall i, j :: 0 <= i < j < |gs| ==> gs[i] != gs[j]
  }

  lemma Filled(w: Work, lib: Library, schema: Data, links: Links, g: Group, addresses: seq<Address>)
    requires IsWork(w, lib) && FieldOf(links, g) == [] && |addresses| == |w.form.parts(schema, g)|
    ensures FieldOf(w.form.fill(schema, links, g, addresses), g) == addresses
  {
    assert ReadsGroup(w, schema, links, g, addresses);
    FieldSet(schema, links, g, addresses);
  }

  lemma FilledElsewhere(
    w: Work, lib: Library, schema: Data, links: Links, g: Group, addresses: seq<Address>, other: Group)
    requires IsWork(w, lib) && g != other
    ensures FieldOf(w.form.fill(schema, links, g, addresses), other) == FieldOf(links, other)
  {
    assert ReadsGroup(w, schema, links, g, addresses);
    FieldKept(schema, links, g, addresses, other);
  }

  /** After some groups, the field of the k-th holds its children's addresses. */
  lemma {:induction false} FieldGrown(
    w: Work, lib: Library, schema: Data, gs: seq<Group>, base: Address, k: nat, inner: Site)
    requires IsWork(w, lib) && AreDistinct(gs) && k < |gs|
    ensures FieldOf(Grown(w.form, schema, gs, base), gs[k]) ==
            w.form.lie(base + w.form.size(KidsOf(w, schema, gs[..k])), w.form.parts(schema, gs[k]))
    decreases |gs|
  {
    var init, g := gs[..|gs| - 1], gs[|gs| - 1];
    var links, kids := Grown(w.form, schema, init, base), w.form.parts(schema, g);
    var at := base + w.form.size(KidsOf(w, schema, init));
    if k == |gs| - 1 {
      FieldUnset(w, lib, schema, init, base, g);
      LieLength(w, lib, kids, inner, at);
      Filled(w, lib, schema, links, g, w.form.lie(at, kids));
    } else {
      FieldGrown(w, lib, schema, init, base, k, inner);
      assert gs[..k] == init[..k];
      FilledElsewhere(w, lib, schema, links, g, w.form.lie(at, kids), gs[k]);
    }
  }

  lemma {:induction false} FieldUnset(w: Work, lib: Library, schema: Data, gs: seq<Group>, base: Address, other: Group)
    requires IsWork(w, lib) && other !in gs
    ensures FieldOf(Grown(w.form, schema, gs, base), other) == []
    decreases |gs|
  {
    if gs != [] {
      var init, g := gs[..|gs| - 1], gs[|gs| - 1];
      var links, kids := Grown(w.form, schema, init, base), w.form.parts(schema, g);
      FieldUnset(w, lib, schema, init, base, other);
      FilledElsewhere(w, lib, schema, links, g, w.form.lie(base + w.form.size(KidsOf(w, schema, init)), kids), other);
    }
  }

  // ---------------------------------------------------------------------------------------
  // Regions
  // ---------------------------------------------------------------------------------------

  /** A child among others: where it lies and which part of the nodes is its own. */
  lemma KidRegion(w: Work, lib: Library, kids: seq<Child>, inner: Site, base: Address, j: nat)
    requires IsWork(w, lib) && j < |kids|
    ensures var off, n := w.form.size(kids[..j]), w.form.size([kids[j]]);
      var all := w.arena(kids, inner, base);
      && |w.form.lie(base, kids)| == |kids| && w.form.lie(base, kids)[j] == base + off
      && w.form.size(kids[..j + 1]) == off + n && off + n <= |all|
      && all[off..off + n] == w.one(kids[j], KidSite(inner, kids[j]), base + off)
      && |w.one(kids[j], KidSite(inner, kids[j]), base + off)| == n
  {
    var x, c, z := kids[..j], kids[j], kids[j + 1..];
    var off := w.form.size(x);
    assert kids == x + [c] + z && kids[..j + 1] == x + [c];
    assert AddsRoom(w, x, [c], inner, base) && AddsNodes(w, x, [c], inner, base);
    assert AddsRoom(w, x + [c], z, inner, base) && AddsNodes(w, x + [c], z, inner, base);
    assert Alone(w, lib, c, inner, base + off, map[]);
    NodeCount(w, lib, [c], inner, base + off);
    LieLength(w, lib, kids, inner, base);
    LieLength(w, lib, x, inner, base);
  }

  /** The nodes of siblings lie one after the other. */
  lemma {:induction false} KidsInOrder(
    w: Work, lib: Library, kids: seq<Child>, inner: Site, base: Address, j: nat, k: nat)
    requires IsWork(w, lib) && j < |kids| && k < |kids|
    ensures j < k ==> w.form.size(kids[..j]) + w.form.size([kids[j]]) <= w.form.size(kids[..k])
    decreases k
  {
    if j < k {
      KidRegion(w, lib, kids, inner, base, k - 1);
      KidsInOrder(w, lib, kids, inner, base, j, k - 1);
    }
  }

  /** A group among others. */
  lemma GroupRegion(w: Work, lib: Library, schema: Data, gs: seq<Group>, inner: Site, base: Address, k: nat)
    requires IsWork(w, lib) && k < |gs|
    ensures var off, kids := w.form.size(KidsOf(w, schema, gs[..k])), w.form.parts(schema, gs[k]);
      var all := w.arena(KidsOf(w, schema, gs), inner, base);
      && w.form.size(KidsOf(w, schema, gs[..k + 1])) == off + w.form.size(kids) <= |all|
      && all[off..off + w.form.size(kids)] == w.arena(kids, inner, base + off)
  {
    var x, y, all := KidsOf(w, schema, gs[..k]), w.form.parts(schema, gs[k]), KidsOf(w, schema, gs);
    assert gs[..k + 1] == gs[..k] + [gs[k]];
    GroupMore(w, schema, gs[..k], gs[k], base);
    GroupsPrefix(w, schema, gs, k + 1);
    var z := all[|x + y|..];
    assert all == x + y + z;
    assert AddsRoom(w, x, y, inner, base) && AddsNodes(w, x, y, inner, base);
    assert AddsRoom(w, x + y, z, inner, base) && AddsNodes(w, x + y, z, inner, base);
    NodeCount(w, lib, y, inner, base + w.form.size(x));
    NodeCount(w, lib, z, inner, base + w.form.size(x + y));
  }

  // ---------------------------------------------------------------------------------------
  // Targets
  // ---------------------------------------------------------------------------------------

  function Plain(node: Compiled): Compiled { node.(refSchema := None) }

  /** The node a `$ref` names: by its resolved form, else by its literal form. */
  function Target(lib: Library, m: Index, names: Names): Option<Address> {
    if names.ref.None? then None
    else
      var ref := names.ref.value;
      var key := if names.resolvedRef.Some? then names.resolvedRef.value else ref;
      var decoded, fallback := DecodeRef(lib.unescape, key), DecodeRef(lib.unescape, ref);
      if decoded in m then Some(m[decoded])
      else if key != ref && fallback in m then Some(m[fallback])
      else None
  }

  predicate Unresolved(lib: Library, m: Index, node: Compiled) {
    node.names.ref.Some? && Target(lib, m, node.names).None?
  }

  function Bind(lib: Library, m: Index, node: Compiled): Compiled {
    if node.names.ref.Some? then node.(refSchema := Target(lib, m, node.names)) else node
  }

  /** A stretch of the nodes is as compiled, apart from bound references. */
  ghost predicate Matches(nodes: seq<Compiled>, at: Address, wanted: seq<Compiled>) {
    at + |wanted| <= |nodes| && forall i :: at <= i < at + |wanted| ==> Plain(nodes[i]) == wanted[i - at]
  }

  lemma MatchPart(nodes: seq<Compiled>, at: Address, wanted: seq<Compiled>, lo: nat, hi: nat)
    requires Matches(nodes, at, wanted) && lo <= hi <= |wanted|
    ensures Matches(nodes, at + lo, wanted[lo..hi])
  {
  }

  /** What is bound where `done` says so, and nothing else. */
  ghost predicate Bound(lib: Library, m: Index, before: seq<Compiled>, after: seq<Compiled>, done: nat -> bool) {
    |after| == |before| &&
    forall i: nat :: i < |before| ==> after[i] == if done(i) then Bind(lib, m, before[i]) else before[i]
  }

  /** What is bound from `lo` to `hi`, and nothing else. */
  ghost predicate BoundIn(lib: Library, m: Index, before: seq<Compiled>, after: seq<Compiled>, lo: nat, hi: nat) {
    |after| == |before| &&
    forall i: nat :: i < |before| ==> after[i] == if lo <= i < hi then Bind(lib, m, before[i]) else before[i]
  }

  lemma BoundInMatches(
    lib: Library, m: Index, before: seq<Compiled>, after: seq<Compiled>, lo: nat, hi: nat, at: Address,
    wanted: seq<Compiled>)
    requires BoundIn(lib, m, before, after, lo, hi) && Matches(before, at, wanted)
    ensures Matches(after, at, wanted)
  {
  }

  lemma BoundMatches(
    lib: Library, m: Index, before: seq<Compiled>, after: seq<Compiled>, done: nat -> bool, at: Address,
    wanted: seq<Compiled>)
    requires Bound(lib, m, before, after, done) && Matches(before, at, wanted)
    ensures Matches(after, at, wanted)
  {
  }

  ghost predicate NoneUnresolved(lib: Library, m: Index, nodes: seq<Compiled>, lo: nat, hi: nat) {
    forall i :: lo <= i < hi && i < |nodes| ==> !Unresolved(lib, m, nodes[i])
  }

  // ---------------------------------------------------------------------------------------
  // How the children of a node divide what lies below it
  // ---------------------------------------------------------------------------------------

  ghost predicate FieldHolds(
    w: Work, nodes: seq<Compiled>, links: Links, inner: Site, lo: nat, hi: nat, bound: nat,
    kids: Group -> seq<Child>, start: Group -> Address, g: Group)
  {
    && FieldOf(links, g) == w.form.lie(start(g), kids(g))
    && lo <= start(g) && start(g) + w.form.size(kids(g)) <= hi
    && Matches(nodes, start(g), w.arena(kids(g), inner, start(g)))
    && AllLower(kids(g), bound)
  }

  ghost predicate In(w: Work, kids: Group -> seq<Child>, start: Group -> Address, g: Group, i: nat) {
    start(g) <= i < start(g) + w.form.size(kids(g))
  }

  ghost predicate IsCovered(w: Work, lo: nat, hi: nat, kids: Group -> seq<Child>, start: Group -> Address, i: nat) {
    lo <= i < hi ==> exists g :: In(w, kids, start, g, i)
  }

  /** Each field holds the children of its group, and the groups cover all below the node. */
  ghost predicate Divides(
    w: Work, nodes: seq<Compiled>, links: Links, inner: Site, lo: nat, hi: nat, bound: nat,
    kids: Group -> seq<Child>, start: Group -> Address)
  {
    && (forall g :: FieldHolds(w, nodes, links, inner, lo, hi, bound, kids, start, g))
    && (forall i: nat :: IsCovered(w, lo, hi, kids, start, i))
  }

  function Position(g: Group): nat {
    match g
    case One(If) => 0
    case One(Then) => 1
    case One(Else) => 2
    case Many(AllOf) => 3
    case Many(AnyOf) => 4
    case Many(OneOf) => 5
    case One(Not) => 6
    case One(Items) => 7
    case Many(ItemsList) => 8
    case One(AdditionalItems) => 9
    case One(Contains) => 10
    case One(PropertyNames) => 11
    case One(AdditionalProperties) => 12
    case Named(Properties) => 13
    case Named(PatternProperties) => 14
    case Named(Dependencies) => 15
    case Loose => 16
  }

  lemma PositionIs(g: Group)
    ensures Position(g) < |GROUPS| && GROUPS[Position(g)] == g
  {
  }

  lemma GroupsDistinct()
    ensures AreDistinct(GROUPS)
  {
    forall i, j | 0 <= i < j < |GROUPS| ensures GROUPS[i] != GROUPS[j] {
      assert Position(GROUPS[i]) == i && Position(GROUPS[j]) == j;
    }
  }

  ghost function PartsAt(w: Work, schema: Data): Group -> seq<Child> { g => w.form.parts(schema, g) }

  ghost function StartsAt(w: Work, schema: Data, gs: seq<Group>, base: Address): Group -> Address {
    g => base + w.form.size(KidsOf(w, schema, if Position(g) <= |gs| then gs[..Position(g)] else []))
  }

  /** Below `base`, what lies before the k-th group's end lies in one of the groups up to it. */
  lemma {:induction false} PrefixCovered(
    w: Work, lib: Library, schema: Data, gs: seq<Group>, inner: Site, base: Address, k: nat, i: nat) returns (j: nat)
    requires IsWork(w, lib) && k <= |gs| && base <= i < base + w.form.size(KidsOf(w, schema, gs[..k]))
    ensures j < k
    ensures var at := base + w.form.size(KidsOf(w, schema, gs[..j]));
      at <= i < at + w.form.size(w.form.parts(schema, gs[j]))
    decreases k
  {
    NoRoom(w, lib, inner);
    assert gs[..0] == [];
    if k > 0 {
      GroupRegion(w, lib, schema, gs, inner, base, k - 1);
      if base + w.form.size(KidsOf(w, schema, gs[..k - 1])) <= i {
        j := k - 1;
      } else {
        j := PrefixCovered(w, lib, schema, gs, inner, base, k - 1, i);
      }
    }
  }

  lemma GroupMatches(
    w: Work, lib: Library, nodes: seq<Compiled>, schema: Data, gs: seq<Group>, inner: Site, base: Address, k: nat,
    at: Address)
    requires IsWork(w, lib) && k < |gs| && at == base + w.form.size(KidsOf(w, schema, gs[..k]))
    requires Matches(nodes, base, w.arena(KidsOf(w, schema, gs), inner, base))
    ensures at + w.form.size(w.form.parts(schema, gs[k])) <= base + w.form.size(KidsOf(w, schema, gs))
    ensures Matches(nodes, at, w.arena(w.form.parts(schema, gs[k]), inner, at))
  {
    var all := w.arena(KidsOf(w, schema, gs), inner, base);
    GroupRegion(w, lib, schema, gs, inner, base, k);
    NodeCount(w, lib, KidsOf(w, schema, gs), inner, base);
    MatchPart(nodes, base, all, at - base, at - base + w.form.size(w.form.parts(schema, gs[k])));
  }

  lemma GroupAt(w: Work, schema: Data, gs: seq<Group>, base: Address, k: nat)
    requires k < |gs| && Position(gs[k]) == k
    ensures PartsAt(w, schema)(gs[k]) == w.form.parts(schema, gs[k])
    ensures StartsAt(w, schema, gs, base)(gs[k]) == base + w.form.size(KidsOf(w, schema, gs[..k]))
  {
  }

  lemma GroupHolds(
    w: Work, lib: Library, nodes: seq<Compiled>, schema: Data, gs: seq<Group>, inner: Site, base: Address, k: nat,
    links: Links, kids: Group -> seq<Child>, start: Group -> Address)
    requires IsWork(w, lib) && AreDistinct(gs) && k < |gs| && links == Grown(w.form, schema, gs, base)
    requires kids(gs[k]) == w.form.parts(schema, gs[k])
    requires start(gs[k]) == base + w.form.size(KidsOf(w, schema, gs[..k]))
    requires Matches(nodes, base, w.arena(KidsOf(w, schema, gs), inner, base))
    ensures FieldHolds(w, nodes, links, inner, base, base + w.form.size(KidsOf(w, schema, gs)),
                       Height(schema), kids, start, gs[k])
  {
    GroupMatches(w, lib, nodes, schema, gs, inner, base, k, base + w.form.size(KidsOf(w, schema, gs[..k])));
    FieldGrown(w, lib, schema, gs, base, k, inner);
    assert ReadsGroup(w, schema, NO_LINKS, gs[k], []);
    GroupLower(schema, gs[k]);
  }

  lemma Covers(w: Work, lib: Library, schema: Data, inner: Site, base: Address, i: nat)
    requires IsWork(w, lib)
    ensures IsCovered(w, base, base + w.form.size(KidsOf(w, schema, GROUPS)), PartsAt(w, schema),
                      StartsAt(w, schema, GROUPS, base), i)
  {
    if base <= i < base + w.form.size(KidsOf(w, schema, GROUPS)) {
      assert GROUPS[..|GROUPS|] == GROUPS;
      var j := PrefixCovered(w, lib, schema, GROUPS, inner, base, |GROUPS|, i);
      assert Position(GROUPS[j]) == j;
      assert In(w, PartsAt(w, schema), StartsAt(w, schema, GROUPS, base), GROUPS[j], i);
    }
  }

  lemma KeywordsDivide(
    w: Work, lib: Library, nodes: seq<Compiled>, schema: Data, inner: Site, base: Address, links: Links)
    requires IsWork(w, lib) && Matches(nodes, base, w.arena(KidsOf(w, schema, GROUPS), inner, base))
    requires links == Grown(w.form, schema, GROUPS, base)
    ensures Divides(w, nodes, links, inner, base, base + w.form.size(KidsOf(w, schema, GROUPS)),
                    Height(schema), PartsAt(w, schema), StartsAt(w, schema, GROUPS, base))
  {
    var kids, start := PartsAt(w, schema), StartsAt(w, schema, GROUPS, base);
    var hi := base + w.form.size(KidsOf(w, schema, GROUPS));
    GroupsDistinct();
    forall g ensures FieldHolds(w, nodes, links, inner, base, hi, Height(schema), kids, start, g) {
      PositionIs(g);
      GroupAt(w, schema, GROUPS, base, Position(g));
      GroupHolds(w, lib, nodes, schema, GROUPS, inner, base, Position(g), links, kids, start);
    }
    forall i: nat ensures IsCovered(w, base, hi, kids, start, i) { Covers(w, lib, schema, inner, base, i); }
  }

  /** Two groups have no node in common. */
  ghost predicate Apart(w: Work, kids: Group -> seq<Child>, start: Group -> Address, g: Group, h: Group, i: nat) {
    In(w, kids, start, g, i) && In(w, kids, start, h, i) ==> g == h
  }

  lemma {:induction false} GroupsGrow(
    w: Work, lib: Library, schema: Data, gs: seq<Group>, inner: Site, base: Address, j: nat, k: nat)
    requires IsWork(w, lib) && j <= k <= |gs|
    ensures w.form.size(KidsOf(w, schema, gs[..j])) <= w.form.size(KidsOf(w, schema, gs[..k]))
    decreases k - j
  {
    if j < k {
      GroupsGrow(w, lib, schema, gs, inner, base, j, k - 1);
      GroupRegion(w, lib, schema, gs, inner, base, k - 1);
    }
  }

  lemma GroupsApart(w: Work, lib: Library, schema: Data, inner: Site, base: Address, g: Group, h: Group, i: nat)
    requires IsWork(w, lib)
    ensures Apart(w, PartsAt(w, schema), StartsAt(w, schema, GROUPS, base), g, h, i)
  {
    PositionIs(g);
    PositionIs(h);
    if Position(g) < Position(h) {
      GroupRegion(w, lib, schema, GROUPS, inner, base, Position(g));
      GroupsGrow(w, lib, schema, GROUPS, inner, base, Position(g) + 1, Position(h));
    } else if Position(h) < Position(g) {
      GroupRegion(w, lib, schema, GROUPS, inner, base, Position(h));
      GroupsGrow(w, lib, schema, GROUPS, inner, base, Position(h) + 1, Position(g));
    }
  }

  lemma NothingDivides(w: Work, lib: Library, nodes: seq<Compiled>, inner: Site, base: Address, bound: nat)
    requires IsWork(w, lib) && base <= |nodes|
    ensures Divides(w, nodes, NO_LINKS, inner, base, base, bound, (_: Group) => [], (_: Group) => base)
  {
    assert Empty(w, inner, base, map[]);
    var kids: Group -> seq<Child>, start: Group -> Address := (_: Group) => [], (_: Group) => base;
    forall g ensures FieldHolds(w, nodes, NO_LINKS, inner, base, base, bound, kids, start, g) {}
    forall i: nat ensures IsCovered(w, base, base, kids, start, i) {}
  }

  /** The node of a schema, and what lies below it. */
  lemma NodeAndBelow(w: Work, lib: Library, nodes: seq<Compiled>, c: Child, site: Site, a: Address)
    requires IsWork(w, lib) && Matches(nodes, a, w.one(c, site, a))
    ensures a < |nodes| && |w.one(c, site, a)| > 0
    ensures Plain(nodes[a]) == Root(w.form, lib, c.source, site, a)
    ensures var kids, inner := KidsOf(w, c.source, GROUPS), InnerSite(lib, c.source, site);
      if HasKeywords(c.source) then
        |w.one(c, site, a)| == 1 + w.form.size(kids) && Matches(nodes, a + 1, w.arena(kids, inner, a + 1))
      else |w.one(c, site, a)| == 1
  {
    assert Opens(w, lib, c, site, a, map[]);
    if HasKeywords(c.source) {
      NodeCount(w, lib, KidsOf(w, c.source, GROUPS), InnerSite(lib, c.source, site), a + 1);
    }
    BelowMatches(nodes, a, w.one(c, site, a), w.one(c, site, a)[1..]);
  }

  lemma RootLinks(form: Form, lib: Library, source: Data, site: Site, a: Address, node: Compiled)
    requires Plain(node) == Root(form, lib, source, site, a)
    ensures node.links == if HasKeywords(source) then Grown(form, source, GROUPS, a + 1) else NO_LINKS
  {
  }

  /** The children of a compiled schema divide what lies below its node: each node there is in exactly one group. */
  lemma Division(w: Work, lib: Library, nodes: seq<Compiled>, c: Child, site: Site, a: Address)
    returns (kids: Group -> seq<Child>, start: Group -> Address)
    requires IsWork(w, lib) && Matches(nodes, a, w.one(c, site, a))
    ensures a < |nodes| && |w.one(c, site, a)| > 0
    ensures Divides(w, nodes, nodes[a].links, InnerSite(lib, c.source, site), a + 1, a + |w.one(c, site, a)|,
                    Height(c.source), kids, start)
    ensures AreParts(w, c.source, a, kids, start)
    ensures forall g, h, i: nat :: Apart(w, kids, start, g, h, i)
  {
    var inner := InnerSite(lib, c.source, site);
    NodeAndBelow(w, lib, nodes, c, site, a);
    RootLinks(w.form, lib, c.source, site, a, nodes[a]);
    kids, start := LinksDivide(w, lib, nodes, nodes[a].links, c.source, inner, a);
  }

  /** The children of each group, and where they start. */
  ghost predicate AreParts(w: Work, source: Data, a: Address, kids: Group -> seq<Child>, start: Group -> Address) {
    if HasKeywords(source) then kids == PartsAt(w, source) && start == StartsAt(w, source, GROUPS, a + 1)
    else forall g :: kids(g) == []
  }

  ghost function Room(w: Work, source: Data): nat {
    if HasKeywords(source) then w.form.size(KidsOf(w, source, GROUPS)) else 0
  }

  lemma LinksDivide(w: Work, lib: Library, nodes: seq<Compiled>, links: Links, source: Data, inner: Site, a: Address)
    returns (kids: Group -> seq<Child>, start: Group -> Address)
    requires IsWork(w, lib) && a < |nodes|
    requires links == if HasKeywords(source) then Grown(w.form, source, GROUPS, a + 1) else NO_LINKS
    requires HasKeywords(source) ==> Matches(nodes, a + 1, w.arena(KidsOf(w, source, GROUPS), inner, a + 1))
    ensures Divides(w, nodes, links, inner, a + 1, a + 1 + Room(w, source), Height(source), kids, start)
    ensures AreParts(w, source, a, kids, start) && forall g, h, i: nat :: Apart(w, kids, start, g, h, i)
  {
    NoRoom(w, lib, inner);
    if HasKeywords(source) {
      kids, start := PartsAt(w, source), StartsAt(w, source, GROUPS, a + 1);
      KeywordsDivide(w, lib, nodes, source, inner, a + 1, links);
      forall g, h, i: nat ensures Apart(w, kids, start, g, h, i) {
        GroupsApart(w, lib, source, inner, a + 1, g, h, i);
      }
    } else {
      kids, start := (_: Group) => [], (_: Group) => a + 1;
      NothingDivides(w, lib, nodes, inner, a + 1, Height(source));
    }
  }

  lemma BelowMatches(nodes: seq<Compiled>, a: Address, all: seq<Compiled>, below: seq<Compiled>)
    requires Matches(nodes, a, all) && |all| > 0 && all[1..] == below
    ensures Matches(nodes, a + 1, below) && Plain(nodes[a]) == all[0]
  {
    MatchPart(nodes, a, all, 1, |all|);
    assert all[1..|all|] == below;
  }

  // ---------------------------------------------------------------------------------------
  // The traversal
  // ---------------------------------------------------------------------------------------

  /** The order in which `resolve_refs` visits the fields of a node. */
  const RESOLVE_ORDER: seq<Group> := [
    One(If), One(Then), One(Else), One(Not), One(Items), One(AdditionalItems), One(Contains),
    One(PropertyNames), One(AdditionalProperties),
    Many(AllOf), Many(AnyOf), Many(OneOf), Many(ItemsList),
    Named(Properties), Named(PatternProperties), Named(Dependencies),
    Loose]

  /** No kind of child is missed. */
  lemma VisitsAll(g: Group)
    ensures g in RESOLVE_ORDER
  {
    var at: nat := match g
      case One(If) => 0
      case One(Then) => 1
      case One(Else) => 2
      case One(Not) => 3
      case One(Items) => 4
      case One(AdditionalItems) => 5
      case One(Contains) => 6
      case One(PropertyNames) => 7
      case One(AdditionalProperties) => 8
      case Many(AllOf) => 9
      case Many(AnyOf) => 10
      case Many(OneOf) => 11
      case Many(ItemsList) => 12
      case Named(Properties) => 13
      case Named(PatternProperties) => 14
      case Named(Dependencies) => 15
      case Loose => 16;
    assert RESOLVE_ORDER[at] == g;
  }

  /** The groups visited so far. */
  ghost function Visited(
    w: Work, a: Address, kids: Group -> seq<Child>, start: Group -> Address, gs: seq<Group>): nat -> bool
  {
    (i: nat) => i == a || exists g :: g in gs && In(w, kids, start, g, i)
  }

  /** `resolve_refs` at `a`; `ok` is false where it raises "Unresolved $ref". */
  method ResolveRefs(z: Compiler, ghost w: Work, ghost c: Child, ghost site: Site, a: Address) returns (ok: bool)
    requires IsWork(w, z.lib) && Matches(z.nodes, a, w.one(c, site, a))
    modifies z`nodes
    ensures ok <==> NoneUnresolved(z.lib, z.refData, old(z.nodes), a, a + |w.one(c, site, a)|)
    ensures ok ==> BoundIn(z.lib, z.refData, old(z.nodes), z.nodes, a, a + |w.one(c, site, a)|)
    decreases Height(c.source), 2
  {
    ghost var before, hi, inner := z.nodes, a + |w.one(c, site, a)|, InnerSite(z.lib, c.source, site);
    ghost var kids, start := Division(w, z.lib, z.nodes, c, site, a);
    ok := ResolveOne(z, a);
    if !ok { return; }
    ok := ResolveFields(z, w, before, inner, hi, Height(c.source), kids, start, a);
    if ok { AllVisited(w, z.lib, z.refData, before, z.nodes, inner, a, hi, Height(c.source), kids, start); }
  }

  /** The `$ref` of the node itself. */
  method ResolveOne(z: Compiler, a: Address) returns (ok: bool)
    requires a < |z.nodes|
    modifies z`nodes
    ensures ok <==> !Unresolved(z.lib, z.refData, old(z.nodes)[a])
    ensures ok ==> z.nodes == old(z.nodes)[a := Bind(z.lib, z.refData, old(z.nodes)[a])]
  {
    var names := z.nodes[a].names;
    if names.ref.None? { return true; }
    var key := if names.resolvedRef.Some? then names.resolvedRef.value else names.ref.value;
    var decoded := DecodeRef(z.lib.unescape, key);
    if decoded in z.refData {
      z.nodes := z.nodes[a := z.nodes[a].(refSchema := Some(z.refData[decoded]))];
      return true;
    }
    if key != names.ref.value {
      var fallback := DecodeRef(z.lib.unescape, names.ref.value);
      if fallback in z.refData {
        z.nodes := z.nodes[a := z.nodes[a].(refSchema := Some(z.refData[fallback]))];
        return true;
      }
    }
    return false;
  }

  /** The children of the node at `a`, field by field. */
  method ResolveFields(
    z: Compiler, ghost w: Work, ghost before: seq<Compiled>, ghost inner: Site, ghost hi: nat, ghost bound: nat,
    ghost kids: Group -> seq<Child>, ghost start: Group -> Address, a: Address)
    returns (ok: bool)
    requires IsWork(w, z.lib) && a < |before| && hi <= |before|
    requires Divides(w, before, before[a].links, inner, a + 1, hi, bound, kids, start)
    requires z.nodes == before[a := Bind(z.lib, z.refData, before[a])]
    requires !Unresolved(z.lib, z.refData, before[a])
    modifies z`nodes
    ensures ok <==> NoneUnresolved(z.lib, z.refData, before, a, hi)
    ensures ok ==> Bound(z.lib, z.refData, before, z.nodes, Visited(w, a, kids, start, RESOLVE_ORDER))
    decreases bound, 1
  {
    ok := true;
    for k := 0 to |RESOLVE_ORDER|
      invariant Bound(z.lib, z.refData, before, z.nodes, Visited(w, a, kids, start, RESOLVE_ORDER[..k]))
      invariant forall i: nat :: Visited(w, a, kids, start, RESOLVE_ORDER[..k])(i) && i < hi ==>
                  !Unresolved(z.lib, z.refData, before[i])
      invariant ok
    {
      ghost var gs := RESOLVE_ORDER[..k];
      var g := RESOLVE_ORDER[k];
      ghost var now := z.nodes;
      assert FieldHolds(w, before, before[a].links, inner, a + 1, hi, bound, kids, start, g);
      BoundMatches(z.lib, z.refData, before, now, Visited(w, a, kids, start, gs), start(g),
        w.arena(kids(g), inner, start(g)));
      ok := ResolveList(z, w, kids(g), inner, start(g), bound, FieldOf(z.nodes[a].links, g));
      assert RESOLVE_ORDER[..k + 1] == gs + [g];
      if !ok {
        StillUnresolved(w, z.lib, z.refData, before, now, kids, start, a, gs, g, hi);
        return;
      }
      BoundMore(w, z.lib, z.refData, before, now, z.nodes, kids, start, a, gs, g);
      NoneMore(w, z.lib, z.refData, before, now, kids, start, a, gs, g, hi);
    }
    assert RESOLVE_ORDER[..|RESOLVE_ORDER|] == RESOLVE_ORDER;
    EachVisited(w, before, inner, a, hi, bound, kids, start);
  }

  /** A list of children. */
  method ResolveList(
    z: Compiler, ghost w: Work, ghost kids: seq<Child>, ghost inner: Site, ghost base: Address, ghost bound: nat,
    children: seq<Address>)
    returns (ok: bool)
    requires IsWork(w, z.lib) && AllLower(kids, bound) && children == w.form.lie(base, kids)
    requires Matches(z.nodes, base, w.arena(kids, inner, base))
    modifies z`nodes
    ensures ok <==> NoneUnresolved(z.lib, z.refData, old(z.nodes), base, base + w.form.size(kids))
    ensures ok ==> BoundIn(z.lib, z.refData, old(z.nodes), z.nodes, base, base + w.form.size(kids))
    decreases bound, 0, 1
  {
    ghost var before := z.nodes;
    ok := true;
    LieLength(w, z.lib, kids, inner, base);
    assert Empty(w, inner, base, map[]);
    for j := 0 to |children|
      invariant BoundIn(z.lib, z.refData, before, z.nodes, base, base + w.form.size(kids[..j]))
      invariant NoneUnresolved(z.lib, z.refData, before, base, base + w.form.size(kids[..j]))
      invariant ok
    {
      ok := ResolveNext(z, w, before, kids, inner, base, bound, j, children[j]);
      if !ok { return; }
    }
    assert kids[..|kids|] == kids;
  }

  /** One more child of a list. */
  method ResolveNext(
    z: Compiler, ghost w: Work, ghost before: seq<Compiled>, ghost kids: seq<Child>, ghost inner: Site,
    ghost base: Address,
    ghost bound: nat, ghost j: nat, child: Address)
    returns (ok: bool)
    requires IsWork(w, z.lib) && AllLower(kids, bound) && j < |kids|
    requires |w.form.lie(base, kids)| == |kids| && child == w.form.lie(base, kids)[j]
    requires Matches(before, base, w.arena(kids, inner, base))
    requires BoundIn(z.lib, z.refData, before, z.nodes, base, base + w.form.size(kids[..j]))
    requires NoneUnresolved(z.lib, z.refData, before, base, base + w.form.size(kids[..j]))
    modifies z`nodes
    ensures ok ==> BoundIn(z.lib, z.refData, before, z.nodes, base, base + w.form.size(kids[..j + 1]))
    ensures ok ==> NoneUnresolved(z.lib, z.refData, before, base, base + w.form.size(kids[..j + 1]))
    ensures !ok ==> !NoneUnresolved(z.lib, z.refData, before, base, base + w.form.size(kids))
    decreases bound, 0, 0
  {
    ghost var c, off := kids[j], w.form.size(kids[..j]);
    ghost var now, n := z.nodes, w.form.size([c]);
    KidReady(w, z.lib, z.refData, before, now, kids, inner, base, j, base + off, base + off + n);
    ok := ResolveRefs(z, w, c, KidSite(inner, c), child);
    if ok {
      BoundFurther(z.lib, z.refData, before, now, z.nodes, base, base + off, base + off + n);
    } else {
      PartUnresolved(w, z.lib, z.refData, before, kids, inner, base, j);
    }
  }

  /** The next child is still as compiled. */
  lemma KidReady(
    w: Work, lib: Library, m: Index, before: seq<Compiled>, now: seq<Compiled>, kids: seq<Child>, inner: Site,
    base: Address,
    j: nat, at: Address, next: Address)
    requires IsWork(w, lib) && j < |kids| && Matches(before, base, w.arena(kids, inner, base))
    requires at == base + w.form.size(kids[..j]) && next == at + w.form.size([kids[j]])
    requires BoundIn(lib, m, before, now, base, at)
    ensures |w.form.lie(base, kids)| == |kids| && w.form.lie(base, kids)[j] == at
    ensures var part := w.one(kids[j], KidSite(inner, kids[j]), at); Matches(now, at, part) && at + |part| == next
    ensures next == base + w.form.size(kids[..j + 1])
    ensures NoneUnresolved(lib, m, now, at, next) <==> NoneUnresolved(lib, m, before, at, next)
  {
    BoundInMatches(lib, m, before, now, base, at, base, w.arena(kids, inner, base));
    KidMatches(w, lib, now, kids, inner, base, j);
    UnboundPart(lib, m, before, now, base, at, next);
  }

  lemma KidMatches(w: Work, lib: Library, nodes: seq<Compiled>, kids: seq<Child>, inner: Site, base: Address, j: nat)
    requires IsWork(w, lib) && j < |kids| && Matches(nodes, base, w.arena(kids, inner, base))
    ensures var c, at := kids[j], base + w.form.size(kids[..j]);
      && |w.form.lie(base, kids)| == |kids| && w.form.lie(base, kids)[j] == at
      && Matches(nodes, at, w.one(c, KidSite(inner, c), at))
      && |w.one(c, KidSite(inner, c), at)| == w.form.size([c])
      && w.form.size(kids[..j + 1]) == w.form.size(kids[..j]) + w.form.size([c])
  {
    var off := w.form.size(kids[..j]);
    KidRegion(w, lib, kids, inner, base, j);
    MatchPart(nodes, base, w.arena(kids, inner, base), off, off + w.form.size([kids[j]]));
  }

  /** What is not bound yet is resolved or not as it was. */
  lemma UnboundPart(
    lib: Library, m: Index, before: seq<Compiled>, now: seq<Compiled>, lo: nat, mid: nat, hi: nat)
    requires BoundIn(lib, m, before, now, lo, mid)
    ensures NoneUnresolved(lib, m, now, mid, hi) <==> NoneUnresolved(lib, m, before, mid, hi)
  {
    forall i | mid <= i < hi && i < |before| ensures now[i] == before[i] {}
  }

  lemma PartUnresolved(
    w: Work, lib: Library, m: Index, nodes: seq<Compiled>, kids: seq<Child>, inner: Site, base: Address, j: nat)
    requires IsWork(w, lib) && j < |kids|
    requires var off := base + w.form.size(kids[..j]); !NoneUnresolved(lib, m, nodes, off, off + w.form.size([kids[j]]))
    ensures !NoneUnresolved(lib, m, nodes, base, base + w.form.size(kids))
  {
    KidRegion(w, lib, kids, inner, base, j);
    NodeCount(w, lib, kids, inner, base);
  }

  lemma BoundFurther(
    lib: Library, m: Index, before: seq<Compiled>, now: seq<Compiled>, later: seq<Compiled>, lo: nat, mid: nat, hi: nat)
    requires BoundIn(lib, m, before, now, lo, mid) && BoundIn(lib, m, now, later, mid, hi) && lo <= mid <= hi
    ensures BoundIn(lib, m, before, later, lo, hi)
  {
  }

  lemma BoundMore(
    w: Work, lib: Library, m: Index, before: seq<Compiled>, now: seq<Compiled>, later: seq<Compiled>,
    kids: Group -> seq<Child>, start: Group -> Address, a: Address, gs: seq<Group>, g: Group)
    requires Bound(lib, m, before, now, Visited(w, a, kids, start, gs))
    requires BoundIn(lib, m, now, later, start(g), start(g) + w.form.size(kids(g)))
    ensures Bound(lib, m, before, later, Visited(w, a, kids, start, gs + [g]))
  {
    forall i: nat | i < |before|
      ensures later[i] == if Visited(w, a, kids, start, gs + [g])(i) then Bind(lib, m, before[i]) else before[i] {
      VisitedMore(w, kids, start, a, gs, g, i);
    }
  }

  lemma VisitedMore(
    w: Work, kids: Group -> seq<Child>, start: Group -> Address, a: Address, gs: seq<Group>, g: Group, i: nat)
    ensures Visited(w, a, kids, start, gs + [g])(i) <==> Visited(w, a, kids, start, gs)(i) || In(w, kids, start, g, i)
  {
    if In(w, kids, start, g, i) { assert g in gs + [g]; }
  }

  lemma SameNames(lib: Library, m: Index, before: seq<Compiled>, now: seq<Compiled>, done: nat -> bool, i: nat)
    requires Bound(lib, m, before, now, done) && i < |before|
    ensures Unresolved(lib, m, now[i]) <==> Unresolved(lib, m, before[i])
  {
  }

  lemma NoneMore(
    w: Work, lib: Library, m: Index, before: seq<Compiled>, now: seq<Compiled>,
    kids: Group -> seq<Child>, start: Group -> Address, a: Address, gs: seq<Group>, g: Group, hi: nat)
    requires Bound(lib, m, before, now, Visited(w, a, kids, start, gs)) && hi <= |before|
    requires forall i: nat :: Visited(w, a, kids, start, gs)(i) && i < hi ==> !Unresolved(lib, m, before[i])
    requires NoneUnresolved(lib, m, now, start(g), start(g) + w.form.size(kids(g)))
    ensures forall i: nat :: Visited(w, a, kids, start, gs + [g])(i) && i < hi ==> !Unresolved(lib, m, before[i])
  {
    forall i: nat | Visited(w, a, kids, start, gs + [g])(i) && i < hi ensures !Unresolved(lib, m, before[i]) {
      VisitedMore(w, kids, start, a, gs, g, i);
      SameNames(lib, m, before, now, Visited(w, a, kids, start, gs), i);
    }
  }

  lemma StillUnresolved(
    w: Work, lib: Library, m: Index, before: seq<Compiled>, now: seq<Compiled>,
    kids: Group -> seq<Child>, start: Group -> Address, a: Address, gs: seq<Group>, g: Group, hi: nat)
    requires Bound(lib, m, before, now, Visited(w, a, kids, start, gs)) && hi <= |before|
    requires !NoneUnresolved(lib, m, now, start(g), start(g) + w.form.size(kids(g)))
    requires a < start(g) && start(g) + w.form.size(kids(g)) <= hi
    ensures !NoneUnresolved(lib, m, before, a, hi)
  {
    var i :| start(g) <= i < start(g) + w.form.size(kids(g)) && i < |now| && Unresolved(lib, m, now[i]);
    SameNames(lib, m, before, now, Visited(w, a, kids, start, gs), i);
  }

  lemma EachVisited(
    w: Work, before: seq<Compiled>, inner: Site, a: Address, hi: nat, bound: nat,
    kids: Group -> seq<Child>, start: Group -> Address)
    requires a < |before| && Divides(w, before, before[a].links, inner, a + 1, hi, bound, kids, start)
    ensures forall i: nat :: a <= i < hi ==> Visited(w, a, kids, start, RESOLVE_ORDER)(i)
  {
    forall i: nat | a <= i < hi ensures Visited(w, a, kids, start, RESOLVE_ORDER)(i) {
      if i != a {
        assert IsCovered(w, a + 1, hi, kids, start, i);
        var g :| In(w, kids, start, g, i);
        VisitsAll(g);
      }
    }
  }

  lemma AllVisited(
    w: Work, lib: Library, m: Index, before: seq<Compiled>, after: seq<Compiled>, inner: Site, a: Address, hi: nat,
    bound: nat, kids: Group -> seq<Child>, start: Group -> Address)
    requires a < |before| && a < hi && Divides(w, before, before[a].links, inner, a + 1, hi, bound, kids, start)
    requires Bound(lib, m, before, after, Visited(w, a, kids, start, RESOLVE_ORDER))
    ensures BoundIn(lib, m, before, after, a, hi)
  {
    EachVisited(w, before, inner, a, hi, bound, kids, start);
    forall i: nat | i < |before| && Visited(w, a, kids, start, RESOLVE_ORDER)(i) ensures a <= i < hi {
      if i != a {
        var g :| g in RESOLVE_ORDER && In(w, kids, start, g, i);
        assert FieldHolds(w, before, before[a].links, inner, a + 1, hi, bound, kids, start, g);
      }
    }
  }
}
