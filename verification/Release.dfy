/**
 Freeing the nodes. Ruby holds a wrapper for each exposed node and frees them in any order. Freeing
 an exposed node frees the internal nodes below it up to the next exposed ones; together these
 regions are all the nodes, and no block is freed twice.
 */
module Release {
  import opened Values
  import opened Bytes
  import opened Schema
  import opened SchemaTree
  import opened Layout
  import opened Blueprint
  import opened CompilerObject
  import opened RefResolver
  import opened References
  import opened SchemaCompiler

  /** The allocator: `XFree` may be given each block once. */
  class Memory {
    var freed: set<Address>

    constructor ()
      ensures freed == {}
    {
      freed := {};
    }

    method XFree(a: Address)
      requires a !in freed
      modifies this
      ensures freed == old(freed) + {a}
    {
      freed := freed + {a};
    }
  }

  // ---------------------------------------------------------------------------------------
  // Owners
  // ---------------------------------------------------------------------------------------

  /** The exposed node whose wrapper frees node `i` below a schema at `a` that `own` frees. */
  ghost function OwnerOf(w: Work, c: Child, a: Address, own: Address, i: Address): Address
    decreases 1 + Height(c.source), 0
  {
    KidsBelow(c.source);
    if i == a then own else OwnerAmong(w, Kids(c.source), a + 1, own, i)
  }

  ghost function OwnerAmong(w: Work, kids: seq<Child>, base: Address, own: Address, i: Address): Address
    decreases KidsHeight(kids), 1 + |kids|
  {
    if kids == [] then own
    else
      var init, k := kids[..|kids| - 1], kids[|kids| - 1];
      var at := base + w.form.size(init);
      if i >= at then OwnerOf(w, k, at, if k.exposed then at else own, i) else OwnerAmong(w, init, base, own, i)
  }

  /** Owners among children after children. */
  lemma {:induction false} OwnerSplit(
    w: Work, lib: Library, x: seq<Child>, y: seq<Child>, inner: Site, base: Address, own: Address, i: Address)
    requires IsWork(w, lib) && base <= i < base + w.form.size(x + y)
    ensures OwnerAmong(w, x + y, base, own, i) ==
            if i < base + w.form.size(x) then OwnerAmong(w, x, base, own, i)
            else OwnerAmong(w, y, base + w.form.size(x), own, i)
    decreases |y|
  {
    if y == [] {
      assert x + y == x;
    } else {
      var init, k := y[..|y| - 1], y[|y| - 1];
      assert (x + y)[..|x + y| - 1] == x + init;
      assert AddsRoom(w, x, init, inner, base);
      if i < base + w.form.size(x + init) { OwnerSplit(w, lib, x, init, inner, base, own, i); }
    }
  }

  lemma LoneOwner(w: Work, lib: Library, c: Child, inner: Site, at: Address, own: Address, i: Address)
    requires IsWork(w, lib) && at <= i
    ensures OwnerAmong(w, [c], at, own, i) == OwnerOf(w, c, at, if c.exposed then at else own, i)
  {
    assert [c][..0] == [] && Empty(w, inner, at, map[]);
  }

  lemma OwnerOfMiddle(
    w: Work, lib: Library, x: seq<Child>, y: seq<Child>, z: seq<Child>, inner: Site, base: Address, own: Address,
    at: Address, i: Address)
    requires IsWork(w, lib) && at == base + w.form.size(x) && at <= i < at + w.form.size(y)
    ensures OwnerAmong(w, x + y + z, base, own, i) == OwnerAmong(w, y, at, own, i)
  {
    assert AddsRoom(w, x, y, inner, base) && AddsRoom(w, x + y, z, inner, base);
    OwnerSplit(w, lib, x + y, z, inner, base, own, i);
    OwnerSplit(w, lib, x, y, inner, base, own, i);
  }

  /** The owner of a node of the j-th child. */
  lemma OwnerOfKid(
    w: Work, lib: Library, kids: seq<Child>, inner: Site, base: Address, own: Address, j: nat, at: Address, i: Address)
    requires IsWork(w, lib) && j < |kids| && at == base + w.form.size(kids[..j])
    requires at <= i < at + w.form.size([kids[j]])
    ensures OwnerAmong(w, kids, base, own, i) == OwnerOf(w, kids[j], at, if kids[j].exposed then at else own, i)
  {
    assert kids == kids[..j] + [kids[j]] + kids[j + 1..];
    OwnerOfMiddle(w, lib, kids[..j], [kids[j]], kids[j + 1..], inner, base, own, at, i);
    LoneOwner(w, lib, kids[j], inner, at, own, i);
  }

  lemma GroupBetween(w: Work, schema: Data, gs: seq<Group>, k: nat) returns (rest: seq<Child>)
    requires k < |gs|
    ensures KidsOf(w, schema, gs) == KidsOf(w, schema, gs[..k]) + w.form.parts(schema, gs[k]) + rest
  {
    assert gs[..k + 1] == gs[..k] + [gs[k]];
    GroupMore(w, schema, gs[..k], gs[k], 0);
    GroupsPrefix(w, schema, gs, k + 1);
    rest := KidsOf(w, schema, gs)[|KidsOf(w, schema, gs[..k + 1])|..];
  }

  /** The owner of a node of the k-th group. */
  lemma OwnerOfGroup(
    w: Work, lib: Library, schema: Data, gs: seq<Group>, inner: Site, base: Address, own: Address, k: nat,
    at: Address, i: Address)
    requires IsWork(w, lib) && k < |gs| && at == base + w.form.size(KidsOf(w, schema, gs[..k]))
    requires at <= i < at + w.form.size(w.form.parts(schema, gs[k]))
    ensures OwnerAmong(w, KidsOf(w, schema, gs), base, own, i) == OwnerAmong(w, w.form.parts(schema, gs[k]), at, own, i)
  {
    var rest := GroupBetween(w, schema, gs, k);
    OwnerOfMiddle(w, lib, KidsOf(w, schema, gs[..k]), w.form.parts(schema, gs[k]), rest, inner, base, own, at, i);
  }

  /** A node is owned from outside, or by a node of its own tree. */
  lemma {:induction false} OwnerNear(w: Work, lib: Library, c: Child, a: Address, own: Address, i: Address)
    requires IsWork(w, lib) && a <= i
    ensures var o := OwnerOf(w, c, a, own, i); o == own || a < o <= i
    decreases 1 + Height(c.source), 0
  {
    if i != a {
      KidsBelow(c.source);
      OwnerAmongNear(w, lib, Kids(c.source), a + 1, own, i);
    }
  }

  lemma {:induction false} OwnerAmongNear(
    w: Work, lib: Library, kids: seq<Child>, base: Address, own: Address, i: Address)
    requires IsWork(w, lib) && base <= i
    ensures var o := OwnerAmong(w, kids, base, own, i); o == own || base <= o <= i
    decreases KidsHeight(kids), 1 + |kids|
  {
    if kids != [] {
      var init, k := kids[..|kids| - 1], kids[|kids| - 1];
      var at := base + w.form.size(init);
      if i >= at {
        OwnerNear(w, lib, k, at, if k.exposed then at else own, i);
      } else {
        OwnerAmongNear(w, lib, init, base, own, i);
      }
    }
  }

  // ---------------------------------------------------------------------------------------
  // Internal and exposed children
  // ---------------------------------------------------------------------------------------

  ghost predicate AllExposed(kids: seq<Child>, exposed: bool) { forall k :: k in kids ==> k.exposed == exposed }

  lemma {:induction false} EntriesInternal(value: Data, tokens: seq<string>)
    ensures AllExposed(Entries(value, tokens), false)
    decreases Height(value), 1, 0
  {
    if value.Array? { ArrayEntriesInternal(value.items, tokens, |value.items|); }
  }

  lemma {:induction false} ArrayEntriesInternal(items: seq<Data>, tokens: seq<string>, n: nat)
    requires n <= |items|
    ensures AllExposed(ArrayEntries(items, tokens, n), false)
    decreases 1 + ItemsHeight(items), 0, n
  {
    if n > 0 {
      ItemLower(items, n - 1);
      ArrayEntriesInternal(items, tokens, n - 1);
      EntriesInternal(items[n - 1], tokens + [Decimal(n - 1)]);
    }
  }

  lemma {:induction false} LooseInternal(members: seq<(Key, Data)>, n: nat)
    requires n <= |members|
    ensures AllExposed(LooseKids(members, n), false)
    decreases n
  {
    if n > 0 {
      LooseInternal(members, n - 1);
      if members[n - 1].0.Name? { EntriesInternal(members[n - 1].1, [members[n - 1].0.name]); }
    }
  }

  lemma {:induction false} ItemsExposed(kw: Listed, items: seq<Data>, n: nat)
    requires n <= |items|
    ensures AllExposed(ItemKids(kw, items, n), true)
    decreases n
  {
    if n > 0 { ItemsExposed(kw, items, n - 1); }
  }

  lemma {:induction false} MembersExposed(kw: Keyed, members: seq<(Key, Data)>, n: nat)
    requires n <= |members|
    ensures AllExposed(MemberKids(kw, members, n), true)
    decreases n
  {
    if n > 0 { MembersExposed(kw, members, n - 1); }
  }

  /** The nodes of lists and hashes are exposed, all others internal. */
  lemma GroupExposed(schema: Data, g: Group)
    ensures AllExposed(GroupKids(schema, g), g.Many? || g.Named?)
  {
    match g {
      case One(kw) =>
      case Many(kw) =>
        var v := Lookup(schema, ManyKeyword(kw));
        if v.Some? && v.value.Array? { ItemsExposed(kw, v.value.items, |v.value.items|); }
      case Named(kw) =>
        var v := Lookup(schema, NamedKeyword(kw));
        if v.Some? && v.value.Object? { MembersExposed(kw, v.value.members, |v.value.members|); }
      case Loose =>
        if schema.Object? { LooseInternal(schema.members, |schema.members|); }
    }
  }

  /** No node below exposed children is owned from outside. */
  lemma {:induction false} ExposedOwn(
    w: Work, lib: Library, kids: seq<Child>, inner: Site, base: Address, own: Address, i: Address)
    requires IsWork(w, lib) && AllExposed(kids, true) && own < base <= i < base + w.form.size(kids)
    ensures OwnerAmong(w, kids, base, own, i) != own
    decreases |kids|
  {
    NoRoom(w, lib, inner);
    if kids != [] {
      var init, k := kids[..|kids| - 1], kids[|kids| - 1];
      var at := base + w.form.size(init);
      if i >= at {
        OwnerNear(w, lib, k, at, at, i);
      } else {
        ExposedOwn(w, lib, init, inner, base, own, i);
      }
    }
  }

  // ---------------------------------------------------------------------------------------
  // The children of a node
  // ---------------------------------------------------------------------------------------

  /** Owners within a group are owners within the schema. */
  ghost predicate OwnsAlike(
    w: Work, c: Child, a: Address, own: Address, kids: Group -> seq<Child>, start: Group -> Address, g: Group, i: nat)
  {
    In(w, kids, start, g, i) ==> OwnerOf(w, c, a, own, i) == OwnerAmong(w, kids(g), start(g), own, i)
  }

  /** The groups of a schema, as far as freeing goes. */
  ghost predicate IsParted(
    w: Work, c: Child, a: Address, own: Address, kids: Group -> seq<Child>, start: Group -> Address)
  {
    && (forall g, h, i: nat :: Apart(w, kids, start, g, h, i))
    && (forall g, i: nat :: OwnsAlike(w, c, a, own, kids, start, g, i))
    && (forall g :: AllExposed(kids(g), g.Many? || g.Named?))
  }

  lemma GroupOwns(w: Work, lib: Library, c: Child, inner: Site, a: Address, own: Address, g: Group, i: nat)
    requires IsWork(w, lib) && HasKeywords(c.source)
    ensures OwnsAlike(w, c, a, own, PartsAt(w, c.source), StartsAt(w, c.source, GROUPS, a + 1), g, i)
  {
    var start := StartsAt(w, c.source, GROUPS, a + 1);
    if In(w, PartsAt(w, c.source), start, g, i) {
      PositionIs(g);
      BelowIsKids(w, lib, c.source);
      OwnerOfGroup(w, lib, c.source, GROUPS, inner, a + 1, own, Position(g), start(g), i);
    }
  }

  lemma Parted(
    w: Work, lib: Library, c: Child, inner: Site, a: Address, own: Address, kids: Group -> seq<Child>,
    start: Group -> Address)
    requires IsWork(w, lib)
    requires AreParts(w, c.source, a, kids, start) && forall g, h, i: nat :: Apart(w, kids, start, g, h, i)
    ensures IsParted(w, c, a, own, kids, start)
  {
    assert Empty(w, inner, 0, map[]);
    forall g, i: nat ensures OwnsAlike(w, c, a, own, kids, start, g, i) {
      if HasKeywords(c.source) { GroupOwns(w, lib, c, inner, a, own, g, i); }
    }
    forall g ensures AllExposed(kids(g), g.Many? || g.Named?) {
      if HasKeywords(c.source) {
        assert ReadsGroup(w, c.source, NO_LINKS, g, []);
        GroupExposed(c.source, g);
      }
    }
  }

  // ---------------------------------------------------------------------------------------
  // Freeing
  // ---------------------------------------------------------------------------------------

  /** The order in which `free_compiled_schema` visits the fields of a node. */
  const FREE_ORDER: seq<Group> := [
    Loose, One(If), One(Then), One(Else), One(Not), One(Items), One(Contains), One(AdditionalItems),
    One(PropertyNames), One(AdditionalProperties)]

  function FreePosition(g: Group): nat {
    match g
    case One(If) => 1
    case One(Then) => 2
    case One(Else) => 3
    case One(Not) => 4
    case One(Items) => 5
    case One(Contains) => 6
    case One(AdditionalItems) => 7
    case One(PropertyNames) => 8
    case One(AdditionalProperties) => 9
    case _ => 0
  }

  /** Each internal kind of child is visited, and once. */
  lemma FreesEach(g: Group, k: nat)
    requires k < |FREE_ORDER|
    ensures g in FREE_ORDER <==> !g.Many? && !g.Named?
    ensures FREE_ORDER[k] !in FREE_ORDER[..k]
  {
    if !g.Many? && !g.Named? { assert FREE_ORDER[FreePosition(g)] == g; }
    assert forall j :: 0 <= j < |FREE_ORDER| ==> FreePosition(FREE_ORDER[j]) == j;
  }

  /** What is freed now and was not before. */
  ghost predicate Released(before: set<Address>, after: set<Address>, mine: nat -> bool) {
    forall i: nat :: i in after <==> i in before || mine(i)
  }

  ghost predicate Unfreed(freed: set<Address>, mine: nat -> bool) {
    forall i: nat :: mine(i) ==> i !in freed
  }

  /** The nodes of a tree that `own` frees. */
  ghost function Mine(w: Work, c: Child, site: Site, a: Address, own: Address): nat -> bool {
    (i: nat) => a <= i < a + |w.one(c, site, a)| && OwnerOf(w, c, a, own, i) == own
  }

  ghost function MineAmong(w: Work, kids: seq<Child>, base: Address, own: Address): nat -> bool {
    (i: nat) => base <= i < base + w.form.size(kids) && OwnerAmong(w, kids, base, own, i) == own
  }

  ghost function MineInFields(
    w: Work, kids: Group -> seq<Child>, start: Group -> Address, own: Address, gs: seq<Group>): nat -> bool
  {
    (i: nat) => exists g :: g in gs && In(w, kids, start, g, i) && MineAmong(w, kids(g), start(g), own)(i)
  }

  /** `free_compiled_schema` at `a`, for the exposed node `own`. */
  method Free(z: Compiler, m: Memory, ghost w: Work, ghost c: Child, ghost site: Site, a: Address, ghost own: Address)
    requires IsWork(w, z.lib) && Matches(z.nodes, a, w.one(c, site, a)) && own <= a
    requires Unfreed(m.freed, Mine(w, c, site, a, own))
    modifies m
    ensures Released(old(m.freed), m.freed, Mine(w, c, site, a, own))
    decreases Height(c.source), 2
  {
    ghost var before, inner := m.freed, InnerSite(z.lib, c.source, site);
    ghost var kids, start := Partition(w, z.lib, z.nodes, c, site, inner, a, own);
    FieldsUnfreed(w, c, site, a, own, kids, start, before);
    FreeFields(z, m, w, c, inner, a, a + |w.one(c, site, a)|, own, kids, start);
    RootReleased(w, c, site, a, own, kids, start, before, m.freed);
    m.XFree(a);
  }

  /** A tree of `own` is its root and what lies in the fields that are visited. */
  ghost predicate IsSplit(
    w: Work, c: Child, site: Site, a: Address, own: Address, kids: Group -> seq<Child>, start: Group -> Address, i: nat)
  {
    && (Mine(w, c, site, a, own)(i) <==> i == a || MineInFields(w, kids, start, own, FREE_ORDER)(i))
    && (MineInFields(w, kids, start, own, FREE_ORDER)(i) ==> i > a)
  }

  ghost predicate AllSplit(
    w: Work, c: Child, site: Site, a: Address, own: Address, kids: Group -> seq<Child>, start: Group -> Address)
  {
    forall i: nat :: IsSplit(w, c, site, a, own, kids, start, i)
  }

  lemma MineSplit(
    w: Work, lib: Library, nodes: seq<Compiled>, c: Child, site: Site, inner: Site, a: Address, own: Address,
    kids: Group -> seq<Child>, start: Group -> Address, i: nat)
    requires IsWork(w, lib) && IsParted(w, c, a, own, kids, start) && own <= a < |nodes| && |w.one(c, site, a)| > 0
    requires Divides(w, nodes, nodes[a].links, inner, a + 1, a + |w.one(c, site, a)|, Height(c.source), kids, start)
    ensures IsSplit(w, c, site, a, own, kids, start, i)
  {
    var hi, links := a + |w.one(c, site, a)|, nodes[a].links;
    if Mine(w, c, site, a, own)(i) && i != a {
      MineBelow(w, lib, nodes, links, c, inner, a, hi, own, kids, start, i);
    }
    if MineInFields(w, kids, start, own, FREE_ORDER)(i) {
      FieldsMine(w, nodes, links, c, inner, a, hi, own, kids, start, i);
    }
  }

  lemma MineBelow(
    w: Work, lib: Library, nodes: seq<Compiled>, links: Links, c: Child, inner: Site, a: Address, hi: nat, own: Address,
    kids: Group -> seq<Child>, start: Group -> Address, i: nat)
    requires IsWork(w, lib) && IsParted(w, c, a, own, kids, start) && own <= a < i < hi
    requires Divides(w, nodes, links, inner, a + 1, hi, Height(c.source), kids, start)
    requires OwnerOf(w, c, a, own, i) == own
    ensures MineInFields(w, kids, start, own, FREE_ORDER)(i)
  {
    assert IsCovered(w, a + 1, hi, kids, start, i);
    var g :| In(w, kids, start, g, i);
    assert OwnsAlike(w, c, a, own, kids, start, g, i);
    assert FieldHolds(w, nodes, links, inner, a + 1, hi, Height(c.source), kids, start, g);
    FieldVisited(w, lib, kids, start, inner, a, own, g, i);
  }

  lemma FieldsMine(
    w: Work, nodes: seq<Compiled>, links: Links, c: Child, inner: Site, a: Address, hi: nat, own: Address,
    kids: Group -> seq<Child>, start: Group -> Address, i: nat)
    requires IsParted(w, c, a, own, kids, start) && MineInFields(w, kids, start, own, FREE_ORDER)(i)
    requires Divides(w, nodes, links, inner, a + 1, hi, Height(c.source), kids, start)
    ensures a < i < hi && OwnerOf(w, c, a, own, i) == own
  {
    var g :| g in FREE_ORDER && In(w, kids, start, g, i) && MineAmong(w, kids(g), start(g), own)(i);
    assert OwnsAlike(w, c, a, own, kids, start, g, i);
    assert FieldHolds(w, nodes, links, inner, a + 1, hi, Height(c.source), kids, start, g);
  }

  /** The children of a node, as far as freeing goes. */
  lemma Partition(
    w: Work, lib: Library, nodes: seq<Compiled>, c: Child, site: Site, inner: Site, a: Address, own: Address)
    returns (kids: Group -> seq<Child>, start: Group -> Address)
    requires IsWork(w, lib) && Matches(nodes, a, w.one(c, site, a)) && own <= a
    requires inner == InnerSite(lib, c.source, site)
    ensures a < |nodes| && IsParted(w, c, a, own, kids, start)
    ensures Divides(w, nodes, nodes[a].links, inner, a + 1, a + |w.one(c, site, a)|, Height(c.source), kids, start)
    ensures AllSplit(w, c, site, a, own, kids, start)
  {
    kids, start := Division(w, lib, nodes, c, site, a);
    Parted(w, lib, c, inner, a, own, kids, start);
    forall i: nat ensures IsSplit(w, c, site, a, own, kids, start, i) {
      MineSplit(w, lib, nodes, c, site, inner, a, own, kids, start, i);
    }
  }

  /** What `own` frees below a node lies in a field that is visited. */
  lemma FieldVisited(
    w: Work, lib: Library, kids: Group -> seq<Child>, start: Group -> Address, inner: Site, a: Address, own: Address,
    g: Group, i: nat)
    requires IsWork(w, lib) && own <= a < start(g) && In(w, kids, start, g, i)
    requires AllExposed(kids(g), g.Many? || g.Named?) && OwnerAmong(w, kids(g), start(g), own, i) == own
    ensures MineInFields(w, kids, start, own, FREE_ORDER)(i)
  {
    if g.Many? || g.Named? {
      ExposedOwn(w, lib, kids(g), inner, start(g), own, i);
      assert false;
    } else {
      FreesEach(g, 0);
      assert MineAmong(w, kids(g), start(g), own)(i);
    }
  }

  lemma RootReleased(
    w: Work, c: Child, site: Site, a: Address, own: Address, kids: Group -> seq<Child>, start: Group -> Address,
    before: set<Address>, now: set<Address>)
    requires AllSplit(w, c, site, a, own, kids, start)
    requires Released(before, now, MineInFields(w, kids, start, own, FREE_ORDER))
    requires Unfreed(before, Mine(w, c, site, a, own))
    ensures a !in now && Released(before, now + {a}, Mine(w, c, site, a, own))
  {
    assert IsSplit(w, c, site, a, own, kids, start, a);
    forall i: nat ensures i in now + {a} <==> i in before || Mine(w, c, site, a, own)(i) {
      assert IsSplit(w, c, site, a, own, kids, start, i);
    }
  }

  lemma FieldsUnfreed(
    w: Work, c: Child, site: Site, a: Address, own: Address, kids: Group -> seq<Child>, start: Group -> Address,
    before: set<Address>)
    requires AllSplit(w, c, site, a, own, kids, start)
    requires Unfreed(before, Mine(w, c, site, a, own))
    ensures Unfreed(before, MineInFields(w, kids, start, own, FREE_ORDER))
  {
    forall i: nat | MineInFields(w, kids, start, own, FREE_ORDER)(i) ensures i !in before {
      assert IsSplit(w, c, site, a, own, kids, start, i);
    }
  }

  /** The internal children of the node at `a`, field by field. */
  method FreeFields(
    z: Compiler, m: Memory, ghost w: Work, ghost c: Child, ghost inner: Site, a: Address, ghost hi: nat,
    ghost own: Address,
    ghost kids: Group -> seq<Child>, ghost start: Group -> Address)
    requires IsWork(w, z.lib) && a < |z.nodes| && own <= a && IsParted(w, c, a, own, kids, start)
    requires Divides(w, z.nodes, z.nodes[a].links, inner, a + 1, hi, Height(c.source), kids, start)
    requires Unfreed(m.freed, MineInFields(w, kids, start, own, FREE_ORDER))
    modifies m
    ensures Released(old(m.freed), m.freed, MineInFields(w, kids, start, own, FREE_ORDER))
    decreases Height(c.source), 1
  {
    ghost var before := m.freed;
    for k := 0 to |FREE_ORDER|
      invariant Released(before, m.freed, MineInFields(w, kids, start, own, FREE_ORDER[..k]))
    {
      FreeField(z, m, w, c, inner, a, hi, own, kids, start, before, FREE_ORDER, k);
    }
    assert FREE_ORDER[..|FREE_ORDER|] == FREE_ORDER;
  }

  /** One field more. */
  method FreeField(
    z: Compiler, m: Memory, ghost w: Work, ghost c: Child, ghost inner: Site, a: Address, ghost hi: nat,
    ghost own: Address,
    ghost kids: Group -> seq<Child>, ghost start: Group -> Address, ghost before: set<Address>, gs: seq<Group>, k: nat)
    requires IsWork(w, z.lib) && a < |z.nodes| && own <= a && IsParted(w, c, a, own, kids, start)
    requires gs == FREE_ORDER && k < |gs|
    requires Divides(w, z.nodes, z.nodes[a].links, inner, a + 1, hi, Height(c.source), kids, start)
    requires Unfreed(before, MineInFields(w, kids, start, own, gs))
    requires Released(before, m.freed, MineInFields(w, kids, start, own, gs[..k]))
    modifies m
    ensures Released(before, m.freed, MineInFields(w, kids, start, own, gs[..k + 1]))
    decreases Height(c.source), 0, 1
  {
    var g := gs[k];
    ghost var now := m.freed;
    FreesEach(g, k);
    assert g in gs;
    assert FieldHolds(w, z.nodes, z.nodes[a].links, inner, a + 1, hi, Height(c.source), kids, start, g);
    FieldUnfreed(w, c, a, own, kids, start, gs, k, before, now);
    FreeList(z, m, w, kids(g), inner, start(g), Height(c.source), own, FieldOf(z.nodes[a].links, g));
    FieldReleased(w, kids, start, own, gs[..k], g, before, now, m.freed);
    assert gs[..k + 1] == gs[..k] + [g];
  }

  lemma FieldUnfreed(
    w: Work, c: Child, a: Address, own: Address, kids: Group -> seq<Child>, start: Group -> Address,
    gs: seq<Group>, k: nat, before: set<Address>, now: set<Address>)
    requires IsParted(w, c, a, own, kids, start) && k < |gs| && gs[k] !in gs[..k]
    requires Unfreed(before, MineInFields(w, kids, start, own, gs))
    requires Released(before, now, MineInFields(w, kids, start, own, gs[..k]))
    ensures Unfreed(now, MineAmong(w, kids(gs[k]), start(gs[k]), own))
  {
    var g := gs[k];
    assert g in gs;
    forall i: nat | MineAmong(w, kids(g), start(g), own)(i) ensures i !in now {
      assert In(w, kids, start, g, i);
      assert MineInFields(w, kids, start, own, gs)(i);
      forall h | h in gs[..k] ensures !In(w, kids, start, h, i) { assert Apart(w, kids, start, g, h, i); }
    }
  }

  lemma FieldReleased(
    w: Work, kids: Group -> seq<Child>, start: Group -> Address, own: Address, gs: seq<Group>, g: Group,
    before: set<Address>, now: set<Address>, later: set<Address>)
    requires Released(before, now, MineInFields(w, kids, start, own, gs))
    requires Released(now, later, MineAmong(w, kids(g), start(g), own))
    ensures Released(before, later, MineInFields(w, kids, start, own, gs + [g]))
  {
    forall i: nat ensures i in later <==> i in before || MineInFields(w, kids, start, own, gs + [g])(i) {
      if MineAmong(w, kids(g), start(g), own)(i) {
        assert g in gs + [g] && In(w, kids, start, g, i);
      }
      if MineInFields(w, kids, start, own, gs)(i) {
        var h :| h in gs && In(w, kids, start, h, i) && MineAmong(w, kids(h), start(h), own)(i);
        assert h in gs + [g];
      }
    }
  }

  /** A list of internal children. */
  method FreeList(
    z: Compiler, m: Memory, ghost w: Work, ghost kids: seq<Child>, ghost inner: Site, ghost base: Address,
    ghost bound: nat,
    ghost own: Address, children: seq<Address>)
    requires IsWork(w, z.lib) && AllLower(kids, bound) && AllExposed(kids, false) && own <= base
    requires children == w.form.lie(base, kids) && Matches(z.nodes, base, w.arena(kids, inner, base))
    requires Unfreed(m.freed, MineAmong(w, kids, base, own))
    modifies m
    ensures Released(old(m.freed), m.freed, MineAmong(w, kids, base, own))
    decreases bound, 0, 0
  {
    ghost var before := m.freed;
    LieLength(w, z.lib, kids, inner, base);
    assert Empty(w, inner, base, map[]);
    for j := 0 to |children|
      invariant Released(before, m.freed, MineBefore(w, kids, base, own, j))
    {
      ghost var now, k := m.freed, kids[j];
      ghost var at := base + w.form.size(kids[..j]);
      KidMatches(w, z.lib, z.nodes, kids, inner, base, j);
      forall i: nat ensures AddsKid(w, kids, inner, base, own, j, at, i) {
        KidMine(w, z.lib, kids, inner, base, own, j, at, i);
      }
      KidUnfreed(w, kids, inner, base, own, j, at, before, now);
      Free(z, m, w, k, KidSite(inner, k), children[j], own);
      KidReleased(w, kids, inner, base, own, j, at, before, now, m.freed);
    }
    assert kids[..|kids|] == kids;
  }

  /** The nodes of the first `j` children that `own` frees. */
  ghost function MineBefore(w: Work, kids: seq<Child>, base: Address, own: Address, j: nat): nat -> bool {
    (i: nat) => j <= |kids| && i < base + w.form.size(kids[..j]) && MineAmong(w, kids, base, own)(i)
  }

  /** What one more child adds. */
  ghost predicate AddsKid(
    w: Work, kids: seq<Child>, inner: Site, base: Address, own: Address, j: nat, at: Address, i: nat)
    requires j < |kids|
  {
    var mine := Mine(w, kids[j], KidSite(inner, kids[j]), at, own)(i);
    && (MineBefore(w, kids, base, own, j + 1)(i) <==> MineBefore(w, kids, base, own, j)(i) || mine)
    && (mine ==> MineAmong(w, kids, base, own)(i) && !MineBefore(w, kids, base, own, j)(i))
  }

  lemma KidMine(
    w: Work, lib: Library, kids: seq<Child>, inner: Site, base: Address, own: Address, j: nat, at: Address, i: nat)
    requires IsWork(w, lib) && j < |kids| && !kids[j].exposed && at == base + w.form.size(kids[..j])
    ensures AddsKid(w, kids, inner, base, own, j, at, i)
  {
    var k := kids[j];
    KidRegion(w, lib, kids, inner, base, j);
    NodeCount(w, lib, kids, inner, base);
    if at <= i < at + w.form.size([k]) {
      OwnerOfKid(w, lib, kids, inner, base, own, j, at, i);
      assert OwnerAmong(w, kids, base, own, i) == OwnerOf(w, k, at, own, i);
      assert MineAmong(w, kids, base, own)(i) <==> OwnerOf(w, k, at, own, i) == own;
    }
  }

  lemma KidReleased(
    w: Work, kids: seq<Child>, inner: Site, base: Address, own: Address, j: nat, at: Address,
    before: set<Address>, now: set<Address>, later: set<Address>)
    requires j < |kids| && Released(before, now, MineBefore(w, kids, base, own, j))
    requires forall i: nat :: AddsKid(w, kids, inner, base, own, j, at, i)
    requires Released(now, later, Mine(w, kids[j], KidSite(inner, kids[j]), at, own))
    ensures Released(before, later, MineBefore(w, kids, base, own, j + 1))
  {
    forall i: nat ensures i in later <==> i in before || MineBefore(w, kids, base, own, j + 1)(i) {
      assert AddsKid(w, kids, inner, base, own, j, at, i);
    }
  }

  lemma KidUnfreed(
    w: Work, kids: seq<Child>, inner: Site, base: Address, own: Address, j: nat, at: Address,
    before: set<Address>, now: set<Address>)
    requires j < |kids| && Released(before, now, MineBefore(w, kids, base, own, j))
    requires forall i: nat :: AddsKid(w, kids, inner, base, own, j, at, i)
    requires Unfreed(before, MineAmong(w, kids, base, own))
    ensures Unfreed(now, Mine(w, kids[j], KidSite(inner, kids[j]), at, own))
  {
    forall i: nat | Mine(w, kids[j], KidSite(inner, kids[j]), at, own)(i) ensures i !in now {
      assert AddsKid(w, kids, inner, base, own, j, at, i);
    }
  }

  // ---------------------------------------------------------------------------------------
  // The regions of the exposed nodes
  // ---------------------------------------------------------------------------------------

  /** The j-th child of a schema at `a` lies at `at`. */
  ghost predicate IsKid(
    w: Work, lib: Library, c: Child, site: Site, a: Address, j: nat, k: Child, there: Site, at: Address)
  {
    var kids := Kids(c.source);
    && j < |kids| && k == kids[j] && at == a + 1 + w.form.size(kids[..j])
    && there == KidSite(InnerSite(lib, c.source, site), k)
    && Part(w.one(c, site, a), a, w.one(k, there, at), at) && |w.one(k, there, at)| == w.form.size([k])
    && Height(k.source) < Height(c.source) && a < at
  }

  lemma JthKid(
    w: Work, lib: Library, c: Child, site: Site, a: Address, j: nat)
    returns (k: Child, there: Site, at: Address)
    requires IsWork(w, lib) && j < |Kids(c.source)|
    ensures IsKid(w, lib, c, site, a, j, k, there, at)
  {
    var kids, inner := Kids(c.source), InnerSite(lib, c.source, site);
    k, there, at := kids[j], KidSite(inner, kids[j]), a + 1 + w.form.size(kids[..j]);
    KidPart(w, lib, kids, inner, a + 1, j, k, there, at);
    BelowIsKids(w, lib, c.source);
    NodeFirst(w, lib, c, site, a);
    PartOfPart(w.one(c, site, a), a, w.arena(kids, inner, a + 1), a + 1, w.one(k, there, at), at);
    KidsLower(c.source);
  }

  lemma KidPart(
    w: Work, lib: Library, kids: seq<Child>, inner: Site, base: Address, j: nat, k: Child, there: Site, at: Address)
    requires IsWork(w, lib) && j < |kids| && k == kids[j] && there == KidSite(inner, k)
    requires at == base + w.form.size(kids[..j])
    ensures Part(w.arena(kids, inner, base), base, w.one(k, there, at), at)
    ensures |w.one(k, there, at)| == w.form.size([k])
  {
    KidRegion(w, lib, kids, inner, base, j);
  }

  /** The child whose nodes hold node `i`. */
  lemma KidWith(w: Work, lib: Library, c: Child, site: Site, a: Address, i: Address)
    returns (j: nat, k: Child, there: Site, at: Address)
    requires IsWork(w, lib) && a < i < a + |w.one(c, site, a)|
    ensures IsKid(w, lib, c, site, a, j, k, there, at) && at <= i < at + w.form.size([k])
  {
    var kids := Kids(c.source);
    BelowIsKids(w, lib, c.source);
    NodeFirst(w, lib, c, site, a);
    assert kids[..|kids|] == kids;
    j := KidAround(w, lib, kids, InnerSite(lib, c.source, site), a + 1, |kids|, i);
    k, there, at := JthKid(w, lib, c, site, a, j);
  }

  /** The owner of a node of a child, seen from the parent. */
  lemma OwnerInKid(
    w: Work, lib: Library, c: Child, site: Site, a: Address, own: Address, j: nat, k: Child, there: Site,
    at: Address, i: Address)
    requires IsWork(w, lib) && IsKid(w, lib, c, site, a, j, k, there, at) && at <= i < at + w.form.size([k])
    ensures OwnerOf(w, c, a, own, i) == OwnerOf(w, k, at, if k.exposed then at else own, i)
  {
    OwnerOfKid(w, lib, Kids(c.source), InnerSite(lib, c.source, site), a + 1, own, j, at, i);
  }

  /** Only nodes of a child are owned from within it. */
  lemma OwnedWithin(
    w: Work, lib: Library, c: Child, site: Site, a: Address, own: Address, j: nat, k: Child, there: Site, at: Address,
    e: Address, i: Address)
    requires IsWork(w, lib) && IsKid(w, lib, c, site, a, j, k, there, at) && at <= e < at + w.form.size([k])
    requires own <= a <= i < a + |w.one(c, site, a)| && OwnerOf(w, c, a, own, i) == e
    ensures at <= i < at + w.form.size([k])
  {
    if i != a {
      var j', k', there', at' := KidWith(w, lib, c, site, a, i);
      OwnerInKid(w, lib, c, site, a, own, j', k', there', at', i);
      OwnerNear(w, lib, k', at', if k'.exposed then at' else own, i);
      var kids, inner := Kids(c.source), InnerSite(lib, c.source, site);
      KidsInOrder(w, lib, kids, inner, a + 1, j, j');
      KidsInOrder(w, lib, kids, inner, a + 1, j', j);
    }
  }

  lemma RootFlag(w: Work, lib: Library, k: Child, inner: Site, at: Address)
    requires IsWork(w, lib)
    ensures |w.one(k, KidSite(inner, k), at)| > 0 && w.one(k, KidSite(inner, k), at)[0].exposed == k.exposed
  {
    NodeFirst(w, lib, k, KidSite(inner, k), at);
  }

  /** Node `i` is owned from outside, or by an exposed node before it. */
  ghost predicate IsFlagged(nodes: seq<Compiled>, a: Address, own: Address, o: Address, i: Address) {
    o == own || (a <= o <= i < a + |nodes| && nodes[o - a].exposed)
  }

  lemma FlaggedUp(
    x: seq<Compiled>, a: Address, own: Address, y: seq<Compiled>, at: Address, exposed: bool, o: Address, i: Address)
    requires Part(x, a, y, at) && at <= i < at + |y| && y[0].exposed == exposed
    requires IsFlagged(y, at, if exposed then at else own, o, i)
    ensures IsFlagged(x, a, own, o, i)
  {
    if at <= o <= i { PartAt(x, a, y, at, o); }
  }

  /** Whatever owns a node from within a tree is exposed. */
  lemma {:induction false} OwnerExposed(
    w: Work, lib: Library, c: Child, site: Site, a: Address, own: Address, i: Address)
    requires IsWork(w, lib) && a <= i < a + |w.one(c, site, a)|
    ensures IsFlagged(w.one(c, site, a), a, own, OwnerOf(w, c, a, own, i), i)
    decreases Height(c.source)
  {
    if i != a {
      var j, k, there, at := KidWith(w, lib, c, site, a, i);
      OwnerInKid(w, lib, c, site, a, own, j, k, there, at, i);
      OwnerExposed(w, lib, k, there, at, if k.exposed then at else own, i);
      RootFlag(w, lib, k, InnerSite(lib, c.source, site), at);
      FlaggedUp(w.one(c, site, a), a, own, w.one(k, there, at), at, k.exposed, OwnerOf(w, c, a, own, i), i);
    }
  }

  /** A node is owned by `e` exactly where freeing the tree at `e` frees it. */
  ghost predicate OwnsRegion(
    w: Work, c: Child, site: Site, a: Address, own: Address, k: Child, there: Site, e: Address, i: nat)
  {
    a <= i < a + |w.one(c, site, a)| ==> (OwnerOf(w, c, a, own, i) == e <==> Mine(w, k, there, e, e)(i))
  }

  /** The tree of an exposed node. */
  lemma {:induction false} ExposedTree(
    w: Work, lib: Library, c: Child, site: Site, a: Address, own: Address, e: Address)
    returns (k: Child, there: Site)
    requires IsWork(w, lib) && own <= a < e < a + |w.one(c, site, a)| && w.one(c, site, a)[e - a].exposed
    ensures Part(w.one(c, site, a), a, w.one(k, there, e), e)
    ensures forall i: nat :: OwnsRegion(w, c, site, a, own, k, there, e, i)
    decreases Height(c.source)
  {
    var j, near, below, at := KidWith(w, lib, c, site, a, e);
    var own' := if near.exposed then at else own;
    PartAt(w.one(c, site, a), a, w.one(near, below, at), at, e);
    if e == at {
      k, there := near, below;
      RootFlag(w, lib, near, InnerSite(lib, c.source, site), at);
      forall i: nat ensures OwnsRegion(w, near, below, at, own', k, there, e, i) {}
    } else {
      k, there := ExposedTree(w, lib, near, below, at, own', e);
      PartOfPart(w.one(c, site, a), a, w.one(near, below, at), at, w.one(k, there, e), e);
    }
    forall i: nat ensures OwnsRegion(w, c, site, a, own, k, there, e, i) {
      RegionUp(w, lib, c, site, a, own, j, near, below, at, own', k, there, e, i);
    }
  }

  /** A region within a child is a region within the parent. */
  lemma RegionUp(
    w: Work, lib: Library, c: Child, site: Site, a: Address, own: Address, j: nat, near: Child, below: Site,
    at: Address,
    own': Address, k: Child, there: Site, e: Address, i: nat)
    requires IsWork(w, lib) && IsKid(w, lib, c, site, a, j, near, below, at)
    requires own <= a && at <= e < at + w.form.size([near]) && own' == if near.exposed then at else own
    requires Part(w.one(near, below, at), at, w.one(k, there, e), e)
    requires OwnsRegion(w, near, below, at, own', k, there, e, i)
    ensures OwnsRegion(w, c, site, a, own, k, there, e, i)
  {
    if a <= i < a + |w.one(c, site, a)| {
      if at <= i < at + w.form.size([near]) {
        OwnerInKid(w, lib, c, site, a, own, j, near, below, at, i);
      } else if OwnerOf(w, c, a, own, i) == e {
        OwnedWithin(w, lib, c, site, a, own, j, near, below, at, e, i);
      }
    }
  }

  // ---------------------------------------------------------------------------------------
  // Sweeping
  // ---------------------------------------------------------------------------------------

  /** `rb_free_compiled_schema`: what Ruby calls with the node of a wrapper. */
  method RbFree(z: Compiler, m: Memory, ghost w: Work, ghost c: Child, ghost site: Site, a: Address)
    requires IsWork(w, z.lib) && Matches(z.nodes, a, w.one(c, site, a)) && a < |z.nodes|
    requires z.nodes[a].exposed ==> Unfreed(m.freed, Mine(w, c, site, a, a))
    modifies m
    ensures if z.nodes[a].exposed then Released(old(m.freed), m.freed, Mine(w, c, site, a, a))
            else m.freed == old(m.freed)
  {
    if !z.nodes[a].exposed { return; }
    Free(z, m, w, c, site, a, a);
  }

  /** Every exposed node has one wrapper. */
  ghost predicate AreWrappers(nodes: seq<Compiled>, order: seq<Address>) {
    && (forall j, k :: 0 <= j < k < |order| ==> order[j] != order[k])
    && (forall a: Address :: a in order <==> a < |nodes| && nodes[a].exposed)
  }

  ghost function Owner(w: Work, schema: Data, i: nat): Address { OwnerOf(w, WholeSchema(schema), 0, 0, i) }

  /** The nodes whose owners are swept. */
  ghost predicate Swept(w: Work, schema: Data, freed: set<Address>, done: seq<Address>, i: nat) {
    i in freed <==> i < |NodesOf(w, schema)| && Owner(w, schema, i) in done
  }

  /** The tree of the node at `e`, and what its wrapper frees. */
  ghost predicate Frees(w: Work, schema: Data, k: Child, there: Site, e: Address, i: nat) {
    Mine(w, k, there, e, e)(i) <==> i < |NodesOf(w, schema)| && Owner(w, schema, i) == e
  }

  lemma WrapperTree(
    w: Work, lib: Library, schema: Data, nodes: seq<Compiled>, e: Address)
    returns (k: Child, there: Site)
    requires IsWork(w, lib) && Matches(nodes, 0, NodesOf(w, schema)) && |nodes| == |NodesOf(w, schema)|
    requires e < |nodes| && nodes[e].exposed
    ensures Matches(nodes, e, w.one(k, there, e))
    ensures forall i: nat :: Frees(w, schema, k, there, e, i)
  {
    var all := NodesOf(w, schema);
    assert Plain(nodes[e]) == all[e];
    if e == 0 {
      k, there := WholeSchema(schema), TOP;
      forall i: nat ensures Frees(w, schema, k, there, e, i) {}
    } else {
      k, there := ExposedTree(w, lib, WholeSchema(schema), TOP, 0, 0, e);
      PartMatches(nodes, all, w.one(k, there, e), e);
      forall i: nat ensures Frees(w, schema, k, there, e, i) {
        assert OwnsRegion(w, WholeSchema(schema), TOP, 0, 0, k, there, e, i);
      }
    }
  }

  /**
   Sweeping the wrappers of a compiled schema in any order frees every node, none of them twice, and
   nothing else.
   */
  method Sweep(z: Compiler, m: Memory, ghost w: Work, ghost schema: Data, order: seq<Address>)
    requires IsWork(w, z.lib) && Matches(z.nodes, 0, NodesOf(w, schema)) && |z.nodes| == |NodesOf(w, schema)|
    requires AreWrappers(z.nodes, order) && m.freed == {}
    modifies m
    ensures forall i: nat :: i in m.freed <==> i < |z.nodes|
  {
    for j := 0 to |order|
      invariant forall i: nat :: Swept(w, schema, m.freed, order[..j], i)
    {
      SweepNext(z, m, w, schema, order, j, order[..j + 1]);
    }
    forall i: nat ensures i in m.freed <==> i < |z.nodes| {
      assert Swept(w, schema, m.freed, order[..|order|], i);
      if i < |z.nodes| { OwnerWrapped(w, z.lib, schema, z.nodes, order, i); }
    }
  }

  lemma OwnerWrapped(w: Work, lib: Library, schema: Data, nodes: seq<Compiled>, order: seq<Address>, i: nat)
    requires IsWork(w, lib) && Matches(nodes, 0, NodesOf(w, schema)) && |nodes| == |NodesOf(w, schema)|
    requires AreWrappers(nodes, order) && i < |nodes|
    ensures Owner(w, schema, i) in order
  {
    var o := Owner(w, schema, i);
    OwnerExposed(w, lib, WholeSchema(schema), TOP, 0, 0, i);
    NodeFirst(w, lib, WholeSchema(schema), TOP, 0);
    assert Plain(nodes[o]) == NodesOf(w, schema)[o];
  }

  method SweepNext(
    z: Compiler, m: Memory, ghost w: Work, ghost schema: Data, order: seq<Address>, j: nat, ghost done: seq<Address>)
    requires IsWork(w, z.lib) && Matches(z.nodes, 0, NodesOf(w, schema)) && |z.nodes| == |NodesOf(w, schema)|
    requires AreWrappers(z.nodes, order) && j < |order| && done == order[..j + 1]
    requires forall i: nat :: Swept(w, schema, m.freed, order[..j], i)
    modifies m
    ensures forall i: nat :: Swept(w, schema, m.freed, done, i)
  {
    var e := order[j];
    ghost var before := m.freed;
    assert e in order;
    assert e !in order[..j];
    ghost var k, there := WrapperTree(w, z.lib, schema, z.nodes, e);
    forall i: nat | Mine(w, k, there, e, e)(i) ensures i !in before {
      assert Frees(w, schema, k, there, e, i) && Swept(w, schema, before, order[..j], i);
    }
    RbFree(z, m, w, k, there, e);
    assert done == order[..j] + [e];
    forall i: nat ensures Swept(w, schema, m.freed, done, i) {
      assert Frees(w, schema, k, there, e, i) && Swept(w, schema, before, order[..j], i);
    }
  }
}
