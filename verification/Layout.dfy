/**
 The layout of what is compiled: nodes in the order of their creation, one whole subtree after the
 other. A plan says what a single schema contributes.
 */
module Layout {
  import opened Values
  import opened Bytes
  import opened Schema
  import opened SchemaTree
  import opened Slashes

  /** `current_base` and `current_pointer`: the nearest `$id` and the way from it. */
  datatype Scope = Scope(base: Option<string>, pointer: Option<string>)

  /** Where a schema is compiled. */
  datatype Site = Site(path: string, exposed: bool, scope: Scope)

  type Index = map<string, Address>

  /**
   What compiling one schema does: the scope inside it, its node, what it registers, and whether it
   and the key it stands under raise nothing.
   */
  datatype Plan<!T> = Plan(
    inner: (Data, Site) -> Site,
    root: (Data, Site, Address) -> T,
    register: (Data, Site, Address, Index) -> Index,
    sound: Data -> bool,
    fits: Child -> bool)

  /** `compile_context_descend`. */
  function Descend(scope: Scope, tokens: seq<string>): Scope {
    if scope.base.None? then scope
    else scope.(pointer := Some((if scope.pointer.Some? then scope.pointer.value else "") + PrintSlashed(tokens)))
  }

  function KidSite(inner: Site, c: Child): Site {
    Site(inner.path + PrintSlashed(c.tokens), c.exposed,
         if c.descends then Descend(inner.scope, c.tokens) else inner.scope)
  }

  // ---------------------------------------------------------------------------------------
  // The tree of subschemas
  // ---------------------------------------------------------------------------------------

  datatype Tree = Tree(child: Child, kids: Forest)

  /** Trees in the order of their creation. */
  datatype Forest = Nil | Snoc(init: Forest, last: Tree)

  function KidsHeight(kids: seq<Child>): (h: nat)
    ensures forall c :: c in kids ==> Height(c.source) < h
  {
    if kids == [] then 0
    else
      var before := KidsHeight(kids[..|kids| - 1]);
      var last := 1 + Height(kids[|kids| - 1].source);
      assert forall c :: c in kids ==> c in kids[..|kids| - 1] || c == kids[|kids| - 1];
      if before > last then before else last
  }

  lemma {:induction false} KidsHeightBelow(kids: seq<Child>, bound: nat)
    requires AllLower(kids, bound)
    ensures KidsHeight(kids) <= bound
    decreases |kids|
  {
    if kids != [] { KidsHeightBelow(kids[..|kids| - 1], bound); }
  }

  lemma KidsBelow(source: Data)
    ensures KidsHeight(Kids(source)) <= Height(source)
  {
    KidsLower(source);
    KidsHeightBelow(Kids(source), Height(source));
  }

  /** A subschema with all the subschemas inside it. */
  function TreeOf(c: Child): (t: Tree)
    ensures t.child == c
    decreases 1 + Height(c.source), 0
  {
    KidsBelow(c.source);
    Tree(c, ForestOf(Kids(c.source)))
  }

  function ForestOf(kids: seq<Child>): Forest
    decreases KidsHeight(kids), 1 + |kids|
  {
    if kids == [] then Nil else Snoc(ForestOf(kids[..|kids| - 1]), TreeOf(kids[|kids| - 1]))
  }

  /** Trees after trees. */
  function Plus(x: Forest, y: Forest): Forest {
    match y
    case Nil => x
    case Snoc(init, t) => Snoc(Plus(x, init), t)
  }

  lemma {:induction false} ForestAdded(x: seq<Child>, y: seq<Child>)
    ensures ForestOf(x + y) == Plus(ForestOf(x), ForestOf(y))
    decreases |y|
  {
    if y == [] {
      assert x + y == x;
    } else {
      assert (x + y)[..|x + y| - 1] == x + y[..|y| - 1];
      ForestAdded(x, y[..|y| - 1]);
    }
  }

  lemma LoneTree(c: Child)
    ensures ForestOf([c]) == Snoc(Nil, TreeOf(c))
  {
    assert [c][..0] == [];
  }

  // ---------------------------------------------------------------------------------------
  // Sizes and addresses
  // ---------------------------------------------------------------------------------------

  /** The number of nodes of a tree. */
  function Size(t: Tree): (n: nat)
    ensures n > 0
  {
    1 + ForestSize(t.kids)
  }

  function ForestSize(f: Forest): nat {
    match f
    case Nil => 0
    case Snoc(init, t) => ForestSize(init) + Size(t)
  }

  /** Where the roots of some trees are created, one whole tree after the other. */
  function Addresses(f: Forest, base: Address): seq<Address> {
    match f
    case Nil => []
    case Snoc(init, t) => Addresses(init, base) + [base + ForestSize(init)]
  }

  /** All nodes of a tree, from address `a` on. */
  function Arena<T>(p: Plan<T>, t: Tree, site: Site, a: Address): seq<T>
    decreases t
  {
    [p.root(t.child.source, site, a)] + ForestArena(p, t.kids, p.inner(t.child.source, site), a + 1)
  }

  function ForestArena<T>(p: Plan<T>, f: Forest, inner: Site, base: Address): seq<T>
    decreases f
  {
    match f
    case Nil => []
    case Snoc(init, t) =>
      ForestArena(p, init, inner, base) + Arena(p, t, KidSite(inner, t.child), base + ForestSize(init))
  }

  /** What the index holds after a tree is compiled at `a`. */
  function IndexOf<T>(p: Plan<T>, t: Tree, site: Site, a: Address, m: Index): Index
    decreases t
  {
    ForestIndex(p, t.kids, p.inner(t.child.source, site), a + 1, p.register(t.child.source, site, a, m))
  }

  function ForestIndex<T>(p: Plan<T>, f: Forest, inner: Site, base: Address, m: Index): Index
    decreases f
  {
    match f
    case Nil => m
    case Snoc(init, t) =>
      IndexOf(p, t, KidSite(inner, t.child), base + ForestSize(init), ForestIndex(p, init, inner, base, m))
  }

  /** No schema of the tree raises. */
  predicate Sound<T>(p: Plan<T>, t: Tree)
    decreases t
  {
    p.sound(t.child.source) && AllSound(p, t.kids)
  }

  predicate AllSound<T>(p: Plan<T>, f: Forest)
    decreases f
  {
    match f
    case Nil => true
    case Snoc(init, t) => AllSound(p, init) && Sound(p, t) && p.fits(t.child)
  }

  // ---------------------------------------------------------------------------------------
  // Growth
  // ---------------------------------------------------------------------------------------

  lemma {:induction false} ArenaLength<T>(p: Plan<T>, t: Tree, site: Site, a: Address)
    ensures |Arena(p, t, site, a)| == Size(t)
    decreases t
  {
    ForestLength(p, t.kids, p.inner(t.child.source, site), a + 1);
  }

  lemma {:induction false} ForestLength<T>(p: Plan<T>, f: Forest, inner: Site, base: Address)
    ensures |ForestArena(p, f, inner, base)| == ForestSize(f)
    decreases f
  {
    if f.Snoc? {
      ForestLength(p, f.init, inner, base);
      ArenaLength(p, f.last, KidSite(inner, f.last.child), base + ForestSize(f.init));
    }
  }

  lemma {:induction false} MoreRoom(x: Forest, y: Forest, base: Address)
    ensures ForestSize(Plus(x, y)) == ForestSize(x) + ForestSize(y)
    ensures Addresses(Plus(x, y), base) == Addresses(x, base) + Addresses(y, base + ForestSize(x))
  {
    if y.Snoc? { MoreRoom(x, y.init, base); }
  }

  lemma {:induction false} MoreArena<T>(p: Plan<T>, x: Forest, y: Forest, inner: Site, base: Address)
    ensures ForestArena(p, Plus(x, y), inner, base) ==
            ForestArena(p, x, inner, base) + ForestArena(p, y, inner, base + ForestSize(x))
    decreases y
  {
    if y.Snoc? {
      MoreRoom(x, y.init, base);
      MoreArena(p, x, y.init, inner, base);
    }
  }

  lemma {:induction false} MoreIndex<T>(p: Plan<T>, x: Forest, y: Forest, inner: Site, base: Address, m: Index)
    ensures ForestIndex(p, Plus(x, y), inner, base, m) ==
            ForestIndex(p, y, inner, base + ForestSize(x), ForestIndex(p, x, inner, base, m))
    decreases y
  {
    if y.Snoc? {
      MoreRoom(x, y.init, base);
      MoreIndex(p, x, y.init, inner, base, m);
    }
  }

  lemma {:induction false} MoreSound<T>(p: Plan<T>, x: Forest, y: Forest)
    ensures AllSound(p, Plus(x, y)) <==> AllSound(p, x) && AllSound(p, y)
    decreases y
  {
    if y.Snoc? { MoreSound(p, x, y.init); }
  }

  // ---------------------------------------------------------------------------------------
  // Growth by subschemas
  // ---------------------------------------------------------------------------------------

  lemma RoomOfMore(x: seq<Child>, y: seq<Child>, base: Address)
    ensures ForestSize(ForestOf(x + y)) == ForestSize(ForestOf(x)) + ForestSize(ForestOf(y))
    ensures Addresses(ForestOf(x + y), base) ==
            Addresses(ForestOf(x), base) + Addresses(ForestOf(y), base + ForestSize(ForestOf(x)))
  {
    ForestAdded(x, y);
    MoreRoom(ForestOf(x), ForestOf(y), base);
  }

  lemma {:induction false} AddressCount(kids: seq<Child>, base: Address)
    ensures |Addresses(ForestOf(kids), base)| == |kids|
    decreases |kids|
  {
    if kids != [] { AddressCount(kids[..|kids| - 1], base); }
  }

  lemma ArenaOfMore<T>(p: Plan<T>, x: seq<Child>, y: seq<Child>, inner: Site, base: Address)
    ensures ForestArena(p, ForestOf(x + y), inner, base) ==
            ForestArena(p, ForestOf(x), inner, base)
              + ForestArena(p, ForestOf(y), inner, base + ForestSize(ForestOf(x)))
  {
    ForestAdded(x, y);
    MoreArena(p, ForestOf(x), ForestOf(y), inner, base);
  }

  lemma IndexOfMore<T>(p: Plan<T>, x: seq<Child>, y: seq<Child>, inner: Site, base: Address, m: Index)
    ensures ForestIndex(p, ForestOf(x + y), inner, base, m) ==
            ForestIndex(p, ForestOf(y), inner, base + ForestSize(ForestOf(x)),
              ForestIndex(p, ForestOf(x), inner, base, m))
  {
    ForestAdded(x, y);
    MoreIndex(p, ForestOf(x), ForestOf(y), inner, base, m);
  }

  lemma SoundOfMore<T>(p: Plan<T>, x: seq<Child>, y: seq<Child>)
    ensures AllSound(p, ForestOf(x + y)) <==> AllSound(p, ForestOf(x)) && AllSound(p, ForestOf(y))
  {
    ForestAdded(x, y);
    MoreSound(p, ForestOf(x), ForestOf(y));
  }

  /** A lone child. */
  lemma LoneChild<T>(p: Plan<T>, c: Child, inner: Site, base: Address, m: Index)
    ensures var f, t, site := ForestOf([c]), TreeOf(c), KidSite(inner, c);
      && Addresses(f, base) == [base]
      && ForestArena(p, f, inner, base) == Arena(p, t, site, base)
      && ForestIndex(p, f, inner, base, m) == IndexOf(p, t, site, base, m)
      && (AllSound(p, f) <==> Sound(p, t) && p.fits(c))
  {
    LoneTree(c);
    var nothing: seq<T> := ForestArena(p, Nil, inner, base);
    assert nothing == [] && ForestSize(Nil) == 0;
  }

  lemma TreeOpens<T>(p: Plan<T>, c: Child, site: Site, a: Address, m: Index)
    ensures var f, inner := ForestOf(Kids(c.source)), p.inner(c.source, site);
      && Arena(p, TreeOf(c), site, a) == [p.root(c.source, site, a)] + ForestArena(p, f, inner, a + 1)
      && IndexOf(p, TreeOf(c), site, a, m) == ForestIndex(p, f, inner, a + 1, p.register(c.source, site, a, m))
      && (Sound(p, TreeOf(c)) <==> p.sound(c.source) && AllSound(p, f))
  {
  }

  /** Without children only the root is left. */
  lemma LeafOpens<T>(p: Plan<T>, c: Child, site: Site, a: Address, m: Index)
    requires Kids(c.source) == []
    ensures Arena(p, TreeOf(c), site, a) == [p.root(c.source, site, a)]
    ensures IndexOf(p, TreeOf(c), site, a, m) == p.register(c.source, site, a, m)
    ensures Sound(p, TreeOf(c)) <==> p.sound(c.source)
  {
    TreeOpens(p, c, site, a, m);
    assert ForestOf([]) == Nil;
  }

  /** The path of a child, as the source builds it from its parent's. */
  lemma {:induction false} StepPath(tokens: seq<string>)
    requires tokens != []
    ensures "/" + Join('/', tokens) == PrintSlashed(tokens)
    decreases |tokens|
  {
    if |tokens| == 1 {
      assert tokens[1..] == [];
    } else {
      StepPath(tokens[1..]);
    }
  }

  lemma {:induction false} StepLonger(tokens: seq<string>, last: string)
    requires tokens != []
    ensures Join('/', tokens + [last]) == Join('/', tokens) + "/" + last
    decreases |tokens|
  {
    if |tokens| == 1 {
      assert (tokens + [last])[1..] == [last];
    } else {
      assert (tokens + [last])[1..] == tokens[1..] + [last];
      StepLonger(tokens[1..], last);
    }
  }
}
