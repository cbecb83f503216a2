/**
 The index of any schema, also with `$id`s: each key leads to the last node that is registered under it.
 Where the root alone has an `$id`, a key of its base and a pointer leads to the last node whose tokens,
 single subschemas left out, spell the pointer; so a location keeps its key exactly if no later one has
 the same tokens after that omission.
 */
module BaseKeys {
  import opened Values
  import opened Bytes
  import opened Schema
  import opened SchemaTree
  import opened Slashes
  import opened Scheme
  import opened Layout
  import opened Blueprint
  import opened RefResolver
  import opened RefDecoder
  import opened Location
  import opened References

  // ---------------------------------------------------------------------------------------
  // Places
  // ---------------------------------------------------------------------------------------

  /**
   What a node is compiled from, and where: the tokens of its location, and those of them that the
   pointer of the base follows.
   */
  datatype Place = Place(source: Data, site: Site, tokens: seq<string>, kept: seq<string>)

  /** The places of a tree in the order of their compilation. */
  function Places(lib: Library, t: Tree, at: Place): seq<Place>
    decreases t
  {
    [at] + ForestPlaces(lib, t.kids, at)
  }

  /** The place of a child. */
  function PlaceOf(lib: Library, c: Child, at: Place): Place {
    Place(c.source, KidSite(InnerSite(lib, at.source, at.site), c), at.tokens + c.tokens,
          if c.descends then at.kept + c.tokens else at.kept)
  }

  function ForestPlaces(lib: Library, f: Forest, at: Place): seq<Place>
    decreases f
  {
    match f
    case Nil => []
    case Snoc(init, t) => ForestPlaces(lib, init, at) + Places(lib, t, PlaceOf(lib, t.child, at))
  }

  function Top(schema: Data): Place { Place(schema, TOP, [], []) }

  /** The places of a whole schema. */
  function PlacesOf(lib: Library, schema: Data): seq<Place> { Places(lib, TreeOf(WholeSchema(schema)), Top(schema)) }

  lemma {:induction false} PlacesCount(lib: Library, t: Tree, at: Place)
    ensures |Places(lib, t, at)| == Size(t)
    decreases t
  {
    ForestPlacesCount(lib, t.kids, at);
  }

  lemma {:induction false} ForestPlacesCount(lib: Library, f: Forest, at: Place)
    ensures |ForestPlaces(lib, f, at)| == ForestSize(f)
    decreases f
  {
    if f.Snoc? {
      ForestPlacesCount(lib, f.init, at);
      PlacesCount(lib, f.last, PlaceOf(lib, f.last.child, at));
    }
  }

  // ---------------------------------------------------------------------------------------
  // The last one wins
  // ---------------------------------------------------------------------------------------

  /** The key of the base and the pointer of a place. */
  function ScopeKey(p: Place): Option<string> {
    var scope := p.site.scope;
    if !HasKeywords(p.source) || scope.base.None? || scope.pointer.None? || scope.pointer.value == [] then None
    else Some(scope.base.value + "#" + scope.pointer.value)
  }

  /** A node is registered under its path, its ids and the key of its place. */
  predicate IsKey(lib: Library, p: Place, key: string) {
    var names := NamesOf(lib, p.source, p.site.scope);
    key == p.site.path || names.id == Some(key) || names.resolvedId == Some(key) || ScopeKey(p) == Some(key)
  }

  /** Where places stand that are registered under some key. */
  type Filter = Place -> bool

  function UnderKey(lib: Library, key: string): Filter { (p: Place) => IsKey(lib, p, key) }

  function LastOf(under: Filter, ps: seq<Place>): (i: Option<nat>)
    ensures i.Some? ==> i.value < |ps| && under(ps[i.value])
    ensures i.Some? ==> forall j :: i.value < j < |ps| ==> !under(ps[j])
    ensures i.None? ==> forall j :: 0 <= j < |ps| ==> !under(ps[j])
    decreases |ps|
  {
    if ps == [] then None
    else if under(ps[|ps| - 1]) then Some(|ps| - 1)
    else LastOf(under, ps[..|ps| - 1])
  }

  lemma {:induction false} LastOfAdded(under: Filter, x: seq<Place>, y: seq<Place>)
    ensures var i := LastOf(under, y);
      LastOf(under, x + y) == if i.Some? then Some(|x| + i.value) else LastOf(under, x)
    decreases |y|
  {
    if y == [] {
      assert x + y == x;
    } else {
      var init, last := y[..|y| - 1], y[|y| - 1];
      assert (x + y)[..|x + y| - 1] == x + init && (x + y)[|x + y| - 1] == last;
      LastOfAdded(under, x, init);
    }
  }

  /** What an index says of a key after some places are registered from `a` on. */
  predicate SaysLast(under: Filter, m: Index, m': Index, ps: seq<Place>, a: Address, key: string) {
    var i := LastOf(under, ps);
    if i.Some? then key in m' && m'[key] == a + i.value
    else (key in m' <==> key in m) && (key in m ==> m'[key] == m[key])
  }

  lemma SaysBoth(
    under: Filter, m: Index, m': Index, m'': Index, x: seq<Place>, y: seq<Place>, a: Address, b: Address, key: string)
    requires SaysLast(under, m, m', x, a, key) && SaysLast(under, m', m'', y, b, key) && b == a + |x|
    ensures SaysLast(under, m, m'', x + y, a, key)
  {
    LastOfAdded(under, x, y);
  }

  /** Registering one place. */
  ghost predicate RootSays<T>(p: Plan<T>, under: Filter, key: string, at: Place, a: Address, m: Index) {
    SaysLast(under, m, p.register(at.source, at.site, a, m), [at], a, key)
  }

  ghost predicate RootsSay<T>(p: Plan<T>, under: Filter, key: string) {
    forall at, a: Address, m :: RootSays(p, under, key, at, a, m)
  }

  lemma KeySays(lib: Library, key: string)
    ensures RootsSay(PlanOf(lib), UnderKey(lib, key), key)
  {
    forall at, a: Address, m ensures RootSays(PlanOf(lib), UnderKey(lib, key), key, at, a, m) {
      assert LastOf(UnderKey(lib, key), []) == None && [at][..0] == [];
      RegisterSays(at.site.path, NamesOf(lib, at.source, at.site.scope), at.site.scope, a, m, key);
    }
  }

  lemma RegisterSays(path: string, names: Names, scope: Scope, a: Address, m: Index, key: string)
    ensures var m' := Blueprint.Register(path, names, scope, a, m);
      if key == path || names.id == Some(key) || names.resolvedId == Some(key)
         || (scope.base.Some? && names.scopePointer.Some? && names.scopePointer.value != []
             && key == scope.base.value + "#" + names.scopePointer.value)
      then key in m' && m'[key] == a
      else (key in m' <==> key in m) && (key in m ==> m'[key] == m[key])
  {
  }

  lemma {:induction false} TreeSays<T>(
    lib: Library, p: Plan<T>, under: Filter, t: Tree, at: Place, a: Address, m: Index, key: string)
    requires at.source == t.child.source && RootsSay(p, under, key) && SameInner(lib, p)
    ensures SaysLast(under, m, IndexOf(p, t, at.site, a, m), Places(lib, t, at), a, key)
    decreases t
  {
    var inner, m' := InnerSite(lib, at.source, at.site), p.register(at.source, at.site, a, m);
    assert RootSays(p, under, key, at, a, m) && IsInner(lib, p, at.source, at.site);
    ForestSays(lib, p, under, t.kids, at, a + 1, m', key);
    SaysBoth(under, m, m', ForestIndex(p, t.kids, inner, a + 1, m'), [at], ForestPlaces(lib, t.kids, at), a, a + 1,
             key);
  }

  lemma {:induction false} ForestSays<T>(
    lib: Library, p: Plan<T>, under: Filter, f: Forest, at: Place, base: Address, m: Index, key: string)
    requires RootsSay(p, under, key) && SameInner(lib, p)
    ensures SaysLast(under, m, ForestIndex(p, f, InnerSite(lib, at.source, at.site), base, m),
                     ForestPlaces(lib, f, at), base, key)
    decreases f
  {
    if f.Snoc? {
      var inner, b := InnerSite(lib, at.source, at.site), base + ForestSize(f.init);
      var m', child := ForestIndex(p, f.init, inner, base, m), PlaceOf(lib, f.last.child, at);
      ForestSays(lib, p, under, f.init, at, base, m, key);
      ForestPlacesCount(lib, f.init, at);
      TreeSays(lib, p, under, f.last, child, b, m', key);
      SaysBoth(under, m, m', IndexOf(p, f.last, child.site, b, m'), ForestPlaces(lib, f.init, at),
               Places(lib, f.last, child), base, b, key);
    }
  }

  ghost predicate IsLast(lib: Library, ps: seq<Place>, key: string, i: nat) {
    && i < |ps| && IsKey(lib, ps[i], key)
    && forall j :: i < j < |ps| ==> !IsKey(lib, ps[j], key)
  }

  /**
   For every schema, with whatever `$id`s: a key is in the index exactly if some node is registered under
   it, and leads to the last such node.
   */
  lemma IndexIsLast(lib: Library, schema: Data, key: string)
    ensures var refs, ps := RefsOf(WorkOf(lib), schema), PlacesOf(lib, schema);
      && (key in refs <==> exists i :: 0 <= i < |ps| && IsKey(lib, ps[i], key))
      && (key in refs ==> IsLast(lib, ps, key, refs[key]))
  {
    var ps := PlacesOf(lib, schema);
    var i := LastOf(UnderKey(lib, key), ps);
    RefsAreIndex(lib, schema);
    KeySays(lib, key);
    PlanInner(lib);
    TreeSays(lib, PlanOf(lib), UnderKey(lib, key), TreeOf(WholeSchema(schema)), Top(schema), 0, map[], key);
    if i.Some? { assert IsLast(lib, ps, key, i.value); }
  }

  lemma RefsAreIndex(lib: Library, schema: Data)
    ensures RefsOf(WorkOf(lib), schema) == IndexOf(PlanOf(lib), TreeOf(WholeSchema(schema)), TOP, 0, map[])
    ensures NodesOf(WorkOf(lib), schema) == Arena(PlanOf(lib), TreeOf(WholeSchema(schema)), TOP, 0)
  {
  }

  ghost predicate IsInner<T>(lib: Library, p: Plan<T>, source: Data, site: Site) {
    p.inner(source, site) == InnerSite(lib, source, site)
  }

  ghost predicate SameInner<T>(lib: Library, p: Plan<T>) { forall source, site :: IsInner(lib, p, source, site) }

  ghost predicate AgreesAt<T>(p: Plan<T>, ps: seq<Place>, nodes: seq<T>, a: Address, i: nat) {
    i < |ps| && i < |nodes| ==> nodes[i] == p.root(ps[i].source, ps[i].site, a + i)
  }

  /** Nodes planned at some places, from `a` on. */
  ghost predicate Agree<T>(p: Plan<T>, ps: seq<Place>, nodes: seq<T>, a: Address) {
    |ps| == |nodes| && forall i: nat :: AgreesAt(p, ps, nodes, a, i)
  }

  lemma AgreeBoth<T>(p: Plan<T>, x: seq<Place>, xs: seq<T>, a: Address, y: seq<Place>, ys: seq<T>, b: Address)
    requires Agree(p, x, xs, a) && Agree(p, y, ys, b) && b == a + |x|
    ensures Agree(p, x + y, xs + ys, a)
  {
    forall i: nat ensures AgreesAt(p, x + y, xs + ys, a, i) {
      if i < |x| {
        assert AgreesAt(p, x, xs, a, i);
      } else if i < |x + y| {
        assert AgreesAt(p, y, ys, b, i - |x|);
      }
    }
  }

  lemma {:induction false} TreeNodes<T>(lib: Library, p: Plan<T>, t: Tree, at: Place, a: Address)
    requires at.source == t.child.source && SameInner(lib, p)
    ensures Agree(p, Places(lib, t, at), Arena(p, t, at.site, a), a)
    decreases t
  {
    assert IsInner(lib, p, at.source, at.site);
    var root := [p.root(at.source, at.site, a)];
    forall i: nat ensures AgreesAt(p, [at], root, a, i) {}
    ForestNodes(lib, p, t.kids, at, a + 1);
    AgreeBoth(p, [at], root, a, ForestPlaces(lib, t.kids, at),
              ForestArena(p, t.kids, InnerSite(lib, at.source, at.site), a + 1), a + 1);
  }

  lemma {:induction false} ForestNodes<T>(lib: Library, p: Plan<T>, f: Forest, at: Place, base: Address)
    requires SameInner(lib, p)
    ensures Agree(p, ForestPlaces(lib, f, at), ForestArena(p, f, InnerSite(lib, at.source, at.site), base), base)
    decreases f
  {
    if f.Snoc? {
      var inner, b := InnerSite(lib, at.source, at.site), base + ForestSize(f.init);
      var child := PlaceOf(lib, f.last.child, at);
      ForestPlacesCount(lib, f.init, at);
      ForestNodes(lib, p, f.init, at, base);
      TreeNodes(lib, p, f.last, child, b);
      AgreeBoth(p, ForestPlaces(lib, f.init, at), ForestArena(p, f.init, inner, base), base,
                Places(lib, f.last, child), Arena(p, f.last, child.site, b), b);
    } else {
      assert ForestPlaces(lib, f, at) == [];
    }
  }

  /** The places are those of the nodes. */
  lemma NodesArePlaces(lib: Library, schema: Data, i: nat)
    requires i < |PlacesOf(lib, schema)|
    ensures var p, nodes := PlacesOf(lib, schema)[i], NodesOf(WorkOf(lib), schema);
      i < |nodes| && nodes[i] == Root(FormOf(), lib, p.source, p.site, i)
  {
    var t, p := TreeOf(WholeSchema(schema)), PlanOf(lib);
    PlacesCount(lib, t, Top(schema));
    RefsAreIndex(lib, schema);
    PlanInner(lib);
    TreeNodes(lib, p, t, Top(schema), 0);
    assert AgreesAt(p, PlacesOf(lib, schema), Arena(p, t, TOP, 0), 0, i);
    PlanRoot(lib, PlacesOf(lib, schema)[i].source, PlacesOf(lib, schema)[i].site, i);
  }

  lemma PlanInner(lib: Library)
    ensures SameInner(lib, PlanOf(lib))
  {
    forall source, site ensures IsInner(lib, PlanOf(lib), source, site) {}
  }

  lemma PlanRoot(lib: Library, source: Data, site: Site, a: Address)
    ensures PlanOf(lib).root(source, site, a) == Root(FormOf(), lib, source, site, a)
  {
  }

  // ---------------------------------------------------------------------------------------
  // One base
  // ---------------------------------------------------------------------------------------

  /** No schema of a tree has an `$id`. */
  predicate Idless(t: Tree)
    decreases t
  {
    HasNoId(t.child.source) && AllIdless(t.kids)
  }

  predicate AllIdless(f: Forest)
    decreases f
  {
    match f
    case Nil => true
    case Snoc(init, t) => AllIdless(init) && Idless(t)
  }

  /** The root alone has an `$id`, which no path, all of which start with "#", is mistaken for. */
  predicate IsBase(schema: Data, base: string) {
    && HasKeywords(schema) && TextOf(schema, "$id") == Some(base) && base != [] && base[0] != '#'
    && AllIdless(TreeOf(WholeSchema(schema)).kids)
  }

  /** A place below the root: in the base, at the pointer of what is kept of its tokens. */
  predicate IsInside(p: Place, base: string) {
    && p.site.scope == Scope(Some(base), Some(PrintSlashed(p.kept)))
    && HasNoId(p.source) && p.site.path != [] && p.site.path[0] == '#'
  }

  ghost predicate AllInside(ps: seq<Place>, base: string) { forall p :: p in ps ==> IsInside(p, base) }

  lemma KidInside(lib: Library, c: Child, at: Place, inner: Site, base: string)
    requires inner == InnerSite(lib, at.source, at.site) && HasNoId(c.source)
    requires inner.scope == Scope(Some(base), Some(PrintSlashed(at.kept))) && inner.path != [] && inner.path[0] == '#'
    ensures IsInside(PlaceOf(lib, c, at), base)
  {
    PathAdded(at.kept, c.tokens);
  }

  lemma {:induction false} TreeInside(lib: Library, t: Tree, at: Place, base: string)
    requires at.source == t.child.source && IsInside(at, base) && AllIdless(t.kids)
    ensures AllInside(Places(lib, t, at), base)
    decreases t
  {
    ForestInside(lib, t.kids, at, base);
  }

  lemma {:induction false} ForestInside(lib: Library, f: Forest, at: Place, base: string)
    requires AllIdless(f)
    requires var inner := InnerSite(lib, at.source, at.site);
      && inner.scope == Scope(Some(base), Some(PrintSlashed(at.kept))) && inner.path != [] && inner.path[0] == '#'
    ensures AllInside(ForestPlaces(lib, f, at), base)
    decreases f
  {
    if f.Snoc? {
      ForestInside(lib, f.init, at, base);
      KidInside(lib, f.last.child, at, InnerSite(lib, at.source, at.site), base);
      TreeInside(lib, f.last, PlaceOf(lib, f.last.child, at), base);
    }
  }

  /** A place with keywords whose tokens, single subschemas left out, spell the pointer. */
  predicate Stands(p: Place, pointer: string) { HasKeywords(p.source) && PrintSlashed(p.kept) == pointer }

  lemma KeyIsStand(lib: Library, p: Place, base: string, pointer: string)
    requires IsInside(p, base) && base != [] && base[0] != '#' && pointer != []
    ensures IsKey(lib, p, base + "#" + pointer) <==> Stands(p, pointer)
  {
    var key := base + "#" + pointer;
    assert key[0] == base[0];
    if base + "#" + PrintSlashed(p.kept) == key {
      assert PrintSlashed(p.kept) == key[|base| + 1..] == pointer;
    }
  }

  lemma TopIsNoStand(lib: Library, schema: Data, base: string, pointer: string)
    requires IsBase(schema, base) && pointer != []
    ensures !IsKey(lib, Top(schema), base + "#" + pointer) && !Stands(Top(schema), pointer)
  {
    var key := base + "#" + pointer;
    assert key[0] == base[0] && |key| > |base|;
  }

  lemma BelowTop(lib: Library, schema: Data, base: string, i: nat)
    requires IsBase(schema, base) && 0 < i < |PlacesOf(lib, schema)|
    ensures IsInside(PlacesOf(lib, schema)[i], base)
  {
    var kids := TreeOf(WholeSchema(schema)).kids;
    ForestInside(lib, kids, Top(schema), base);
    assert PlacesOf(lib, schema)[i] == ForestPlaces(lib, kids, Top(schema))[i - 1];
  }

  lemma KeysAreStands(lib: Library, schema: Data, base: string, pointer: string, i: nat)
    requires IsBase(schema, base) && pointer != [] && i < |PlacesOf(lib, schema)|
    ensures IsKey(lib, PlacesOf(lib, schema)[i], base + "#" + pointer) <==> Stands(PlacesOf(lib, schema)[i], pointer)
  {
    if i == 0 {
      TopIsNoStand(lib, schema, base, pointer);
    } else {
      BelowTop(lib, schema, base, i);
      KeyIsStand(lib, PlacesOf(lib, schema)[i], base, pointer);
    }
  }

  /** The key of the base and a pointer leads to the last place that stands at it. */
  lemma BaseKeyIsLast(lib: Library, schema: Data, base: string, pointer: string)
    requires IsBase(schema, base) && pointer != []
    ensures var key, refs, ps := base + "#" + pointer, RefsOf(WorkOf(lib), schema), PlacesOf(lib, schema);
      && (key in refs <==> exists i :: 0 <= i < |ps| && Stands(ps[i], pointer))
      && (key in refs ==> refs[key] < |ps| && Stands(ps[refs[key]], pointer)
                          && forall j :: refs[key] < j < |ps| ==> !Stands(ps[j], pointer))
  {
    var key, ps := base + "#" + pointer, PlacesOf(lib, schema);
    IndexIsLast(lib, schema, key);
    forall i: nat | i < |ps| ensures IsKey(lib, ps[i], key) <==> Stands(ps[i], pointer) {
      KeysAreStands(lib, schema, base, pointer, i);
    }
  }

  /**
   So a place with keywords keeps its key exactly if no later place with keywords has the same tokens
   once single subschemas are left out.
   */
  lemma KeepsKey(lib: Library, schema: Data, base: string, i: nat)
    requires IsBase(schema, base) && i < |PlacesOf(lib, schema)|
    requires HasKeywords(PlacesOf(lib, schema)[i].source) && PlacesOf(lib, schema)[i].kept != []
    ensures var refs, ps := RefsOf(WorkOf(lib), schema), PlacesOf(lib, schema);
      var key := base + "#" + PrintSlashed(ps[i].kept);
      && key in refs
      && (refs[key] == i <==>
            forall j :: i < j < |ps| && HasKeywords(ps[j].source) ==>
              PrintSlashed(ps[j].kept) != PrintSlashed(ps[i].kept))
  {
    var ps := PlacesOf(lib, schema);
    var pointer := PrintSlashed(ps[i].kept);
    BaseKeyIsLast(lib, schema, base, pointer);
    assert Stands(ps[i], pointer);
  }

  // ---------------------------------------------------------------------------------------
  // Places and locations
  // ---------------------------------------------------------------------------------------

  ghost predicate IsLocatedBy(source: Data, tokens: seq<string>, p: Place, rest: seq<string>) {
    p.tokens == tokens + rest && Locate(source, rest) == Some(p.source)
  }

  /** A place inside a schema that stands at some tokens. */
  ghost predicate IsLocated(source: Data, tokens: seq<string>, p: Place) {
    exists rest :: IsLocatedBy(source, tokens, p, rest)
  }

  lemma {:induction false} TreeLocated(lib: Library, c: Child, at: Place, p: Place)
    requires at.source == c.source && IsRuby(c.source) && p in Places(lib, TreeOf(c), at)
    ensures IsLocated(c.source, at.tokens, p)
    decreases Height(c.source), 1, 0
  {
    if p == at {
      assert IsLocatedBy(c.source, at.tokens, p, []);
    } else {
      KidsLower(c.source);
      KidsLocated(lib, Kids(c.source), at, p);
    }
  }

  lemma {:induction false} KidsLocated(lib: Library, kids: seq<Child>, at: Place, p: Place)
    requires IsRuby(at.source) && AllLower(kids, Height(at.source)) && forall k :: k in kids ==> k in Kids(at.source)
    requires p in ForestPlaces(lib, ForestOf(kids), at)
    ensures IsLocated(at.source, at.tokens, p)
    decreases Height(at.source), 0, |kids|
  {
    var init, k := kids[..|kids| - 1], kids[|kids| - 1];
    if p in ForestPlaces(lib, ForestOf(init), at) {
      KidsLocated(lib, init, at, p);
    } else {
      KidLeads(at.source, k, []);
      TreeLocated(lib, k, PlaceOf(lib, k, at), p);
      KidLocated(at.source, k, at.tokens, p);
    }
  }

  lemma KidLocated(source: Data, k: Child, tokens: seq<string>, p: Place)
    requires IsRuby(source) && k in Kids(source) && IsLocated(k.source, tokens + k.tokens, p)
    ensures IsLocated(source, tokens, p)
  {
    var rest :| IsLocatedBy(k.source, tokens + k.tokens, p, rest);
    KidLeads(source, k, rest);
    KidLocatedBy(source, k, tokens, p, rest);
  }

  lemma KidLocatedBy(source: Data, k: Child, tokens: seq<string>, p: Place, rest: seq<string>)
    requires Leads(source, k, rest) && IsLocatedBy(k.source, tokens + k.tokens, p, rest)
    ensures IsLocated(source, tokens, p)
  {
    assert tokens + k.tokens + rest == tokens + (k.tokens + rest);
    assert IsLocatedBy(source, tokens, p, k.tokens + rest);
  }

  ghost predicate IsPlaceOf(p: Place, tokens: seq<string>, d: Data) { p.tokens == tokens && p.source == d }

  lemma {:induction false} TreeHolds(lib: Library, c: Child, at: Place, rest: seq<string>) returns (p: Place)
    requires at.source == c.source && IsRuby(c.source) && Locate(c.source, rest).Some?
    ensures p in Places(lib, TreeOf(c), at) && IsPlaceOf(p, at.tokens + rest, Locate(c.source, rest).value)
    decreases Height(c.source)
  {
    if rest == [] {
      p := at;
    } else {
      var k := KidFound(c.source, rest);
      var more := rest[|k.tokens|..];
      KidsLower(c.source);
      KidLeads(c.source, k, more);
      p := TreeHolds(lib, k, PlaceOf(lib, k, at), more);
      KidPlaces(lib, Kids(c.source), k, at, p);
      Onward(at.tokens, k.tokens, rest);
    }
  }

  lemma Onward(x: seq<string>, y: seq<string>, z: seq<string>)
    requires y <= z
    ensures x + y + z[|y|..] == x + z
  {
  }

  lemma {:induction false} KidPlaces(lib: Library, kids: seq<Child>, k: Child, at: Place, p: Place)
    requires k in kids && p in Places(lib, TreeOf(k), PlaceOf(lib, k, at))
    ensures p in ForestPlaces(lib, ForestOf(kids), at)
    decreases |kids|
  {
    var init, last := kids[..|kids| - 1], kids[|kids| - 1];
    if k != last { KidPlaces(lib, init, k, at, p); }
  }

  /** The places are the locations of the schema. */
  lemma PlacesAreLocations(lib: Library, schema: Data, tokens: seq<string>)
    requires IsRuby(schema)
    ensures var ps := PlacesOf(lib, schema);
      && (forall i :: 0 <= i < |ps| ==> Locate(schema, ps[i].tokens) == Some(ps[i].source))
      && (Locate(schema, tokens).Some? <==> exists i :: 0 <= i < |ps| && ps[i].tokens == tokens)
  {
    var ps, c := PlacesOf(lib, schema), WholeSchema(schema);
    forall i | 0 <= i < |ps| ensures Locate(schema, ps[i].tokens) == Some(ps[i].source) {
      TreeLocated(lib, c, Top(schema), ps[i]);
      var rest :| IsLocatedBy(schema, [], ps[i], rest);
      assert [] + rest == rest;
    }
    if Locate(schema, tokens).Some? {
      var p := TreeHolds(lib, c, Top(schema), tokens);
      assert [] + tokens == tokens;
    }
  }

  // ---------------------------------------------------------------------------------------
  // A schema whose reference is misled
  // ---------------------------------------------------------------------------------------

  /** The subschemas of the first groups. */
  function KidsUpTo(parts: Parts, schema: Data, gs: seq<Group>, k: nat): seq<Child>
    requires k <= |gs|
  {
    GroupsKids(parts, schema, gs[..k])
  }

  lemma OneMoreGroup(parts: Parts, schema: Data, gs: seq<Group>, k: nat)
    requires k < |gs|
    ensures KidsUpTo(parts, schema, gs, k + 1) == KidsUpTo(parts, schema, gs, k) + parts(schema, gs[k])
  {
    assert gs[..k + 1][..k] == gs[..k];
  }

  ghost predicate IsEmptyAt(parts: Parts, schema: Data, gs: seq<Group>, k: nat) {
    k < |gs| ==> parts(schema, gs[k]) == []
  }

  lemma {:induction false} EmptyGroups(parts: Parts, schema: Data, gs: seq<Group>, lo: nat, hi: nat)
    requires lo <= hi <= |gs| && forall k: nat :: lo <= k < hi ==> IsEmptyAt(parts, schema, gs, k)
    ensures KidsUpTo(parts, schema, gs, hi) == KidsUpTo(parts, schema, gs, lo)
    decreases hi - lo
  {
    if lo < hi {
      EmptyGroups(parts, schema, gs, lo, hi - 1);
      OneMoreGroup(parts, schema, gs, hi - 1);
      assert IsEmptyAt(parts, schema, gs, hi - 1);
    }
  }

  lemma AllGroups(parts: Parts, schema: Data, gs: seq<Group>)
    ensures KidsUpTo(parts, schema, gs, 0) == [] && KidsUpTo(parts, schema, gs, |gs|) == GroupsKids(parts, schema, gs)
  {
    assert gs[..0] == [] && gs[..|gs|] == gs;
  }

  /** A schema with subschemas in one group, and one with subschemas in three. */
  lemma OneGroup(parts: Parts, schema: Data, gs: seq<Group>, x: Child)
    requires |gs| > 3 && parts(schema, gs[3]) == [x]
    requires forall k: nat :: k != 3 ==> IsEmptyAt(parts, schema, gs, k)
    ensures GroupsKids(parts, schema, gs) == [x]
  {
    AllGroups(parts, schema, gs);
    EmptyGroups(parts, schema, gs, 0, 3);
    OneMoreGroup(parts, schema, gs, 3);
    EmptyGroups(parts, schema, gs, 4, |gs|);
  }

  lemma ThreeGroups(parts: Parts, schema: Data, gs: seq<Group>, x: Child, y: Child, z: Child)
    requires |gs| > 6 && parts(schema, gs[3]) == [x] && parts(schema, gs[4]) == [y] && parts(schema, gs[6]) == [z]
    requires forall k: nat :: k != 3 && k != 4 && k != 6 ==> IsEmptyAt(parts, schema, gs, k)
    ensures GroupsKids(parts, schema, gs) == [x, y, z]
  {
    AllGroups(parts, schema, gs);
    EmptyGroups(parts, schema, gs, 0, 3);
    OneMoreGroup(parts, schema, gs, 3);
    OneMoreGroup(parts, schema, gs, 4);
    EmptyGroups(parts, schema, gs, 5, 6);
    OneMoreGroup(parts, schema, gs, 6);
    EmptyGroups(parts, schema, gs, 7, |gs|);
  }

  /** The key that a group is found under; loose subschemas are under unknown ones. */
  function GroupKey(g: Group): Option<string> {
    match g
    case One(kw) => Some(OneKeyword(kw))
    case Many(kw) => Some(ManyKeyword(kw))
    case Named(kw) => Some(NamedKeyword(kw))
    case Loose => None
  }

  predicate HasOnly(schema: Data, keys: set<string>) {
    schema.Object? && forall i :: 0 <= i < |schema.members| ==>
      schema.members[i].0.Name? && schema.members[i].0.name in keys
  }

  lemma NoneInGroup(schema: Data, g: Group, keys: set<string>)
    requires HasOnly(schema, keys) && keys <= KNOWN_KEYWORDS && (GroupKey(g).Some? ==> GroupKey(g).value !in keys)
    ensures GroupKids(schema, g) == []
  {
    match g {
      case One(kw) =>
      case Many(kw) =>
      case Named(kw) =>
      case Loose => NoLoose(schema.members, |schema.members|, keys);
    }
  }

  lemma {:induction false} NoLoose(members: seq<(Key, Data)>, n: nat, keys: set<string>)
    requires n <= |members| && HasOnly(Object(members), keys) && keys <= KNOWN_KEYWORDS
    ensures LooseKids(members, n) == []
    decreases n
  {
    if n > 0 {
      NoLoose(members, n - 1, keys);
      assert IsKnown(members[n - 1].0.name);
    }
  }

  /** A schema without subschemas. */
  lemma Childless(schema: Data, keys: set<string>)
    requires HasOnly(schema, keys) && keys <= {"type", "$ref"}
    ensures Kids(schema) == []
  {
    forall k: nat ensures IsEmptyAt(PartsOf(), schema, GROUPS, k) {
      if k < |GROUPS| { NoneInGroup(schema, GROUPS[k], keys); }
    }
    EmptyGroups(PartsOf(), schema, GROUPS, 0, |GROUPS|);
    AllGroups(PartsOf(), schema, GROUPS);
  }

  /** "http://a/". */
  const BASE := "http" + ":" + "//a/"

  /** "http://a/#/allOf/0". */
  const REF := BASE + "#" + ("/" + "allOf" + "/" + "0")

  function Only(key: string, value: Data): Data { Object([(Name(key), value)]) }

  const NULLS := Only("type", Text("null"))
  const TEXTS := Only("type", Text("string"))
  const REFERS := Only("$ref", Text(REF))
  const NESTED := Only("allOf", Array([TEXTS]))

  /** {"$id": BASE, "allOf": [NULLS], "anyOf": [REFERS], "not": NESTED}. */
  const MISLEADING := Object([
    (Name("$id"), Text(BASE)), (Name("allOf"), Array([NULLS])), (Name("anyOf"), Array([REFERS])),
    (Name("not"), NESTED)])

  lemma OnlyLookup(key: string, value: Data, name: string)
    ensures Lookup(Only(key, value), name) == if name == key then Some(value) else None
    ensures HasOnly(Only(key, value), {key})
  {
    assert Only(key, value).members[1..] == [];
  }

  lemma MisleadingLookup()
    ensures Lookup(MISLEADING, "$id") == Some(Text(BASE)) && Lookup(MISLEADING, "allOf") == Some(Array([NULLS]))
    ensures Lookup(MISLEADING, "anyOf") == Some(Array([REFERS])) && Lookup(MISLEADING, "not") == Some(NESTED)
    ensures HasOnly(MISLEADING, {"$id", "allOf", "anyOf", "not"})
  {
    var members := MISLEADING.members;
    assert members[1..] == [members[1], members[2], members[3]];
    assert members[1..][1..] == [members[2], members[3]];
    assert members[1..][1..][1..] == [members[3]];
  }

  lemma OneItem(schema: Data, kw: Listed, item: Data)
    requires Lookup(schema, ManyKeyword(kw)) == Some(Array([item]))
    ensures GroupKids(schema, Many(kw)) == [ItemKid(kw, [item], 0)]
  {
    assert ItemKids(kw, [item], 0) == [];
  }

  lemma NestedElse(k: nat)
    requires k != 3
    ensures IsEmptyAt(PartsOf(), NESTED, GROUPS, k)
  {
    if k < |GROUPS| {
      OnlyLookup("allOf", Array([TEXTS]), "allOf");
      assert Position(GROUPS[k]) == k;
      NoneInGroup(NESTED, GROUPS[k], {"allOf"});
    }
  }

  lemma NestedKids()
    ensures Kids(NESTED) == [ItemKid(AllOf, [TEXTS], 0)]
  {
    OnlyLookup("allOf", Array([TEXTS]), "allOf");
    OneItem(NESTED, AllOf, TEXTS);
    forall k: nat | k != 3 ensures IsEmptyAt(PartsOf(), NESTED, GROUPS, k) { NestedElse(k); }
    OneGroup(PartsOf(), NESTED, GROUPS, ItemKid(AllOf, [TEXTS], 0));
  }

  lemma Else(schema: Data, k: nat, keys: set<string>)
    requires HasOnly(schema, keys) && keys == {"$id", "allOf", "anyOf", "not"} && k != 3 && k != 4 && k != 6
    ensures IsEmptyAt(PartsOf(), schema, GROUPS, k)
  {
    if k < |GROUPS| {
      assert Position(GROUPS[k]) == k;
      OtherKey(GROUPS[k]);
      NoneInGroup(schema, GROUPS[k], keys);
    }
  }

  lemma ItemAt(schema: Data, kw: Listed, k: nat, item: Data)
    requires k < |GROUPS| && GROUPS[k] == Many(kw) && Lookup(schema, ManyKeyword(kw)) == Some(Array([item]))
    ensures PartsOf()(schema, GROUPS[k]) == [ItemKid(kw, [item], 0)]
  {
    OneItem(schema, kw, item);
  }

  lemma MisleadingKids()
    ensures Kids(MISLEADING) == [ItemKid(AllOf, [NULLS], 0), ItemKid(AnyOf, [REFERS], 0), OneKid(Not, NESTED)]
  {
    MisleadingLookup();
    ItemAt(MISLEADING, AllOf, 3, NULLS);
    ItemAt(MISLEADING, AnyOf, 4, REFERS);
    NotKid();
    forall k: nat | k != 3 && k != 4 && k != 6 ensures IsEmptyAt(PartsOf(), MISLEADING, GROUPS, k) {
      Else(MISLEADING, k, {"$id", "allOf", "anyOf", "not"});
    }
    ThreeGroups(PartsOf(), MISLEADING, GROUPS, ItemKid(AllOf, [NULLS], 0), ItemKid(AnyOf, [REFERS], 0),
                OneKid(Not, NESTED));
  }

  lemma OtherKey(g: Group)
    requires g != Many(AllOf) && g != Many(AnyOf) && g != One(Not)
    ensures GroupKey(g).Some? ==> GroupKey(g).value !in {"$id", "allOf", "anyOf", "not"}
  {
  }

  lemma NotKid()
    ensures PartsOf()(MISLEADING, GROUPS[6]) == [OneKid(Not, NESTED)]
  {
    MisleadingLookup();
  }

  lemma LeafTree(c: Child)
    requires Kids(c.source) == []
    ensures TreeOf(c) == Tree(c, Nil)
  {
  }

  lemma OneTree(c: Child, k: Child)
    requires Kids(c.source) == [k]
    ensures TreeOf(c) == Tree(c, Snoc(Nil, TreeOf(k)))
  {
    LoneTree(k);
  }

  lemma ThreeTrees(c: Child, x: Child, y: Child, z: Child)
    requires Kids(c.source) == [x, y, z]
    ensures TreeOf(c) == Tree(c, Snoc(Snoc(Snoc(Nil, TreeOf(x)), TreeOf(y)), TreeOf(z)))
  {
    var kids := [x, y, z];
    assert kids[..2] == [x, y] && [x, y][..1] == [x];
    LoneTree(x);
    assert ForestOf([x, y]) == Snoc(ForestOf([x]), TreeOf(y));
    assert ForestOf(kids) == Snoc(ForestOf([x, y]), TreeOf(z));
  }

  /** The shape of the example. */
  function Shape(c: Child, x: Child, y: Child, z: Child, u: Child): Tree {
    Tree(c, Snoc(Snoc(Snoc(Nil, Tree(x, Nil)), Tree(y, Nil)), Tree(z, Snoc(Nil, Tree(u, Nil)))))
  }

  lemma ShapePlaces(lib: Library, c: Child, x: Child, y: Child, z: Child, u: Child, at: Place)
    ensures Places(lib, Shape(c, x, y, z, u), at) ==
            [at, PlaceOf(lib, x, at), PlaceOf(lib, y, at), PlaceOf(lib, z, at),
             PlaceOf(lib, u, PlaceOf(lib, z, at))]
  {
    var below := PlaceOf(lib, z, at);
    assert Places(lib, Tree(u, Nil), PlaceOf(lib, u, below)) == [PlaceOf(lib, u, below)];
    assert ForestPlaces(lib, Snoc(Nil, Tree(u, Nil)), below) == [PlaceOf(lib, u, below)];
    assert Places(lib, Tree(x, Nil), PlaceOf(lib, x, at)) == [PlaceOf(lib, x, at)];
    assert Places(lib, Tree(y, Nil), PlaceOf(lib, y, at)) == [PlaceOf(lib, y, at)];
    var two := Snoc(Snoc(Nil, Tree(x, Nil)), Tree(y, Nil));
    assert ForestPlaces(lib, Snoc(Nil, Tree(x, Nil)), at) == [PlaceOf(lib, x, at)];
    assert ForestPlaces(lib, two, at) == [PlaceOf(lib, x, at), PlaceOf(lib, y, at)];
    var last := Tree(z, Snoc(Nil, Tree(u, Nil)));
    assert Places(lib, last, below) == [below, PlaceOf(lib, u, below)];
    assert ForestPlaces(lib, Snoc(two, last), at) ==
           [PlaceOf(lib, x, at), PlaceOf(lib, y, at), below, PlaceOf(lib, u, below)];
    assert Places(lib, Shape(c, x, y, z, u), at) == [at] + ForestPlaces(lib, Snoc(two, last), at);
  }

  lemma ShapeIdless(c: Child, x: Child, y: Child, z: Child, u: Child)
    requires HasNoId(x.source) && HasNoId(y.source) && HasNoId(z.source) && HasNoId(u.source)
    ensures AllIdless(Shape(c, x, y, z, u).kids)
  {
    assert AllIdless(Nil);
    assert Idless(Tree(x, Nil)) && Idless(Tree(y, Nil)) && Idless(Tree(u, Nil));
    assert AllIdless(Snoc(Nil, Tree(u, Nil)));
    assert Idless(Tree(z, Snoc(Nil, Tree(u, Nil))));
    assert AllIdless(Snoc(Nil, Tree(x, Nil))) && AllIdless(Snoc(Snoc(Nil, Tree(x, Nil)), Tree(y, Nil)));
  }

  lemma MisleadingTree()
    ensures TreeOf(WholeSchema(MISLEADING)) ==
            Shape(WholeSchema(MISLEADING), ItemKid(AllOf, [NULLS], 0), ItemKid(AnyOf, [REFERS], 0), OneKid(Not, NESTED),
                  ItemKid(AllOf, [TEXTS], 0))
  {
    var x, y, z := ItemKid(AllOf, [NULLS], 0), ItemKid(AnyOf, [REFERS], 0), OneKid(Not, NESTED);
    OnlyLookup("type", Text("null"), "type");
    OnlyLookup("type", Text("string"), "type");
    OnlyLookup("$ref", Text(REF), "$ref");
    Childless(NULLS, {"type"});
    Childless(TEXTS, {"type"});
    Childless(REFERS, {"$ref"});
    NestedKids();
    MisleadingKids();
    LeafTree(x);
    LeafTree(y);
    LeafTree(ItemKid(AllOf, [TEXTS], 0));
    OneTree(z, ItemKid(AllOf, [TEXTS], 0));
    ThreeTrees(WholeSchema(MISLEADING), x, y, z);
  }

  lemma MisleadingPlaces(lib: Library)
    ensures var ps, top := PlacesOf(lib, MISLEADING), Top(MISLEADING);
      var below := PlaceOf(lib, OneKid(Not, NESTED), top);
      ps == [top, PlaceOf(lib, ItemKid(AllOf, [NULLS], 0), top), PlaceOf(lib, ItemKid(AnyOf, [REFERS], 0), top), below,
             PlaceOf(lib, ItemKid(AllOf, [TEXTS], 0), below)]
  {
    MisleadingTree();
    ShapePlaces(lib, WholeSchema(MISLEADING), ItemKid(AllOf, [NULLS], 0), ItemKid(AnyOf, [REFERS], 0),
                OneKid(Not, NESTED), ItemKid(AllOf, [TEXTS], 0), Top(MISLEADING));
  }

  lemma OnlyIdless(key: string, value: Data)
    requires key != "$id"
    ensures HasNoId(Only(key, value))
  {
    OnlyLookup(key, value, "$id");
  }

  lemma MisleadingIsBase()
    ensures IsBase(MISLEADING, BASE)
  {
    MisleadingLookup();
    MisleadingTree();
    OnlyIdless("type", Text("null"));
    OnlyIdless("type", Text("string"));
    OnlyIdless("$ref", Text(REF));
    OnlyIdless("allOf", Array([TEXTS]));
    ShapeIdless(WholeSchema(MISLEADING), ItemKid(AllOf, [NULLS], 0), ItemKid(AnyOf, [REFERS], 0),
                OneKid(Not, NESTED), ItemKid(AllOf, [TEXTS], 0));
  }

  /** Single subschemas are left out of what is kept. */
  lemma KeptItem(lib: Library, item: Data, at: Place, path: string)
    requires at.kept == [] && at.site.path == path
    ensures var p := PlaceOf(lib, ItemKid(AllOf, [item], 0), at);
      PrintSlashed(p.kept) == "/" + "allOf" + "/" + "0" && p.site.path == path + ("/" + "allOf" + "/" + "0")
  {
    TwoTokens("allOf", "0");
    assert Decimal(0) == "0" && [] + ["allOf", "0"] == ["allOf", "0"];
  }

  lemma TwoTokens(a: string, b: string)
    ensures PrintSlashed([a, b]) == "/" + a + "/" + b && PrintSlashed([a]) == "/" + a
  {
    assert [a, b][1..] == [b] && [b][1..] == [] && [a][1..] == [];
    assert PrintSlashed([b]) == "/" + b;
    assert "/" + a + ("/" + b) == "/" + a + "/" + b;
  }

  lemma KeptSingle(lib: Library, at: Place)
    requires at.kept == [] && at.site.path == "#"
    ensures var p := PlaceOf(lib, OneKid(Not, NESTED), at); p.kept == [] && p.site.path == "#" + ("/" + "not")
  {
    TwoTokens("not", "");
  }

  lemma MisleadingKept(lib: Library)
    ensures var ps := PlacesOf(lib, MISLEADING);
      && |ps| == 5 && PrintSlashed(ps[1].kept) == PrintSlashed(ps[4].kept) == "/" + "allOf" + "/" + "0"
      && HasKeywords(ps[1].source) && HasKeywords(ps[4].source) && ps[2].source == REFERS
      && ps[1].site.path == "#" + ("/" + "allOf" + "/" + "0")
      && ps[4].site.path == "#" + ("/" + "not") + ("/" + "allOf" + "/" + "0")
  {
    var top := Top(MISLEADING);
    MisleadingPlaces(lib);
    KeptItem(lib, NULLS, top, "#");
    KeptSingle(lib, top);
    KeptItem(lib, TEXTS, PlaceOf(lib, OneKid(Not, NESTED), top), "#" + ("/" + "not"));
  }

  lemma {:induction false} NoEscape(s: string, digit: char, to: char)
    requires forall i :: 0 <= i < |s| ==> s[i] != '~'
    ensures Gsub(s, digit, to) == s
    decreases |s|
  {
    if s != [] { NoEscape(s[1..], digit, to); }
  }

  lemma SchemeFirst(t: string, a: string, b: string)
    requires IsScheme(t)
    ensures IsAbsolute(t + ":" + a + "#" + b)
  {
    assert t + ":" + a + "#" + b == t + ":" + (a + "#" + b);
    assert HasScheme(t + ":" + a + "#" + b, t, a + "#" + b);
    AbsoluteLanguage(t + ":" + a + "#" + b);
  }

  /** A reference that the URI unescape leaves alone and that needs no base is looked up as it is. */
  lemma AbsoluteTarget(lib: Library, m: Index, d: Data, scope: Scope, ref: string)
    requires HasKeywords(d) && TextOf(d, "$ref") == Some(ref) && IsAbsolute(ref) && lib.unescape(ref) == ref
    requires ref in m && forall i :: 0 <= i < |ref| ==> ref[i] != '~'
    ensures Target(lib, m, NamesOf(lib, d, scope)) == Some(m[ref])
  {
    NoEscape(ref, '1', '/');
    NoEscape(ref, '0', '~');
  }

  lemma RefPlain()
    ensures IsAbsolute(REF) && forall i :: 0 <= i < |REF| ==> REF[i] != '~'
  {
    SchemeFirst("http", "//a/", "/" + "allOf" + "/" + "0");
  }

  /**
   Compiled from a real schema, the reference to the first schema of the root's `allOf` is bound to the
   first one of the `allOf` inside `not`, which was compiled later under the same key.
   */
  lemma MisledReference(lib: Library)
    requires lib.unescape(REF) == REF
    ensures var nodes, refs := NodesOf(WorkOf(lib), MISLEADING), RefsOf(WorkOf(lib), MISLEADING);
      && |nodes| == 5 && nodes[2].names.ref == Some(REF)
      && nodes[1].path == "#" + ("/" + "allOf" + "/" + "0")
      && nodes[4].path == "#" + ("/" + "not") + ("/" + "allOf" + "/" + "0")
      && REF in refs && refs[REF] == 4 && Target(lib, refs, nodes[2].names) == Some(4)
  {
    var ps, refs := PlacesOf(lib, MISLEADING), RefsOf(WorkOf(lib), MISLEADING);
    MisleadingKept(lib);
    MisleadingIsBase();
    MisledKey(lib);
    PlacesCount(lib, TreeOf(WholeSchema(MISLEADING)), Top(MISLEADING));
    ArenaLength(PlanOf(lib), TreeOf(WholeSchema(MISLEADING)), TOP, 0);
    RefsAreIndex(lib, MISLEADING);
    NodesArePlaces(lib, MISLEADING, 1);
    NodesArePlaces(lib, MISLEADING, 2);
    NodesArePlaces(lib, MISLEADING, 4);
    OnlyLookup("$ref", Text(REF), "$ref");
    RefPlain();
    AbsoluteTarget(lib, refs, REFERS, ps[2].site.scope, REF);
  }

  lemma MisledKey(lib: Library)
    ensures var refs := RefsOf(WorkOf(lib), MISLEADING); REF in refs && refs[REF] == 4
  {
    var ps, pointer := PlacesOf(lib, MISLEADING), "/" + "allOf" + "/" + "0";
    MisleadingKept(lib);
    MisleadingIsBase();
    BaseKeyIsLast(lib, MISLEADING, BASE, pointer);
    assert Stands(ps[4], pointer);
  }
}
