/** A schema with an `$id` inside: a reference there leads within the inner base, not to the root. */
module EmbeddedId {
  import opened Values
  import opened Bytes
  import opened SchemaTree
  import opened Scheme
  import opened Layout
  import opened Blueprint
  import opened RefDecoder
  import opened RefResolver
  import opened References
  import opened BaseKeys

  /** "#/allOf/0". */
  const FRAGMENT := "#" + ("/" + "allOf" + "/" + "0")

  /** "http://a/b/". */
  const INNER_BASE := BASE + "b/"

  const POINTS := Only("$ref", Text(FRAGMENT))

  /** {"$id": "b/", "allOf": [NULLS, {"$ref": "#/allOf/0"}]}. */
  const INNER := Object([(Name("$id"), Text("b/")), (Name("allOf"), Array([NULLS, POINTS]))])

  /** {"$id": BASE, "allOf": [TEXTS], "not": INNER}. */
  const OUTER := Object([(Name("$id"), Text(BASE)), (Name("allOf"), Array([TEXTS])), (Name("not"), INNER)])

  // ---------------------------------------------------------------------------------------
  // Its subschemas
  // ---------------------------------------------------------------------------------------

  lemma OuterLookup()
    ensures Lookup(OUTER, "$id") == Some(Text(BASE)) && Lookup(OUTER, "allOf") == Some(Array([TEXTS]))
    ensures Lookup(OUTER, "not") == Some(INNER) && HasOnly(OUTER, {"$id", "allOf", "not"})
  {
    var members := OUTER.members;
    assert members[1..] == [members[1], members[2]];
    assert members[1..][1..] == [members[2]];
  }

  lemma InnerLookup()
    ensures Lookup(INNER, "$id") == Some(Text("b/")) && Lookup(INNER, "allOf") == Some(Array([NULLS, POINTS]))
    ensures HasOnly(INNER, {"$id", "allOf"})
  {
    var members := INNER.members;
    assert members[1..] == [members[1]];
  }

  /** Subschemas in one group, and in two. */
  lemma OnlyGroup(parts: Parts, schema: Data, gs: seq<Group>, xs: seq<Child>)
    requires |gs| > 3 && parts(schema, gs[3]) == xs
    requires forall k: nat :: k != 3 ==> IsEmptyAt(parts, schema, gs, k)
    ensures GroupsKids(parts, schema, gs) == xs
  {
    AllGroups(parts, schema, gs);
    EmptyGroups(parts, schema, gs, 0, 3);
    OneMoreGroup(parts, schema, gs, 3);
    EmptyGroups(parts, schema, gs, 4, |gs|);
  }

  lemma TwoGroups(parts: Parts, schema: Data, gs: seq<Group>, x: Child, z: Child)
    requires |gs| > 6 && parts(schema, gs[3]) == [x] && parts(schema, gs[6]) == [z]
    requires forall k: nat :: k != 3 && k != 6 ==> IsEmptyAt(parts, schema, gs, k)
    ensures GroupsKids(parts, schema, gs) == [x, z]
  {
    AllGroups(parts, schema, gs);
    EmptyGroups(parts, schema, gs, 0, 3);
    OneMoreGroup(parts, schema, gs, 3);
    EmptyGroups(parts, schema, gs, 4, 6);
    OneMoreGroup(parts, schema, gs, 6);
    EmptyGroups(parts, schema, gs, 7, |gs|);
  }

  lemma OtherKeys(g: Group)
    ensures g != Many(AllOf) ==> GroupKey(g).Some? ==> GroupKey(g).value !in {"$id", "allOf"}
    ensures g != Many(AllOf) && g != One(Not) ==> GroupKey(g).Some? ==> GroupKey(g).value !in {"$id", "allOf", "not"}
  {
  }

  lemma InnerElse(k: nat)
    requires k != 3
    ensures IsEmptyAt(PartsOf(), INNER, GROUPS, k)
  {
    if k < |GROUPS| {
      InnerLookup();
      assert Position(GROUPS[k]) == k;
      OtherKeys(GROUPS[k]);
      NoneInGroup(INNER, GROUPS[k], {"$id", "allOf"});
    }
  }

  lemma OuterElse(k: nat)
    requires k != 3 && k != 6
    ensures IsEmptyAt(PartsOf(), OUTER, GROUPS, k)
  {
    if k < |GROUPS| {
      OuterLookup();
      assert Position(GROUPS[k]) == k;
      OtherKeys(GROUPS[k]);
      NoneInGroup(OUTER, GROUPS[k], {"$id", "allOf", "not"});
    }
  }

  lemma TwoItems(a: Data, b: Data)
    ensures ItemKids(AllOf, [a, b], 2) == [ItemKid(AllOf, [a, b], 0), ItemKid(AllOf, [a, b], 1)]
  {
    assert ItemKids(AllOf, [a, b], 0) == [];
    assert ItemKids(AllOf, [a, b], 1) == [ItemKid(AllOf, [a, b], 0)];
  }

  lemma InnerKids()
    ensures Kids(INNER) == [ItemKid(AllOf, [NULLS, POINTS], 0), ItemKid(AllOf, [NULLS, POINTS], 1)]
  {
    InnerLookup();
    TwoItems(NULLS, POINTS);
    forall k: nat | k != 3 ensures IsEmptyAt(PartsOf(), INNER, GROUPS, k) { InnerElse(k); }
    OnlyGroup(PartsOf(), INNER, GROUPS, [ItemKid(AllOf, [NULLS, POINTS], 0), ItemKid(AllOf, [NULLS, POINTS], 1)]);
  }

  lemma OuterKids()
    ensures Kids(OUTER) == [ItemKid(AllOf, [TEXTS], 0), OneKid(Not, INNER)]
  {
    OuterLookup();
    ItemAt(OUTER, AllOf, 3, TEXTS);
    forall k: nat | k != 3 && k != 6 ensures IsEmptyAt(PartsOf(), OUTER, GROUPS, k) { OuterElse(k); }
    TwoGroups(PartsOf(), OUTER, GROUPS, ItemKid(AllOf, [TEXTS], 0), OneKid(Not, INNER));
  }

  // ---------------------------------------------------------------------------------------
  // Its places
  // ---------------------------------------------------------------------------------------

  lemma TwoTrees(c: Child, x: Child, y: Child)
    requires Kids(c.source) == [x, y]
    ensures TreeOf(c) == Tree(c, Snoc(Snoc(Nil, TreeOf(x)), TreeOf(y)))
  {
    assert [x, y][..1] == [x];
    LoneTree(x);
  }

  lemma TwoPlaces(lib: Library, c: Child, x: Tree, y: Tree, at: Place)
    ensures Places(lib, Tree(c, Snoc(Snoc(Nil, x), y)), at) ==
            [at] + Places(lib, x, PlaceOf(lib, x.child, at)) + Places(lib, y, PlaceOf(lib, y.child, at))
  {
    assert ForestPlaces(lib, Snoc(Nil, x), at) == Places(lib, x, PlaceOf(lib, x.child, at));
  }

  lemma LeafPlaces(lib: Library, c: Child, at: Place)
    requires Kids(c.source) == []
    ensures Places(lib, TreeOf(c), at) == [at]
  {
    LeafTree(c);
    assert ForestPlaces(lib, Nil, at) == [];
  }

  lemma LeavesChildless()
    ensures Kids(NULLS) == [] && Kids(TEXTS) == [] && Kids(POINTS) == []
  {
    OnlyLookup("type", Text("null"), "type");
    OnlyLookup("type", Text("string"), "type");
    OnlyLookup("$ref", Text(FRAGMENT), "$ref");
    Childless(NULLS, {"type"});
    Childless(TEXTS, {"type"});
    Childless(POINTS, {"$ref"});
  }

  lemma OuterPlaces(lib: Library)
    ensures var ps, top := PlacesOf(lib, OUTER), Top(OUTER);
      var inner := PlaceOf(lib, OneKid(Not, INNER), top);
      ps == [top, PlaceOf(lib, ItemKid(AllOf, [TEXTS], 0), top), inner,
             PlaceOf(lib, ItemKid(AllOf, [NULLS, POINTS], 0), inner),
             PlaceOf(lib, ItemKid(AllOf, [NULLS, POINTS], 1), inner)]
  {
    var x, z := ItemKid(AllOf, [TEXTS], 0), OneKid(Not, INNER);
    var u, v := ItemKid(AllOf, [NULLS, POINTS], 0), ItemKid(AllOf, [NULLS, POINTS], 1);
    var top := Top(OUTER);
    var inner := PlaceOf(lib, z, top);
    LeavesChildless();
    OuterKids();
    InnerKids();
    TwoTrees(WholeSchema(OUTER), x, z);
    TwoTrees(z, u, v);
    TwoPlaces(lib, WholeSchema(OUTER), TreeOf(x), TreeOf(z), top);
    TwoPlaces(lib, z, TreeOf(u), TreeOf(v), inner);
    LeafPlaces(lib, x, PlaceOf(lib, x, top));
    LeafPlaces(lib, u, PlaceOf(lib, u, inner));
    LeafPlaces(lib, v, PlaceOf(lib, v, inner));
  }

  /** What the URI library does with the two relative references. */
  predicate Joins(lib: Library) {
    && lib.join(BASE, "b/") == Some(INNER_BASE) && lib.join(INNER_BASE, FRAGMENT) == Some(INNER_BASE + FRAGMENT)
    && lib.unescape(INNER_BASE + FRAGMENT) == INNER_BASE + FRAGMENT
  }

  lemma NoScheme(uri: string)
    requires uri in {"b/", FRAGMENT}
    ensures !IsAbsolute(uri)
  {
    if uri == "b/" { assert uri[1..] == "/"; }
  }

  lemma BasesFilled()
    ensures BASE != [] && BASE[0] == 'h' && INNER_BASE != [] && INNER_BASE[0] == 'h' && IsAbsolute(BASE)
  {
    assert BASE == "http" + ":" + "//a/";
    assert HasScheme(BASE, "http", "//a/");
    AbsoluteLanguage(BASE);
  }

  lemma InnerSited(lib: Library)
    requires Joins(lib)
    ensures var inner := PlaceOf(lib, OneKid(Not, INNER), Top(OUTER));
      && inner.site.scope == Scope(Some(BASE), Some(""))
      && InnerSite(lib, INNER, inner.site).scope == Scope(Some(INNER_BASE), Some(""))
      && inner.site.path == "#" + ("/" + "not")
  {
    OuterLookup();
    InnerLookup();
    NoScheme("b/");
    BasesFilled();
    TwoTokens("not", "");
  }

  lemma ItemSited(lib: Library, i: nat, digit: string, at: Place)
    requires i < 2 && digit == Decimal(i)
    requires InnerSite(lib, at.source, at.site).scope == Scope(Some(INNER_BASE), Some(""))
    ensures var p := PlaceOf(lib, ItemKid(AllOf, [NULLS, POINTS], i), at);
      && p.site.scope == Scope(Some(INNER_BASE), Some("/" + "allOf" + "/" + digit))
      && p.site.path == at.site.path + ("/" + "allOf" + "/" + digit)
  {
    TwoTokens("allOf", digit);
    assert "" + ("/" + "allOf" + "/" + digit) == "/" + "allOf" + "/" + digit;
  }

  // ---------------------------------------------------------------------------------------
  // Where its reference leads
  // ---------------------------------------------------------------------------------------

  lemma OuterSited(lib: Library)
    requires Joins(lib)
    ensures var ps := PlacesOf(lib, OUTER);
      && |ps| == 5 && ps[3].source == NULLS && ps[4].source == POINTS && ps[1].site.path == FRAGMENT
      && ps[3].site.scope == Scope(Some(INNER_BASE), Some("/" + "allOf" + "/" + "0"))
      && ps[4].site.scope == Scope(Some(INNER_BASE), Some("/" + "allOf" + "/" + "1"))
      && ps[3].site.path == "#" + ("/" + "not") + ("/" + "allOf" + "/" + "0")
      && ps[4].site.path == "#" + ("/" + "not") + ("/" + "allOf" + "/" + "1")
  {
    var inner := PlaceOf(lib, OneKid(Not, INNER), Top(OUTER));
    OuterPlaces(lib);
    InnerSited(lib);
    assert Decimal(0) == "0" && Decimal(1) == "1";
    ItemSited(lib, 0, "0", inner);
    ItemSited(lib, 1, "1", inner);
    KeptItem(lib, TEXTS, Top(OUTER), "#");
  }

  lemma InnerKey(lib: Library)
    requires Joins(lib)
    ensures var refs := RefsOf(WorkOf(lib), OUTER); INNER_BASE + FRAGMENT in refs && refs[INNER_BASE + FRAGMENT] == 3
  {
    var ps, key, refs := PlacesOf(lib, OUTER), INNER_BASE + FRAGMENT, RefsOf(WorkOf(lib), OUTER);
    IndexIsLast(lib, OUTER, key);
    FourthLast(lib, ps, refs, key);
  }

  lemma FourthLast(lib: Library, ps: seq<Place>, refs: Index, key: string)
    requires Joins(lib) && ps == PlacesOf(lib, OUTER) && key == INNER_BASE + FRAGMENT
    requires key in refs <==> exists i :: 0 <= i < |ps| && IsKey(lib, ps[i], key)
    requires key in refs ==> IsLast(lib, ps, key, refs[key])
    ensures key in refs && refs[key] == 3
  {
    OuterSited(lib);
    ItemKeys(lib, ps[3], ps[4]);
  }

  /** The key is that of the first item and not of the second. */
  lemma ItemKeys(lib: Library, p: Place, q: Place)
    requires p.source == NULLS && q.source == POINTS && q.site.path != [] && q.site.path[0] == '#'
    requires p.site.scope == Scope(Some(INNER_BASE), Some("/" + "allOf" + "/" + "0"))
    requires q.site.scope == Scope(Some(INNER_BASE), Some("/" + "allOf" + "/" + "1"))
    ensures IsKey(lib, p, INNER_BASE + FRAGMENT) && !IsKey(lib, q, INNER_BASE + FRAGMENT)
  {
    var key := INNER_BASE + FRAGMENT;
    BasesFilled();
    OnlyLookup("$ref", Text(FRAGMENT), "$id");
    assert key == INNER_BASE + "#" + ("/" + "allOf" + "/" + "0");
    assert key[0] == 'h';
    var other := INNER_BASE + "#" + ("/" + "allOf" + "/" + "1");
    assert other[|other| - 1] == '1' && key[|key| - 1] == '0';
  }

  /**
   In `OUTER` the `$ref` "#/allOf/0" under `not` is bound to the first schema of the `allOf` beside it, the
   node of "#/not/allOf/0", although "#/allOf/0" is the path of another node.
   */
  lemma InnerReference(lib: Library)
    requires Joins(lib)
    ensures var nodes, refs := NodesOf(WorkOf(lib), OUTER), RefsOf(WorkOf(lib), OUTER);
      && |nodes| == 5 && nodes[4].names.ref == Some(FRAGMENT) && nodes[1].path == FRAGMENT
      && nodes[3].path == "#" + ("/" + "not") + ("/" + "allOf" + "/" + "0")
      && Target(lib, refs, nodes[4].names) == Some(3)
  {
    var ps, key := PlacesOf(lib, OUTER), INNER_BASE + FRAGMENT;
    InnerKey(lib);
    OuterSited(lib);
    PlacesCount(lib, TreeOf(WholeSchema(OUTER)), Top(OUTER));
    ArenaLength(PlanOf(lib), TreeOf(WholeSchema(OUTER)), TOP, 0);
    RefsAreIndex(lib, OUTER);
    NodesArePlaces(lib, OUTER, 1);
    NodesArePlaces(lib, OUTER, 3);
    NodesArePlaces(lib, OUTER, 4);
    PointerResolved(lib, ps[4].site.scope);
    OnlyLookup("$ref", Text(FRAGMENT), "$ref");
  }

  lemma PointerResolved(lib: Library, scope: Scope)
    requires Joins(lib) && scope.base == Some(INNER_BASE)
    ensures ResolveRef(lib, scope, FRAGMENT) == Some(INNER_BASE + FRAGMENT)
    ensures DecodeRef(lib.unescape, INNER_BASE + FRAGMENT) == INNER_BASE + FRAGMENT
  {
    NoScheme(FRAGMENT);
    BasesFilled();
    NoEscape(INNER_BASE + FRAGMENT, '1', '/');
    NoEscape(INNER_BASE + FRAGMENT, '0', '~');
  }
}
