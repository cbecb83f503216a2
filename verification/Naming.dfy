/**
 What a `$ref` leads to, for every schema with whatever `$id`s, stated over locations: the base in force
 at a location, the names that it is known by, and the location that a reference names.
 */
module Naming {
  import opened Values
  import opened Schema
  import opened SchemaTree
  import opened Layout
  import opened Blueprint
  import opened Scheme
  import opened Slashes
  import opened Location
  import opened References
  import opened BaseKeys
  import opened FieldPlaces
  import opened RefDecoder
  import opened RefResolver
  import X = Siblings
  import J = JsonMeaning

  // ---------------------------------------------------------------------------------------
  // Bases and names of locations
  // ---------------------------------------------------------------------------------------

  ghost predicate IsAbsoluteUri(uri: string) { exists scheme, rest :: HasScheme(uri, scheme, rest) }

  /** A URI as it is, or joined to the base in force. */
  ghost function Resolved(lib: Library, base: Option<string>, uri: string): Option<string> {
    if IsAbsoluteUri(uri) then Some(uri)
    else if base.Some? && base.value != "" then lib.join(base.value, uri)
    else None
  }

  function IdOf(s: Data): Option<string> {
    match J.Field(s, "$id")
    case Some(Text(id)) => Some(id)
    case _ => None
  }

  /** The base in force, the tokens that are followed since, and the location reached. */
  datatype Way = Way(base: Option<string>, since: seq<string>, from: nat)

  /** Into a schema: its `$id` starts a new base. */
  ghost function Entering(lib: Library, way: Way, s: Data): Way {
    var id := IdOf(s);
    if id.None? then way
    else
      var resolved := Resolved(lib, way.base, id.value);
      way.(base := Some(if resolved.Some? then resolved.value else id.value), since := [])
  }

  /** Keywords with one schema, which the pointer of a base does not follow. */
  const SINGLES: set<string> := {
    "if", "then", "else", "not", "items", "additionalItems", "contains", "propertyNames", "additionalProperties"}

  /** On to the location of the first `n` tokens. */
  ghost function Arriving(way: Way, tokens: seq<string>, n: nat): Way
    requires way.from <= n <= |tokens|
  {
    var followed := !(n == way.from + 1 && tokens[way.from] in SINGLES);
    Way(way.base, way.since + (if followed then tokens[way.from..n] else []), n)
  }

  /** Inside the last location on the way along the first `n` tokens. */
  ghost function Inside(lib: Library, top: Data, tokens: seq<string>, n: nat): (way: Way)
    requires n <= |tokens|
    ensures way.from <= n
  {
    if n == 0 then Entering(lib, Way(None, [], 0), top)
    else
      var before, s := Inside(lib, top, tokens, n - 1), Locate(top, tokens[..n]);
      if s.None? then before else Entering(lib, Arriving(before, tokens, n), s.value)
  }

  /** The way to a location, not yet inside it. */
  ghost function WayTo(lib: Library, top: Data, tokens: seq<string>): Way {
    if tokens == [] then Way(None, [], 0)
    else Arriving(Inside(lib, top, tokens, |tokens| - 1), tokens, |tokens|)
  }

  /** The names of a location: its path, its `$id` as written and as resolved, and base and pointer. */
  ghost predicate IsNamed(lib: Library, top: Data, tokens: seq<string>, key: string) {
    var s, way := Locate(top, tokens), WayTo(lib, top, tokens);
    s.Some? && (
      || key == "#" + PrintSlashed(tokens)
      || (IdOf(s.value).Some? && (key == IdOf(s.value).value || Entering(lib, way, s.value).base == Some(key)))
      || (HasKeywords(s.value) && way.base.Some? && PrintSlashed(way.since) != ""
          && key == way.base.value + "#" + PrintSlashed(way.since)))
  }

  // ---------------------------------------------------------------------------------------
  // The compiler's scopes are these
  // ---------------------------------------------------------------------------------------

  function ScopeOf(way: Way): Scope {
    if way.base.None? then Scope(None, None) else Scope(way.base, Some(PrintSlashed(way.since)))
  }

  lemma AbsoluteSame(uri: string)
    ensures IsAbsolute(uri) <==> IsAbsoluteUri(uri)
  {
    AbsoluteLanguage(uri);
  }

  lemma EnteringSame(lib: Library, way: Way, s: Data, site: Site)
    requires site.scope == ScopeOf(way)
    ensures InnerSite(lib, s, site) == site.(scope := ScopeOf(Entering(lib, way, s)))
  {
    assert IdOf(s) == TextOf(s, "$id") && (IdOf(s).Some? ==> HasKeywords(s));
    if IdOf(s).Some? {
      AbsoluteSame(IdOf(s).value);
      assert InnerScope(lib, s, site.scope) == Scope(Some(ResolveId(lib, site.scope, IdOf(s).value)), Some(""));
      assert PrintSlashed([]) == "";
      var id := IdOf(s).value;
      var resolved := Resolved(lib, way.base, id);
      assert site.scope.base == way.base;
      assert ResolveId(lib, site.scope, id) == if resolved.Some? then resolved.value else id;
      assert ScopeOf(Entering(lib, way, s)) == Scope(Some(if resolved.Some? then resolved.value else id), Some(""));
    }
  }

  /** A single subschema, by its tokens. */
  predicate IsSingle(tokens: seq<string>) { |tokens| == 1 && tokens[0] in SINGLES }

  lemma ArrivingSame(way: Way, at: seq<string>, c: Child, inner: Site)
    requires inner.scope == ScopeOf(way) && way.from == |at| && (c.descends <==> !IsSingle(c.tokens))
    ensures KidSite(inner, c).scope == ScopeOf(Arriving(way, at + c.tokens, |at + c.tokens|))
  {
    var tokens := at + c.tokens;
    assert tokens[|at|..|tokens|] == c.tokens;
    if c.descends {
      PathAdded(way.since, c.tokens);
    } else {
      assert tokens[|at|] == c.tokens[0] && way.since + [] == way.since;
    }
  }

  lemma SinglesKnown(keyword: string)
    requires keyword in SINGLES
    ensures IsKnown(keyword)
  {
  }

  lemma KidDescends(schema: Data, k: Child)
    requires IsRuby(schema) && k in Kids(schema)
    ensures k.tokens != [] && (k.descends <==> !IsSingle(k.tokens))
  {
    var j := GroupOf(PartsOf(), schema, GROUPS, k);
    KidLeads(schema, k, []);
    GroupDescends(schema, GROUPS[j], k);
  }

  lemma GroupDescends(schema: Data, g: Group, k: Child)
    requires HasKeywords(schema) && IsRuby(schema) && k in GroupKids(schema, g)
    ensures k.descends <==> !IsSingle(k.tokens)
  {
    PointerFollows(schema, g, k);
    match g {
      case One(kw) => assert OneKeyword(kw) in SINGLES;
      case Many(kw) =>
        var items := Lookup(schema, ManyKeyword(kw)).value.items;
        var i := ItemKidAt(kw, items, |items|, k);
      case Named(kw) =>
        var members := Lookup(schema, NamedKeyword(kw)).value.members;
        var i := MemberKidAt(kw, members, |members|, k);
      case Loose =>
        LooseLeads(schema, k, []);
        if IsSingle(k.tokens) { SinglesKnown(k.tokens[0]); }
    }
  }

  // ---------------------------------------------------------------------------------------
  // The way to a child
  // ---------------------------------------------------------------------------------------

  /** No location lies on the way to a child. */
  lemma NoneBetween(source: Data, k: Child, m: nat)
    requires IsRuby(source) && k in Kids(source) && 0 < m < |k.tokens|
    ensures Locate(source, k.tokens[..m]).None?
  {
    if Locate(source, k.tokens[..m]).Some? {
      var c := KidFound(source, k.tokens[..m]);
      X.KidsApart(source);
      assert c.tokens <= k.tokens[..m] && c.tokens <= k.tokens;
      SameIfClashing(Kids(source), c, k);
    }
  }

  lemma SameIfClashing(kids: seq<Child>, c: Child, k: Child)
    requires X.Apart(kids) && c in kids && k in kids && X.Clash(c, k)
    ensures c == k
  {
    var i, j :| 0 <= i < |kids| && 0 <= j < |kids| && kids[i] == c && kids[j] == k;
    assert X.Clash(k, c);
  }

  lemma {:induction false} WayPrefix(lib: Library, top: Data, x: seq<string>, y: seq<string>, n: nat)
    requires n <= |x| <= |y| && y[..|x|] == x
    ensures Inside(lib, top, x, n) == Inside(lib, top, y, n)
    decreases n
  {
    if n > 0 {
      WayPrefix(lib, top, x, y, n - 1);
      assert x[..n] == y[..n];
      var before := Inside(lib, top, x, n - 1);
      assert x[before.from..n] == y[before.from..n];
    }
  }

  /** Nothing lies at the prefixes in between. */
  ghost predicate IsEmptyFrom(top: Data, tokens: seq<string>, n: nat) {
    forall m :: n < m < |tokens| ==> Locate(top, tokens[..m]).None?
  }

  lemma {:induction false} WayBetween(lib: Library, top: Data, tokens: seq<string>, n: nat, m: nat)
    requires n <= m < |tokens| && IsEmptyFrom(top, tokens, n)
    ensures Inside(lib, top, tokens, m) == Inside(lib, top, tokens, n)
    decreases m
  {
    if n < m { WayBetween(lib, top, tokens, n, m - 1); }
  }

  lemma CutJoined(x: seq<string>, y: seq<string>, m: nat)
    requires m <= |y|
    ensures (x + y)[..|x| + m] == x + y[..m]
  {
  }

  ghost predicate IsEmptyAt(top: Data, at: seq<string>, rest: seq<string>, m: nat) {
    0 < m < |rest| ==> Locate(top, at + rest[..m]).None?
  }

  lemma EmptyAt(top: Data, at: seq<string>, source: Data, k: Child, m: nat)
    requires IsRuby(top) && Locate(top, at) == Some(source) && IsRuby(source) && k in Kids(source)
    ensures IsEmptyAt(top, at, k.tokens, m)
  {
    if 0 < m < |k.tokens| {
      NoneBetween(source, k, m);
      LocateOn(top, at, k.tokens[..m]);
    }
  }

  lemma EmptyFrom(top: Data, at: seq<string>, rest: seq<string>, tokens: seq<string>)
    requires tokens == at + rest && forall m: nat :: IsEmptyAt(top, at, rest, m)
    ensures IsEmptyFrom(top, tokens, |at|)
  {
    forall m | |at| < m < |tokens| ensures Locate(top, tokens[..m]).None? {
      assert IsEmptyAt(top, at, rest, m - |at|);
      CutJoined(at, rest, m - |at|);
    }
  }

  /** At a location one is inside it. */
  lemma InsideHere(lib: Library, top: Data, at: seq<string>)
    requires Locate(top, at).Some?
    ensures Inside(lib, top, at, |at|) == Entering(lib, WayTo(lib, top, at), Locate(top, at).value)
    ensures Inside(lib, top, at, |at|).from == |at|
  {
    assert at[..|at|] == at;
  }

  lemma WayInto(lib: Library, top: Data, at: seq<string>, tokens: seq<string>)
    requires at < tokens && Locate(top, at).Some? && IsEmptyFrom(top, tokens, |at|)
    ensures var inside := Entering(lib, WayTo(lib, top, at), Locate(top, at).value);
      inside.from == |at| && WayTo(lib, top, tokens) == Arriving(inside, tokens, |tokens|)
  {
    InsideHere(lib, top, at);
    WayPrefix(lib, top, at, tokens, |at|);
    WayBetween(lib, top, tokens, |at|, |tokens| - 1);
  }

  lemma WayToKid(lib: Library, top: Data, at: seq<string>, source: Data, k: Child)
    requires IsRuby(top) && Locate(top, at) == Some(source) && IsRuby(source) && k in Kids(source) && k.tokens != []
    ensures var inside := Entering(lib, WayTo(lib, top, at), source);
      inside.from == |at|
      && WayTo(lib, top, at + k.tokens) == Arriving(inside, at + k.tokens, |at + k.tokens|)
  {
    var tokens := at + k.tokens;
    forall m: nat ensures IsEmptyAt(top, at, k.tokens, m) { EmptyAt(top, at, source, k, m); }
    EmptyFrom(top, at, k.tokens, tokens);
    WayInto(lib, top, at, tokens);
  }

  /** Locations inside a location. */
  lemma {:induction false} LocateOn(top: Data, at: seq<string>, rest: seq<string>)
    requires IsRuby(top) && Locate(top, at).Some?
    ensures Locate(top, at + rest) == Locate(Locate(top, at).value, rest)
    decreases |at|
  {
    if at == [] {
      assert at + rest == rest;
    } else {
      var k := KidFound(top, at);
      var more := at[|k.tokens|..];
      KidLeads(top, k, more);
      KidLeads(top, k, more + rest);
      assert at == k.tokens + more && at + rest == k.tokens + (more + rest);
      LocateOn(k.source, more, rest);
    }
  }

  // ---------------------------------------------------------------------------------------
  // The places of a schema
  // ---------------------------------------------------------------------------------------

  /** The compiler's site of a place is the one that its tokens give. */
  ghost predicate IsSited(lib: Library, top: Data, p: Place) {
    && Locate(top, p.tokens) == Some(p.source) && IsRuby(p.source)
    && p.site.path == "#" + PrintSlashed(p.tokens) && p.site.scope == ScopeOf(WayTo(lib, top, p.tokens))
  }

  ghost predicate AllSited(lib: Library, top: Data, ps: seq<Place>) { forall p :: p in ps ==> IsSited(lib, top, p) }

  lemma KidSited(lib: Library, top: Data, at: Place, k: Child)
    requires IsRuby(top) && IsSited(lib, top, at) && k in Kids(at.source)
    ensures IsSited(lib, top, PlaceOf(lib, k, at))
  {
    var inner, way := InnerSite(lib, at.source, at.site), WayTo(lib, top, at.tokens);
    KidLeads(at.source, k, []);
    KidDescends(at.source, k);
    LocateOn(top, at.tokens, k.tokens);
    assert k.tokens + [] == k.tokens;
    EnteringSame(lib, way, at.source, at.site);
    WayToKid(lib, top, at.tokens, at.source, k);
    ArrivingSame(Entering(lib, way, at.source), at.tokens, k, inner);
    PathOn("#", at.tokens, k.tokens);
  }

  lemma {:induction false} TreeSited(lib: Library, top: Data, c: Child, at: Place)
    requires IsRuby(top) && IsSited(lib, top, at) && at.source == c.source
    ensures AllSited(lib, top, Places(lib, TreeOf(c), at))
    decreases Height(c.source), 1, 0
  {
    KidsLower(c.source);
    KidsSited(lib, top, Kids(c.source), at);
  }

  lemma {:induction false} KidsSited(lib: Library, top: Data, kids: seq<Child>, at: Place)
    requires IsRuby(top) && IsSited(lib, top, at)
    requires AllLower(kids, Height(at.source)) && forall k :: k in kids ==> k in Kids(at.source)
    ensures AllSited(lib, top, ForestPlaces(lib, ForestOf(kids), at))
    decreases Height(at.source), 0, |kids|
  {
    if kids == [] {
      assert ForestPlaces(lib, ForestOf(kids), at) == [];
    } else {
      var init, k := kids[..|kids| - 1], kids[|kids| - 1];
      KidsSited(lib, top, init, at);
      KidSited(lib, top, at, k);
      TreeSited(lib, top, k, PlaceOf(lib, k, at));
      LastPlaces(lib, kids, at);
    }
  }

  /** Every place of a schema. */
  lemma PlacesSited(lib: Library, schema: Data, i: nat)
    requires IsRuby(schema) && i < |PlacesOf(lib, schema)|
    ensures IsSited(lib, schema, PlacesOf(lib, schema)[i])
  {
    assert Locate(schema, []) == Some(schema) && PrintSlashed([]) == "";
    TreeSited(lib, schema, WholeSchema(schema), Top(schema));
    assert PlacesOf(lib, schema)[i] in PlacesOf(lib, schema);
  }

  /** A node is registered under the names of its location and no others. */
  lemma KeysAreNames(lib: Library, top: Data, p: Place, key: string)
    requires IsSited(lib, top, p)
    ensures IsKey(lib, p, key) <==> IsNamed(lib, top, p.tokens, key)
  {
    var way := WayTo(lib, top, p.tokens);
    EnteringSame(lib, way, p.source, p.site);
    assert IdOf(p.source) == TextOf(p.source, "$id") && (IdOf(p.source).Some? ==> HasKeywords(p.source));
  }

  // ---------------------------------------------------------------------------------------
  // References
  // ---------------------------------------------------------------------------------------

  /** Some location has the name. */
  ghost predicate NamesSome(lib: Library, schema: Data, key: string) {
    exists i :: 0 <= i < |PlacesOf(lib, schema)| && IsNamed(lib, schema, PlacesOf(lib, schema)[i].tokens, key)
  }

  /** The last location compiled that has the name. */
  ghost predicate NamesLast(lib: Library, schema: Data, key: string, i: nat) {
    var ps := PlacesOf(lib, schema);
    && i < |ps| && IsNamed(lib, schema, ps[i].tokens, key)
    && forall j :: i < j < |ps| ==> !IsNamed(lib, schema, ps[j].tokens, key)
  }

  /** What the `$ref` of a location names, resolved against the base in force, and as it is written. */
  ghost function ResolvedName(lib: Library, schema: Data, at: seq<string>, ref: string): string {
    var resolved := Resolved(lib, WayTo(lib, schema, at).base, ref);
    DecodeRef(lib.unescape, if resolved.Some? then resolved.value else ref)
  }

  function WrittenName(lib: Library, ref: string): string { DecodeRef(lib.unescape, ref) }

  /** The name that counts: as resolved where some location has that name, else as written. */
  ghost function NameOf(lib: Library, schema: Data, at: seq<string>, ref: string): string {
    var resolved := ResolvedName(lib, schema, at, ref);
    if NamesSome(lib, schema, resolved) then resolved else WrittenName(lib, ref)
  }

  lemma NamesAreIndex(lib: Library, schema: Data, key: string)
    requires IsRuby(schema)
    ensures var refs := RefsOf(WorkOf(lib), schema);
      && (key in refs <==> NamesSome(lib, schema, key)) && (key in refs ==> NamesLast(lib, schema, key, refs[key]))
  {
    var ps := PlacesOf(lib, schema);
    IndexIsLast(lib, schema, key);
    forall i | 0 <= i < |ps| ensures IsKey(lib, ps[i], key) <==> IsNamed(lib, schema, ps[i].tokens, key) {
      PlacesSited(lib, schema, i);
      KeysAreNames(lib, schema, ps[i], key);
    }
  }

  /** The target by the two names. */
  lemma TargetOf(lib: Library, m: Index, source: Data, scope: Scope, ref: string)
    requires HasKeywords(source) && TextOf(source, "$ref") == Some(ref)
    ensures var resolved := ResolveRef(lib, scope, ref);
      var first := DecodeRef(lib.unescape, if resolved.Some? then resolved.value else ref);
      var second := DecodeRef(lib.unescape, ref);
      Target(lib, m, NamesOf(lib, source, scope)) ==
      if first in m then Some(m[first]) else if second in m then Some(m[second]) else None
  {
  }

  lemma ResolvedSame(lib: Library, way: Way, ref: string)
    ensures ResolveRef(lib, ScopeOf(way), ref) == Resolved(lib, way.base, ref)
  {
    AbsoluteSame(ref);
  }

  /** What the compiler binds to is the last location of the name that counts, and nothing exactly if there is none. */
  lemma TargetIsNamed(lib: Library, schema: Data, i: nat, ref: string)
    requires IsRuby(schema) && i < |PlacesOf(lib, schema)|
    requires HasKeywords(PlacesOf(lib, schema)[i].source) && J.RefOf(PlacesOf(lib, schema)[i].source) == Some(ref)
    ensures var p := PlacesOf(lib, schema)[i];
      var target, key := Target(lib, RefsOf(WorkOf(lib), schema), NamesOf(lib, p.source, p.site.scope)),
                         NameOf(lib, schema, p.tokens, ref);
      && (target.Some? <==> NamesSome(lib, schema, key))
      && (target.Some? ==> NamesLast(lib, schema, key, target.value))
  {
    var p := PlacesOf(lib, schema)[i];
    PlacesSited(lib, schema, i);
    ResolvedSame(lib, WayTo(lib, schema, p.tokens), ref);
    TargetOf(lib, RefsOf(WorkOf(lib), schema), p.source, p.site.scope, ref);
    NamesAreIndex(lib, schema, ResolvedName(lib, schema, p.tokens, ref));
    NamesAreIndex(lib, schema, WrittenName(lib, ref));
  }

  /** The graph that the compiler hands out, with every reference bound. */
  ghost predicate IsGraph(lib: Library, schema: Data, nodes: seq<Compiled>) {
    var w := WorkOf(lib);
    var all, refs := NodesOf(w, schema), RefsOf(w, schema);
    NoneUnresolved(lib, refs, all, 0, |all|) && BoundIn(lib, refs, all, nodes, 0, |all|)
  }

  lemma NodeCountIs(lib: Library, schema: Data)
    ensures |NodesOf(WorkOf(lib), schema)| == |PlacesOf(lib, schema)|
  {
    RefsAreIndex(lib, schema);
    ArenaLength(PlanOf(lib), TreeOf(WholeSchema(schema)), TOP, 0);
    PlacesCount(lib, TreeOf(WholeSchema(schema)), Top(schema));
  }

  lemma GraphNode(lib: Library, schema: Data, nodes: seq<Compiled>, i: Address)
    requires IsGraph(lib, schema, nodes) && i < |PlacesOf(lib, schema)|
    ensures |nodes| == |PlacesOf(lib, schema)|
    ensures var p, refs := PlacesOf(lib, schema)[i], RefsOf(WorkOf(lib), schema);
      var root := Root(FormOf(), lib, p.source, p.site, i);
      nodes[i] == Bind(lib, refs, root) && !Unresolved(lib, refs, root)
  {
    NodesArePlaces(lib, schema, i);
    NodeCountIs(lib, schema);
  }

  /** In a graph that is handed out, a `$ref` is bound to the last location of the name that counts. */
  lemma ReferenceBound(lib: Library, schema: Data, nodes: seq<Compiled>, i: nat, ref: string)
    requires IsRuby(schema) && IsGraph(lib, schema, nodes) && i < |PlacesOf(lib, schema)|
    requires HasKeywords(PlacesOf(lib, schema)[i].source) && J.RefOf(PlacesOf(lib, schema)[i].source) == Some(ref)
    ensures i < |nodes| && nodes[i].refSchema.Some?
    ensures NamesLast(lib, schema, NameOf(lib, schema, PlacesOf(lib, schema)[i].tokens, ref), nodes[i].refSchema.value)
  {
    GraphNode(lib, schema, nodes, i);
    TargetIsNamed(lib, schema, i, ref);
    assert TextOf(PlacesOf(lib, schema)[i].source, "$ref") == Some(ref);
  }

  /** A location whose `$ref` names no location. */
  ghost predicate Misses(lib: Library, schema: Data, i: nat) {
    i < |PlacesOf(lib, schema)| &&
    var p := PlacesOf(lib, schema)[i];
    var ref := J.RefOf(p.source);
    HasKeywords(p.source) && ref.Some? && !NamesSome(lib, schema, NameOf(lib, schema, p.tokens, ref.value))
  }

  /** Compiling raises for a `$ref` exactly if some location's names nothing. */
  lemma RaisesForMissing(lib: Library, schema: Data)
    requires IsRuby(schema)
    ensures var all := NodesOf(WorkOf(lib), schema);
      NoneUnresolved(lib, RefsOf(WorkOf(lib), schema), all, 0, |all|) <==> forall i :: !Misses(lib, schema, i)
  {
    var all, refs, ps := NodesOf(WorkOf(lib), schema), RefsOf(WorkOf(lib), schema), PlacesOf(lib, schema);
    NodeCountIs(lib, schema);
    forall i: nat | i < |ps| ensures Unresolved(lib, refs, all[i]) <==> Misses(lib, schema, i) {
      NodesArePlaces(lib, schema, i);
      assert TextOf(ps[i].source, "$ref") == J.RefOf(ps[i].source);
      if HasKeywords(ps[i].source) && J.RefOf(ps[i].source).Some? {
        TargetIsNamed(lib, schema, i, J.RefOf(ps[i].source).value);
      }
    }
  }
}
