/**
 References without `$id`. Every node of the arena is compiled from what lies at one location of the
 schema, every location has one node, and the index leads from the literal path of a location to
 that node and from nothing else.
 */
module References {
  import opened Values
  import opened Bytes
  import opened Schema
  import opened SchemaTree
  import opened Slashes
  import opened Layout
  import opened Blueprint
  import opened CompilerObject
  import opened RefResolver
  import opened Location
  import opened Siblings
  import opened RefDecoder
  import opened Pointer

  const NOWHERE := Scope(None, None)

  predicate NoSlash(token: string) { forall i :: 0 <= i < |token| ==> token[i] != '/' }

  ghost predicate NoSlashes(tokens: seq<string>) { forall t :: t in tokens ==> NoSlash(t) }

  /** No compiled schema has an `$id`, and no key on the way to one has a slash. */
  ghost predicate IsSimple(c: Child)
    decreases Height(c.source)
  {
    KidsLower(c.source);
    HasNoId(c.source) && NoSlashes(c.tokens) && forall k :: k in Kids(c.source) ==> IsSimple(k)
  }

  predicate HasNoId(source: Data) { HasKeywords(source) ==> TextOf(source, "$id").None? }

  // ---------------------------------------------------------------------------------------
  // Literal paths
  // ---------------------------------------------------------------------------------------

  lemma {:induction false} PathAdded(x: seq<string>, y: seq<string>)
    ensures PrintSlashed(x + y) == PrintSlashed(x) + PrintSlashed(y)
    decreases |x|
  {
    if x == [] {
      assert x + y == y;
    } else {
      assert (x + y)[1..] == x[1..] + y;
      PathAdded(x[1..], y);
    }
  }

  predicate IsSlash(c: char) { c == '/' }

  lemma TokenAhead(t: string, rest: string)
    requires NoSlash(t) && AtSlash(rest)
    ensures FirstOf(t + rest, IsSlash) == |t|
  {
    FirstOfSplit(t, rest, IsSlash);
  }

  /** Without slashes in the tokens, a path spells only one list of them. */
  lemma {:induction false} PathInjective(x: seq<string>, y: seq<string>)
    requires NoSlashes(x) && NoSlashes(y) && PrintSlashed(x) == PrintSlashed(y)
    ensures x == y
    decreases |x|
  {
    if x != [] && y != [] {
      var a, b := PrintSlashed(x[1..]), PrintSlashed(y[1..]);
      assert x[0] in x && y[0] in y;
      SlashedStart(x[1..]);
      SlashedStart(y[1..]);
      SplitPath(x[0], a, y[0], b);
      PathInjective(x[1..], y[1..]);
      assert x == [x[0]] + x[1..] && y == [y[0]] + y[1..];
    }
  }

  lemma SplitPath(s: string, a: string, t: string, b: string)
    requires NoSlash(s) && NoSlash(t) && AtSlash(a) && AtSlash(b) && "/" + s + a == "/" + t + b
    ensures s == t && a == b
  {
    assert ("/" + s + a)[1..] == s + a && ("/" + t + b)[1..] == t + b;
    TokenAhead(s, a);
    TokenAhead(t, b);
    assert s == (s + a)[..|s|] && t == (t + b)[..|t|];
    assert a == (s + a)[|s|..] && b == (t + b)[|t|..];
  }

  // ---------------------------------------------------------------------------------------
  // Children in the arena
  // ---------------------------------------------------------------------------------------

  ghost function Below(w: Work, source: Data): seq<Child> {
    if HasKeywords(source) then KidsOf(w, source, GROUPS) else []
  }

  ghost predicate SamePart(parts: Parts, schema: Data, g: Group) { parts(schema, g) == GroupKids(schema, g) }

  lemma {:induction false} SameGroups(parts: Parts, schema: Data, gs: seq<Group>)
    requires forall g :: SamePart(parts, schema, g)
    ensures GroupsKids(parts, schema, gs) == GroupsKids(PartsOf(), schema, gs)
    decreases |gs|
  {
    if gs != [] {
      SameGroups(parts, schema, gs[..|gs| - 1]);
      assert SamePart(parts, schema, gs[|gs| - 1]);
    }
  }

  lemma BelowIsKids(w: Work, lib: Library, source: Data)
    requires IsWork(w, lib)
    ensures Below(w, source) == Kids(source)
  {
    forall g ensures SamePart(w.form.parts, source, g) {
      assert ReadsGroup(w, source, NO_LINKS, g, []);
    }
    SameGroups(w.form.parts, source, GROUPS);
  }

  /** Nodes that are a stretch of others. */
  ghost predicate Part(nodes: seq<Compiled>, a: Address, part: seq<Compiled>, at: Address) {
    a <= at && at + |part| <= a + |nodes| && nodes[at - a..at - a + |part|] == part
  }

  lemma PartOfPart(x: seq<Compiled>, a: Address, y: seq<Compiled>, b: Address, z: seq<Compiled>, c: Address)
    requires Part(x, a, y, b) && Part(y, b, z, c)
    ensures Part(x, a, z, c)
  {
    forall q: nat | q < |z| ensures x[c - a + q] == z[q] {
      PartAt(x, a, y, b, c + q);
      PartAt(y, b, z, c, c + q);
    }
  }

  lemma PartAt(x: seq<Compiled>, a: Address, y: seq<Compiled>, b: Address, i: Address)
    requires Part(x, a, y, b) && b <= i < b + |y|
    ensures x[i - a] == y[i - b]
  {
  }

  /** A node and all that is below it. */
  lemma NodeFirst(w: Work, lib: Library, c: Child, site: Site, a: Address)
    requires IsWork(w, lib)
    ensures var all, below := w.one(c, site, a), w.arena(Below(w, c.source), InnerSite(lib, c.source, site), a + 1);
      all == [Root(w.form, lib, c.source, site, a)] + below && Part(all, a, below, a + 1)
      && |below| == w.form.size(Below(w, c.source))
  {
    var inner, kids := InnerSite(lib, c.source, site), Below(w, c.source);
    assert Opens(w, lib, c, site, a, map[]) && Empty(w, inner, a + 1, map[]);
    NodeCount(w, lib, kids, inner, a + 1);
    assert ([Root(w.form, lib, c.source, site, a)] + w.arena(kids, inner, a + 1))[1..] == w.arena(kids, inner, a + 1);
  }

  ghost function Start(w: Work, source: Data, a: Address, j: nat): Address
    requires j <= |Below(w, source)|
  {
    a + 1 + w.form.size(Below(w, source)[..j])
  }

  ghost predicate Under(site: Site, k: Child, there: Site) {
    there.path == site.path + PrintSlashed(k.tokens) && (site.scope == NOWHERE ==> there.scope == NOWHERE)
  }

  /** Everything about the j-th child. */
  ghost predicate Kid(
    w: Work, lib: Library, c: Child, site: Site, a: Address, j: nat, k: Child, there: Site, at: Address)
  {
    && j < |Below(w, c.source)| && k == Below(w, c.source)[j] && k in Kids(c.source)
      && at == Start(w, c.source, a, j) > a
    && Under(site, k, there)
    && Part(w.one(c, site, a), a, w.one(k, there, at), at)
    && Height(k.source) < Height(c.source) && IsRuby(k.source) && IsSimple(k) && NoSlashes(k.tokens) && k.tokens != []
  }

  ghost predicate IsPlain(c: Child) { IsRuby(c.source) && IsSimple(c) }

  lemma KidOf(w: Work, lib: Library, c: Child, site: Site, a: Address, j: nat)
    returns (k: Child, there: Site, at: Address)
    requires IsWork(w, lib) && IsPlain(c) && j < |Below(w, c.source)|
    ensures Kid(w, lib, c, site, a, j, k, there, at) && there == KidSite(InnerSite(lib, c.source, site), k)
  {
    var kids, inner := Below(w, c.source), InnerSite(lib, c.source, site);
    k := kids[j];
    there, at := KidSite(inner, k), Start(w, c.source, a, j);
    NodeFirst(w, lib, c, site, a);
    KidRegion(w, lib, kids, inner, a + 1, j);
    PartOfPart(w.one(c, site, a), a, w.arena(kids, inner, a + 1), a + 1, w.one(k, there, at), at);
    KidIsPlain(w, lib, c, k);
  }

  lemma KidIsPlain(w: Work, lib: Library, c: Child, k: Child)
    requires IsWork(w, lib) && IsPlain(c) && k in Below(w, c.source)
    ensures k in Kids(c.source) && Height(k.source) < Height(c.source)
    ensures IsRuby(k.source) && IsSimple(k) && NoSlashes(k.tokens) && k.tokens != []
  {
    BelowIsKids(w, lib, c.source);
    KidsLower(c.source);
    KidLeads(c.source, k, []);
  }

  /** The child that an address below a node belongs to. */
  lemma {:induction false} KidAround(
    w: Work, lib: Library, kids: seq<Child>, inner: Site, base: Address, n: nat, i: Address)
    returns (j: nat)
    requires IsWork(w, lib) && n <= |kids| && base <= i < base + w.form.size(kids[..n])
    ensures j < n
    ensures base + w.form.size(kids[..j]) <= i < base + w.form.size(kids[..j]) + w.form.size([kids[j]])
    decreases n
  {
    NoRoom(w, lib, inner);
    assert kids[..0] == [];
    if n > 0 {
      KidRegion(w, lib, kids, inner, base, n - 1);
      if base + w.form.size(kids[..n - 1]) <= i {
        j := n - 1;
      } else {
        j := KidAround(w, lib, kids, inner, base, n - 1, i);
      }
    }
  }

  lemma NodesOfKid(w: Work, lib: Library, k: Child, inner: Site, at: Address)
    requires IsWork(w, lib)
    ensures |w.one(k, KidSite(inner, k), at)| == w.form.size([k])
  {
    assert Alone(w, lib, k, inner, at, map[]);
    NodeCount(w, lib, [k], inner, at);
  }

  lemma KidHolding(w: Work, lib: Library, c: Child, site: Site, a: Address, i: Address)
    returns (j: nat, k: Child, there: Site, at: Address)
    requires IsWork(w, lib) && IsPlain(c) && a < i < a + |w.one(c, site, a)|
    ensures Kid(w, lib, c, site, a, j, k, there, at) && at <= i < at + |w.one(k, there, at)|
  {
    var kids, inner := Below(w, c.source), InnerSite(lib, c.source, site);
    NodeFirst(w, lib, c, site, a);
    assert kids[..|kids|] == kids;
    j := KidAround(w, lib, kids, inner, a + 1, |kids|, i);
    k, there, at := KidOf(w, lib, c, site, a, j);
    NodesOfKid(w, lib, k, inner, at);
  }

  // ---------------------------------------------------------------------------------------
  // Nodes and locations
  // ---------------------------------------------------------------------------------------

  /** A node is compiled from what lies at a location. */
  ghost predicate Spot(
    form: Form, lib: Library, nodes: seq<Compiled>, a: Address, source: Data, site: Site,
    i: Address, tokens: seq<string>, d: Data, there: Site)
  {
    && a <= i < a + |nodes|
    && Locate(source, tokens) == Some(d) && NoSlashes(tokens)
    && there.path == site.path + PrintSlashed(tokens) && (site.scope == NOWHERE ==> there.scope == NOWHERE)
    && nodes[i - a] == Root(form, lib, d, there, i)
  }

  lemma SpotHere(w: Work, lib: Library, c: Child, site: Site, a: Address)
    requires IsWork(w, lib)
    ensures Spot(w.form, lib, w.one(c, site, a), a, c.source, site, a, [], c.source, site)
  {
    NodeFirst(w, lib, c, site, a);
    assert site.path + [] == site.path;
  }

  lemma PathOn(path: string, x: seq<string>, y: seq<string>)
    ensures path + PrintSlashed(x) + PrintSlashed(y) == path + PrintSlashed(x + y)
  {
    PathAdded(x, y);
    Assoc(path, PrintSlashed(x), PrintSlashed(y));
  }

  lemma Assoc(a: string, b: string, c: string)
    ensures a + b + c == a + (b + c)
  {
  }

  /** A spot of a child is a spot of the node. */
  lemma SpotInside(
    form: Form, lib: Library, nodes: seq<Compiled>, a: Address, source: Data, site: Site,
    k: Child, below: Site, part: seq<Compiled>, at: Address, i: Address, tokens: seq<string>, d: Data, there: Site)
    requires Part(nodes, a, part, at) && Leads(source, k, tokens) && NoSlashes(k.tokens) && Under(site, k, below)
    requires Spot(form, lib, part, at, k.source, below, i, tokens, d, there)
    ensures Spot(form, lib, nodes, a, source, site, i, k.tokens + tokens, d, there)
  {
    PathOn(site.path, k.tokens, tokens);
    PartAt(nodes, a, part, at, i);
  }

  /** Every node has a location. */
  lemma {:induction false} SpotOf(w: Work, lib: Library, c: Child, site: Site, a: Address, i: Address)
    returns (tokens: seq<string>, d: Data, there: Site)
    requires IsWork(w, lib) && IsPlain(c) && a <= i < a + |w.one(c, site, a)|
    ensures Spot(w.form, lib, w.one(c, site, a), a, c.source, site, i, tokens, d, there)
    decreases Height(c.source)
  {
    if i == a {
      tokens, d, there := [], c.source, site;
      SpotHere(w, lib, c, site, a);
    } else {
      var j, k, below, at := KidHolding(w, lib, c, site, a, i);
      tokens, d, there := SpotThrough(w, lib, c, site, a, i, j, k, below, at);
      tokens := k.tokens + tokens;
    }
  }

  /** The tokens of a node begin with those of the child it lies in. */
  lemma {:induction false} SpotThrough(
    w: Work, lib: Library, c: Child, site: Site, a: Address, i: Address, j: nat, k: Child, below: Site, at: Address)
    returns (rest: seq<string>, d: Data, there: Site)
    requires IsWork(w, lib) && IsPlain(c) && Kid(w, lib, c, site, a, j, k, below, at)
    requires at <= i < at + |w.one(k, below, at)|
    ensures Spot(w.form, lib, w.one(c, site, a), a, c.source, site, i, k.tokens + rest, d, there)
    decreases Height(c.source), 0
  {
    rest, d, there := SpotOf(w, lib, k, below, at, i);
    KidLeads(c.source, k, rest);
    SpotInside(w.form, lib, w.one(c, site, a), a, c.source, site, k, below, w.one(k, below, at), at, i, rest, d, there);
  }

  lemma KidOnTheWay(w: Work, lib: Library, c: Child, site: Site, a: Address, tokens: seq<string>)
    returns (k: Child, below: Site, at: Address)
    requires IsWork(w, lib) && IsPlain(c) && tokens != [] && Locate(c.source, tokens).Some?
    ensures OnTheWay(c.source, tokens, k) && Under(site, k, below) && NoSlashes(k.tokens) && IsPlain(k)
    ensures Part(w.one(c, site, a), a, w.one(k, below, at), at) && Height(k.source) < Height(c.source)
    ensures Leads(c.source, k, tokens[|k.tokens|..])
  {
    k := KidFound(c.source, tokens);
    BelowIsKids(w, lib, c.source);
    var j: nat :| j < |Below(w, c.source)| && Below(w, c.source)[j] == k;
    k, below, at := KidOf(w, lib, c, site, a, j);
    KidLeads(c.source, k, tokens[|k.tokens|..]);
  }

  /** Every location has a node. */
  lemma {:induction false} SpotAt(w: Work, lib: Library, c: Child, site: Site, a: Address, tokens: seq<string>)
    returns (i: Address, there: Site)
    requires IsWork(w, lib) && IsPlain(c) && Locate(c.source, tokens).Some?
    ensures Spot(w.form, lib, w.one(c, site, a), a, c.source, site, i, tokens, Locate(c.source, tokens).value, there)
    decreases Height(c.source)
  {
    if tokens == [] {
      i, there := a, site;
      SpotHere(w, lib, c, site, a);
    } else {
      var k, below, at := KidOnTheWay(w, lib, c, site, a, tokens);
      var rest := tokens[|k.tokens|..];
      i, there := SpotAt(w, lib, k, below, at, rest);
      assert k.tokens + rest == tokens;
      SpotInside(w.form, lib, w.one(c, site, a), a, c.source, site, k, below, w.one(k, below, at), at, i, rest,
                 Locate(k.source, rest).value, there);
    }
  }

  /** Two nodes with one path are one node. */
  lemma {:induction false} SpotsApart(w: Work, lib: Library, c: Child, site: Site, a: Address, i: Address, j: Address)
    requires IsWork(w, lib) && IsPlain(c)
    requires a <= i < a + |w.one(c, site, a)| && a <= j < a + |w.one(c, site, a)|
    requires w.one(c, site, a)[i - a].path == w.one(c, site, a)[j - a].path
    ensures i == j
    decreases Height(c.source)
  {
    var nodes := w.one(c, site, a);
    if i != a && j != a {
      var x, k, there, at := KidHolding(w, lib, c, site, a, i);
      var y, k', there', at' := KidHolding(w, lib, c, site, a, j);
      if x == y {
        SameKid(w, lib, c, site, a, x, k, there, at, k', there', at', i, j);
      } else {
        var rest, d, spot := SpotThrough(w, lib, c, site, a, i, x, k, there, at);
        var rest', d', spot' := SpotThrough(w, lib, c, site, a, j, y, k', there', at');
        SamePath(site.path, k.tokens + rest, k'.tokens + rest');
        BelowIsKids(w, lib, c.source);
        KidsApart(c.source);
        PrefixesClash(k, k', k.tokens + rest);
      }
    } else if i != j {
      RootAlone(w, lib, c, site, a, if i == a then j else i);
    }
  }

  lemma {:induction false} SameKid(
    w: Work, lib: Library, c: Child, site: Site, a: Address, x: nat, k: Child, there: Site, at: Address,
    k': Child, there': Site, at': Address, i: Address, j: Address)
    requires IsWork(w, lib) && IsPlain(c)
    requires Kid(w, lib, c, site, a, x, k, there, at) && Kid(w, lib, c, site, a, x, k', there', at')
    requires at <= i < at + |w.one(k, there, at)| && at' <= j < at' + |w.one(k', there', at')|
    requires w.one(c, site, a)[i - a].path == w.one(c, site, a)[j - a].path
    ensures i == j
    decreases Height(c.source), 0
  {
    var nodes, part := w.one(c, site, a), w.one(k, there, at);
    SameLength(w, lib, k, there, there', at);
    PartAt(nodes, a, part, at, i);
    PartAt(nodes, a, part, at, j);
    SpotsApart(w, lib, k, there, at, i, j);
  }

  /** A subtree takes the same room wherever it is compiled. */
  lemma SameLength(w: Work, lib: Library, c: Child, site: Site, other: Site, a: Address)
    requires IsWork(w, lib)
    ensures |w.one(c, site, a)| == |w.one(c, other, a)|
  {
    NodeFirst(w, lib, c, site, a);
    NodeFirst(w, lib, c, other, a);
  }

  lemma SamePath(path: string, x: seq<string>, y: seq<string>)
    requires NoSlashes(x) && NoSlashes(y) && path + PrintSlashed(x) == path + PrintSlashed(y)
    ensures x == y
  {
    assert PrintSlashed(x) == (path + PrintSlashed(x))[|path|..];
    assert PrintSlashed(y) == (path + PrintSlashed(y))[|path|..];
    PathInjective(x, y);
  }

  lemma PrefixesClash(x: Child, y: Child, tokens: seq<string>)
    requires x.tokens <= tokens && y.tokens <= tokens
    ensures Clash(x, y) && Clash(y, x)
  {
    if |x.tokens| <= |y.tokens| {
      assert x.tokens == tokens[..|x.tokens|] == y.tokens[..|x.tokens|];
    } else {
      assert y.tokens == tokens[..|y.tokens|] == x.tokens[..|y.tokens|];
    }
  }

  /** No node below a node has its path. */
  lemma RootAlone(w: Work, lib: Library, c: Child, site: Site, a: Address, i: Address)
    requires IsWork(w, lib) && IsPlain(c) && a < i < a + |w.one(c, site, a)|
    ensures w.one(c, site, a)[i - a].path != w.one(c, site, a)[0].path
  {
    var j, k, below, at := KidHolding(w, lib, c, site, a, i);
    var rest, d, there := SpotThrough(w, lib, c, site, a, i, j, k, below, at);
    NodeFirst(w, lib, c, site, a);
    assert |PrintSlashed(k.tokens + rest)| > 0;
  }

  // ---------------------------------------------------------------------------------------
  // The index
  // ---------------------------------------------------------------------------------------

  /** An entry is as before, or leads to a node with that path. */
  ghost predicate IsEntry(nodes: seq<Compiled>, a: Address, m: Index, m': Index, key: string) {
    key in m' ==>
      || (key in m && m'[key] == m[key])
      || (a <= m'[key] < a + |nodes| && nodes[m'[key] - a].path == key)
  }

  /** What compiling some nodes at `a` does to the index. */
  ghost predicate Enters(nodes: seq<Compiled>, a: Address, m: Index, m': Index) {
    && (forall key :: IsEntry(nodes, a, m, m', key))
    && (forall key :: key in m ==> key in m')
    && (forall i :: 0 <= i < |nodes| ==> nodes[i].path in m')
  }

  /** Two stretches of nodes, one after the other. */
  lemma EntersBoth(x: seq<Compiled>, y: seq<Compiled>, a: Address, m: Index, m': Index, m'': Index)
    requires Enters(x, a, m, m') && Enters(y, a + |x|, m', m'')
    ensures Enters(x + y, a, m, m'')
  {
    forall key ensures IsEntry(x + y, a, m, m'', key) {
      assert IsEntry(x, a, m, m', key) && IsEntry(y, a + |x|, m', m'', key);
    }
  }

  lemma EntersNode(node: Compiled, a: Address, m: Index, m': Index)
    requires m' == m[node.path := a]
    ensures Enters([node], a, m, m')
  {
    forall key ensures IsEntry([node], a, m, m', key) {}
  }

  lemma EntersNone(a: Address, m: Index)
    ensures Enters([], a, m, m)
  {
    forall key ensures IsEntry([], a, m, m, key) {}
  }

  lemma NodeEntered(w: Work, lib: Library, source: Data, site: Site, a: Address, m: Index)
    requires HasNoId(source) && site.scope == NOWHERE
    ensures Entered(lib, source, site, a, m) == m[Root(w.form, lib, source, site, a).path := a]
    ensures InnerSite(lib, source, site).scope == NOWHERE
  {
  }

  lemma {:induction false} SchemaEnters(w: Work, lib: Library, c: Child, site: Site, a: Address, m: Index)
    requires IsWork(w, lib) && IsSimple(c) && site.scope == NOWHERE
    ensures Enters(w.one(c, site, a), a, m, w.enter(c, site, a, m))
    decreases Height(c.source), 1, 0
  {
    var node, inner := Root(w.form, lib, c.source, site, a), InnerSite(lib, c.source, site);
    var m' := Entered(lib, c.source, site, a, m);
    NodeEntered(w, lib, c.source, site, a, m);
    EntersNode(node, a, m, m');
    NodeFirst(w, lib, c, site, a);
    assert Opens(w, lib, c, site, a, m);
    if HasKeywords(c.source) {
      var kids := KidsOf(w, c.source, GROUPS);
      BelowIsKids(w, lib, c.source);
      assert kids == Kids(c.source);
      KidsLower(c.source);
      KidsEnter(w, lib, kids, inner, a + 1, m', Height(c.source));
      EntersBoth([node], w.arena(kids, inner, a + 1), a, m, m', w.index(kids, inner, a + 1, m'));
    }
  }

  lemma {:induction false} KidsEnter(
    w: Work, lib: Library, kids: seq<Child>, inner: Site, base: Address, m: Index, bound: nat)
    requires IsWork(w, lib) && inner.scope == NOWHERE && AllLower(kids, bound) && forall k :: k in kids ==> IsSimple(k)
    ensures Enters(w.arena(kids, inner, base), base, m, w.index(kids, inner, base, m))
    decreases bound, 0, |kids|
  {
    if kids == [] {
      assert Empty(w, inner, base, m);
      EntersNone(base, m);
    } else {
      var init, k := kids[..|kids| - 1], kids[|kids| - 1];
      var at, m' := base + w.form.size(init), w.index(init, inner, base, m);
      assert kids == init + [k];
      assert AddsNodes(w, init, [k], inner, base) && AddsEntries(w, init, [k], inner, base, m);
      assert Alone(w, lib, k, inner, at, m');
      KidsEnter(w, lib, init, inner, base, m, bound);
      NodeCount(w, lib, init, inner, base);
      SchemaEnters(w, lib, k, KidSite(inner, k), at, m');
      EntersBoth(w.arena(init, inner, base), w.one(k, KidSite(inner, k), at), base, m, m',
        w.index(kids, inner, base, m));
    }
  }

  // ---------------------------------------------------------------------------------------
  // References
  // ---------------------------------------------------------------------------------------

  /** The whole schema, where compilation starts. */
  function WholeSchema(schema: Data): Child { Child([], true, false, None, schema) }

  const TOP := Site("#", true, NOWHERE)

  ghost function NodesOf(w: Work, schema: Data): seq<Compiled> { w.one(WholeSchema(schema), TOP, 0) }
  ghost function RefsOf(w: Work, schema: Data): Index { w.enter(WholeSchema(schema), TOP, 0, map[]) }

  /**
   In a schema without `$id` and without slashes on the way to a subschema, the index holds exactly
   the literal paths of the compiled locations, and each leads to the one node compiled there.
   */
  lemma IndexIsWalk(w: Work, lib: Library, schema: Data, tokens: seq<string>)
    requires IsWork(w, lib) && IsRuby(schema) && IsSimple(WholeSchema(schema)) && NoSlashes(tokens)
    ensures var key, nodes, refs := "#" + PrintSlashed(tokens), NodesOf(w, schema), RefsOf(w, schema);
      && (key in refs <==> Locate(schema, tokens).Some?)
      && (key in refs ==>
            && refs[key] < |nodes|
            && (exists there: Site ::
                  there.path == key
                  && nodes[refs[key]] == Root(w.form, lib, Locate(schema, tokens).value, there, refs[key]))
            && forall i :: 0 <= i < |nodes| && nodes[i].path == key ==> i == refs[key])
  {
    var key, nodes, refs := "#" + PrintSlashed(tokens), NodesOf(w, schema), RefsOf(w, schema);
    SchemaEnters(w, lib, WholeSchema(schema), TOP, 0, map[]);
    assert IsEntry(nodes, 0, map[], refs, key);
    if key in refs {
      var i := refs[key];
      var found, d, there := SpotOf(w, lib, WholeSchema(schema), TOP, 0, i);
      SamePath("#", found, tokens);
      forall j: nat | j < |nodes| && nodes[j].path == key ensures j == i {
        SpotsApart(w, lib, WholeSchema(schema), TOP, 0, j, i);
      }
    }
    if Locate(schema, tokens).Some? {
      var i, there := SpotAt(w, lib, WholeSchema(schema), TOP, 0, tokens);
      assert nodes[i].path == key;
    }
  }

  /** What a reference is bound to where no base is in scope: what its decoded form leads to. */
  lemma TargetIsEntry(lib: Library, m: Index, d: Data)
    requires HasKeywords(d) && TextOf(d, "$ref").Some?
    ensures var decoded := DecodeRef(lib.unescape, TextOf(d, "$ref").value);
      Target(lib, m, NamesOf(lib, d, NOWHERE)) == if decoded in m then Some(m[decoded]) else None
  {
  }

  /**
   A `$ref` that is the pointer of some tokens, with nothing percent-encoded and no "~1", is bound to
   the node compiled at the location a plain walk along these tokens reaches, and raises where there
   is none.
   */
  lemma RefIsWalk(w: Work, lib: Library, schema: Data, d: Data, tokens: seq<string>)
    requires IsWork(w, lib) && IsRuby(schema) && IsSimple(WholeSchema(schema)) && NoSlashes(tokens)
    requires HasKeywords(d) && TextOf(d, "$ref") == Some("#" + Print(tokens))
    requires lib.unescape("#" + Print(tokens)) == "#" + Print(tokens)
    ensures var target, nodes := Target(lib, RefsOf(w, schema), NamesOf(lib, d, NOWHERE)), NodesOf(w, schema);
      if Locate(schema, tokens).None? then target.None?
      else
        && target.Some? && target.value < |nodes|
        && (exists there: Site :: there.path == "#" + PrintSlashed(tokens) &&
              nodes[target.value] == Root(w.form, lib, Locate(schema, tokens).value, there, target.value))
        && forall i :: 0 <= i < |nodes| && nodes[i].path == "#" + PrintSlashed(tokens) ==> i == target.value
  {
    RefDecodes(lib.unescape, tokens);
    TargetIsEntry(lib, RefsOf(w, schema), d);
    IndexIsWalk(w, lib, schema, tokens);
  }

  /** A `$ref` of a compiled location that decodes to the path of no compiled location. */
  ghost predicate Dangles(lib: Library, schema: Data, tokens: seq<string>) {
    var d := Locate(schema, tokens);
    && d.Some? && NoSlashes(tokens) && HasKeywords(d.value) && TextOf(d.value, "$ref").Some?
    && !IsLocationPath(schema, DecodeRef(lib.unescape, TextOf(d.value, "$ref").value))
  }

  ghost predicate LeadsTo(schema: Data, key: string, tokens: seq<string>) {
    NoSlashes(tokens) && Locate(schema, tokens).Some? && key == "#" + PrintSlashed(tokens)
  }

  ghost predicate IsLocationPath(schema: Data, key: string) {
    exists tokens :: LeadsTo(schema, key, tokens)
  }

  lemma KeysArePaths(w: Work, lib: Library, schema: Data, key: string)
    requires IsWork(w, lib) && IsRuby(schema) && IsSimple(WholeSchema(schema))
    ensures key in RefsOf(w, schema) <==> IsLocationPath(schema, key)
  {
    var nodes, refs := NodesOf(w, schema), RefsOf(w, schema);
    SchemaEnters(w, lib, WholeSchema(schema), TOP, 0, map[]);
    if key in refs {
      assert IsEntry(nodes, 0, map[], refs, key);
      var tokens, d, there := SpotOf(w, lib, WholeSchema(schema), TOP, 0, refs[key]);
      assert LeadsTo(schema, key, tokens);
    }
    if tokens :| LeadsTo(schema, key, tokens) { IndexIsWalk(w, lib, schema, tokens); }
  }

  lemma SpotDangles(w: Work, lib: Library, schema: Data, i: Address, tokens: seq<string>, d: Data, there: Site)
    requires IsWork(w, lib) && IsRuby(schema) && IsSimple(WholeSchema(schema))
    requires Spot(w.form, lib, NodesOf(w, schema), 0, schema, TOP, i, tokens, d, there)
    ensures Unresolved(lib, RefsOf(w, schema), NodesOf(w, schema)[i]) <==> Dangles(lib, schema, tokens)
  {
    if HasKeywords(d) && TextOf(d, "$ref").Some? {
      TargetIsEntry(lib, RefsOf(w, schema), d);
      KeysArePaths(w, lib, schema, DecodeRef(lib.unescape, TextOf(d, "$ref").value));
    }
  }

  /** "Unresolved $ref" is raised exactly where some `$ref` leads to no compiled location. */
  lemma RaisesForDangling(w: Work, lib: Library, schema: Data)
    requires IsWork(w, lib) && IsRuby(schema) && IsSimple(WholeSchema(schema))
    ensures NoneUnresolved(lib, RefsOf(w, schema), NodesOf(w, schema), 0, |NodesOf(w, schema)|) <==>
            !exists tokens :: Dangles(lib, schema, tokens)
  {
    var nodes, refs := NodesOf(w, schema), RefsOf(w, schema);
    if tokens :| Dangles(lib, schema, tokens) {
      var i, there := SpotAt(w, lib, WholeSchema(schema), TOP, 0, tokens);
      SpotDangles(w, lib, schema, i, tokens, Locate(schema, tokens).value, there);
    }
    forall i | 0 <= i < |nodes| && Unresolved(lib, refs, nodes[i])
      ensures exists tokens :: Dangles(lib, schema, tokens)
    {
      var tokens, d, there := SpotOf(w, lib, WholeSchema(schema), TOP, 0, i);
      SpotDangles(w, lib, schema, i, tokens, d, there);
    }
  }

  // ---------------------------------------------------------------------------------------
  // Where an `$id` is in scope
  // ---------------------------------------------------------------------------------------

  ghost predicate AllDescend(kids: seq<Child>, descends: bool) { forall k :: k in kids ==> k.descends == descends }

  lemma {:induction false} EntriesDescend(value: Data, tokens: seq<string>)
    ensures AllDescend(Entries(value, tokens), true)
    decreases Height(value), 1, 0
  {
    if value.Array? { ArrayEntriesDescend(value.items, tokens, |value.items|); }
  }

  lemma {:induction false} ArrayEntriesDescend(items: seq<Data>, tokens: seq<string>, n: nat)
    requires n <= |items|
    ensures AllDescend(ArrayEntries(items, tokens, n), true)
    decreases 1 + ItemsHeight(items), 0, n
  {
    if n > 0 {
      ItemLower(items, n - 1);
      ArrayEntriesDescend(items, tokens, n - 1);
      EntriesDescend(items[n - 1], tokens + [Decimal(n - 1)]);
    }
  }

  /** The pointer of the base follows a child exactly when it is not a single subschema such as `not` or `items`. */
  lemma PointerFollows(schema: Data, g: Group, c: Child)
    requires c in GroupKids(schema, g)
    ensures c.descends <==> !g.One?
  {
    match g {
      case One(kw) =>
      case Many(kw) =>
        var items := Lookup(schema, ManyKeyword(kw)).value.items;
        var i := ItemKidAt(kw, items, |items|, c);
      case Named(kw) =>
        var members := Lookup(schema, NamedKeyword(kw)).value.members;
        var i := MemberKidAt(kw, members, |members|, c);
      case Loose =>
        var i := LooseKidAt(schema.members, |schema.members|, c);
        EntriesDescend(schema.members[i].1, [schema.members[i].0.name]);
    }
  }
}
