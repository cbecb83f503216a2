/** Compiling a whole schema, and what holds of the graph of nodes that validation then runs on. */
module SchemaCompiler {
  import opened Values
  import opened Bytes
  import opened Schema
  import opened SchemaTree
  import opened Layout
  import opened Blueprint
  import opened CompilerObject
  import opened RefResolver
  import opened References
  import opened Location
  import opened Slashes
  import opened Pointer

  datatype Outcome = Ready | Rejected | DanglingRef

  /** `compile_schema`. */
  method CompileSchema(lib: Library, schema: Data) returns (z: Compiler, outcome: Outcome)
    ensures z.lib == lib
    ensures var w := WorkOf(lib);
      && (outcome.Rejected? <==> !w.sound(WholeSchema(schema)))
      && (outcome.DanglingRef? <==>
            w.sound(WholeSchema(schema))
              && !NoneUnresolved(lib, RefsOf(w, schema), NodesOf(w, schema), 0, |NodesOf(w, schema)|))
      && (outcome.Ready? ==>
            && z.refData == RefsOf(w, schema)
            && BoundIn(lib, RefsOf(w, schema), NodesOf(w, schema), z.nodes, 0, |NodesOf(w, schema)|))
  {
    ghost var w := WorkOf(lib);
    WorkHolds(lib);
    z := new Compiler(lib);
    var root := z.Create(None, "#", true);
    var ok := z.Compile(w, WholeSchema(schema), TOP, root, schema, Scope(None, None));
    if !ok { return z, Rejected; }
    NodesMatch(w, lib, schema, z.nodes);
    ok := ResolveRefs(z, w, WholeSchema(schema), TOP, root);
    return z, if ok then Ready else DanglingRef;
  }

  lemma NodesMatch(w: Work, lib: Library, schema: Data, nodes: seq<Compiled>)
    requires IsWork(w, lib) && nodes == [] + NodesOf(w, schema)
    ensures nodes == NodesOf(w, schema) && Matches(nodes, 0, NodesOf(w, schema))
  {
    forall i | 0 <= i < |nodes| ensures Plain(nodes[i]) == NodesOf(w, schema)[i] {
      var d, there := RootAt(w, lib, WholeSchema(schema), TOP, 0, i);
    }
  }

  // ---------------------------------------------------------------------------------------
  // Every node is the root of a subschema
  // ---------------------------------------------------------------------------------------

  lemma KidNear(w: Work, lib: Library, c: Child, site: Site, a: Address, i: Address)
    returns (k: Child, there: Site, at: Address)
    requires IsWork(w, lib) && a < i < a + |w.one(c, site, a)|
    ensures a < at <= i < at + |w.one(k, there, at)| && Part(w.one(c, site, a), a, w.one(k, there, at), at)
    ensures Height(k.source) < Height(c.source)
  {
    var kids, inner := Below(w, c.source), InnerSite(lib, c.source, site);
    NodeFirst(w, lib, c, site, a);
    BelowIsKids(w, lib, c.source);
    KidsLower(c.source);
    k, there, at := KidAmong(w, lib, kids, inner, a + 1, i);
    PartOfPart(w.one(c, site, a), a, w.arena(kids, inner, a + 1), a + 1, w.one(k, there, at), at);
  }

  lemma KidAmong(w: Work, lib: Library, kids: seq<Child>, inner: Site, base: Address, i: Address)
    returns (k: Child, there: Site, at: Address)
    requires IsWork(w, lib) && base <= i < base + w.form.size(kids)
    ensures base <= at <= i < at + |w.one(k, there, at)|
            && Part(w.arena(kids, inner, base), base, w.one(k, there, at), at)
    ensures k in kids
  {
    assert kids[..|kids|] == kids;
    var j := KidAround(w, lib, kids, inner, base, |kids|, i);
    k, there, at := kids[j], KidSite(inner, kids[j]), base + w.form.size(kids[..j]);
    KidRegion(w, lib, kids, inner, base, j);
  }

  /** The subschema whose node stands at `i`, with all its nodes. */
  lemma {:induction false} TreeAt(w: Work, lib: Library, c: Child, site: Site, a: Address, i: Address)
    returns (k: Child, there: Site)
    requires IsWork(w, lib) && a <= i < a + |w.one(c, site, a)|
    ensures Part(w.one(c, site, a), a, w.one(k, there, i), i)
    decreases Height(c.source)
  {
    if i == a {
      k, there := c, site;
    } else {
      var near, below, at := KidNear(w, lib, c, site, a, i);
      k, there := TreeAt(w, lib, near, below, at, i);
      PartOfPart(w.one(c, site, a), a, w.one(near, below, at), at, w.one(k, there, i), i);
    }
  }

  lemma RootAt(w: Work, lib: Library, c: Child, site: Site, a: Address, i: Address) returns (d: Data, there: Site)
    requires IsWork(w, lib) && a <= i < a + |w.one(c, site, a)|
    ensures w.one(c, site, a)[i - a] == Root(w.form, lib, d, there, i)
  {
    var k;
    k, there := TreeAt(w, lib, c, site, a, i);
    d := k.source;
    NodeFirst(w, lib, k, there, i);
    PartAt(w.one(c, site, a), a, w.one(k, there, i), i, i);
  }

  // ---------------------------------------------------------------------------------------
  // The index stays within the nodes
  // ---------------------------------------------------------------------------------------

  ghost predicate InRange(m: Index, m': Index, lo: Address, hi: Address) {
    forall key :: key in m' ==> (key in m && m'[key] == m[key]) || lo <= m'[key] < hi
  }

  lemma {:induction false} SchemaInRange(w: Work, lib: Library, c: Child, site: Site, a: Address, m: Index)
    requires IsWork(w, lib)
    ensures InRange(m, w.enter(c, site, a, m), a, a + |w.one(c, site, a)|)
    decreases Height(c.source), 1, 0
  {
    var inner, m' := InnerSite(lib, c.source, site), Entered(lib, c.source, site, a, m);
    NodeFirst(w, lib, c, site, a);
    assert Opens(w, lib, c, site, a, m);
    if HasKeywords(c.source) {
      BelowIsKids(w, lib, c.source);
      KidsLower(c.source);
      KidsInRange(w, lib, KidsOf(w, c.source, GROUPS), inner, a + 1, m', Height(c.source));
    }
  }

  lemma {:induction false} KidsInRange(
    w: Work, lib: Library, kids: seq<Child>, inner: Site, base: Address, m: Index, bound: nat)
    requires IsWork(w, lib) && AllLower(kids, bound)
    ensures InRange(m, w.index(kids, inner, base, m), base, base + w.form.size(kids))
    decreases bound, 0, |kids|
  {
    if kids == [] {
      assert Empty(w, inner, base, m);
    } else {
      var init, k := kids[..|kids| - 1], kids[|kids| - 1];
      var at, m' := base + w.form.size(init), w.index(init, inner, base, m);
      assert kids == init + [k];
      assert AddsRoom(w, init, [k], inner, base) && AddsEntries(w, init, [k], inner, base, m);
      assert Alone(w, lib, k, inner, at, m');
      NodeCount(w, lib, [k], inner, at);
      KidsInRange(w, lib, init, inner, base, m, bound);
      SchemaInRange(w, lib, k, KidSite(inner, k), at, m');
    }
  }

  // ---------------------------------------------------------------------------------------
  // Nothing unassigned is ever called
  // ---------------------------------------------------------------------------------------

  /**
   What a run may use of a node: its functions are assigned, its reference is bound, and all its
   children and its reference are nodes of the graph.
   */
  ghost predicate IsSafe(nodes: seq<Compiled>, node: Compiled) {
    && node.functions.validation.Some?
    && (node.functions.validation == Some(ByKeywords) ==> node.functions.typeCheck.Some? && node.functions.hasFormat)
    && (node.functions.validation == Some(ByRef) ==> node.refSchema.Some? && node.refSchema.value < |nodes|)
    && forall g, b :: b in FieldOf(node.links, g) ==> b < |nodes|
  }

  lemma ChildrenInside(
    w: Work, lib: Library, nodes: seq<Compiled>, c: Child, site: Site, a: Address, g: Group, b: Address)
    requires IsWork(w, lib) && Matches(nodes, a, w.one(c, site, a)) && a < |nodes| && b in FieldOf(nodes[a].links, g)
    ensures a < b < a + |w.one(c, site, a)|
  {
    var inner, hi := InnerSite(lib, c.source, site), a + |w.one(c, site, a)|;
    var kids, start := Division(w, lib, nodes, c, site, a);
    assert FieldHolds(w, nodes, nodes[a].links, inner, a + 1, hi, Height(c.source), kids, start, g);
    LiesWithin(w, lib, kids(g), inner, start(g), b);
  }

  lemma LiesWithin(w: Work, lib: Library, kids: seq<Child>, inner: Site, base: Address, b: Address)
    requires IsWork(w, lib) && b in w.form.lie(base, kids)
    ensures base <= b < base + w.form.size(kids)
  {
    var j :| 0 <= j < |w.form.lie(base, kids)| && w.form.lie(base, kids)[j] == b;
    LieLength(w, lib, kids, inner, base);
    KidRegion(w, lib, kids, inner, base, j);
    NodeFirst(w, lib, kids[j], KidSite(inner, kids[j]), b);
    NodeCount(w, lib, kids, inner, base);
  }

  lemma RootAssigned(form: Form, lib: Library, d: Data, there: Site, i: Address)
    ensures var node := Root(form, lib, d, there, i);
      && node.functions.validation.Some?
      && (node.functions.validation == Some(ByKeywords) ==> node.functions.typeCheck.Some? && node.functions.hasFormat)
      && (node.functions.validation == Some(ByRef) ==> node.names.ref.Some?)
  {
  }

  lemma TargetInRange(lib: Library, m: Index, names: Names, n: nat)
    requires Target(lib, m, names).Some? && InRange(map[], m, 0, n)
    ensures Target(lib, m, names).value < n
  {
  }

  lemma PartMatches(nodes: seq<Compiled>, all: seq<Compiled>, part: seq<Compiled>, i: Address)
    requires Matches(nodes, 0, all) && Part(all, 0, part, i)
    ensures Matches(nodes, i, part)
  {
    forall j | i <= j < i + |part| ensures Plain(nodes[j]) == part[j - i] { PartAt(all, 0, part, i, j); }
  }

  /** A graph the compiler hands out is what was compiled, with references bound. */
  lemma CompiledMatches(w: Work, lib: Library, schema: Data, nodes: seq<Compiled>)
    requires IsWork(w, lib)
    requires BoundIn(lib, RefsOf(w, schema), NodesOf(w, schema), nodes, 0, |NodesOf(w, schema)|)
    ensures Matches(nodes, 0, NodesOf(w, schema)) && |nodes| == |NodesOf(w, schema)|
  {
    NodesMatch(w, lib, schema, NodesOf(w, schema));
    BoundInMatches(lib, RefsOf(w, schema), NodesOf(w, schema), nodes, 0, |NodesOf(w, schema)|, 0, NodesOf(w, schema));
  }

  /** In every graph the compiler hands out, each node is safe to run. */
  lemma CompiledIsSafe(w: Work, lib: Library, schema: Data, nodes: seq<Compiled>, i: Address)
    requires IsWork(w, lib) && i < |nodes|
    requires NoneUnresolved(lib, RefsOf(w, schema), NodesOf(w, schema), 0, |NodesOf(w, schema)|)
    requires BoundIn(lib, RefsOf(w, schema), NodesOf(w, schema), nodes, 0, |NodesOf(w, schema)|)
    ensures IsSafe(nodes, nodes[i])
  {
    var all, refs := NodesOf(w, schema), RefsOf(w, schema);
    var d, there := RootAt(w, lib, WholeSchema(schema), TOP, 0, i);
    RootAssigned(w.form, lib, d, there, i);
    SchemaInRange(w, lib, WholeSchema(schema), TOP, 0, map[]);
    if Target(lib, refs, all[i].names).Some? { TargetInRange(lib, refs, all[i].names, |nodes|); }
    CompiledMatches(w, lib, schema, nodes);
    var k, site := TreeAt(w, lib, WholeSchema(schema), TOP, 0, i);
    PartMatches(nodes, all, w.one(k, site, i), i);
    forall g, b | b in FieldOf(nodes[i].links, g) ensures b < |nodes| {
      ChildrenInside(w, lib, nodes, k, site, i, g, b);
    }
  }

  // ---------------------------------------------------------------------------------------
  // Bound references
  // ---------------------------------------------------------------------------------------

  lemma SpotRef(form: Form, lib: Library, d: Data, there: Site, i: Address, ref: string)
    requires Root(form, lib, d, there, i).names.ref == Some(ref) && there.scope == NOWHERE
    ensures HasKeywords(d) && TextOf(d, "$ref") == Some(ref)
    ensures Root(form, lib, d, there, i).names == NamesOf(lib, d, NOWHERE)
  {
  }

  /**
   In a compiled graph without `$id` and slashes, a `$ref` that is the pointer of some tokens is bound to
   the one node whose path these tokens spell, compiled from what a plain walk along them reaches.
   */
  lemma BoundToWalk(w: Work, lib: Library, schema: Data, nodes: seq<Compiled>, i: Address, tokens: seq<string>)
    requires IsWork(w, lib) && IsRuby(schema) && IsSimple(WholeSchema(schema)) && NoSlashes(tokens) && i < |nodes|
    requires NoneUnresolved(lib, RefsOf(w, schema), NodesOf(w, schema), 0, |NodesOf(w, schema)|)
    requires BoundIn(lib, RefsOf(w, schema), NodesOf(w, schema), nodes, 0, |NodesOf(w, schema)|)
    requires nodes[i].names.ref == Some("#" + Print(tokens))
    requires lib.unescape("#" + Print(tokens)) == "#" + Print(tokens)
    ensures Locate(schema, tokens).Some? && nodes[i].refSchema.Some? && nodes[i].refSchema.value < |nodes|
    ensures exists there: Site :: there.path == "#" + PrintSlashed(tokens) &&
              var target := nodes[i].refSchema.value;
              Plain(nodes[target]) == Root(w.form, lib, Locate(schema, tokens).value, there, target)
    ensures forall j :: 0 <= j < |nodes| && nodes[j].path == "#" + PrintSlashed(tokens) ==>
            j == nodes[i].refSchema.value
  {
    var all, ref := NodesOf(w, schema), "#" + Print(tokens);
    CompiledMatches(w, lib, schema, nodes);
    assert Plain(nodes[i]) == all[i];
    var found, d, there := SpotOf(w, lib, WholeSchema(schema), TOP, 0, i);
    SpotRef(w.form, lib, d, there, i, ref);
    RefIsWalk(w, lib, schema, d, tokens);
    assert !Unresolved(lib, RefsOf(w, schema), all[i]);
    var target := nodes[i].refSchema.value;
    assert Plain(nodes[target]) == all[target];
    forall j | 0 <= j < |nodes| && nodes[j].path == "#" + PrintSlashed(tokens) ensures j == target {
      assert Plain(nodes[j]) == all[j];
    }
  }

  // ---------------------------------------------------------------------------------------
  // What compiling rejects
  // ---------------------------------------------------------------------------------------

  /** Every key of `patternProperties` is a regex. */
  predicate PatternsFit(lib: Library, d: Data) {
    var v := Lookup(d, NamedKeyword(PatternProperties));
    v.Some? && v.value.Object? ==>
      forall i :: 0 <= i < |v.value.members| && v.value.members[i].0.Name? ==> lib.compiles(v.value.members[i].0.name)
  }

  predicate IsAccepted(lib: Library, d: Data) { HasKeywords(d) ==> TypesOk(d) && PatternsFit(lib, d) }

  ghost predicate IsRefused(lib: Library, source: Data, tokens: seq<string>) {
    Locate(source, tokens).Some? && !IsAccepted(lib, Locate(source, tokens).value)
  }

  lemma {:induction false} GoodKids(w: Work, lib: Library, kids: seq<Child>, inner: Site)
    requires IsWork(w, lib)
    ensures w.good(kids) <==> forall k :: k in kids ==> w.sound(k) && KeyFits(lib, k)
    decreases |kids|
  {
    if kids == [] {
      assert Empty(w, inner, 0, map[]);
    } else {
      var init, k := kids[..|kids| - 1], kids[|kids| - 1];
      assert kids == init + [k];
      assert AddsEntries(w, init, [k], inner, 0, map[]) && Alone(w, lib, k, inner, 0, map[]);
      GoodKids(w, lib, init, inner);
    }
  }

  lemma KeysFit(lib: Library, d: Data)
    requires HasKeywords(d)
    ensures PatternsFit(lib, d) <==> forall k :: k in Kids(d) ==> KeyFits(lib, k)
  {
    if PatternsFit(lib, d) {
      forall k | k in Kids(d) ensures KeyFits(lib, k) {
        var g := GroupHolding(d, k);
        KeyFitsIn(lib, d, g, k);
      }
    } else {
      var members := Lookup(d, NamedKeyword(PatternProperties)).value.members;
      var i :| 0 <= i < |members| && members[i].0.Name? && !lib.compiles(members[i].0.name);
      PatternKid(d, members, i, members[i].0.name);
    }
  }

  lemma GroupHolding(d: Data, k: Child) returns (g: Group)
    requires HasKeywords(d) && k in Kids(d)
    ensures k in GroupKids(d, g)
  {
    var j := GroupOf(PartsOf(), d, GROUPS, k);
    g := GROUPS[j];
  }

  lemma PatternKid(d: Data, members: seq<(Key, Data)>, i: nat, name: string)
    requires HasKeywords(d) && Lookup(d, NamedKeyword(PatternProperties)) == Some(Object(members))
    requires i < |members| && members[i].0 == Name(name)
    ensures MemberKid(PatternProperties, name, members[i].1) in Kids(d)
  {
    var k := MemberKid(PatternProperties, name, members[i].1);
    MemberKidIn(PatternProperties, members, i, |members|, name);
    assert k in GroupKids(d, Named(PatternProperties));
    var j := GroupIndex(Named(PatternProperties));
    InGroups(PartsOf(), d, GROUPS, j, k);
  }

  lemma KeyFitsIn(lib: Library, d: Data, g: Group, k: Child)
    requires PatternsFit(lib, d) && k in GroupKids(d, g)
    ensures KeyFits(lib, k)
  {
    match g {
      case One(kw) =>
      case Many(kw) =>
        var items := Lookup(d, ManyKeyword(kw)).value.items;
        var i := ItemKidAt(kw, items, |items|, k);
      case Named(kw) =>
        var members := Lookup(d, NamedKeyword(kw)).value.members;
        var i := MemberKidAt(kw, members, |members|, k);
      case Loose =>
        var i := LooseKidAt(d.members, |d.members|, k);
        EntriesPlain(d.members[i].1, [d.members[i].0.name]);
    }
  }

  lemma {:induction false} EntriesPlain(value: Data, tokens: seq<string>)
    ensures forall k :: k in Entries(value, tokens) ==> k.regex.None?
    decreases Height(value), 1, 0
  {
    if value.Array? { ArrayEntriesPlain(value.items, tokens, |value.items|); }
  }

  lemma {:induction false} ArrayEntriesPlain(items: seq<Data>, tokens: seq<string>, n: nat)
    requires n <= |items|
    ensures forall k :: k in ArrayEntries(items, tokens, n) ==> k.regex.None?
    decreases 1 + ItemsHeight(items), 0, n
  {
    if n > 0 {
      ItemLower(items, n - 1);
      ArrayEntriesPlain(items, tokens, n - 1);
      EntriesPlain(items[n - 1], tokens + [Decimal(n - 1)]);
    }
  }

  lemma SoundNode(w: Work, lib: Library, c: Child)
    requires IsWork(w, lib)
    ensures w.sound(c) <==> IsAccepted(lib, c.source) && forall k :: k in Kids(c.source) ==> w.sound(k)
  {
    assert Opens(w, lib, c, TOP, 0, map[]);
    if HasKeywords(c.source) {
      BelowIsKids(w, lib, c.source);
      GoodKids(w, lib, Kids(c.source), TOP);
      KeysFit(lib, c.source);
    }
  }

  /**
   Compiling rejects a schema exactly when some location holds one with an invalid list of types, or with
   a key of `patternProperties` that is no regex.
   */
  lemma {:induction false} RejectsForLocation(w: Work, lib: Library, c: Child)
    requires IsWork(w, lib) && IsRuby(c.source)
    ensures w.sound(c) <==> forall tokens :: !IsRefused(lib, c.source, tokens)
    decreases Height(c.source)
  {
    SoundNode(w, lib, c);
    KidsLower(c.source);
    if !w.sound(c) {
      if !IsAccepted(lib, c.source) {
        assert IsRefused(lib, c.source, []);
      } else {
        var k :| k in Kids(c.source) && !w.sound(k);
        KidLeads(c.source, k, []);
        RejectsForLocation(w, lib, k);
        var rest :| IsRefused(lib, k.source, rest);
        KidLeads(c.source, k, rest);
        assert IsRefused(lib, c.source, k.tokens + rest);
      }
    } else if tokens :| IsRefused(lib, c.source, tokens) {
      var k := KidFound(c.source, tokens);
      KidLeads(c.source, k, []);
      RejectsForLocation(w, lib, k);
      assert IsRefused(lib, k.source, tokens[|k.tokens|..]);
    }
  }
}
