/**
 The schema compiler. It creates nodes one after the other, registers each under its path and ids,
 and recurses into the subschemas; what it leaves behind is the arena and the index of its plan.
 */
module CompilerObject {
  import opened Values
  import opened Bytes
  import opened Schema
  import opened SchemaTree
  import opened Slashes
  import opened Layout
  import opened Blueprint

  // ---------------------------------------------------------------------------------------
  // Paths
  // ---------------------------------------------------------------------------------------

  /** `new_path`. */
  function NewPath(root: string, name: string): string { root + "/" + name }

  /** `append_long_to_path`. */
  function AppendLong(root: string, i: nat): string { root + "/" + Decimal(i) }

  /** A step is spelled by its tokens. */
  predicate IsStep(step: string, tokens: seq<string>) { tokens != [] && step == Join('/', tokens) }

  lemma NewPathIs(root: string, step: string, tokens: seq<string>)
    requires IsStep(step, tokens)
    ensures NewPath(root, step) == root + PrintSlashed(tokens)
  {
    StepPath(tokens);
    assert NewPath(root, step) == root + ("/" + step);
  }

  lemma TwoSteps(a: string, b: string)
    ensures IsStep(NewPath(a, b), [a, b])
  {
    assert [a, b][1..] == [b];
  }

  /** `compile_context_descend`. */
  function DescendBy(scope: Scope, step: string): Scope {
    if scope.base.None? then scope
    else scope.(pointer := Some(NewPath(if scope.pointer.Some? then scope.pointer.value else "", step)))
  }

  lemma DescendIs(scope: Scope, step: string, tokens: seq<string>)
    requires IsStep(step, tokens)
    ensures DescendBy(scope, step) == Descend(scope, tokens)
  {
    NewPathIs(if scope.pointer.Some? then scope.pointer.value else "", step, tokens);
  }

  // ---------------------------------------------------------------------------------------
  // States of the compilation
  // ---------------------------------------------------------------------------------------

  /** Some children more. */
  ghost function Grow(w: Work, nodes: seq<Compiled>, kids: seq<Child>, inner: Site): seq<Compiled> {
    nodes + w.arena(kids, inner, |nodes|)
  }

  function Link(node: Compiled, links: Links): Compiled { node.(links := links) }

  /** A group of the node at `a` more. */
  ghost function AfterGroup(
    w: Work, nodes: seq<Compiled>, a: Address, g: Group, schema: Data, inner: Site): seq<Compiled>
    requires a < |nodes|
  {
    var kids := w.form.parts(schema, g);
    var links := w.form.fill(schema, nodes[a].links, g, w.form.lie(|nodes|, kids));
    nodes[a := Link(nodes[a], links)] + w.arena(kids, inner, |nodes|)
  }

  ghost function KidsOf(w: Work, schema: Data, gs: seq<Group>): seq<Child> { GroupsKids(w.form.parts, schema, gs) }

  /** The groups of `gs` done. */
  ghost function Partial(
    w: Work, before: seq<Compiled>, node: Compiled, schema: Data, gs: seq<Group>, inner: Site): seq<Compiled>
  {
    var base := |before| + 1;
    before + [Link(node, Grown(w.form, schema, gs, base))] + w.arena(KidsOf(w, schema, gs), inner, base)
  }

  lemma NodeCount(w: Work, lib: Library, kids: seq<Child>, inner: Site, base: Address)
    requires IsWork(w, lib)
    ensures |w.arena(kids, inner, base)| == w.form.size(kids)
  {
    assert AddsRoom(w, kids, [], inner, base);
  }

  lemma NoRoom(w: Work, lib: Library, inner: Site)
    requires IsWork(w, lib)
    ensures w.form.size([]) == 0
  {
    assert Empty(w, inner, 0, map[]);
  }

  lemma LieLength(w: Work, lib: Library, kids: seq<Child>, inner: Site, base: Address)
    requires IsWork(w, lib)
    ensures |w.form.lie(base, kids)| == |kids|
  {
    assert AddsRoom(w, kids, [], inner, base);
  }

  lemma PartialLength(
    w: Work, lib: Library, before: seq<Compiled>, node: Compiled, schema: Data, gs: seq<Group>, inner: Site)
    requires IsWork(w, lib)
    ensures |Partial(w, before, node, schema, gs, inner)| == |before| + 1 + w.form.size(KidsOf(w, schema, gs))
  {
    NodeCount(w, lib, KidsOf(w, schema, gs), inner, |before| + 1);
  }

  lemma GroupMore(w: Work, schema: Data, gs: seq<Group>, g: Group, base: Address)
    ensures KidsOf(w, schema, gs + [g]) == KidsOf(w, schema, gs) + w.form.parts(schema, g)
    ensures Grown(w.form, schema, gs + [g], base) ==
            w.form.fill(schema, Grown(w.form, schema, gs, base), g,
                        w.form.lie(base + w.form.size(KidsOf(w, schema, gs)), w.form.parts(schema, g)))
  {
    assert (gs + [g])[..|gs|] == gs;
  }

  /** One group after some. */
  lemma GroupAdded(
    w: Work, lib: Library, before: seq<Compiled>, node: Compiled, schema: Data, gs: seq<Group>, g: Group, inner: Site)
    requires IsWork(w, lib)
    ensures var now := Partial(w, before, node, schema, gs, inner);
      |before| < |now| &&
      Partial(w, before, node, schema, gs + [g], inner) == AfterGroup(w, now, |before|, g, schema, inner)
  {
    var base, now := |before| + 1, Partial(w, before, node, schema, gs, inner);
    var x, y := KidsOf(w, schema, gs), w.form.parts(schema, g);
    PartialLength(w, lib, before, node, schema, gs, inner);
    GroupMore(w, schema, gs, g, base);
    assert AddsNodes(w, x, y, inner, base);
    Appended(before, Link(node, Grown(w.form, schema, gs, base)), Link(node, Grown(w.form, schema, gs + [g], base)),
             w.arena(x, inner, base), w.arena(y, inner, |now|));
  }

  lemma Appended(before: seq<Compiled>, x: Compiled, y: Compiled, done: seq<Compiled>, more: seq<Compiled>)
    ensures (before + [x] + done)[|before| := y] + more == before + [y] + (done + more)
  {
  }

  lemma GroupEntered(
    w: Work, lib: Library, schema: Data, gs: seq<Group>, g: Group, base: Address, inner: Site, m: Index)
    requires IsWork(w, lib)
    ensures var x, y := KidsOf(w, schema, gs), w.form.parts(schema, g);
      && (w.good(KidsOf(w, schema, gs + [g])) <==> w.good(x) && w.good(y))
      && w.index(KidsOf(w, schema, gs + [g]), inner, base, m) ==
           w.index(y, inner, base + w.form.size(x), w.index(x, inner, base, m))
  {
    GroupMore(w, schema, gs, g, base);
    assert AddsEntries(w, KidsOf(w, schema, gs), w.form.parts(schema, g), inner, base, m);
  }

  /** What raises early raises in the end. */
  lemma GoodPrefix(w: Work, lib: Library, x: seq<Child>, y: seq<Child>, inner: Site)
    requires IsWork(w, lib) && x <= y
    ensures w.good(y) ==> w.good(x)
  {
    assert y == x + y[|x|..];
    assert AddsEntries(w, x, y[|x|..], inner, 0, map[]);
  }

  lemma {:induction false} GroupsPrefix(w: Work, schema: Data, gs: seq<Group>, k: nat)
    requires k <= |gs|
    ensures KidsOf(w, schema, gs[..k]) <= KidsOf(w, schema, gs)
    decreases |gs| - k
  {
    if k < |gs| {
      assert gs[..k + 1] == gs[..k] + [gs[k]];
      GroupMore(w, schema, gs[..k], gs[k], 0);
      GroupsPrefix(w, schema, gs, k + 1);
    } else {
      assert gs[..k] == gs;
    }
  }

  lemma {:induction false} ItemsPrefix(kw: Listed, items: seq<Data>, i: nat, n: nat)
    requires i <= n <= |items|
    ensures ItemKids(kw, items, i) <= ItemKids(kw, items, n)
    decreases n
  {
    if i < n { ItemsPrefix(kw, items, i, n - 1); }
  }

  lemma {:induction false} MembersPrefix(kw: Keyed, members: seq<(Key, Data)>, i: nat, n: nat)
    requires i <= n <= |members|
    ensures MemberKids(kw, members, i) <= MemberKids(kw, members, n)
    decreases n
  {
    if i < n { MembersPrefix(kw, members, i, n - 1); }
  }

  lemma {:induction false} EntriesPrefix(items: seq<Data>, tokens: seq<string>, i: nat, n: nat)
    requires i <= n <= |items|
    ensures ArrayEntries(items, tokens, i) <= ArrayEntries(items, tokens, n)
    decreases n
  {
    if i < n { EntriesPrefix(items, tokens, i, n - 1); }
  }

  lemma {:induction false} LoosePrefix(members: seq<(Key, Data)>, i: nat, n: nat)
    requires i <= n <= |members|
    ensures LooseKids(members, i) <= LooseKids(members, n)
    decreases n
  {
    if i < n { LoosePrefix(members, i, n - 1); }
  }

  /** Some more children. */
  lemma ChildrenAdded(
    w: Work, lib: Library, nodes: seq<Compiled>, x: seq<Child>, y: seq<Child>, inner: Site, m: Index)
    requires IsWork(w, lib)
    ensures var now := Grow(w, nodes, x, inner);
      && w.form.lie(|nodes|, x + y) == w.form.lie(|nodes|, x) + w.form.lie(|now|, y)
      && Grow(w, nodes, x + y, inner) == Grow(w, now, y, inner)
      && w.index(x + y, inner, |nodes|, m) == w.index(y, inner, |now|, w.index(x, inner, |nodes|, m))
      && (w.good(x + y) <==> w.good(x) && w.good(y))
  {
    var base := |nodes|;
    assert AddsRoom(w, x, y, inner, base) && AddsNodes(w, x, y, inner, base) && AddsEntries(w, x, y, inner, base, m);
    Regroup(nodes, w.arena(x, inner, base), w.arena(y, inner, base + w.form.size(x)));
  }

  lemma Regroup(nodes: seq<Compiled>, x: seq<Compiled>, y: seq<Compiled>)
    ensures nodes + (x + y) == nodes + x + y
  {
  }

  lemma NoChildren(w: Work, lib: Library, nodes: seq<Compiled>, inner: Site, m: Index)
    requires IsWork(w, lib)
    ensures Grow(w, nodes, [], inner) == nodes && w.index([], inner, |nodes|, m) == m
    ensures w.good([]) && w.form.lie(|nodes|, []) == []
  {
    assert Empty(w, inner, |nodes|, m);
  }

  /** A lone child. */
  lemma OneChild(w: Work, lib: Library, nodes: seq<Compiled>, c: Child, inner: Site, m: Index)
    requires IsWork(w, lib)
    ensures w.form.lie(|nodes|, [c]) == [|nodes|]
    ensures Grow(w, nodes, [c], inner) == nodes + w.one(c, KidSite(inner, c), |nodes|)
    ensures w.index([c], inner, |nodes|, m) == w.enter(c, KidSite(inner, c), |nodes|, m)
    ensures w.good([c]) <==> w.sound(c) && KeyFits(lib, c)
  {
    assert Alone(w, lib, c, inner, |nodes|, m);
  }

  /** One more child. */
  lemma ChildAdded(w: Work, lib: Library, nodes: seq<Compiled>, kids: seq<Child>, c: Child, inner: Site, m: Index)
    requires IsWork(w, lib)
    ensures var now := Grow(w, nodes, kids, inner);
      && w.form.lie(|nodes|, kids + [c]) == w.form.lie(|nodes|, kids) + [|now|]
      && Grow(w, nodes, kids + [c], inner) == now + w.one(c, KidSite(inner, c), |now|)
      && w.index(kids + [c], inner, |nodes|, m) ==
           w.enter(c, KidSite(inner, c), |now|, w.index(kids, inner, |nodes|, m))
      && (w.good(kids + [c]) <==> w.good(kids) && w.sound(c) && KeyFits(lib, c))
  {
    var now := Grow(w, nodes, kids, inner);
    ChildrenAdded(w, lib, nodes, kids, [c], inner, m);
    OneChild(w, lib, now, c, inner, w.index(kids, inner, |nodes|, m));
  }

  /** The field of a group is set after its children are there. */
  lemma GroupSet(w: Work, nodes: seq<Compiled>, a: Address, g: Group, schema: Data, inner: Site, links: Links)
    requires a < |nodes|
    requires links == w.form.fill(schema, nodes[a].links, g, w.form.lie(|nodes|, w.form.parts(schema, g)))
    ensures var now := Grow(w, nodes, w.form.parts(schema, g), inner);
      a < |now| && AfterGroup(w, nodes, a, g, schema, inner) == now[a := Link(nodes[a], links)]
  {
  }

  // ---------------------------------------------------------------------------------------
  // Starting and finishing a node
  // ---------------------------------------------------------------------------------------

  function StartValidation(source: Data): Validation {
    if source == Bool(false) then AlwaysFalse else if HasKeywords(source) then ByKeywords else NoOp
  }

  function StartOf(lib: Library, source: Data, node: Compiled, scope: Scope): Compiled {
    node.(functions := node.functions.(validation := Some(StartValidation(source))),
      names := NamesOf(lib, source, scope))
  }

  function EndOf(source: Data, node: Compiled): Compiled {
    node.(functions := node.functions.(
            hasFormat := true,
            typeFlags := if IsTypeList(source) then TypeFlagsOf(source) else node.functions.typeFlags,
            typeCheck := Some(TypeCheckOf(source)),
            validation := if node.names.ref.Some? then Some(ByRef) else node.functions.validation))
  }

  predicate IsTypeList(source: Data) {
    var t := TypeValue(source);
    t.Some? && t.value.Array?
  }

  lemma LeafIsRoot(form: Form, lib: Library, source: Data, site: Site, a: Address)
    requires !HasKeywords(source)
    ensures StartOf(lib, source, Blank(site.path, site.exposed), site.scope) == Root(form, lib, source, site, a)
  {
  }

  lemma NodeIsRoot(form: Form, lib: Library, source: Data, site: Site, a: Address)
    requires HasKeywords(source)
    ensures EndOf(source, Link(StartOf(lib, source, Blank(site.path, site.exposed), site.scope),
                               Grown(form, source, GROUPS, a + 1))) == Root(form, lib, source, site, a)
  {
  }

  /** A schema without keywords is one node. */
  lemma LeafDone(w: Work, lib: Library, c: Child, site: Site, a: Address, m: Index)
    requires IsWork(w, lib) && !HasKeywords(c.source)
    ensures w.one(c, site, a) == [StartOf(lib, c.source, Blank(site.path, site.exposed), site.scope)]
    ensures w.enter(c, site, a, m) == Entered(lib, c.source, site, a, m) && w.sound(c)
  {
    assert Opens(w, lib, c, site, a, m);
    LeafIsRoot(w.form, lib, c.source, site, a);
  }

  /** A schema with keywords is a node and the nodes of its groups. */
  lemma NodeDone(w: Work, lib: Library, c: Child, site: Site, a: Address, m: Index)
    requires IsWork(w, lib) && HasKeywords(c.source)
    ensures var inner, kids := InnerSite(lib, c.source, site), KidsOf(w, c.source, GROUPS);
      var node := StartOf(lib, c.source, Blank(site.path, site.exposed), site.scope);
      && w.one(c, site, a) ==
           [EndOf(c.source, Link(node, Grown(w.form, c.source, GROUPS, a + 1)))] + w.arena(kids, inner, a + 1)
      && w.enter(c, site, a, m) == w.index(kids, inner, a + 1, Entered(lib, c.source, site, a, m))
      && (w.sound(c) <==> TypesOk(c.source) && w.good(kids))
  {
    assert Opens(w, lib, c, site, a, m);
    NodeIsRoot(w.form, lib, c.source, site, a);
  }

  // ---------------------------------------------------------------------------------------
  // The compiler
  // ---------------------------------------------------------------------------------------

  class Compiler {
    const lib: Library
    /** The nodes in the order of their creation. */
    var nodes: seq<Compiled>
    /** From paths and ids to nodes. */
    var refData: Index

    constructor (lib: Library)
      ensures this.lib == lib && nodes == [] && refData == map[]
    {
      this.lib := lib;
      nodes := [];
      refData := map[];
    }

    /** `create_compiled_schema`. */
    method Create(parent: Option<Address>, path: string, exposed: bool) returns (a: Address)
      requires parent.Some? ==> parent.value < |nodes|
      modifies this`nodes
      ensures a == old(|nodes|)
      ensures nodes == old(nodes) +
              [Blank(if parent.None? then path else NewPath(old(nodes)[parent.value].path, path), exposed)]
    {
      a := |nodes|;
      nodes := nodes + [Blank(if parent.None? then path else NewPath(nodes[parent.value].path, path), exposed)];
    }

    /** `compile`, on the node at `a`; `ok` is false where it raises. */
    method Compile(
      ghost w: Work, ghost c: Child, ghost site: Site, a: Address, source: Data, scope: Scope)
      returns (ok: bool)
      requires IsWork(w, lib) && c.source == source && site.scope == scope
      requires |nodes| == a + 1 && nodes[a] == Blank(site.path, site.exposed)
      modifies this
      ensures ok <==> w.sound(c)
      ensures ok ==> nodes == old(nodes)[..a] + w.one(c, site, a)
      ensures ok ==> refData == w.enter(c, site, a, old(refData))
      decreases Height(source), 3
    {
      ghost var before, m := nodes[..a], refData;
      Register(a, source, scope);
      ghost var node := StartOf(lib, source, Blank(site.path, site.exposed), scope);
      assert nodes == before + [node];
      if !source.Object? || source.members == [] {
        LeafDone(w, lib, c, site, a, m);
        return true;
      }
      NodeDone(w, lib, c, site, a, m);
      ghost var inner := site.(scope := InnerScope(lib, source, site.scope));
      ok := CompileKids(w, inner, a, source, InnerScope(lib, source, scope));
      if !ok { return; }
      ghost var links := Grown(w.form, source, GROUPS, a + 1);
      ghost var more := w.arena(KidsOf(w, source, GROUPS), inner, a + 1);
      assert nodes == before + [Link(node, links)] + more;
      ok := Finish(a, source);
      if ok { Finished(before, Link(node, links), EndOf(source, Link(node, links)), more); }
    }

    /** The start of `compile`: the function field, ids and scope of a node, and its registration. */
    method Register(a: Address, source: Data, scope: Scope)
      requires a < |nodes| && nodes[a] == Blank(nodes[a].path, nodes[a].exposed)
      modifies this
      ensures nodes == old(nodes)[a := StartOf(lib, source, old(nodes)[a], scope)]
      ensures var names := NamesOf(lib, source, scope);
        refData == Blueprint.Register(old(nodes)[a].path, names, scope, a, old(refData))
    {
      refData := refData[nodes[a].path := a];
      SetValidation(a, NoOp);
      if source == Bool(false) { SetValidation(a, AlwaysFalse); }
      if !source.Object? { return; }
      if source.members == [] {
        SetValidation(a, NoOp);
        return;
      }
      SetValidation(a, ByKeywords);
      var names := NamesOf(lib, source, scope);
      nodes := nodes[a := nodes[a].(names := names)];
      if names.id.Some? { refData := refData[names.id.value := a]; }
      if names.resolvedId.Some? { refData := refData[names.resolvedId.value := a]; }
      if scope.base.Some? && names.scopePointer.Some? && |names.scopePointer.value| > 0 {
        refData := refData[scope.base.value + "#" + names.scopePointer.value := a];
      }
    }

    method SetValidation(a: Address, v: Validation)
      requires a < |nodes|
      modifies this`nodes
      ensures nodes == old(nodes)[a := old(nodes)[a].(functions := old(nodes)[a].functions.(validation := Some(v)))]
    {
      nodes := nodes[a := nodes[a].(functions := nodes[a].functions.(validation := Some(v)))];
    }

    /** The end of `compile`: the format and type functions; a `$ref` shadows all other keywords. */
    method Finish(a: Address, source: Data) returns (ok: bool)
      requires a < |nodes|
      modifies this`nodes
      ensures ok <==> TypesOk(source)
      ensures ok ==> nodes == old(nodes)[a := EndOf(source, old(nodes)[a])]
    {
      var f := nodes[a].functions.(hasFormat := true);
      var t := TypeValue(source);
      if t.Some? && t.value.Array? {
        var good, flags := ParseTypeArray(t.value.items);
        if !good { return false; }
        f := f.(typeFlags := flags);
      }
      f := f.(typeCheck := Some(TypeCheckOf(source)));
      if nodes[a].names.ref.Some? { f := f.(validation := Some(ByRef)); }
      nodes := nodes[a := nodes[a].(functions := f)];
      return true;
    }

    /** The macros of `compile` in their order. */
    method CompileKids(ghost w: Work, ghost inner: Site, a: Address, schema: Data, scope: Scope)
      returns (ok: bool)
      requires IsWork(w, lib) && schema.Object? && inner.scope == scope
      requires |nodes| == a + 1 && nodes[a].path == inner.path && nodes[a].links == NO_LINKS
      modifies this
      ensures ok <==> w.good(KidsOf(w, schema, GROUPS))
      ensures ok ==> nodes == Partial(w, old(nodes)[..a], old(nodes)[a], schema, GROUPS, inner)
      ensures ok ==> refData == w.index(KidsOf(w, schema, GROUPS), inner, a + 1, old(refData))
      decreases Height(schema), 2, 1
    {
      ghost var before, node := nodes[..a], nodes[a];
      ok := true;
      NoGroups(w, lib, before, node, schema, inner, refData);
      assert nodes == before + [node];
      for k := 0 to |GROUPS|
        invariant nodes == Partial(w, before, node, schema, GROUPS[..k], inner)
        invariant refData == w.index(KidsOf(w, schema, GROUPS[..k]), inner, a + 1, old(refData))
        invariant w.good(KidsOf(w, schema, GROUPS[..k]))
        invariant ok
      {
        if GROUPS[k].Loose? { LooseIsLast(k); }
        assert GROUPS[..k + 1] == GROUPS[..k] + [GROUPS[k]];
        ok := CompileNextGroup(w, inner, before, node, old(refData), GROUPS[..k], a, GROUPS[k], schema, scope);
        if !ok {
          GroupsPrefix(w, schema, GROUPS, k + 1);
          GoodPrefix(w, lib, KidsOf(w, schema, GROUPS[..k + 1]), KidsOf(w, schema, GROUPS), inner);
          return;
        }
      }
      assert GROUPS[..|GROUPS|] == GROUPS;
    }

    /** One more group, after those of `gs`. */
    method CompileNextGroup(
      ghost w: Work, ghost inner: Site, ghost before: seq<Compiled>, ghost node: Compiled, ghost m: Index,
      ghost gs: seq<Group>, a: Address, g: Group, schema: Data, scope: Scope)
      returns (ok: bool)
      requires IsWork(w, lib) && schema.Object? && inner.scope == scope && (g.Loose? ==> Loose !in gs)
      requires a == |before| && node.path == inner.path && nodes == Partial(w, before, node, schema, gs, inner)
      requires refData == w.index(KidsOf(w, schema, gs), inner, a + 1, m) && w.good(KidsOf(w, schema, gs))
      modifies this
      ensures ok <==> w.good(KidsOf(w, schema, gs + [g]))
      ensures ok ==> nodes == Partial(w, before, node, schema, gs + [g], inner)
      ensures ok ==> refData == w.index(KidsOf(w, schema, gs + [g]), inner, a + 1, m)
      decreases Height(schema), 2, 0
    {
      PartialLength(w, lib, before, node, schema, gs, inner);
      if g.Loose? { NoLooseYet(w, lib, schema, gs, a + 1); }
      GroupAdded(w, lib, before, node, schema, gs, g, inner);
      GroupEntered(w, lib, schema, gs, g, a + 1, inner, m);
      ok := CompileGroup(w, inner, a, g, schema, scope);
    }

    method CompileGroup(
      ghost w: Work, ghost inner: Site, a: Address, g: Group, schema: Data, scope: Scope)
      returns (ok: bool)
      requires IsWork(w, lib) && schema.Object? && inner.scope == scope
      requires a < |nodes| && nodes[a].path == inner.path && (g.Loose? ==> nodes[a].links.nested == [])
      modifies this
      ensures ok <==> w.good(w.form.parts(schema, g))
      ensures ok ==> nodes == AfterGroup(w, old(nodes), a, g, schema, inner)
      ensures ok ==> refData == w.index(w.form.parts(schema, g), inner, |old(nodes)|, old(refData))
      decreases Height(schema), 1
    {
      ghost var before, kids := nodes, GroupKids(schema, g);
      ghost var links := SetGroup(schema, nodes[a].links, g, w.form.lie(|nodes|, kids));
      assert ReadsGroup(w, schema, nodes[a].links, g, w.form.lie(|nodes|, kids));
      GroupSet(w, before, a, g, schema, inner, links);
      match g {
        case One(kw) => ok := CompileOne(w, inner, a, kw, schema, scope);
        case Many(kw) => ok := CompileMany(w, inner, a, kw, schema, scope);
        case Named(kw) => ok := CompileNamed(w, inner, a, kw, schema, scope);
        case Loose => ok := CompileLoose(w, inner, a, schema, scope);
      }
    }

    /** A child node, compiled. */
    method CompileChild(
      ghost w: Work, ghost inner: Site, ghost c: Child,
      a: Address, step: string, exposed: bool, source: Data, scope: Scope)
      returns (ok: bool, child: Address)
      requires IsWork(w, lib) && a < |nodes| && nodes[a].path == inner.path
      requires IsStep(step, c.tokens) && c.exposed == exposed && c.source == source && scope == KidSite(inner, c).scope
      modifies this
      ensures child == old(|nodes|)
      ensures ok <==> w.sound(c)
      ensures ok ==> nodes == old(nodes) + w.one(c, KidSite(inner, c), child)
      ensures ok ==> refData == w.enter(c, KidSite(inner, c), child, old(refData))
      decreases Height(source), 4, 0
    {
      NewPathIs(nodes[a].path, step, c.tokens);
      child := Create(Some(a), step, exposed);
      ok := Compile(w, c, KidSite(inner, c), child, source, scope);
    }

    /** One more child of the node at `a`, after the children `kids`. */
    method CompileNext(
      ghost w: Work, ghost inner: Site, ghost c: Child,
      ghost before: seq<Compiled>, ghost m: Index, ghost kids: seq<Child>,
      a: Address, step: string, source: Data, scope: Scope)
      returns (ok: bool, child: Address)
      requires IsWork(w, lib) && a < |before| && before[a].path == inner.path
      requires nodes == Grow(w, before, kids, inner) && refData == w.index(kids, inner, |before|, m)
      requires w.good(kids)
      requires IsStep(step, c.tokens) && c.exposed && c.descends && c.source == source && scope == inner.scope
      modifies this
      ensures ok <==> w.sound(c)
      ensures w.good(kids + [c]) <==> w.sound(c) && KeyFits(lib, c)
      ensures ok ==> nodes == Grow(w, before, kids + [c], inner)
      ensures ok ==> refData == w.index(kids + [c], inner, |before|, m)
      ensures w.form.lie(|before|, kids + [c]) == w.form.lie(|before|, kids) + [child]
      decreases Height(source), 4, 1
    {
      ChildAdded(w, lib, before, kids, c, inner, m);
      DescendIs(scope, step, c.tokens);
      ok, child := CompileChild(w, inner, c, a, step, true, source, DescendBy(scope, step));
    }

    /** `ASSIGN_SCHEMA_TO_COMPILED_SCHEMA`; the pointer of the base does not follow the child. */
    method CompileOne(
      ghost w: Work, ghost inner: Site, a: Address, kw: Single, schema: Data, scope: Scope)
      returns (ok: bool)
      requires IsWork(w, lib) && schema.Object? && inner.scope == scope
      requires a < |nodes| && nodes[a].path == inner.path
      modifies this
      ensures ok <==> w.good(OneKids(schema, kw))
      ensures ok ==> nodes == Grow(w, old(nodes), OneKids(schema, kw), inner)[
                                a := Link(old(nodes)[a],
                                  SetOne(old(nodes)[a].links, kw, w.form.lie(|old(nodes)|, OneKids(schema, kw))))]
      ensures ok ==> refData == w.index(OneKids(schema, kw), inner, |old(nodes)|, old(refData))
      decreases Height(schema), 0
    {
      ghost var before := nodes;
      var v := Lookup(schema, OneKeyword(kw));
      if v.None? || !IsShaped(v.value) {
        NoChildren(w, lib, nodes, inner, refData);
        return true;
      }
      ghost var c := OneKid(kw, v.value);
      LookupLower(schema, OneKeyword(kw));
      OneChild(w, lib, nodes, c, inner, refData);
      NewPathIs(nodes[a].path, OneKeyword(kw), c.tokens);
      var child := Create(Some(a), OneKeyword(kw), false);
      nodes := nodes[a := Link(nodes[a], nodes[a].links.(ones := nodes[a].links.ones[kw := child]))];
      assert nodes[..child] == before[a := nodes[a]];
      ok := Compile(w, c, KidSite(inner, c), child, v.value, scope);
    }

    /** `compile_schema_collection`. */
    method CompileMany(
      ghost w: Work, ghost inner: Site, a: Address, kw: Listed, schema: Data, scope: Scope)
      returns (ok: bool)
      requires IsWork(w, lib) && schema.Object? && inner.scope == scope
      requires a < |nodes| && nodes[a].path == inner.path
      modifies this
      ensures ok <==> w.good(ManyKids(schema, kw))
      ensures ok ==> nodes == Grow(w, old(nodes), ManyKids(schema, kw), inner)[
                                a := Link(old(nodes)[a],
                                  SetMany(old(nodes)[a].links, kw, schema,
                                    w.form.lie(|old(nodes)|, ManyKids(schema, kw))))]
      ensures ok ==> refData == w.index(ManyKids(schema, kw), inner, |old(nodes)|, old(refData))
      decreases Height(schema), 0
    {
      var v := Lookup(schema, ManyKeyword(kw));
      if v.None? || !v.value.Array? {
        NoChildren(w, lib, nodes, inner, refData);
        return true;
      }
      LookupLower(schema, ManyKeyword(kw));
      var collection;
      ok, collection := CompileItems(w, inner, a, kw, v.value.items, scope);
      if !ok { return; }
      nodes := nodes[a := Link(nodes[a], nodes[a].links.(lists := nodes[a].links.lists[kw := collection]))];
    }

    /** The loop of `compile_schema_collection`. */
    method CompileItems(
      ghost w: Work, ghost inner: Site, a: Address, kw: Listed, items: seq<Data>, scope: Scope)
      returns (ok: bool, collection: seq<Address>)
      requires IsWork(w, lib) && inner.scope == scope
      requires a < |nodes| && nodes[a].path == inner.path
      modifies this
      ensures var kids := ItemKids(kw, items, |items|);
        && (ok <==> w.good(kids))
        && (ok ==> nodes == Grow(w, old(nodes), kids, inner))
        && (ok ==> refData == w.index(kids, inner, |old(nodes)|, old(refData)))
        && (ok ==> collection == w.form.lie(|old(nodes)|, kids))
      decreases 1 + ItemsHeight(items), 5
    {
      ok, collection := true, [];
      NoChildren(w, lib, nodes, inner, refData);
      for i := 0 to |items|
        invariant nodes == Grow(w, old(nodes), ItemKids(kw, items, i), inner)
        invariant refData == w.index(ItemKids(kw, items, i), inner, |old(nodes)|, old(refData))
        invariant w.good(ItemKids(kw, items, i))
        invariant collection == w.form.lie(|old(nodes)|, ItemKids(kw, items, i))
        invariant ok
      {
        TwoSteps(ManyKeyword(kw), Decimal(i));
        ItemLower(items, i);
        var child;
        ok, child := CompileNext(
          w, inner, ItemKid(kw, items, i), old(nodes), old(refData), ItemKids(kw, items, i),
          a, AppendLong(ManyKeyword(kw), i), items[i], scope);
        if !ok {
          ItemsPrefix(kw, items, i + 1, |items|);
          GoodPrefix(w, lib, ItemKids(kw, items, i + 1), ItemKids(kw, items, |items|), inner);
          return;
        }
        collection := collection + [child];
      }
    }

    /** `compile_properties_val`, `compile_pattern_properties_val` and `compile_dependencies_val`. */
    method CompileNamed(
      ghost w: Work, ghost inner: Site, a: Address, kw: Keyed, schema: Data, scope: Scope)
      returns (ok: bool)
      requires IsWork(w, lib) && schema.Object? && inner.scope == scope
      requires a < |nodes| && nodes[a].path == inner.path
      modifies this
      ensures ok <==> w.good(NamedKids(schema, kw))
      ensures ok ==> nodes == Grow(w, old(nodes), NamedKids(schema, kw), inner)[
                                a := Link(old(nodes)[a],
                                  SetNamed(old(nodes)[a].links, kw, schema,
                                    w.form.lie(|old(nodes)|, NamedKids(schema, kw))))]
      ensures ok ==> refData == w.index(NamedKids(schema, kw), inner, |old(nodes)|, old(refData))
      decreases Height(schema), 0
    {
      var v := Lookup(schema, NamedKeyword(kw));
      if v.None? || !v.value.Object? {
        NoChildren(w, lib, nodes, inner, refData);
        return true;
      }
      LookupLower(schema, NamedKeyword(kw));
      var hash;
      ok, hash := CompileMembers(w, inner, a, kw, v.value.members, scope);
      if !ok { return; }
      nodes := nodes[a := Link(nodes[a], nodes[a].links.(hashes := nodes[a].links.hashes[kw := hash]))];
    }

    /** `compile_property` and `compile_dependency`, over a hash. */
    method CompileMembers(
      ghost w: Work, ghost inner: Site,
      a: Address, kw: Keyed, members: seq<(Key, Data)>, scope: Scope)
      returns (ok: bool, hash: seq<(string, Address)>)
      requires IsWork(w, lib) && inner.scope == scope
      requires a < |nodes| && nodes[a].path == inner.path
      modifies this
      ensures var kids := MemberKids(kw, members, |members|);
        && (ok <==> w.good(kids))
        && (ok ==> nodes == Grow(w, old(nodes), kids, inner))
        && (ok ==> refData == w.index(kids, inner, |old(nodes)|, old(refData)))
        && (ok ==> hash == Zip(kids, w.form.lie(|old(nodes)|, kids)))
      decreases 1 + MembersHeight(members), 5
    {
      ok, hash := true, [];
      NoChildren(w, lib, nodes, inner, refData);
      for i := 0 to |members|
        invariant nodes == Grow(w, old(nodes), MemberKids(kw, members, i), inner)
        invariant refData == w.index(MemberKids(kw, members, i), inner, |old(nodes)|, old(refData))
        invariant w.good(MemberKids(kw, members, i))
        invariant hash == Zip(MemberKids(kw, members, i), w.form.lie(|old(nodes)|, MemberKids(kw, members, i)))
        invariant ok
      {
        if members[i].0.Name? {
          var key, source := members[i].0.name, MemberSource(kw, members[i].1);
          ghost var done, c := MemberKids(kw, members, i), MemberKid(kw, key, members[i].1);
          TwoSteps(NamedKeyword(kw), key);
          MemberLower(members, i);
          DependencyLower(members[i].1);
          var child;
          ok, child := CompileNext(
            w, inner, c, old(nodes), old(refData), done, a, NewPath(NamedKeyword(kw), key), source, scope);
          LieLength(w, lib, done, inner, |old(nodes)|);
          ZipAdded(done, w.form.lie(|old(nodes)|, done), c, child);
          if kw.PatternProperties? && !lib.compiles(key) { ok := false; }
          if !ok {
            MembersPrefix(kw, members, i + 1, |members|);
            GoodPrefix(w, lib, MemberKids(kw, members, i + 1), MemberKids(kw, members, |members|), inner);
            return;
          }
          hash := hash + [(key, child)];
        }
      }
    }

    /** `compile_nested_schemas`: a counting pass, then a pass that fills a buffer of that size. */
    method CompileLoose(ghost w: Work, ghost inner: Site, a: Address, schema: Data, scope: Scope)
      returns (ok: bool)
      requires IsWork(w, lib) && schema.Object? && inner.scope == scope
      requires a < |nodes| && nodes[a].path == inner.path && nodes[a].links.nested == []
      modifies this
      ensures ok <==> w.good(GroupKids(schema, Loose))
      ensures ok ==> nodes == Grow(w, old(nodes), GroupKids(schema, Loose), inner)[
                                a := Link(old(nodes)[a],
                                  old(nodes)[a].links.(nested := w.form.lie(|old(nodes)|, GroupKids(schema, Loose))))]
      ensures ok ==> refData == w.index(GroupKids(schema, Loose), inner, |old(nodes)|, old(refData))
      decreases Height(schema), 0
    {
      var total := CountNested(schema.members);
      if total == 0 {
        NoChildren(w, lib, nodes, inner, refData);
        return true;
      }
      var buffer := new Address[total];
      ok := FillNested(w, inner, a, schema.members, scope, buffer);
      if !ok { return; }
      nodes := nodes[a := Link(nodes[a], nodes[a].links.(nested := buffer[..]))];
    }

    /** The loose subschemas of one member more. */
    method FillMember(
      ghost w: Work, ghost inner: Site, ghost start: seq<Compiled>, ghost m: Index,
      a: Address, members: seq<(Key, Data)>, n: nat, scope: Scope, buffer: array<Address>, count: nat)
      returns (ok: bool, next: nat)
      requires IsWork(w, lib) && inner.scope == scope && n < |members|
      requires a < |nodes| && nodes[a].path == inner.path && a < |start|
      requires nodes == Grow(w, start, LooseKids(members, n), inner)
      requires refData == w.index(LooseKids(members, n), inner, |start|, m) && w.good(LooseKids(members, n))
      requires buffer.Length == |LooseKids(members, |members|)|
      requires count == |LooseKids(members, n)| <= buffer.Length
      requires buffer[..count] == [] + w.form.lie(|start|, LooseKids(members, n))
      modifies this, buffer
      ensures !ok ==> !w.good(LooseKids(members, |members|))
      ensures ok ==>
        && nodes == Grow(w, start, LooseKids(members, n + 1), inner)
        && refData == w.index(LooseKids(members, n + 1), inner, |start|, m) && w.good(LooseKids(members, n + 1))
        && next == |LooseKids(members, n + 1)| <= buffer.Length
        && buffer[..next] == [] + w.form.lie(|start|, LooseKids(members, n + 1))
      decreases MembersHeight(members), 6, 2
    {
      var (key, value) := members[n];
      LoosePrefix(members, n + 1, |members|);
      if !key.Name? || IsKnown(key.name) { return true, count; }
      MemberLower(members, n);
      ok, next := CompileMore(
        w, inner, [key.name], start, m, LooseKids(members, n), [], a, key.name, value, scope, buffer, count);
      if !ok { GoodPrefix(w, lib, LooseKids(members, n + 1), LooseKids(members, |members|), inner); }
    }

    /** `compile_nested` over the whole schema fills the buffer exactly. */
    method FillNested(
      ghost w: Work, ghost inner: Site,
      a: Address, members: seq<(Key, Data)>, scope: Scope, buffer: array<Address>)
      returns (ok: bool)
      requires IsWork(w, lib) && inner.scope == scope
      requires a < |nodes| && nodes[a].path == inner.path
      requires buffer.Length == |LooseKids(members, |members|)|
      modifies this, buffer
      ensures var kids := LooseKids(members, |members|);
        && (ok <==> w.good(kids))
        && (ok ==> nodes == Grow(w, old(nodes), kids, inner))
        && (ok ==> refData == w.index(kids, inner, |old(nodes)|, old(refData)))
        && (ok ==> buffer[..] == w.form.lie(|old(nodes)|, kids))
      decreases MembersHeight(members), 7
    {
      var count: nat := 0;
      ok := true;
      NoChildren(w, lib, nodes, inner, refData);
      for n := 0 to |members|
        invariant nodes == Grow(w, old(nodes), LooseKids(members, n), inner)
        invariant refData == w.index(LooseKids(members, n), inner, |old(nodes)|, old(refData))
        invariant w.good(LooseKids(members, n))
        invariant count == |LooseKids(members, n)| <= buffer.Length
        invariant buffer[..count] == [] + w.form.lie(|old(nodes)|, LooseKids(members, n))
        invariant ok
      {
        ok, count := FillMember(w, inner, old(nodes), old(refData), a, members, n, scope, buffer, count);
        if !ok { return; }
      }
      assert buffer[..] == buffer[..count];
    }

    /** `compile_entry`: the child is in the buffer before it is compiled. */
    method CompileEntry(
      ghost w: Work, ghost inner: Site, ghost tokens: seq<string>,
      a: Address, step: string, value: Data, scope: Scope, buffer: array<Address>, count: nat)
      returns (ok: bool, next: nat)
      requires IsWork(w, lib) && inner.scope == scope && IsStep(step, tokens)
      requires a < |nodes| && nodes[a].path == inner.path
      requires count + |Entries(value, tokens)| <= buffer.Length
      modifies this, buffer
      ensures var kids := Entries(value, tokens);
        && (ok <==> w.good(kids))
        && (ok ==> nodes == Grow(w, old(nodes), kids, inner))
        && (ok ==> refData == w.index(kids, inner, |old(nodes)|, old(refData)))
        && (ok ==> next == count + |kids|)
        && (ok ==> buffer[..next] == old(buffer[..count]) + w.form.lie(|old(nodes)|, kids))
      decreases Height(value), 6, 0
    {
      next := count;
      if IsShaped(value) {
        ok := CompileShaped(w, inner, tokens, a, step, value, scope, buffer, count);
        next := count + 1;
      } else if value.Array? {
        ok, next := CompileArrayEntries(w, inner, tokens, a, step, value.items, scope, buffer, count);
      } else {
        NoChildren(w, lib, nodes, inner, refData);
        ok := true;
      }
    }

    /** The entries of one more value, after those of `kids`. */
    method CompileMore(
      ghost w: Work, ghost inner: Site, ghost tokens: seq<string>,
      ghost before: seq<Compiled>, ghost m: Index, ghost kids: seq<Child>, ghost prefix: seq<Address>,
      a: Address, step: string, value: Data, scope: Scope, buffer: array<Address>, count: nat)
      returns (ok: bool, next: nat)
      requires IsWork(w, lib) && inner.scope == scope && IsStep(step, tokens)
      requires a < |before| && before[a].path == inner.path
      requires nodes == Grow(w, before, kids, inner) && refData == w.index(kids, inner, |before|, m)
      requires w.good(kids)
      requires count + |Entries(value, tokens)| <= buffer.Length
      requires buffer[..count] == prefix + w.form.lie(|before|, kids)
      modifies this, buffer
      ensures var more := kids + Entries(value, tokens);
        && (ok <==> w.good(more))
        && (ok ==> nodes == Grow(w, before, more, inner))
        && (ok ==> refData == w.index(more, inner, |before|, m))
        && (ok ==> next == count + |Entries(value, tokens)|)
        && (ok ==> buffer[..next] == prefix + w.form.lie(|before|, more))
      decreases Height(value), 6, 1
    {
      ghost var y := Entries(value, tokens);
      ChildrenAdded(w, lib, before, kids, y, inner, m);
      RegroupAddresses(prefix, w.form.lie(|before|, kids), w.form.lie(|nodes|, y));
      ok, next := CompileEntry(w, inner, tokens, a, step, value, scope, buffer, count);
    }

    method CompileShaped(
      ghost w: Work, ghost inner: Site, ghost tokens: seq<string>,
      a: Address, step: string, value: Data, scope: Scope, buffer: array<Address>, count: nat)
      returns (ok: bool)
      requires IsWork(w, lib) && inner.scope == scope && IsStep(step, tokens)
      requires a < |nodes| && nodes[a].path == inner.path && count < buffer.Length
      modifies this, buffer
      ensures var kids := [LooseKid(tokens, value)];
        && (ok <==> w.good(kids))
        && (ok ==> nodes == Grow(w, old(nodes), kids, inner))
        && (ok ==> refData == w.index(kids, inner, |old(nodes)|, old(refData)))
        && (ok ==> buffer[..count + 1] == old(buffer[..count]) + w.form.lie(|old(nodes)|, kids))
      decreases Height(value), 5
    {
      ghost var c := LooseKid(tokens, value);
      OneChild(w, lib, nodes, c, inner, refData);
      NewPathIs(nodes[a].path, step, tokens);
      DescendIs(scope, step, tokens);
      var child := Create(Some(a), step, false);
      buffer[count] := child;
      ok := Compile(w, c, KidSite(inner, c), child, value, DescendBy(scope, step));
    }

    /** `compile_array_entries`. */
    method CompileArrayEntries(
      ghost w: Work, ghost inner: Site, ghost tokens: seq<string>,
      a: Address, step: string, items: seq<Data>, scope: Scope, buffer: array<Address>, count: nat)
      returns (ok: bool, next: nat)
      requires IsWork(w, lib) && inner.scope == scope && IsStep(step, tokens)
      requires a < |nodes| && nodes[a].path == inner.path
      requires count + |ArrayEntries(items, tokens, |items|)| <= buffer.Length
      modifies this, buffer
      ensures var kids := ArrayEntries(items, tokens, |items|);
        && (ok <==> w.good(kids))
        && (ok ==> nodes == Grow(w, old(nodes), kids, inner))
        && (ok ==> refData == w.index(kids, inner, |old(nodes)|, old(refData)))
        && (ok ==> next == count + |kids|)
        && (ok ==> buffer[..next] == old(buffer[..count]) + w.form.lie(|old(nodes)|, kids))
      decreases 1 + ItemsHeight(items), 5
    {
      ok, next := true, count;
      NoChildren(w, lib, nodes, inner, refData);
      for i := 0 to |items|
        invariant nodes == Grow(w, old(nodes), ArrayEntries(items, tokens, i), inner)
        invariant refData == w.index(ArrayEntries(items, tokens, i), inner, |old(nodes)|, old(refData))
        invariant w.good(ArrayEntries(items, tokens, i))
        invariant next == count + |ArrayEntries(items, tokens, i)| <= buffer.Length
        invariant buffer[..next] == old(buffer[..count]) + w.form.lie(|old(nodes)|, ArrayEntries(items, tokens, i))
        invariant ok
      {
        StepLonger(tokens, Decimal(i));
        ItemLower(items, i);
        EntriesPrefix(items, tokens, i + 1, |items|);
        ok, next := CompileMore(
          w, inner, tokens + [Decimal(i)], old(nodes), old(refData), ArrayEntries(items, tokens, i),
            old(buffer[..count]),
          a, AppendLong(step, i), items[i], scope, buffer, next);
        if !ok {
          GoodPrefix(w, lib, ArrayEntries(items, tokens, i + 1), ArrayEntries(items, tokens, |items|), inner);
          return;
        }
      }
    }
  }

  lemma RegroupAddresses(x: seq<Address>, y: seq<Address>, z: seq<Address>)
    ensures x + y + z == x + (y + z)
  {
  }

  lemma NoGroups(
    w: Work, lib: Library, before: seq<Compiled>, node: Compiled, schema: Data, inner: Site, m: Index)
    requires IsWork(w, lib) && node.links == NO_LINKS
    ensures Partial(w, before, node, schema, [], inner) == before + [node]
    ensures w.good(KidsOf(w, schema, [])) && w.index(KidsOf(w, schema, []), inner, |before| + 1, m) == m
  {
    assert Empty(w, inner, |before| + 1, m);
  }

  lemma Finished(before: seq<Compiled>, x: Compiled, y: Compiled, more: seq<Compiled>)
    ensures (before + [x] + more)[|before| := y] == before + ([y] + more)
  {
  }

  // ---------------------------------------------------------------------------------------
  // Counting
  // ---------------------------------------------------------------------------------------

  /** `count_schema_entries_in_array`: as many as the array adds, whatever path leads to it. */
  method CountEntries(items: seq<Data>, ghost tokens: seq<string>) returns (count: nat)
    ensures count == |ArrayEntries(items, tokens, |items|)|
    decreases 1 + ItemsHeight(items)
  {
    count := 0;
    for i := 0 to |items|
      invariant count == |ArrayEntries(items, tokens, i)|
    {
      ItemLower(items, i);
      if IsShaped(items[i]) {
        count := count + 1;
      } else if items[i].Array? {
        var inside := CountEntries(items[i].items, tokens + [Decimal(i)]);
        count := count + inside;
      }
    }
  }

  /** `count_nested` over the whole schema: the size of the buffer that the second pass fills. */
  method CountNested(members: seq<(Key, Data)>) returns (total: nat)
    ensures total == |LooseKids(members, |members|)|
  {
    total := 0;
    for n := 0 to |members|
      invariant total == |LooseKids(members, n)|
    {
      var (key, value) := members[n];
      if key.Name? && !IsKnown(key.name) {
        if IsShaped(value) {
          total := total + 1;
        } else if value.Array? {
          var inside := CountEntries(value.items, [key.name]);
          total := total + inside;
        }
      }
    }
  }

  lemma ZipAdded(kids: seq<Child>, addresses: seq<Address>, c: Child, a: Address)
    requires |kids| == |addresses| && |c.tokens| > 1
    ensures Zip(kids + [c], addresses + [a]) == Zip(kids, addresses) + [(c.tokens[1], a)]
  {
    assert (kids + [c])[..|kids|] == kids && (addresses + [a])[..|addresses|] == addresses;
  }

  /** Loose subschemas come last. */
  lemma LooseIsLast(k: nat)
    requires k < |GROUPS| && GROUPS[k].Loose?
    ensures Loose !in GROUPS[..k]
  {
  }

  lemma NestedKept(schema: Data, links: Links, g: Group, addresses: seq<Address>)
    requires !g.Loose?
    ensures SetGroup(schema, links, g, addresses).nested == links.nested
  {
  }

  lemma {:induction false} NoLooseYet(w: Work, lib: Library, schema: Data, gs: seq<Group>, base: Address)
    requires IsWork(w, lib) && Loose !in gs
    ensures Grown(w.form, schema, gs, base).nested == []
    decreases |gs|
  {
    if gs != [] {
      var init, g := gs[..|gs| - 1], gs[|gs| - 1];
      NoLooseYet(w, lib, schema, init, base);
      FilledNested(w, lib, schema, Grown(w.form, schema, init, base), g,
                   w.form.lie(base + w.form.size(KidsOf(w, schema, init)), w.form.parts(schema, g)));
    }
  }

  lemma FilledNested(
    w: Work, lib: Library, schema: Data, links: Links, g: Group, addresses: seq<Address>)
    requires IsWork(w, lib) && !g.Loose?
    ensures w.form.fill(schema, links, g, addresses).nested == links.nested
  {
    assert ReadsGroup(w, schema, links, g, addresses);
    NestedKept(schema, links, g, addresses);
  }
}
