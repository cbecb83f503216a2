/** Compiled nodes: the plan of the compiler, keyword by keyword. */
module Blueprint {
  import opened Values
  import opened Schema
  import opened SchemaTree
  import opened Layout
  import opened Scheme

  /** Ruby's URI library, and whether Ruby compiles a regex. */
  datatype Library = Library(
    join: (string, string) -> Option<string>, unescape: string -> string, compiles: string -> bool)

  /** The function fields of a node, unassigned at first. */
  datatype Functions = Functions(
    validation: Option<Validation>, typeCheck: Option<TypeCheck>, typeFlags: set<TypeFlag>, hasFormat: bool)

  datatype Names = Names(
    id: Option<string>, ref: Option<string>,
    resolvedId: Option<string>, resolvedRef: Option<string>, scopePointer: Option<string>)

  /** The child fields of a node. */
  datatype Links = Links(
    ones: map<Single, Address>,
    lists: map<Listed, seq<Address>>,
    hashes: map<Keyed, seq<(string, Address)>>,
    nested: seq<Address>)

  /** `CompiledSchema` while it is built. */
  datatype Compiled = Compiled(
    path: string, exposed: bool, functions: Functions, names: Names, refSchema: Option<Address>, links: Links)

  const NO_LINKS := Links(map[], map[], map[], [])

  /** `create_compiled_schema`. */
  function Blank(path: string, exposed: bool): Compiled {
    Compiled(path, exposed, Functions(None, None, {}, false), Names(None, None, None, None, None), None, NO_LINKS)
  }

  // ---------------------------------------------------------------------------------------
  // Types
  // ---------------------------------------------------------------------------------------

  function TypeFlagOf(name: string): Option<TypeFlag> {
    match name
    case "null" => Some(NullBit)
    case "boolean" => Some(BoolBit)
    case "string" => Some(StringBit)
    case "integer" => Some(IntegerBit)
    case "number" => Some(NumberBit)
    case "array" => Some(ArrayBit)
    case "object" => Some(ObjectBit)
    case _ => None
  }

  predicate IsTypeName(d: Data) { d.Text? && TypeFlagOf(d.s).Some? }

  function FlagOf(d: Data): TypeFlag
    requires IsTypeName(d)
  {
    TypeFlagOf(d.s).value
  }

  /** A list of types that raises nothing: not empty, known names, none twice. */
  predicate AreTypes(items: seq<Data>) {
    && items != []
    && (forall i :: 0 <= i < |items| ==> IsTypeName(items[i]))
    && (forall i, j :: 0 <= i < j < |items| ==> FlagOf(items[i]) != FlagOf(items[j]))
  }

  function FlagsOf(items: seq<Data>): set<TypeFlag> {
    set i | 0 <= i < |items| && IsTypeName(items[i]) :: FlagOf(items[i])
  }

  /** `parse_type_array`; `ok` is false where it raises. */
  method ParseTypeArray(items: seq<Data>) returns (ok: bool, flags: set<TypeFlag>)
    ensures ok <==> AreTypes(items)
    ensures ok ==> flags == FlagsOf(items)
  {
    flags := {};
    if |items| == 0 { return false, flags; }
    for i := 0 to |items|
      invariant forall k :: 0 <= k < i ==> IsTypeName(items[k])
      invariant forall j, k :: 0 <= j < k < i ==> FlagOf(items[j]) != FlagOf(items[k])
      invariant flags == set k | 0 <= k < i :: FlagOf(items[k])
    {
      if !items[i].Text? { return false, flags; }
      var flag := TypeFlagOf(items[i].s);
      if flag.None? { return false, flags; }
      if flag.value in flags { return false, flags; }
      flags := flags + {flag.value};
    }
    return true, flags;
  }

  function TypeValue(schema: Data): Option<Data> { Lookup(schema, "type") }

  predicate TypesOk(schema: Data) {
    var t := TypeValue(schema);
    t.Some? && t.value.Array? ==> AreTypes(t.value.items)
  }

  /** `type_validation_function`. */
  function TypeCheckOf(schema: Data): TypeCheck {
    var t := TypeValue(schema);
    if t.Some? && t.value.Array? then ByTypeList
    else if t.None? || !t.value.Text? then ByDataType
    else
      match TypeFlagOf(t.value.s)
      case Some(NullBit) => IsNull
      case Some(BoolBit) => IsBool
      case Some(StringBit) => IsString
      case Some(IntegerBit) => IsInteger
      case Some(NumberBit) => IsNumber
      case Some(ArrayBit) => IsArray
      case Some(ObjectBit) => IsObject
      case None => NoTypeCheck
  }

  function TypeFlagsOf(schema: Data): set<TypeFlag> {
    var t := TypeValue(schema);
    if t.Some? && t.value.Array? then FlagsOf(t.value.items) else {}
  }

  // ---------------------------------------------------------------------------------------
  // Ids and references
  // ---------------------------------------------------------------------------------------

  function TextOf(schema: Data, name: string): Option<string> {
    var v := Lookup(schema, name);
    if v.Some? && v.value.Text? then Some(v.value.s) else None
  }

  /** `uri_resolver_join`. */
  function JoinUri(lib: Library, base: Option<string>, ref: string): Option<string> {
    if base.None? || base.value == [] then None else lib.join(base.value, ref)
  }

  function ResolveRef(lib: Library, scope: Scope, ref: string): Option<string> {
    if IsAbsolute(ref) then Some(ref) else JoinUri(lib, scope.base, ref)
  }

  function ResolveId(lib: Library, scope: Scope, id: string): string {
    var joined := JoinUri(lib, scope.base, id);
    if IsAbsolute(id) || joined.None? then id else joined.value
  }

  /** The scope of what a schema holds: its own `$id` starts a new one. */
  function InnerScope(lib: Library, source: Data, scope: Scope): Scope {
    var id := TextOf(source, "$id");
    if HasKeywords(source) && id.Some? then Scope(Some(ResolveId(lib, scope, id.value)), Some("")) else scope
  }

  /** `resolve_uri_scope`: a `$ref` is resolved before a sibling `$id` can change the base. */
  function NamesOf(lib: Library, source: Data, scope: Scope): Names {
    var id, ref := TextOf(source, "$id"), TextOf(source, "$ref");
    if !HasKeywords(source) then Names(None, None, None, None, None)
    else Names(id, ref,
               if id.Some? then Some(ResolveId(lib, scope, id.value)) else None,
               if ref.Some? then ResolveRef(lib, scope, ref.value) else None,
               scope.pointer)
  }

  /** `register_path_for_ref_resolution`, then `register_id_for_ref_resolution`. */
  function Register(path: string, names: Names, scope: Scope, a: Address, m: Index): Index {
    var byPath := m[path := a];
    var byId := if names.id.Some? then byPath[names.id.value := a] else byPath;
    var byResolved := if names.resolvedId.Some? then byId[names.resolvedId.value := a] else byId;
    if scope.base.Some? && names.scopePointer.Some? && names.scopePointer.value != []
    then byResolved[scope.base.value + "#" + names.scopePointer.value := a]
    else byResolved
  }

  // ---------------------------------------------------------------------------------------
  // Child fields
  // ---------------------------------------------------------------------------------------

  /** The keys of a hash of children, with their addresses. */
  function Zip(kids: seq<Child>, addresses: seq<Address>): seq<(string, Address)>
    decreases |kids|
  {
    if kids == [] || |addresses| != |kids| then []
    else
      var last := |kids| - 1;
      var tokens := kids[last].tokens;
      Zip(kids[..last], addresses[..last]) + [(if |tokens| > 1 then tokens[1] else "", addresses[last])]
  }

  function SetOne(links: Links, kw: Single, addresses: seq<Address>): Links {
    if |addresses| > 0 then links.(ones := links.ones[kw := addresses[0]]) else links
  }

  function SetMany(links: Links, kw: Listed, schema: Data, addresses: seq<Address>): Links {
    var v := Lookup(schema, ManyKeyword(kw));
    if v.Some? && v.value.Array? then links.(lists := links.lists[kw := addresses]) else links
  }

  function SetNamed(links: Links, kw: Keyed, schema: Data, addresses: seq<Address>): Links {
    var v := Lookup(schema, NamedKeyword(kw));
    if v.Some? && v.value.Object?
    then links.(hashes := links.hashes[kw := Zip(NamedKids(schema, kw), addresses)]) else links
  }

  /** Sets the field of a group, if the schema has the keyword in the right form. */
  function SetGroup(schema: Data, links: Links, g: Group, addresses: seq<Address>): Links {
    match g
    case One(kw) => SetOne(links, kw, addresses)
    case Many(kw) => SetMany(links, kw, schema, addresses)
    case Named(kw) => SetNamed(links, kw, schema, addresses)
    case Loose => links.(nested := addresses)
  }

  /** What the groups of a schema hold, how their fields are set, and how much room children take. */
  datatype Form = Form(
    parts: Parts,
    fill: (Data, Links, Group, seq<Address>) -> Links,
    size: seq<Child> -> nat,
    lie: (Address, seq<Child>) -> seq<Address>)

  /** The child fields when some groups are done, the children lying from `base` on. */
  function Grown(q: Form, schema: Data, gs: seq<Group>, base: Address): Links
    decreases |gs|, Height(schema)
  {
    if gs == [] then NO_LINKS
    else
      var init, g := gs[..|gs| - 1], gs[|gs| - 1];
      var at := base + q.size(GroupsKids(q.parts, schema, init));
      q.fill(schema, Grown(q, schema, init, base), g, q.lie(at, q.parts(schema, g)))
  }

  // ---------------------------------------------------------------------------------------
  // Nodes
  // ---------------------------------------------------------------------------------------

  /** The function fields once `compile` is through. */
  function FunctionsOf(source: Data): Functions {
    if source == Bool(false) then Functions(Some(AlwaysFalse), None, {}, false)
    else if !HasKeywords(source) then Functions(Some(NoOp), None, {}, false)
    else
      Functions(Some(if TextOf(source, "$ref").Some? then ByRef else ByKeywords),
                Some(TypeCheckOf(source)), TypeFlagsOf(source), true)
  }

  /** The node of a schema at `a`. */
  function Root(q: Form, lib: Library, source: Data, site: Site, a: Address): Compiled {
    Compiled(site.path, site.exposed, FunctionsOf(source), NamesOf(lib, source, site.scope), None,
             if HasKeywords(source) then Grown(q, source, GROUPS, a + 1) else NO_LINKS)
  }

  function InnerSite(lib: Library, source: Data, site: Site): Site {
    site.(scope := InnerScope(lib, source, site.scope))
  }

  function Entered(lib: Library, source: Data, site: Site, a: Address, m: Index): Index {
    Register(site.path, NamesOf(lib, source, site.scope), site.scope, a, m)
  }

  predicate Checks(source: Data) { HasKeywords(source) ==> TypesOk(source) }

  /** A key of `patternProperties` must be a regex. */
  predicate KeyFits(lib: Library, c: Child) { c.regex.Some? ==> lib.compiles(c.regex.value) }

  function FormOf(): Form {
    Form(PartsOf(), (schema, links, g, addresses) => SetGroup(schema, links, g, addresses),
         kids => ForestSize(ForestOf(kids)), (base: Address, kids: seq<Child>) => Addresses(ForestOf(kids), base))
  }

  /** The compiler's plan. */
  function PlanOf(lib: Library): Plan<Compiled> {
    Plan(
      (source: Data, site: Site) => InnerSite(lib, source, site),
      (source: Data, site: Site, a: Address) => Root(FormOf(), lib, source, site, a),
      (source: Data, site: Site, a: Address, m: Index) => Entered(lib, source, site, a, m),
      (source: Data) => Checks(source),
      (c: Child) => KeyFits(lib, c))
  }

  // ---------------------------------------------------------------------------------------
  // The work of the compiler, law by law
  // ---------------------------------------------------------------------------------------

  /**
   What compiling some children, and what compiling one schema, adds to the nodes and to the index,
   and whether it raises nothing.
   */
  datatype Work = Work(
    form: Form,
    arena: (seq<Child>, Site, Address) -> seq<Compiled>,
    index: (seq<Child>, Site, Address, Index) -> Index,
    good: seq<Child> -> bool,
    one: (Child, Site, Address) -> seq<Compiled>,
    enter: (Child, Site, Address, Index) -> Index,
    sound: Child -> bool)

  function WorkOf(lib: Library): Work {
    var p := PlanOf(lib);
    Work(
      FormOf(),
      (kids: seq<Child>, inner: Site, base: Address) => ForestArena(p, ForestOf(kids), inner, base),
      (kids: seq<Child>, inner: Site, base: Address, m: Index) => ForestIndex(p, ForestOf(kids), inner, base, m),
      (kids: seq<Child>) => AllSound(p, ForestOf(kids)),
      (c: Child, site: Site, a: Address) => Arena(p, TreeOf(c), site, a),
      (c: Child, site: Site, a: Address, m: Index) => IndexOf(p, TreeOf(c), site, a, m),
      (c: Child) => Sound(p, TreeOf(c)))
  }

  /** No children add nothing. */
  ghost predicate Empty(w: Work, inner: Site, base: Address, m: Index) {
    && w.arena([], inner, base) == [] && w.index([], inner, base, m) == m && w.good([])
    && w.form.size([]) == 0 && w.form.lie(base, []) == []
  }

  /** Children after children: their room and addresses. */
  ghost predicate AddsRoom(w: Work, x: seq<Child>, y: seq<Child>, inner: Site, base: Address) {
    && w.form.size(x + y) == w.form.size(x) + w.form.size(y)
    && |w.arena(x, inner, base)| == w.form.size(x) && |w.form.lie(base, x)| == |x|
    && w.form.lie(base, x + y) == w.form.lie(base, x) + w.form.lie(base + w.form.size(x), y)
  }

  /** Children after children: their nodes. */
  ghost predicate AddsNodes(w: Work, x: seq<Child>, y: seq<Child>, inner: Site, base: Address) {
    w.arena(x + y, inner, base) == w.arena(x, inner, base) + w.arena(y, inner, base + w.form.size(x))
  }

  /** Children after children: their entries and errors. */
  ghost predicate AddsEntries(w: Work, x: seq<Child>, y: seq<Child>, inner: Site, base: Address, m: Index) {
    && w.index(x + y, inner, base, m) == w.index(y, inner, base + w.form.size(x), w.index(x, inner, base, m))
    && (w.good(x + y) <==> w.good(x) && w.good(y))
  }

  /** A lone child. */
  ghost predicate Alone(w: Work, lib: Library, c: Child, inner: Site, base: Address, m: Index) {
    var site := KidSite(inner, c);
    && w.form.lie(base, [c]) == [base]
    && w.arena([c], inner, base) == w.one(c, site, base)
    && w.index([c], inner, base, m) == w.enter(c, site, base, m)
    && (w.good([c]) <==> w.sound(c) && KeyFits(lib, c))
  }

  /** A schema: its node, then the children of its groups. */
  ghost predicate Opens(w: Work, lib: Library, c: Child, site: Site, a: Address, m: Index) {
    var source, node := c.source, [Root(w.form, lib, c.source, site, a)];
    if HasKeywords(source) then
      var kids, inner := GroupsKids(w.form.parts, source, GROUPS), InnerSite(lib, source, site);
      && w.one(c, site, a) == node + w.arena(kids, inner, a + 1)
      && w.enter(c, site, a, m) == w.index(kids, inner, a + 1, Entered(lib, source, site, a, m))
      && (w.sound(c) <==> TypesOk(source) && w.good(kids))
    else
      w.one(c, site, a) == node && w.enter(c, site, a, m) == Entered(lib, source, site, a, m) && w.sound(c)
  }

  ghost predicate ReadsGroup(w: Work, schema: Data, links: Links, g: Group, addresses: seq<Address>) {
    && w.form.parts(schema, g) == GroupKids(schema, g)
    && w.form.fill(schema, links, g, addresses) == SetGroup(schema, links, g, addresses)
  }

  ghost predicate IsWork(w: Work, lib: Library) {
    && (forall inner, base: Address, m :: Empty(w, inner, base, m))
    && (forall x, y, inner, base: Address :: AddsRoom(w, x, y, inner, base))
    && (forall x, y, inner, base: Address :: AddsNodes(w, x, y, inner, base))
    && (forall x, y, inner, base: Address, m :: AddsEntries(w, x, y, inner, base, m))
    && (forall c, inner, base: Address, m :: Alone(w, lib, c, inner, base, m))
    && (forall c, site, a: Address, m :: Opens(w, lib, c, site, a, m))
    && (forall schema, links, g, addresses :: ReadsGroup(w, schema, links, g, addresses))
  }

  /** Some children are the forest grown from them. */
  ghost predicate IsForest(w: Work, p: Plan<Compiled>, kids: seq<Child>, inner: Site, base: Address) {
    && w.form.size(kids) == ForestSize(ForestOf(kids)) && w.form.lie(base, kids) == Addresses(ForestOf(kids), base)
    && w.arena(kids, inner, base) == ForestArena(p, ForestOf(kids), inner, base)
  }

  ghost predicate EntersForest(w: Work, p: Plan<Compiled>, kids: seq<Child>, inner: Site, base: Address, m: Index) {
    && w.index(kids, inner, base, m) == ForestIndex(p, ForestOf(kids), inner, base, m)
    && (w.good(kids) <==> AllSound(p, ForestOf(kids)))
  }

  ghost predicate GrowsForests(w: Work, p: Plan<Compiled>) {
    && (forall kids, inner, base: Address :: IsForest(w, p, kids, inner, base))
    && (forall kids, inner, base: Address, m :: EntersForest(w, p, kids, inner, base, m))
  }

  lemma WorkAdds(w: Work, p: Plan<Compiled>, x: seq<Child>, y: seq<Child>, inner: Site, base: Address)
    requires GrowsForests(w, p)
    ensures AddsRoom(w, x, y, inner, base) && AddsNodes(w, x, y, inner, base)
  {
    assert IsForest(w, p, x, inner, base) && IsForest(w, p, x + y, inner, base);
    assert IsForest(w, p, y, inner, base + w.form.size(x));
    RoomOfMore(x, y, base);
    ForestLength(p, ForestOf(x), inner, base);
    AddressCount(x, base);
    ArenaOfMore(p, x, y, inner, base);
  }

  lemma WorkEnters(w: Work, p: Plan<Compiled>, x: seq<Child>, y: seq<Child>, inner: Site, base: Address, m: Index)
    requires GrowsForests(w, p)
    ensures AddsEntries(w, x, y, inner, base, m)
  {
    assert IsForest(w, p, x, inner, base);
    assert EntersForest(w, p, x, inner, base, m) && EntersForest(w, p, x + y, inner, base, m);
    assert EntersForest(w, p, y, inner, base + w.form.size(x), w.index(x, inner, base, m));
    IndexOfMore(p, x, y, inner, base, m);
    SoundOfMore(p, x, y);
  }

  lemma WorkAlone(lib: Library, c: Child, inner: Site, base: Address, m: Index)
    ensures Alone(WorkOf(lib), lib, c, inner, base, m)
  {
    LoneChild(PlanOf(lib), c, inner, base, m);
  }

  lemma WorkOpens(lib: Library, c: Child, site: Site, a: Address, m: Index)
    ensures Opens(WorkOf(lib), lib, c, site, a, m)
  {
    if HasKeywords(c.source) {
      TreeOpens(PlanOf(lib), c, site, a, m);
    } else {
      LeafOpens(PlanOf(lib), c, site, a, m);
    }
  }

  lemma WorkGrows(lib: Library)
    ensures GrowsForests(WorkOf(lib), PlanOf(lib))
  {
    var w, p := WorkOf(lib), PlanOf(lib);
    forall kids, inner, base: Address ensures IsForest(w, p, kids, inner, base) {}
    forall kids, inner, base: Address, m ensures EntersForest(w, p, kids, inner, base, m) {}
  }

  lemma WorkEmpty(w: Work, p: Plan<Compiled>, inner: Site, base: Address, m: Index)
    requires GrowsForests(w, p)
    ensures Empty(w, inner, base, m)
  {
    assert IsForest(w, p, [], inner, base) && EntersForest(w, p, [], inner, base, m);
    assert ForestOf([]) == Nil;
  }

  /** The plan obeys all laws. */
  lemma WorkHolds(lib: Library)
    ensures IsWork(WorkOf(lib), lib)
  {
    var w, p := WorkOf(lib), PlanOf(lib);
    WorkGrows(lib);
    forall inner, base: Address, m ensures Empty(w, inner, base, m) { WorkEmpty(w, p, inner, base, m); }
    forall x, y, inner, base: Address ensures AddsRoom(w, x, y, inner, base) { WorkAdds(w, p, x, y, inner, base); }
    forall x, y, inner, base: Address ensures AddsNodes(w, x, y, inner, base) { WorkAdds(w, p, x, y, inner, base); }
    forall x, y, inner, base: Address, m ensures AddsEntries(w, x, y, inner, base, m) {
      WorkEnters(w, p, x, y, inner, base, m);
    }
    forall c, inner, base: Address, m ensures Alone(w, lib, c, inner, base, m) { WorkAlone(lib, c, inner, base, m); }
    forall c, site, a: Address, m ensures Opens(w, lib, c, site, a, m) { WorkOpens(lib, c, site, a, m); }
    forall schema, links, g, addresses ensures ReadsGroup(w, schema, links, g, addresses) {}
  }
}
