# Verified model of FastJSON::Schema

A Dafny model of the parts of the `FastJSON::Schema` C extension in which its promises are hard to
keep: the validation engine with its two modes, the schema compiler with its reference index and its
ownership of nodes, and the byte scanners behind the string formats. `dafny verify dfyconfig.toml`
checks all of it. All statements are proofs; nothing here executes the extension.

## The validation engine

One interpreter serves `validate`, which hands every error to a block, and `valid?`, which stops at
the first one by a throw to the nearest `is_valid` frame. Both share a mutable context: a depth, 1000
path slots and a flag.

- `Machine` runs programs of steps (report, call, descend, ascend, place, probe) on a state and models
  throw, raise and the frame that catches. `Keywords` gives the steps of a compiled node.
- `ContextObject` and `Validator` are the engine in its own form, a class and methods with the loops and
  early exits of the source; each method is proved to do exactly the steps of its keyword.
- `Laws`, `Addressing`, `Depth`, `Paths`: what every run keeps of the flag, the depth and the slots.
- `Simulation`: the quiet run is the loud run cut at its first error.
- `PathText`: the text of a data path, cut at its slashes, walks from the document to the datum.
- `Meaning`, `Counting`, `Draft7`: a completed run decides the meaning of the schema, which is stated over
  keywords and data and not over runs.
- `Termination`, `Recursion`, `Independence`, `Entry`: when runs end, why stale context never changes an
  answer, and the laws at the two entry points.
- `Nesting`, `Leaks`, `Drift`: how far reported paths are off, which data and schemas give the depth back,
  when a run leaves the slots, and documents on which it does.

The fuel of a run stands for the C call stack: a run that ends is the same at every larger fuel
(`Recursion.AnswerIsFinal`), and `Recursion.ValidationEnds` bounds what is needed.

## The schema compiler

- `SchemaTree`, `Layout`, `Blueprint`, `Scheme`: the subschemas of a schema in the order of their compilation, and
  the nodes and index entries they amount to, as a fold over the tree of subschemas. `Blueprint.Work`
  abstracts that fold to a few laws; whatever needs the fold uses these laws only, and
  `Blueprint.WorkHolds` proves them.
- `CompilerObject`: the compiler as a class over a growing arena of nodes and the index `refData`.
  Addresses stand for pointers. The keyword macros of `compile` are one loop over the table
  `SchemaTree.GROUPS`, and those of `resolve_refs` and of freeing over `RefResolver.RESOLVE_ORDER` and
  `Release.FREE_ORDER`.
- `RefResolver`, `RefDecoder`, `Location`, `Siblings`, `References`, `SchemaCompiler`: binding every `$ref`,
  and the agreement of the index with a plain pointer walk.
- `BaseKeys`, `Naming`, `EmbeddedId`: the index of any schema, also with `$id`s: the names that a location has and
  the location that a `$ref` names.
- `SchemaWords`: what makes a schema be rejected, which words hold no schema, and the order of compilation.
- `Loading`: runs of a compiled graph stay inside it.
- `JsonMeaning`, `FieldPlaces`, `Composition`: what a schema means, stated over its JSON with keywords and types
  written out, and the proof that the answers of the engine on the compiled graph are that meaning.
- `Complaints`, `Reporting`, `Hearing`: which errors a schema calls for, stated in the same way, and the proof that
  `validate` hands over exactly these.
- `Release`: every node has one owner, and sweeping the wrappers frees each node once.

## The formats

`Bytes`, `Greedy`, `Scan`, `Separated` and `Slashes` hold what the scanners share: greedy runs of
characters of a class, lists with a separator, and slash-led segments, each with soundness and
completeness against a grammar. `Utf8`, `Pointer`, `Ipv4`, `Ipv6`, `Hostname`, `AddrSpec`, `UriTemplate`,
`UriPath`, `UriAuthority` and `Uri` hold the recognizers, `Alphabets` and `HexText` the characters and the
numbers that the grammars are written in, independently of the scanners' tests. Each recognizer is a method
with the loops of the source, proved to decide a recursive function; a language theorem then says, in both
directions, which strings that function accepts.

Bytes are characters of a `string`; a character above 255 takes no part in any class.

## Where the source does not do what it says

- `is_valid_ensure` restores the flag but not the depth (`is_valid.c:31-37`). Every schema gives the depth
  back over a datum exactly if there is nothing inside the datum (`Leaks.DepthRestored`), and a schema
  without `if`, `not`, `allOf`, `anyOf`, `oneOf` and `contains` never leaks (`Leaks.ProbelessPathsLead`);
  for one probe, `Simulation.FrameContext` says which depth it leaves. Answers do not suffer
  (`Independence.IsValidIndependent`); reported paths do, by exactly the leaked depth (`Nesting.PathSurplus`,
  `Drift.PathDrifts`).
- The guard admits depth 1000 while the slots end at 999 (`types/context.h:19-27`), so it never raises
  (`Entry.OnlyLeavesRaise`): a run leaves the slots first. It does so only where the nesting of the document
  and the leaked depth together reach their end (`Leaks.OnlyDeepOrLeaked`): by nesting alone in
  `Drift.DeepDocument`, by leaks alone, in a document of two levels, in `Drift.FlatDocumentDrifts`.
- A single subschema shares its parent's pointer (`compiled_schema.c:50-63`), so where an `$id` is in scope a
  reference by base and pointer can lead astray. `BaseKeys.IndexIsLast` says where every key leads,
  `BaseKeys.KeepsKey` which locations keep their key under an `$id` of the root, and
  `BaseKeys.MisledReference` is a schema with a `$ref` that is bound to another location than it names.
- A Float without a fraction is no integer (`validate_integer.c:4-6`), though section 6.1.1 of draft-07 says it
  is; `spec/conformance/draft7_pending.yml:171-173` lists this as pending. `Draft7.TypesDiffer` gives the exact
  extent and `Draft7.IntegralRefused` the answer.
- `minContains` and `maxContains` take part (`validate_array.c:64-95`) although draft-07 does not have them:
  `Draft7.ContainsDiffers`.
- `parse_ipv6` takes a single colon at the end behind a `::`: `Ipv6.OverrunExample`, with `Ipv6.Ipv6Exact` for
  the exact extent.
- `parse_host` ends early at an IPv4-shaped run of digits and dots: `Uri.ShadowedExample`, with
  `Uri.ReferenceAccepted` for the exact extent.

## Model

| member | source | states |
|---|---|---|
| `ContextObject.Context.ToPath` | ext/fast_json/schema/path.c:15-34 | renders slots 0 to depth, each followed by a slash, and raises exactly when one of them is unset; what the text spells is PathText.PathSpells |
| `Validator.IsValid` | ext/fast_json/schema/is_valid.c:109-118 | the flag is back at its entry value, no throw escapes and the block hears nothing; the answer, the ending and the context are those of the catching frame of the machine, which gives back no depth after a throw |
| `Validator.ValidateKeywords` | ext/fast_json/schema/validate.c:90-113 | runs type, const, enum, if, not, allOf, anyOf and oneOf in this order and stops where one of them unwinds |
| `Validator.ValidateString` | ext/fast_json/schema/validate_string.c:5-32 | lengths, pattern and format in order, or a type error |
| `Validator.ValidateItems` | ext/fast_json/schema/validate_array.c:6-19 | one level down, each item under its own index, then back up |
| `Validator.ValidateItemsFrom` | ext/fast_json/schema/validate_array.c:49-62 | one level down, the items past the tuple, then back up |
| `Validator.ValidateWithMultipleItemsSchema` | ext/fast_json/schema/validate_array.c:25-47 | the first items against their own schemas; the result says whether the tuple covers all items |
| `Validator.ValidateContains` | ext/fast_json/schema/validate_array.c:64-95 | counts all valid items and reports against maxContains, minContains or the default of one |
| `Validator.ValidateArray` | ext/fast_json/schema/validate_array.c:97-130 | limits, uniqueness, items and contains in order, or a type error |
| `Validator.ValidateRequired` | ext/fast_json/schema/validate_object.c:104-114 | one report for each missing name, in the order of the list |
| `Validator.ValidateDependencies` | ext/fast_json/schema/validate_object.c:116-135 | the schemas of the present keys run on the whole object, without descending |
| `Validator.ValidateByPatterns` | ext/fast_json/schema/validate_object.c:25-49 | every matching pattern runs its schema, and the result says whether one matched |
| `Validator.ValidateObjectProperty` | ext/fast_json/schema/validate_object.c:65-92 | propertyNames, properties, patterns, and additionalProperties only if neither of the last two applied |
| `Validator.ValidateProperties` | ext/fast_json/schema/validate_object.c:94-102 | one level down, every member with a string key under that key, then back up |
| `Validator.ValidateObject` | ext/fast_json/schema/validate_object.c:137-159 | limits, required, dependencies and members in order, or a type error |
| `Validator.ValidateIf` | ext/fast_json/schema/if.c:20-31 | the condition is probed only if a branch exists, and the branch it selects is probed after it |
| `Validator.ValidateNot` | ext/fast_json/schema/not.c:6-11 | one report against the negated schema when it is valid |
| `Validator.ValidateAllOf` | ext/fast_json/schema/all_of.c:6-23 | all branches are probed and counted before the one report |
| `Validator.ValidateAnyOf` | ext/fast_json/schema/any_of.c:6-22 | probing stops at the first valid branch, and the report comes only after the last |
| `Validator.ValidateOneOf` | ext/fast_json/schema/one_of.c:6-23 | probing stops at the second valid branch, and the report comes unless the count is one |
| `Validator.RbValidate` | ext/fast_json/schema/schema.c:19-35 | the block receives, in order, exactly the errors of the run with their rendered paths, and a completed call is silent exactly when the datum satisfies the schema |
| `Validator.RbValid` | ext/fast_json/schema/schema.c:37-47 | a completed call answers true exactly when the datum satisfies the schema, and exactly when validate completes with no error |
| `Laws.ExecDisciplined` | ext/fast_json/schema/error.c:8-9 | over any run the flag is back at its entry value, a throw happens only under the flag, and under the flag the block hears nothing |
| `Laws.IsValidDisciplined` | ext/fast_json/schema/is_valid.c:17-37 | no throw leaves an is_valid frame, nothing reaches the block from inside one, and the flag returns to its entry value on return, throw and raise alike |
| `Addressing.KeywordsInPlace` | ext/fast_json/schema/validate_object.c:65-102 | every validation function goes down, names its place, calls with what lies there, and comes back up to its own datum |
| `Depth.ExecKept` | ext/fast_json/schema/types/context.h:19-27 | over any run from a sound state the slots up to the starting depth are kept, no slot to the depth is unset, and the depth regained is short by exactly what abandoned frames leaked |
| `Depth.IsValidKept` | ext/fast_json/schema/is_valid.c:27-37 | a frame leaves the slots up to its depth as they were, and its leak is the depth its throw skipped giving back |
| `Paths.ExecLocated` | ext/fast_json/schema/path.c:15-34 | each error of a run carries a renderable path, and without a leak the slots lead from the datum of the run to the reported one |
| `Simulation.ExecCut` | ext/fast_json/schema/error.c:7-20 | for every program, start state and fuel, the run under the flag is the reporting run cut at its first error, with the same depth and slots |
| `Simulation.AskIsRunCut` | ext/fast_json/schema/is_valid.c:109-118 | the body of a top-level frame is the collecting run cut at its first error |
| `Simulation.AskAgrees` | ext/fast_json/schema/schema.c:19-47 | false exactly when the collecting run reports, true exactly when it completes silently, otherwise the same ending |
| `Simulation.AskStopsAtFirstError` | ext/fast_json/schema/error.c:8-9 | the frame stops in the context that the first error is reported from |
| `Simulation.FrameContext` | ext/fast_json/schema/is_valid.c:31-37 | every completed probe stops in the context in which the collecting run of its goal first reports, or else ends; which data let every schema give the depth back is Leaks.DepthRestored |
| `Entry.EntryPointsAgree` | ext/fast_json/schema/schema.c:19-47 | for every compiled schema and datum: valid? is true exactly when validate completes with no error, false exactly when validate reports one, and otherwise ends as validate does |
| `Entry.FlagRestored` | ext/fast_json/schema/is_valid.c:31-37 | however either entry point ends, no throw has escaped and the flag is clear |
| `Entry.OnlyLeavesRaise` | ext/fast_json/schema/path.c:26-28 | no run raises except by a leaf check: to_path never meets an unset slot, also after frames abandoned by a throw, and the depth guard never fires before the slot array is left |
| `Entry.ErrorPathsLead` | ext/fast_json/schema/validate_object.c:65-102 | every reported path starts at the root and renders, and while nothing has leaked its slots lead from the document to the reported datum |
| `Entry.DepthIsLeak` | ext/fast_json/schema/is_valid.c:31-37 | a completed run ends at a depth equal to what abandoned frames leaked |
| `Drift.FlatDocumentDrifts` | ext/fast_json/schema/is_valid.c:31-34 | the depth is not restored: with {contains: {properties: {a: false}}} an array of n objects ends n levels deep, and exactly from a thousand on the slots run out although the document nests two levels |
| `Drift.PathDrifts` | ext/fast_json/schema/path.c:15-34 | there the error about the document itself is reported at depth n, and its slots lead to the document exactly if n is 0 |
| `PathText.PathSpells` | ext/fast_json/schema/path.c:15-34 | whatever leaks, the path that the block receives is # and the slots after it, each ended by a slash: a key as it is, an index in digits that read back as that index |
| `PathText.PathWalks` | ext/fast_json/schema/path.c:15-34 | where nothing leaked and no key on the way has a slash, the path cut at its slashes is # and then a JSON Pointer walk from the document to the datum of the error, or for a propertyNames error to the value under that name |
| `Drift.DeepDocument` | ext/fast_json/schema/types/context.h:19-27 | one family that reaches the bound of Leaks.OnlyDeepOrLeaked without a leak: with {items: {$ref: #}} a document nested n deep is validated exactly if n is below 1000, and from there on leaves the slots without the guard raising |
| `Leaks.OnlyDeepOrLeaked` | ext/fast_json/schema/types/context.h:19-27 | for every schema and document, validate and valid? leave the slots only if the nesting of the document and the depth leaked by then come to at least 999 |
| `Leaks.FlatRestores` | ext/fast_json/schema/is_valid.c:31-37 | every completed probe, from any state, over a datum without items and string-keyed members gives the depth back and leaks nothing |
| `Leaks.DepthRestored` | ext/fast_json/schema/is_valid.c:31-37 | every schema gives the depth back over a datum exactly if the datum has no items and no member with a string key, which can be seen before the call |
| `Leaks.ProbelessPathsLead` | ext/fast_json/schema/is_valid.c:109-118 | a graph without if, not, allOf, anyOf, oneOf and contains leaks nothing, and every path it reports leads to the reported datum |
| `Leaks.ProbelessLeavesByNesting` | ext/fast_json/schema/types/context.h:19-27 | such a graph leaves the slots only on a document nested 999 deep or deeper |
| `Nesting.PathSurplus` | ext/fast_json/schema/path.c:15-34 | each error is about a datum inside the document, and its path is longer than a way to that datum by exactly the leaked depth |
| `Independence.IsValidIndependent` | ext/fast_json/schema/is_valid.c:109-118 | a leaked depth and stale slots never change an answer: from any two contexts on which a probe completes, it gives the same answer and the same errors |
| `Meaning.IsValidMeans` | ext/fast_json/schema/is_valid.c:109-118 | a completed probe decides the meaning of its goal, for every program whose steps the meaning explains |
| `Meaning.CountMeans` | ext/fast_json/schema/one_of.c:7-19 | a loop that stops at a limit counts the met goals up to that limit |
| `Counting.TallyMeans` | ext/fast_json/schema/all_of.c:7-21 | a count equals the total exactly if all hold, is positive exactly if one holds, and is one exactly if precisely one holds |
| `Draft7.BodyMeans` | ext/fast_json/schema/validate.c:90-113 | the steps of a node hold exactly when its keywords hold, with $ref hiding its siblings: sections 6.1 to 6.7 of JSON Schema Validation draft-07 but for Floats without a fraction (TypesDiffer) and for minContains and maxContains, which draft-07 does not have (ContainsDiffers) |
| `Draft7.TypesDiffer` | ext/fast_json/schema/validate.c:28-74 | the types are those of section 6.1.1 of draft-07 exactly unless the datum is a Float without a fraction and the schema allows integers and not numbers |
| `Draft7.IntegralRefused` | ext/fast_json/schema/validate_integer.c:4-6 | such a datum is refused by such a schema although section 6.1.1 allows it |
| `Draft7.ContainsDiffers` | ext/fast_json/schema/validate_array.c:64-95 | the answer to contains is another than that of section 6.4.6 exactly if nothing is found and nothing is asked for, or something is found and it is too little or too much |
| `Draft7.TypeMeans` | ext/fast_json/schema/validate.c:12-74 | the type function allows the datum and runs the keywords of its kind |
| `Draft7.IfMeans` | ext/fast_json/schema/if.c:20-31 | the condition selects which branch must hold, and without branches holds by itself |
| `Draft7.CombinatorsMean` | ext/fast_json/schema/one_of.c:6-23 | all, some and precisely one branch, despite the early exits of anyOf and oneOf |
| `Draft7.ItemsMean` | ext/fast_json/schema/validate_array.c:119-126 | a single items schema holds of all items, a tuple of the items it covers and additionalItems of the rest |
| `Draft7.ContainsMeans` | ext/fast_json/schema/validate_array.c:64-95 | the number of items that hold lies within maxContains and minContains, or is at least one |
| `Draft7.MemberMeans` | ext/fast_json/schema/validate_object.c:65-92 | additionalProperties applies exactly to the members that neither properties nor a pattern covers |
| `Draft7.ObjectMeans` | ext/fast_json/schema/validate_object.c:137-159 | limits, required, dependencies, names and members of an object |
| `Draft7.ValidMeansSat` | ext/fast_json/schema/schema.c:37-47 | whenever valid? completes, it is true exactly when the datum satisfies the schema |
| `Draft7.ValidateMeansSat` | ext/fast_json/schema/schema.c:19-35 | whenever validate completes, it is silent exactly when the datum satisfies the schema |
| `Reporting.ExecSays` | ext/fast_json/schema/error.c:7-20 | a completed run that is heard adds to the events exactly what its steps report, in order, given which goals are met |
| `Hearing.KeywordsHeard` | ext/fast_json/schema/validate.c:90-113 | the steps of a node report the complaints of its schema keyword by keyword, in the order type, const, enum, if, not, allOf, anyOf, oneOf |
| `Hearing.RequiredHeard` | ext/fast_json/schema/validate_object.c:104-114 | one complaint for each name that is missing, in the order of the list |
| `Hearing.MemberHeard` | ext/fast_json/schema/validate_object.c:65-92 | the complaints of propertyNames, properties, each matching pattern and additionalProperties, in this order |
| `Hearing.ItemsHeard` | ext/fast_json/schema/validate_array.c:119-126 | the complaints of the items one after the other, under one schema or under a list of schemas and additionalItems |
| `Hearing.ValidateReports` | ext/fast_json/schema/schema.c:19-35 | for every schema, whatever its $ids: the errors of a completed validate are, one by one and in order, the complaints that the JSON of the schema calls for, each with the location of its schema, its datum and its code |
| `Termination.IsValidStable` | ext/fast_json/schema/ref.c:3-7 | a probe that ends within some call depth is the same at every larger one |
| `Termination.ExecEnds` | ext/fast_json/schema/ref.c:3-7 | every run ends if the schema applications it starts descend in some rank |
| `Recursion.BodyInward` | ext/fast_json/schema/validate_object.c:65-135 | each node applies schemas only along its own edges: in-place edges to the same datum, all others to a strictly lower one |
| `Recursion.ValidationEnds` | ext/fast_json/schema/ref.c:3-7 | if the in-place edges can be ranked, validation of every finite datum ends within height times the number of ranks, with $ref recursive through items and properties |
| `Recursion.AnswerIsFinal` | ext/fast_json/schema/ref.c:3-7 | an answer, once given, is the answer and the meaning at every larger index |
| `Recursion.RefLoopNeverEnds` | ext/fast_json/schema/ref.c:3-7 | a loop of $refs exhausts every call stack, whatever the datum |
| `Blueprint.ParseTypeArray` | ext/fast_json/schema/compiled_schema.c:388-428 | raises exactly on an empty list, a non-string, an unknown or a repeated type, and else yields the set of types |
| `Scheme.UriResolverIsAbsolute` | ext/fast_json/schema/uri_resolver.c:7-27 | true exactly for what starts with a scheme of section 3.1 of RFC 3986 and a colon |
| `CompilerObject.Compiler.Compile` | ext/fast_json/schema/compiled_schema.c:462-548 | for every schema, scope and start state: raises exactly when some type list or regex key inside is invalid, and else appends exactly the nodes of the whole subtree and makes exactly its index entries |
| `CompilerObject.Compiler.Finish` | ext/fast_json/schema/compiled_schema.c:541-547 | the format and type functions are assigned last, and a $ref then takes over the validation function |
| `CompilerObject.Compiler.CompileKids` | ext/fast_json/schema/compiled_schema.c:497-539 | all groups of subschemas in their order, each behind what the earlier ones created |
| `CompilerObject.Compiler.CompileGroup` | ext/fast_json/schema/compiled_schema.c:500-539 | one group: its nodes are appended and its field then holds their addresses in order |
| `CompilerObject.Compiler.CompileOne` | ext/fast_json/schema/compiled_schema.c:50-63 | a hash, true or false under a single keyword compiles to an internal node, anything else to none, and the pointer of the base does not follow it |
| `CompilerObject.Compiler.CompileMany` | ext/fast_json/schema/compiled_schema.c:65-72 | an array of subschemas; the field is set only if the keyword holds an array |
| `CompilerObject.Compiler.CompileItems` | ext/fast_json/schema/schema_collection.c:9-33 | the collection holds the addresses of the items' nodes in order |
| `CompilerObject.Compiler.CompileNamed` | ext/fast_json/schema/properties_val.c:50-107 | a hash of subschemas; the field is set only if the keyword holds a hash |
| `CompilerObject.Compiler.CompileMembers` | ext/fast_json/schema/properties_val.c:28-48 | each string key leads to the node of its value, compiled one after the other; other keys are skipped; a key of patternProperties that is no regex raises |
| `CompilerObject.Compiler.CompileLoose` | ext/fast_json/schema/nested_schemas.c:90-104 | the buffer has exactly the size that the counting pass found, and becomes the field |
| `CompilerObject.Compiler.FillNested` | ext/fast_json/schema/nested_schemas.c:81-88 | the filling pass fills the whole buffer with the addresses of the loose subschemas in order, and never writes past it |
| `CompilerObject.Compiler.CompileEntry` | ext/fast_json/schema/nested_schemas.c:53-70 | one value under an unknown key appends one address for each schema in it, at any depth of arrays, and compiling a child leaves the buffer alone |
| `CompilerObject.Compiler.CompileArrayEntries` | ext/fast_json/schema/nested_schemas.c:72-79 | so does an array, entry by entry |
| `CompilerObject.CountEntries` | ext/fast_json/schema/nested_schemas.c:15-29 | the count of an array is the number of entries that filling it appends, whatever path leads to it |
| `CompilerObject.CountNested` | ext/fast_json/schema/nested_schemas.c:31-44 | the count of a schema is the number of its loose subschemas |
| `SchemaTree.KidsLower` | ext/fast_json/schema/nested_schemas.c:53-79 | every subschema is nested less deeply than the schema that holds it |
| `Location.LocateWalks` | ext/fast_json/schema/compiled_schema.c:500-539 | what is compiled at a location is what a plain JSON Pointer walk reaches there, or the stand-in for an array of names under dependencies |
| `Location.KidLeads` | ext/fast_json/schema/properties_val.c:28-48 | the tokens of a child lead from its parent to what it is compiled from |
| `Location.KidFound` | ext/fast_json/schema/nested_schemas.c:53-79 | every location inside a schema starts with one of its children |
| `Siblings.KidsApart` | ext/fast_json/schema/nested_schemas.c:72-79 | no two children of a schema lie on the way of one another |
| `References.IndexIsWalk` | ext/fast_json/schema/ref_resolver.c:102-104 | without $id and slashes in keys, the index holds exactly the literal paths of the compiled locations, and each leads to the one node compiled from what the walk reaches |
| `References.KeysArePaths` | ext/fast_json/schema/ref_resolver.c:102-132 | nothing but such a path is a key of the index |
| `References.RefIsWalk` | ext/fast_json/schema/ref_resolver.c:35-65 | a $ref that is a pointer without percent signs and without ~1 has the node of its location as target, and no target exactly if there is no such location |
| `References.RaisesForDangling` | ext/fast_json/schema/ref_resolver.c:50-60 | compiling such a schema raises Unresolved $ref exactly when some $ref decodes to the path of no compiled location |
| `References.PointerFollows` | ext/fast_json/schema/compiled_schema.c:50-63 | the pointer of a base follows exactly the children that are not single subschemas |
| `SchemaWords.RejectsInWords` | ext/fast_json/schema/compiled_schema.c:388-428 | compiling rejects a schema exactly if some location has an empty list of types, one with a word that is no type or a type twice, or a key of patternProperties that is no regex |
| `SchemaWords.LooseSchemas` | ext/fast_json/schema/keywords.c:137-178 | nothing under a keyword with a value of its own is a location; under a word that is no keyword a hash, true or false is |
| `SchemaWords.KidsOrdered` | ext/fast_json/schema/compiled_schema.c:500-539 | subschemas are compiled in the order of the keywords that they stand under |
| `BaseKeys.NodesArePlaces` | ext/fast_json/schema/compiled_schema.c:462-548 | the nodes of a compiled schema are those of its places, one after the other: what each is compiled from, where, and in which scope |
| `BaseKeys.PlacesAreLocations` | ext/fast_json/schema/compiled_schema.c:500-539 | the places are exactly the locations of the schema, each with what lies there |
| `BaseKeys.IndexIsLast` | ext/fast_json/schema/ref_resolver.c:102-132 | for every schema, whatever its $ids: a key is in the index exactly if some node is registered under it by path, $id, resolved $id or base and pointer, and leads to the last such node |
| `BaseKeys.BaseKeyIsLast` | ext/fast_json/schema/ref_resolver.c:117-131 | where the root alone has an $id, the key of its base and a pointer leads to the last node with keywords whose tokens, single subschemas left out, spell the pointer, and is missing exactly if there is none |
| `BaseKeys.KeepsKey` | ext/fast_json/schema/compiled_schema.c:50-63 | so a location with keywords keeps that key exactly if no later one with keywords spells the same once single subschemas are left out |
| `BaseKeys.MisledReference` | ext/fast_json/schema/ref_resolver.c:117-131 | in {$id: http://a/, allOf: [{type: null}], anyOf: [{$ref: http://a/#/allOf/0}], not: {allOf: [{type: string}]}} the $ref is bound to the node of #/not/allOf/0, not to that of #/allOf/0 |
| `Naming.PlacesSited` | ext/fast_json/schema/uri_scope.c:32-55 | for every schema: the path, the base and the pointer that each location is compiled with are those on the way to it, each $id on the way starting a new base and single subschemas left out of the pointer |
| `Naming.KeysAreNames` | ext/fast_json/schema/ref_resolver.c:102-132 | a location is registered under exactly its path, its $id as written and as resolved, and its base with its pointer |
| `Naming.TargetIsNamed` | ext/fast_json/schema/ref_resolver.c:32-65 | for every schema: a $ref names the last location called by its form resolved against the base in force, else the last one called by its form as written, else nothing |
| `Naming.ReferenceBound` | ext/fast_json/schema/ref_resolver.c:32-65 | in a graph that is handed out each $ref is bound to that location |
| `Naming.RaisesForMissing` | ext/fast_json/schema/ref_resolver.c:44-60 | Unresolved $ref is raised exactly if some $ref names nothing by either form |
| `EmbeddedId.InnerReference` | ext/fast_json/schema/ref_resolver.c:35-48 | in {$id: http://a/, allOf: [{type: string}], not: {$id: b/, allOf: [{type: null}, {$ref: #/allOf/0}]}} the $ref is bound to #/not/allOf/0 although #/allOf/0 is a path of the index |
| `RefResolver.ResolveRefs` | ext/fast_json/schema/ref_resolver.c:32-100 | raises exactly when some $ref of the subtree has no target in the index, and else binds every node of the subtree to its target and changes nothing else |
| `RefResolver.VisitsAll` | ext/fast_json/schema/ref_resolver.c:67-99 | the traversal visits every kind of child that compilation creates |
| `RefResolver.Division` | ext/fast_json/schema/compiled_schema.c:500-539 | the child fields of a compiled node divide what lies below it: each node there belongs to exactly one field |
| `RefResolver.KidsInOrder` | ext/fast_json/schema/schema_collection.c:17-29 | the nodes of siblings lie one after the other and have none in common |
| `SchemaCompiler.CompileSchema` | ext/fast_json/schema/compiled_schema.c:550-575 | compile and resolve composed: the three ways they end, each with its exact condition, and the bound graph and index they leave |
| `SchemaCompiler.RejectsForLocation` | ext/fast_json/schema/compiled_schema.c:388-428 | compiling rejects a schema exactly when some location of it holds an invalid list of types or a key of patternProperties that is no regex |
| `SchemaCompiler.CompiledIsSafe` | ext/fast_json/schema/ref_resolver.c:62-99 | in every graph handed out each node has its functions assigned, each $ref is bound to a node of the graph, and all children are nodes of the graph |
| `SchemaCompiler.BoundToWalk` | ext/fast_json/schema/ref_resolver.c:35-65 | in a graph without $id and slashes, a $ref that is a pointer is bound to the only node with that path, compiled from what the walk reaches |
| `Loading.RunsStayInside` | ext/fast_json/schema/validate_object.c:65-135 | a run that starts in a graph of safe nodes depends on nothing outside it, in both modes |
| `Loading.CompiledRuns` | ext/fast_json/schema/compiled_schema.c:466-547 | so it is for every compiled schema: no run meets a function field that was never assigned or a missing reference |
| `FieldPlaces.NodeLeads` | ext/fast_json/schema/compiled_schema.c:500-539 | each child field of a compiled node is set exactly if its keyword has the right form, and leads to the node of what stands there in the JSON: one, item by item, or member by member in order |
| `JsonMeaning.NameListMeans` | ext/fast_json/schema/properties_val.c:72-92 | a list of names under dependencies holds of exactly the objects that have all the names |
| `JsonMeaning.FalseAdditional` | ext/fast_json/schema/compiled_schema.c:50-63 | no object with a name that neither properties nor a pattern covers gets past additionalProperties: false |
| `Composition.GraphMeansSchema` | ext/fast_json/schema/compiled_schema.c:462-575 | for every schema, whatever its $ids, the graph that compiling hands out is satisfied by exactly the data that satisfy the schema as JSON, each $ref leading to the location that it names |
| `Composition.AnswersMeanSchema` | ext/fast_json/schema/schema.c:19-53 | so a completed valid? on the compiled schema is true exactly if the document satisfies the schema as JSON, and a completed validate is silent exactly then |
| `Composition.PointersMean` | ext/fast_json/schema/ref_resolver.c:35-65 | without $id and slashes in keys, and with plain pointers for references, each $ref stands for the location that its pointer spells |
| `Composition.LoadLoads` | ext/fast_json/schema/compiled_schema.c:466-531 | the graph, read with the limits and the required names of its schemas, is such a loaded graph |
| `Release.Free` | ext/fast_json/schema/compiled_schema.c:181-204 | frees exactly the nodes below that the exposed node owns, none of them before or twice |
| `Release.FreeFields` | ext/fast_json/schema/compiled_schema.c:182-199 | the visited fields hold exactly the owned nodes below |
| `Release.Sweep` | ext/fast_json/schema/compiled_schema.c:206-218 | when every wrapper is swept once, in any order, every node is freed, none twice, and nothing else |
| `Release.GroupExposed` | ext/fast_json/schema/compiled_schema.c:58-58 | the nodes of lists and hashes are exposed, those of single and loose subschemas are internal |
| `Release.OwnerExposed` | ext/fast_json/schema/schema_collection.c:21-23 | whatever owns a node is exposed and lies above it |
| `Release.ExposedTree` | ext/fast_json/schema/compiled_schema.c:181-204 | the region that an exposed node frees is exactly what it owns, so that the regions part the tree |
| `Utf8.SeqLenExact` | ext/fast_json/schema/formats/utils/utf8.c:27-73 | n is returned exactly when the first n bytes encode one scalar value in the sense of RFC 3629, and the value is unique |
| `Utf8.EncodedIsAccepted` | ext/fast_json/schema/formats/utils/utf8.c:27-73 | the encoding of every scalar value is taken whole, whatever follows |
| `Utf8.AcceptedIsEncoded` | ext/fast_json/schema/formats/utils/utf8.c:27-73 | what is taken is the shortest form of a scalar value: no overlong form, no surrogate, nothing above U+10FFFF |
| `Utf8.PrefixFree` | ext/fast_json/schema/formats/utils/utf8.c:27-73 | no accepted sequence is a proper prefix of another |
| `Pointer.ParseJsonPointer` | ext/fast_json/schema/formats/utils/json_pointer_parser.c:4-45 | accepts exactly the spellings of token lists |
| `Pointer.PointerLanguage` | ext/fast_json/schema/formats/utils/json_pointer_parser.c:4-45 | exactly the escaped spellings of token lists are accepted (section 3 of RFC 6901) |
| `Pointer.TokensUnique` | ext/fast_json/schema/formats/utils/json_pointer_parser.c:8-42 | a pointer names only one token list |
| `Pointer.RefDecodes` | ext/fast_json/schema/ref_decoder.c:22-31 | on a pointer that the URI unescape leaves alone, replacing ~1 and then ~0 yields the path that new_path builds from its tokens (section 4 of RFC 6901) |
| `CompilerObject.NewPathIs` | ext/fast_json/schema/path.c:3-13 | new_path extends a path by the tokens of a step |
| `Ipv4.ParseIpv4` | ext/fast_json/schema/formats/utils/ip_parser.c:8-40 | accepts exactly four decimal octets without leading zeros, joined by dots |
| `Ipv4.AddressLanguage` | ext/fast_json/schema/formats/utils/ip_parser.c:8-40 | exactly four decimal octets without leading zeros, joined by dots |
| `Ipv6.ParseIpv6` | ext/fast_json/schema/formats/utils/ip_parser.c:54-126 | accepts exactly the text forms and the overruns |
| `Ipv6.Ipv6Language` | ext/fast_json/schema/formats/utils/ip_parser.c:54-126 | accepted are exactly the text forms of section 2.2 of RFC 4291 and the overruns, which have one colon after the last group behind a :: |
| `Ipv6.Ipv6Exact` | ext/fast_json/schema/formats/utils/ip_parser.c:117-117 | the recognizer is right exactly on strings that do not end in a single colon, and on those that do accepts exactly the overruns |
| `Ipv6.OverrunExample` | ext/fast_json/schema/formats/utils/ip_parser.c:117-117 | ::1: is accepted and is no text form |
| `HexText.GroupLanguage` | ext/fast_json/schema/formats/utils/ip_parser.c:42-52 | a group is exactly a number below 65536 in one to four base-16 digits, upper or lower case |
| `HexText.FullForms` | ext/fast_json/schema/formats/utils/ip_parser.c:54-126 | the full forms of hexadecimal groups are exactly the spellings of eight such numbers |
| `HexText.EightNumbers` | ext/fast_json/schema/formats/utils/ip_parser.c:54-126 | any eight numbers below 65536, in either case and joined by colons, are accepted |
| `HexText.TripleLanguage` | ext/fast_json/schema/formats/utils/uri_parser.c:52-58 | a percent triple is exactly a percent sign and the two digits of a byte, upper or lower case |
| `HexText.TripleTaken` | ext/fast_json/schema/formats/utils/uri_parser.c:52-58 | the triple of every byte, in either case, is taken whole whatever follows, by every class that takes triples |
| `Alphabets.CharactersAre` | ext/fast_json/schema/formats/utils/uri_parser.c:15-105 | the characters of every class are exactly those the standards list, letter by letter, with percent triples, escape pairs and UTF-8 where they allow them |
| `Alphabets.SchemeCharsAre` | ext/fast_json/schema/formats/utils/uri_parser.c:44-46 | a scheme is written in letters, digits, plus, hyphen and dot |
| `Alphabets.FutureCharsAre` | ext/fast_json/schema/formats/utils/uri_parser.c:127-153 | an address of a future version is written in unreserved characters, delimiters and colons |
| `Alphabets.TagsAre` | ext/fast_json/schema/formats/utils/addr_spec_parser.c:206-219 | a tag is letters, digits and hyphens with no hyphen at either end, and has a letter where one does |
| `Alphabets.OperatorsAre` | ext/fast_json/schema/formats/utils/uri_template_parser.c:25-41 | the operators of expressions |
| `Hostname.ParseLabel` | ext/fast_json/schema/formats/utils/hostname_parser.c:53-83 | the length of the label at the front, or 0 |
| `Hostname.ParseHostname` | ext/fast_json/schema/formats/utils/hostname_parser.c:85-113 | accepts exactly dot-joined labels of at most 253 bytes, with at most one final dot |
| `Hostname.HostnameLanguage` | ext/fast_json/schema/formats/utils/hostname_parser.c:85-113 | exactly dot-joined labels of 1 to 63 bytes that neither start nor end with a hyphen, at most 253 bytes, at most one final dot, also with multi-byte characters |
| `AddrSpec.ParseDotAtom` | ext/fast_json/schema/formats/utils/addr_spec_parser.c:96-121 | the length of the dot-atom at the front, or 0 |
| `AddrSpec.ParseQuotedString` | ext/fast_json/schema/formats/utils/addr_spec_parser.c:138-177 | the length of the quoted string at the front, or 0 |
| `AddrSpec.ParseLdhStr` | ext/fast_json/schema/formats/utils/addr_spec_parser.c:206-219 | letters, digits and hyphens with no hyphen at either end |
| `AddrSpec.ParseAddrSpec` | ext/fast_json/schema/formats/utils/addr_spec_parser.c:320-342 | accepts exactly what splits into a local part, an at sign and a domain |
| `AddrSpec.LocalComplete` | ext/fast_json/schema/formats/utils/addr_spec_parser.c:183-189 | the greedy end of a local part is where its at sign is, whatever the domain |
| `AddrSpec.DomainLanguage` | ext/fast_json/schema/formats/utils/addr_spec_parser.c:312-318 | a string is taken whole exactly when it is a dot-atom with at most one final dot or a bracketed literal, the IPv6 ones with the overruns of Ipv6.OverrunExample |
| `AddrSpec.AddrSpecLanguage` | ext/fast_json/schema/formats/utils/addr_spec_parser.c:320-342 | exactly local part of 1 to 64 bytes, at sign, domain of 1 to 255 bytes (section 3.4.1 of RFC 5322, section 4.1.3 of RFC 5321, and IPv6 literals with an overrun): the greedy choice loses no derivation |
| `UriTemplate.ParseLiteralsRun` | ext/fast_json/schema/formats/utils/uri_template_parser.c:87-95 | the length of the literals up to a brace or the end, or 0 at an invalid byte |
| `UriTemplate.ParseVarname` | ext/fast_json/schema/formats/utils/uri_template_parser.c:116-135 | the length of the dotted name at the front, or 0 |
| `UriTemplate.ParseVariableList` | ext/fast_json/schema/formats/utils/uri_template_parser.c:186-197 | specs joined by commas, or 0 |
| `UriTemplate.ParseUriTemplate` | ext/fast_json/schema/formats/utils/uri_template_parser.c:219-235 | accepts exactly the printed forms of templates |
| `UriTemplate.ModifierSound` | ext/fast_json/schema/formats/utils/uri_template_parser.c:144-163 | what is taken is an explode or a prefix of 1 to 9999 |
| `UriTemplate.TemplateLanguage` | ext/fast_json/schema/formats/utils/uri_template_parser.c:219-235 | exactly the printed forms of templates (sections 2.1 to 2.4 of RFC 6570), despite giving up early on dots and digits |
| `UriPath.ParsePathAbempty` | ext/fast_json/schema/formats/utils/uri_parser.c:388-395 | slash-led segments, greedily |
| `UriPath.ParsePathRooted` | ext/fast_json/schema/formats/utils/uri_parser.c:420-446 | a non-empty first segment and slash-led ones |
| `UriAuthority.ParseIpvFuture` | ext/fast_json/schema/formats/utils/uri_parser.c:127-153 | the length of the address of a future version at the front, or 0 |
| `UriAuthority.HostNameLanguage` | ext/fast_json/schema/formats/utils/uri_parser.c:218-247 | a host is taken whole exactly when it is a reg-name or an IPv4 address and no shorter IPv4 address shadows it |
| `UriAuthority.AuthorityTaken` | ext/fast_json/schema/formats/utils/uri_parser.c:295-346 | a well-formed authority is accepted exactly when its host is not shadowed |
| `Uri.ParseUriReference` | ext/fast_json/schema/formats/utils/uri_parser.c:597-605 | accepts exactly the printed forms of references of the grammar whose host nothing shadows, with a scheme if one is required |
| `Uri.ReferenceSound` | ext/fast_json/schema/formats/utils/uri_parser.c:479-605 | every accepted string splits into scheme, authority, path, query and fragment that print to it and derive from Appendix A of RFC 3986 |
| `Uri.ReferenceLanguage` | ext/fast_json/schema/formats/utils/uri_parser.c:597-605 | both together: acceptance is derivability with a host that nothing shadows |
| `Uri.ReferenceAccepted` | ext/fast_json/schema/formats/utils/uri_parser.c:597-605 | every reference of the grammar is accepted exactly when its host is not an IPv4 address with more characters behind it, and has a scheme if one is required |
| `Uri.ShadowedRefused` | ext/fast_json/schema/formats/utils/uri_parser.c:242-244 | a reference that is nothing but such a host is refused although the grammar derives it |
| `Uri.ShadowedExample` | ext/fast_json/schema/formats/utils/uri_parser.c:242-244 | //1.2.3.4abc is refused |
| `Uri.AsciiReference` | ext/fast_json/schema/formats/utils/uri_parser.c:64-72 | on ASCII input the UTF-8 flag never changes the answer |

## Left out

- Validator.CheckLeaf: the inner working of leaf checks (`const`, `enum`, `uniqueItems`, `pattern`, `format` and the numeric bounds with their long and double arithmetic) is a given function of node and datum that passes, fails or raises, also where an Integer does not fit a long.
- Validator.ValidateByPatterns: regex matching, and whether a key is a regex at all, are given predicates.
- Validator.ValidateString: limits beyond the range of a long raise in the source; here a limit is any integer, and a Float limit is the long it truncates to.
- ContextObject.Context.Add: an access past the 1000 slots is undefined in C; the model stops there with an outcome of its own.
- Validator.RbValidate: the block only records errors; one that raises or leaves early, and the enumerator returned without a block, are not modelled.
- CompilerObject.Compiler.Compile: limits, `required` and the code of a `format` error are not fields of the model's nodes while they are compiled (`Composition.IsLoaded` reads them from the schema), a `format` string with a NUL byte, on which `formats/format.c` raises, is compiled, and after an error the partly built graph is not described.
- Blueprint.TypeCheckOf: a single `type` is compared as a whole string; the source compares up to the first NUL byte.
- CompilerObject.Compiler.Register: `URI.join` and the URI unescape are given functions; `$recursiveAnchor` and `$recursiveRef` are stored but never read in the source and do not appear.
- References.RefIsWalk: stated for schemas without `$id`, without slashes in keys and for pointers without `%` and `~1`, where the source's index is exact; `BaseKeys.IndexIsLast` is about the rest.
- Composition.PointersMean: for references that are not plain pointers, or with `$id`s, `Composition.AnswersMeanSchema` takes the location that each `$ref` names (`Naming.NameOf`).
- Release.Sweep: covers graphs that compiled; marking and compaction by the garbage collector, and the arrays behind `nested_schemas`, are not modelled.
- Date, time, relative pointer and regex formats, the wrappers that call the recognizers, and custom formats are not modelled.
- Ruby's own hashes, exceptions, throw and catch: modelled by ordered lists of members with distinct keys and by the outcomes of a call.
- Conformance reporting, benchmarks and the argument checks of the Ruby layer.
