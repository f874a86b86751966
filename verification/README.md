# Verified models of the gateway's core

This project models the parts of the gateway whose correctness rests on an argument rather
than on a glance: the action-contract compiler and validator, the exact number and calendar
arithmetic, the streaming diff splitter, the test shard scheduler, the transactions on the
shared hub branch, the cutover to a candidate build, and the two durable receipt protocols.

`dafny verify dfyconfig.toml` checks everything.

## The files

| file | what it models |
|---|---|
| `Json.dfy` | JSON values and the engine's comparison of them |
| `Digits.dfy` | decimal digits and the numbers they read as |
| `Calendar.dfy` | compact timestamps, date normalisation, calendar order |
| `Schemas.dfy` | compiled schemas, what they accept, the validator |
| `Rendering.dfy`, `Renderer.dfy` | the JSON Schema documents, the meaning the standard gives them, and the renderer that builds them |
| `Contracts.dfy`, `ContractLaws.dfy`, `ContractMeaning.dfy` | contract specifications, their cache-free expansion, its laws, and what a specification means keyword by keyword |
| `Nesting.dfy`, `Resolver.dfy` | how deep specifications nest, and the caching definition resolver with cycle detection |
| `Procedure.dfy`, `ProcedureRoundTrip.dfy`, `ProcedureMeaning.dfy` | the bounded compiler for dynamic schemas, rendering and recompiling, and that compiling keeps what a document means |
| `Mappings.dfy`, `FieldMappings.dfy` | field renames along paths, and compiling them |
| `Projection.dfy` | projecting outputs to compact timestamps |
| `SafeInteger.dfy` | decoding a number literal as an exact safe integer |
| `DiffStream.dfy` | splitting chunks of bytes into numbered lines, paging |
| `Scheduling.dfy`, `Shards.dfy` | longest-first scheduling and the shards it makes |
| `Hub.dfy` | hub transactions by several gateways and writers outside them |
| `Cutover.dfy`, `CutoverRuns.dfy` | activating a candidate, rolling back, recovering forward, keeping the snapshot; which build serves after which failures |
| `DebugReceipt.dfy`, `RecoveryReceipt.dfy` | the receipts of debug activations and gateway recoveries |
| `Witnesses.dfy` | concrete contracts, documents and literals on which a promise does not hold |

Code that changes state step by step is modelled by classes and methods (the resolver, the
procedure compiler, the diff stream, the cutover). The protocols in which several processes
race are modelled as a step relation; their theorems speak of every behaviour, that is, of
every sequence of worlds in which each follows from the one before by some step. In the
cutover every callback's result is an arbitrary choice, so that a method's contract speaks
of every run of failures; the events of a run are then given as a function of those results.

## What the proofs found

- A schema that is only a negation, and a closed object schema without properties that only
  combines others, mean something else to the validator than to a reader of the published
  JSON Schema document. `Rendering.NodeDisagreement` says exactly when the two differ, and
  `Witnesses.CompiledContractsCanRenderUnfaithfully` that both schemas are compiled from contracts.
- A hub transaction that fails before pushing its commit can still have changed the remote:
  it may have created the branch. `Hub.EarlyFailureMayOpenTheBranch` is such a run;
  `Hub.EarlyFailureLandsNothing` says that this is all that can happen, and only where the
  call found no branch. A push whose error was reported may also land later.
- Projecting an output twice can change it again when a schema offers a choice between
  branches that reach a timestamp (`Projection.ChoiceIsNotIdempotent`). When no choice does,
  projecting is idempotent (`Projection.ProjectionIsIdempotent`).
- Rendering and recompiling a dynamic schema fails for an object without properties, because
  the renderer leaves out an empty property list (`ProcedureRoundTrip.RenderingRecompiles`;
  `Witnesses.EmptyObjectDoesNotComeBack` is such an object).
- The safe-integer decoder refuses -0, and zero with an exponent beyond its bound, although
  both denote a safe integer (`SafeInteger.DecodingIsExact`; `Witnesses.SomeZerosAreRefused`
  gives one of each).
- The flags of an activation's outcome say which steps succeeded, not how the run ended:
  the previous artifacts can be reported as restored while the candidate ends up serving
  (`CutoverRuns.RestoredFilesMayNotServe`). `CutoverRuns.RestoredFilesServe` says exactly
  which build serves then. A failed snapshot followed by a failed restart also goes forward,
  without a snapshot (`CutoverRuns.MayServeWithoutSnapshot`, `CutoverRuns.ServesWithoutSnapshot`).

## Model

| member | source | states |
|---|---|---|
| Json.SchemaEqualIsEquality | internal/actioncontract/validate.go:280-311 | the comparison, which only looks one way through keys, is equality of values nested to any depth, hence symmetric and transitive |
| Json.ContainsIsMembership | internal/actioncontract/compiler.go:641-648 | searching a list with that comparison is membership |
| Calendar.NormaliseIsReal | internal/actioncontract/validate.go:326-326 | normalising any six integers gives a real second of the calendar |
| Calendar.NormaliseFixesExactlyRealSeconds | internal/actioncontract/validate.go:326-327 | the field sets that normalisation leaves alone are exactly the real seconds: right month lengths, leap years and clock |
| Calendar.ParseDecimal | internal/actioncontract/validate.go:330-341 | the loop reads the decimal value of a non-empty digit string that fits 64 bits, and -1 of anything else |
| Calendar.CheckTimestamp | internal/actioncontract/validate.go:313-328 | a string is accepted exactly if it is the compact form of a real second of the years 2000 to 2099 |
| Calendar.ValidTimestampIsARealSecond | internal/actioncontract/validate.go:313-328 | the same as a law of the specification, in both directions |
| Calendar.CompactIsAccepted | internal/actioncontract/adapters.go:239-239 | the compact form of a real second of any year whatever is an accepted timestamp |
| Calendar.TextOrderIsTimeOrder | internal/actioncontract/validate.go:313-328 | within 2000 to 2099 compact texts sort as the moments they name |
| Schemas.OneTrue | internal/actioncontract/validate.go:95-105 | counting matches to one is the same as exactly one branch matching |
| Schemas.CountMatches | internal/actioncontract/validate.go:95-105 | the counter over the one-of branches is one exactly if exactly one branch accepts |
| Schemas.ValidateAll | internal/actioncontract/validate.go:78-82 | the loop over the all-of branches decides whether all accept |
| Schemas.ValidateAny | internal/actioncontract/validate.go:83-94 | the loop that stops at the first match decides whether some branch accepts |
| Schemas.ValidateComposition | internal/actioncontract/validate.go:75-110 | exclusion, combination and condition are decided as specified |
| Schemas.ValidatePlain | internal/actioncontract/validate.go:111-157 | type, bounds, enum, constant and text keywords are decided as specified |
| Schemas.ValidateSize | internal/actioncontract/validate.go:193-207 | the double loop over items decides size and pairwise distinctness |
| Schemas.ValidateChildren | internal/actioncontract/validate.go:158-215 | required keys, unknown keys, fields and items are decided as specified, a purely combining node leaving keys to its branches |
| Schemas.Validate | internal/actioncontract/validate.go:68-217 | the validator, with its loops, counters and early exits, decides acceptance |
| Rendering.RenderingPreservesMeaning | internal/actioncontract/schema.go:8-102 | on a schema whose nodes agree about unknown keys, the validator accepts a value exactly if it is valid against the rendered document by sections 10.2 and 10.3 of JSON Schema Core 2020-12 and section 6 of JSON Schema Validation 2020-12 |
| Rendering.AnnotationsRendered | internal/actioncontract/schema.go:8-102 | description, unit and default are published as they are, and only where there are any |
| Rendering.NodeDisagreement | internal/actioncontract/validate.go:158-191 | at a node with faithful children the two differ exactly on a non-empty object, when the rules for unknown keys differ and everything else accepts it |
| Rendering.NegationLosesMeaning | internal/actioncontract/schema.go:92-94 | a schema that is only a negation rejects an object that its document admits |
| Rendering.ClosedCompositionLosesMeaning | internal/actioncontract/schema.go:33-37 | a closed object schema that only combines others admits an object that its document rejects |
| Witnesses.CompiledContractsCanRenderUnfaithfully | internal/actioncontract/compiler.go:352-565 | both schemas are what the compiler makes of a contract, so compiled contracts can mean something else than their documents |
| Renderer.JSONSchema | internal/actioncontract/schema.go:8-102 | the renderer, assigning keyword by keyword, builds exactly the document whose meaning is stated |
| Renderer.RenderChildren | internal/actioncontract/schema.go:19-25 | the loop over properties renders each under its name |
| Renderer.RenderUnknownKeys | internal/actioncontract/schema.go:32-39 | a schema for unknown keys wins over the flag, which defaults to closed for objects |
| Renderer.RenderBranches | internal/actioncontract/schema.go:104-110 | the loop over branches renders each in order |
| ContractLaws.RefsOnlyNarrow | internal/actioncontract/compiler.go:261-351 | whatever a compiled reference accepts, with any combination of added constraints, the shared definition accepts |
| ContractLaws.ExpandedIsWellCompiled | internal/actioncontract/compiler.go:537-563 | at every node of every successfully compiled tree the default, the constant and each enum entry satisfy that node, after references, narrowing and overrides |
| ContractLaws.DefinitionIsWellCompiled | internal/actioncontract/compiler.go:153-176 | the same for every shared definition |
| ContractLaws.RefNodeWellCompiled | internal/actioncontract/compiler.go:306-350 | the same for the node a reference compiles to, given the shared tree |
| ContractLaws.CompiledContractsRenderFaithfully | internal/actioncontract/compiler.go:245-565 | for every contract that compiles and keeps the unknown-key rule, validator and published document accept the same values |
| ContractLaws.ExpandIsMonotone | internal/actioncontract/compiler.go:245-565 | allowing more nested references never changes a successful expansion |
| ContractLaws.DefIsUnique | internal/actioncontract/compiler.go:153-176 | any two successful expansions of a definition agree, so the expansion is well defined without a cache |
| ContractLaws.CyclesNeverExpand | internal/actioncontract/compiler.go:164-166 | a definition that reaches itself through references has no expansion, whatever the depth allowed |
| ContractMeaning.CompilingKeepsMeaning | internal/actioncontract/compiler.go:245-565 | if a specification compiles, a value is accepted exactly if it satisfies the keywords the specification writes (type, bounds, pattern, format, enum, constant, required keys, properties, items, branches, exclusion, condition); a key it does not declare needs a specification for further keys that it satisfies, or the word that they are allowed; a reference asks for what the shared definition does and for what it adds |
| ContractMeaning.InlineMeans | internal/actioncontract/compiler.go:352-565 | the same for one node, given subschemas that mean the same |
| ContractMeaning.ReferenceMeans | internal/actioncontract/compiler.go:261-351 | the node of a reference accepts exactly what the shared schema accepts and every added constraint allows |
| ContractMeaning.DefinitionKeepsMeaning | internal/actioncontract/compiler.go:153-176 | the same for every shared definition, whose tree also carries what is written |
| ContractMeaning.CompiledTreeCarries | internal/actioncontract/compiler.go:245-565 | at every node the compiled default is the value of the override if there is one, else the default written, else that of the shared definition; description, unit and the trimmed reason likewise; and subschemas stay at their places |
| Contracts.TrimSpaceMeans | internal/actioncontract/compiler.go:654-654 | trimming takes away nothing but space and leaves none at either end |
| Contracts.SortNamesSorts | internal/actioncontract/compiler.go:401-418 | the compiled required list is a permutation of the written one in the order of its texts |
| Contracts.MatchesName | internal/actioncontract/compiler.go:936-938 | a name is a lower-case letter followed by lower-case letters, digits and underscores |
| Contracts.CountBytes | internal/actioncontract/compiler.go:687-691 | the length of a text in UTF-8 bytes, character by character |
| Resolver.MergeLowerInt | internal/actioncontract/compiler.go:597-606 | a merge succeeds exactly if every number the candidate admits the shared bound admits, and then admits exactly what both do |
| Resolver.MergeUpperInt | internal/actioncontract/compiler.go:608-617 | the same for upper bounds |
| Resolver.MergeLowerReal | internal/actioncontract/compiler.go:619-628 | the same for numbers from below |
| Resolver.MergeUpperReal | internal/actioncontract/compiler.go:630-639 | the same for numbers from above |
| Resolver.MergeRefConstraints | internal/actioncontract/compiler.go:567-595 | merging succeeds exactly if no bound is loosened and uniqueness is not dropped, and gives the tightened bounds |
| Resolver.CheckAddedEnum | internal/actioncontract/compiler.go:289-307 | the double loop accepts an added enum exactly if it is not empty, of the right type, within the shared one and without repetition |
| Resolver.TightenFields | internal/actioncontract/compiler.go:269-330 | copying and narrowing a shared schema field by field gives the tightened schema exactly if nothing is loosened or replaced |
| Resolver.CheckKinds | internal/actioncontract/compiler.go:687-736 | each kind of bound is accepted exactly on its type and in order, as specified |
| Resolver.CheckLiterals | internal/actioncontract/compiler.go:673-685 | the loop decides whether every enum entry and the constant satisfy their own node |
| Resolver.ApplyDefaultOverride | internal/actioncontract/compiler.go:650-671 | an override is applied exactly if it has a value that the node accepts, a reason of one bounded line and a default to override; value and trimmed reason are then the ones carried |
| Resolver.CompileRef | internal/actioncontract/compiler.go:261-351 | a reference compiles to the tightened schema exactly if narrowing, literals, default and override are all in order |
| Resolver.CheckRequired | internal/actioncontract/compiler.go:401-418 | the required list is accepted exactly if it is non-empty, without repetition, declared and without defaults |
| Resolver.CheckObjectRules | internal/actioncontract/compiler.go:388-447 | the object keywords are accepted exactly as specified |
| Resolver.CheckEnum | internal/actioncontract/compiler.go:448-466 | the double loop accepts a written enum exactly if it is not empty, on a scalar type, of that type and without repetition |
| Resolver.CheckHeader | internal/actioncontract/compiler.go:352-366 | what a node must say and may not say before anything of it is compiled |
| Resolver.CheckStructure | internal/actioncontract/compiler.go:1005-1007 | whether a specification says anything that a reference may not |
| Resolver.CheckJsonValue | internal/actioncontract/compiler.go:777-779 | whether a specification of any value says nothing else |
| Resolver.AssembleInline | internal/actioncontract/compiler.go:367-384 | assigning keyword by keyword, with an object closed by default, builds the node |
| Resolver.CompileInline | internal/actioncontract/compiler.go:352-565 | a node compiles to its expansion exactly if its header, object rules and literals are in order |
| Resolver.DefinitionResolver.Resolve | internal/actioncontract/compiler.go:153-176 | on every exit the set of definitions being visited is restored and the cache holds full expansions; a success is the full expansion; a failure at the nesting bound means that some chain of parts and references from here passes it, and any other failure that there is no expansion |
| Resolver.DefinitionResolver.CompileDefinition | internal/actioncontract/compiler.go:167-175 | compiling a definition that is not cached and storing it keeps all this |
| Resolver.DefinitionResolver.CompileVisited | internal/actioncontract/compiler.go:167-170 | while its schema is compiled a definition is marked as being visited, and unmarked on every exit; it is not cached in between |
| Resolver.DefinitionResolver.CompileSchema | internal/actioncontract/compiler.go:245-565 | compiling with the cache gives the cache-free expansion; it fails only if there is none or a chain from here passes the nesting bound |
| Resolver.DefinitionResolver.CompileReference | internal/actioncontract/compiler.go:261-351 | the same for a reference |
| Resolver.DefinitionResolver.CompileFields | internal/actioncontract/compiler.go:388-400 | the same for all properties of an object |
| Resolver.DefinitionResolver.CompileList | internal/actioncontract/compiler.go:477-512 | the same for a list of branches |
| Resolver.DefinitionResolver.CompileChildren | internal/actioncontract/compiler.go:388-536 | the same for all subschemas of a node |
| Resolver.CompileDefinitions | internal/actioncontract/compiler.go:80-91 | if compilation succeeds, every definition is cached as its full expansion with valid literals, accepts exactly what its specification asks for, carries the defaults and annotations written, and none reaches itself; if it fails, some definition has no expansion or nests beyond the bound; so it succeeds whenever every definition has an expansion and none nests beyond the bound |
| Nesting.NestingIsAChain | internal/actioncontract/compiler.go:245-251 | nesting beyond the bound means that there is a chain of parts and references from there to a level past the bound |
| Nesting.ChainsNest | internal/actioncontract/compiler.go:153-156 | and every such chain nests beyond the bound |
| Procedure.CountAnyOrder | internal/actioncontract/procedure.go:134-138 | the number of nodes of a document does not depend on the order of its properties |
| Procedure.ProcedureSchemaCompiler.Compile | internal/actioncontract/procedure.go:134-276 | with the shared counter, compiling succeeds exactly if the document denotes a schema, fits the levels left and does not bring the count over 256; the counter then grows by the node count |
| Procedure.ProcedureSchemaCompiler.CompileObject | internal/actioncontract/procedure.go:161-201 | the same for a closed object with its properties and required list |
| Procedure.ProcedureSchemaCompiler.CompileProperties | internal/actioncontract/procedure.go:170-184 | the loop over properties, whose compilations share the counter |
| Procedure.ProcedureSchemaCompiler.CompileArray | internal/actioncontract/procedure.go:202-229 | the same for an array and its items |
| Procedure.CompileProcedureSchema | internal/actioncontract/procedure.go:121-127 | a document is accepted exactly if it denotes a schema, has at most 8 levels and at most 256 nodes |
| Procedure.CompileString | internal/actioncontract/procedure.go:230-250 | the string case, with its bounds and its list of 1 to 64 allowed values |
| Procedure.CompileNumeric | internal/actioncontract/procedure.go:251-267 | the number and integer cases, whole bounds being demanded of the latter |
| Procedure.CompileRequired | internal/actioncontract/procedure.go:185-198 | the required list: texts, declared, without repetition |
| Procedure.CompileShared | internal/actioncontract/procedure.go:139-154 | a reference: alone, to a known definition, not directly in an array |
| Procedure.FinishArray | internal/actioncontract/procedure.go:215-229 | the bounds and uniqueness of an array |
| Procedure.ReadInt | internal/actioncontract/procedure.go:310-321 | a whole number from 0 to the given bound, if the key is there |
| Procedure.ReadNumber | internal/actioncontract/procedure.go:323-333 | a number within the safe integers, if the key is there |
| ProcedureMeaning.CompilingKeepsMeaning | internal/actioncontract/procedure.go:134-276 | the schema compiled from a document without references accepts a value exactly if the value is valid against the document by the same standard sections |
| ProcedureMeaning.ReferenceMeaning | internal/actioncontract/procedure.go:139-154 | a compiled reference accepts exactly what the shared definition accepts |
| ProcedureRoundTrip.EverySchemaComesBack | internal/actioncontract/procedure.go:134-276 | compiling the rendering of any compiled reference-free document gives the same schema from a document of the same count and depth if every object declares a property, and fails otherwise |
| ProcedureRoundTrip.RenderingRecompiles | internal/actioncontract/procedure.go:121-276 | the round trip within the bounds, exactly if every object declares a property |
| Witnesses.EmptyObjectDoesNotComeBack | internal/actioncontract/procedure.go:161-201 | the document of a closed object without properties compiles, and its rendering does not |
| Mappings.RenameFieldAtPath | internal/actioncontract/adapters.go:112-150 | the walk, item by item and stopping at the first error, fails exactly if the rename does, and leaves the value as stated for the place where it stopped |
| Mappings.LeftIsRenamed | internal/actioncontract/adapters.go:112-150 | a walk without an error leaves the renamed value |
| Mappings.LeftByFailure | internal/actioncontract/adapters.go:130-140 | a walk that stops in a list has renamed the items before the one that fails and leaves those after it as they were |
| Mappings.RenameFailsOnConflict | internal/actioncontract/adapters.go:112-150 | a rename fails exactly if some object its path reaches, through stars and keys, has both names |
| Mappings.SourceIsGone | internal/actioncontract/adapters.go:112-150 | afterwards no object the path reaches has the source name |
| Mappings.TargetHoldsTheField | internal/actioncontract/adapters.go:112-150 | afterwards every reached object's field is found under the target name |
| Mappings.RenameUndone | internal/actioncontract/adapters.go:112-150 | the swapped rename restores the value exactly if no reached object had the target name |
| Mappings.ApplyFieldMappings | internal/actioncontract/adapters.go:98-110 | applying mappings in a loop is applying them one after another |
| Mappings.ApplyFailsOnConflict | internal/actioncontract/adapters.go:98-110 | applying fails exactly if some mapping, on what those before it made, reaches an object with both its names |
| Mappings.CleanRunUndone | internal/actioncontract/adapters.go:98-150 | if at each step no reached object has the target name, the swapped mappings in reverse order restore the value |
| FieldMappings.JoinSplit | internal/actioncontract/adapters.go:15-15 | splitting a path at its dots loses nothing |
| FieldMappings.GoodSpecIsProper | internal/actioncontract/adapters.go:16-25 | a mapping that passes the checks renames one field of an object to another name, and the field is not a star |
| FieldMappings.CompileFieldMappings | internal/actioncontract/adapters.go:9-34 | compilation succeeds exactly if each mapping renames one field and no source or target repeats; otherwise it reports the first that does not |
| FieldMappings.CheckMappingPath | internal/actioncontract/adapters.go:36-46 | the loop over parts accepts a path exactly if it is not empty, within 256 bytes, and each part is a star or a property name |
| Projection.ProjectCompiledOutput | internal/actioncontract/adapters.go:164-220 | the projector, with its loops over keys, items and branches, computes the projection |
| Projection.ProjectFields | internal/actioncontract/adapters.go:171-180 | the loop over keys projects every declared field and keeps the rest |
| Projection.ProjectItems | internal/actioncontract/adapters.go:181-191 | the loop over items projects each |
| Projection.ProjectBranches | internal/actioncontract/adapters.go:192-200 | the all-of branches are applied one after another |
| Projection.ChooseBranch | internal/actioncontract/adapters.go:201-218 | the last accepted candidate is taken if it is the only one, or if the schema has no one-of branches |
| Projection.ChoiceMeans | internal/actioncontract/adapters.go:201-218 | with no fitting branch the value stays; otherwise the last branch that fits decides, provided no other fits or there are no one-of branches |
| Projection.CompactedTimestamp | internal/actioncontract/adapters.go:222-240 | a compact text stays, a text that parses is formatted field by field, any other text is an error |
| Projection.StampShows | internal/actioncontract/adapters.go:239-239 | the compact text of any moment names its month, day, hour, minute and second and its year without the century (year 0 for a negative one) |
| Projection.ProjectionCompacts | internal/actioncontract/adapters.go:164-240 | for every schema a projection keeps all keys, lengths and leaves that are not texts, and changes a text only where it parses as a moment, to the text that names the fields of that moment |
| Projection.NothingToCompact | internal/actioncontract/adapters.go:164-220 | a schema that reaches no timestamp, through choices or otherwise, leaves every value it projects as it is |
| Projection.ProjectionSettles | internal/actioncontract/adapters.go:168-170 | if no choice reaches a timestamp, every text at a timestamp is compact afterwards |
| Projection.ProjectionIsIdempotent | internal/actioncontract/adapters.go:164-220 | if no choice reaches a timestamp, projecting a projection changes nothing |
| Projection.ChoiceIsNotIdempotent | internal/actioncontract/adapters.go:201-218 | with a choice of branches that reach a timestamp a second projection can change the value again |
| SafeInteger.ParseExponent | internal/config/managed_projects_json.go:94-120 | the loop reads the signed exponent exactly if it is well formed and within the bound |
| SafeInteger.ScaleDigits | internal/config/managed_projects_json.go:67-91 | appending zeros or cutting a zero fraction computes the scaled integer, or rejects |
| SafeInteger.Decode | internal/config/managed_projects_json.go:40-91 | the decoder on any text computes the specified result |
| SafeInteger.HugeExponent | internal/config/managed_projects_json.go:48-48 | a nonzero literal whose exponent passes the bound denotes no safe integer |
| SafeInteger.DigitsExact | internal/config/managed_projects_json.go:63-91 | trimmed digits at a scale are accepted exactly if they denote a safe integer, and give it |
| SafeInteger.DecodingIsExact | internal/config/managed_projects_json.go:25-120 | over every literal of section 6 of RFC 8259, a returned number is the literal's exact rational value and at most 2^53-1; accepted are exactly the unsigned literals of such integers, except zeros with an exponent beyond the bound |
| Witnesses.SomeZerosAreRefused | internal/config/managed_projects_json.go:41-56 | the literals -0 and 0e99 denote zero and are refused |
| SafeInteger.DecodeLiteral | internal/config/managed_projects_json.go:25-92 | the same of the decoder itself |
| DiffStream.DiffLineStream.Write | internal/gitx/worktree_worktree_status_worktree_tree.go:20-42 | a chunk is split and buffered so that the bytes written so far are the completed lines and the pending rest; if it ends the stream, every continuation of the bytes would end it likewise |
| DiffStream.DiffLineStream.HandOver | internal/gitx/worktree_worktree_status_worktree_tree.go:34-39 | a completed line is handed over once; if that ends the stream, it ends likewise for every continuation |
| DiffStream.DiffLineStream.Consume | internal/gitx/worktree_worktree_status_tree_worktree.go:288-302 | a line is numbered, skipped before the offset, or shown, and the visitor's answer decides whether to go on |
| DiffStream.DiffLineStream.Finish | internal/gitx/worktree_worktree_status_worktree_tree.go:44-51 | finishing completes what splitting the whole stream at newlines would show |
| DiffStream.StreamDiff | internal/gitx/worktree_worktree_status_worktree_tree.go:53-68 | for any chunks, lines shown, lines counted and outcome are those of the joined bytes |
| DiffStream.VisitDiff | internal/gitx/worktree_worktree_status_worktree_tree.go:70-105 | for any chunks of a diff: a page that is not cut shows every line from the offset to the end; a stream that was read to its end fails exactly if the offset is beyond its number of lines; a size or visitor error gives no page |
| DiffStream.SplitKeepsBytes | internal/gitx/worktree_worktree_status_worktree_tree.go:20-51 | the lines joined are the bytes |
| DiffStream.ReferenceMeaning | internal/gitx/worktree_worktree_status_tree_worktree.go:288-302 | the lines shown are those from the offset to the stop with their positions; the size error occurs exactly if the first line over the limit comes before the stop |
| DiffStream.PagesConcatenate | internal/gitx/worktree_worktree_status_worktree_tree.go:79-105 | pages resumed at successive offsets concatenate to the lines between the first offset and where they end, whatever their sizes, and a page that is not cut ends at the end of the diff |
| DiffStream.PagesAreTheWholeDiff | internal/gitx/worktree_worktree_status_worktree_tree.go:79-105 | pages from the first offset whose last one is not cut are the whole list of lines, each once, in order and at its number |
| Scheduling.AverageBound | scripts/test-full.py:87-94 | no machine of a greedy schedule carries more than the average and (1 - 1/m) of the heaviest job |
| Scheduling.SomeMachineHasRoom | scripts/test-full.py:90-93 | a job heavier than a third of what some schedule achieves finds a machine where it fits within that |
| Scheduling.HeaviestFirstBound | scripts/test-full.py:87-94 | heaviest first, no machine carries more than 4/3 - 1/(3m) times what any schedule whatever achieves |
| Scheduling.NoMachineIdle | scripts/test-full.py:90-92 | with at least as many jobs as machines, every machine gets one |
| Shards.SortOrders | scripts/test-full.py:90-90 | sorting gives a permutation from heaviest to lightest |
| Shards.SortIsStable | scripts/test-full.py:90-90 | tests of equal weight stay in the order they were listed |
| Shards.LightestShard | scripts/test-full.py:91-91 | the first least loaded shard is found |
| Shards.AssignmentOf | scripts/test-full.py:87-94 | any way of splitting the tests is an assignment with the same loads |
| Shards.ShardNames | scripts/test-full.py:87-94 | every test is in exactly one shard, none is empty, no shard exceeds the average bound, and none exceeds 4/3 - 1/(3m) times what any other split achieves; without a shard for a test there is an error |
| Hub.HeadIsBase | internal/hub/transaction.go:112-117 | a commit made on a base that was once the head can only be pushed over that base |
| Hub.HeadReplacedBase | internal/hub/transaction.go:112-123 | if that commit is the head, it replaced its base at once |
| Hub.EveryStepKeeps | internal/hub/transaction.go:19-135 | every step of every call, gateway, server and outside writer keeps the invariant and takes nothing back |
| Hub.HeadsFormOneChain | internal/hub/transaction.go:112-117 | in every interleaving the heads form one chain of ancestors that is only added to, without repetition |
| Hub.TransactionsLandOnTheirBase | internal/hub/transaction.go:42-135 | a landed transaction has one parent, the head it immediately replaced, which the call saw at the remote after taking its locks and which its caller expected; file by file, its tree has the edit at the files the edit names and the parent elsewhere; it changes something, and lands once |
| Hub.SuccessHasLanded | internal/hub/transaction.go:116-134 | a call that reports success has landed on the base it reports, at a time after it took its locks, with the edit of that base at the files it names and the base elsewhere |
| Hub.EarlyFailureLandsNothing | internal/hub/transaction.go:19-115 | a call that failed before its push never lands a transaction, then or later, and opened the branch only if it found none |
| Hub.EarlyFailureMayOpenTheBranch | internal/hub/ensure.go:106-139 | such a call may have opened the branch |
| Hub.HistoryIsSerial | internal/hub/transaction.go:19-135 | every head's tree is what the landed transactions make of it one at a time in the order they landed, each editing, file by file, the tree before it |
| Hub.AppliedMeans | internal/hub/transaction.go:90-107 | a commit is made exactly if the edit is not refused, names paths that all match a file of base or worktree, and differs from the base at a file it names; its tree is then the worktree at the files named and the base elsewhere |
| Hub.CommitsExactlyChanges | internal/hub/transaction.go:90-115 | in every run a call goes on from its base exactly if there is something to commit, and the commit it makes is that edit with the base as its only parent |
| Hub.SuccessIsVerified | internal/hub/transaction.go:119-126 | success is only ever reported at a moment when the call's commit is the head of the branch |
| Hub.SuccessLandedMeanwhile | internal/hub/transaction.go:19-134 | a transaction that reports success landed on its base after every moment at which the call still waited for its locks |
| Hub.LocksAreGivenBack | internal/hub/transaction.go:19-41 | in every run a call that is over, by success or by failure at any point, holds no lock |
| Hub.TransactionsCanSucceed | internal/hub/transaction.go:19-135 | from any world in which nothing stands in a call's way it can go on to succeed, the branch then having its edit as new head on top of the old one |
| Cutover.ObserveMeans | internal/controller/gateway_activation.go:26-36 | what the summary of a run says of successes is true of its events |
| Cutover.FailureMeans | internal/controller/gateway_activation.go:51-114 | the recorded failure is the first event that failed, and none is recorded while all succeed |
| Cutover.NoStaleStart | internal/controller/gateway_activation.go:65-139 | the previous build is started only if no candidate start was attempted, or the databases were restored with the gateway stopped after the last |
| Cutover.StartsAreSound | internal/controller/gateway_activation.go:65-139 | no previous build starts after forward recovery began, and what starts is one whole build, stopped before and under the lock |
| Cutover.PreviousStartsAfterFailure | internal/controller/gateway_activation.go:65-92 | the previous build is only started after something failed |
| Cutover.NothingLeftLoose | internal/controller/gateway_activation.go:65-139 | in a run that ends as the contracts of the activation say, every start is followed by a stop or a proof that the build serves |
| Cutover.StuckMeans | internal/controller/gateway_activation.go:65-139 | a run that ends requiring recovery had a stop fail, or, going forward, the candidate's installation, start or proof |
| Cutover.StoppedOnlyAfterValidation | internal/controller/gateway_activation.go:51-64 | the gateway is stopped only under the lock and after the check before the stop passed |
| Cutover.TouchedOnlyWhileStopped | internal/controller/gateway_activation.go:65-106 | databases and files are touched only under the lock with the gateway stopped |
| Cutover.ForwardOnlyAfterRollbackFailed | internal/controller/gateway_activation.go:65-140 | forward recovery begins only after a step of rolling back failed, under the lock with the gateway stopped, and rolling back never resumes after it; the candidate is installed or started only while nothing has failed, or going forward |
| Cutover.SnapshotKeptWhileUnresolved | internal/activation/activate_runtime_file.go:303-314 | the snapshot is deleted only if nothing was touched, the candidate was proved to serve without forward recovery, or the previous build was proved to serve again |
| Cutover.RecoverySnapshot.WriteManifest | internal/activation/recovery_snapshot.go:299-301 | the manifest on disk never claims what is not so |
| Cutover.RecoverySnapshot.CaptureDurableState | internal/activation/recovery_snapshot.go:90-100 | success means that the stored manifest records a snapshot |
| Cutover.RecoverySnapshot.RestoreDurableState | internal/activation/recovery_snapshot.go:102-116 | success means clean databases and needs a snapshot; without one the databases are left alone |
| Cutover.RecoverySnapshot.ReplaceCandidate | internal/activation/recovery_snapshot.go:118-138 | success means that both copies were checked, that the candidate is installed and that the stored manifest says so; replacing is announced before |
| Cutover.RecoverySnapshot.RestorePrevious | internal/activation/recovery_snapshot.go:140-157 | success means that the previous files were checked, are installed and that the stored manifest says so |
| Cutover.RecoverySnapshot.VerifyCandidate | internal/activation/recovery_snapshot.go:179-194 | success means that the candidate's files are installed |
| Cutover.RecoverySnapshot.VerifyPrevious | internal/activation/recovery_snapshot.go:196-208 | success means that the previous files are installed |
| Cutover.RecoverySnapshot.CleanupSnapshot | internal/activation/recovery_snapshot.go:234-247 | the snapshot is deleted only when the run is resolved |
| Cutover.RecoverForward | internal/controller/gateway_activation.go:119-140 | the candidate is installed and started only after rolling back failed; the outcome names what is proved to serve; the events are those of the steps' results |
| Cutover.Rollback | internal/controller/gateway_activation.go:65-92 | databases before files before the previous start, each failure going forward; the outcome records what succeeded and what serves; the events are those of the steps' results |
| Cutover.InstallCandidate | internal/controller/gateway_activation.go:101-116 | installing, starting and proving the candidate on a stopped gateway, each failure rolled back: the run concludes as stated for the whole activation, and its events are those of the steps' results |
| Cutover.ActivateLocked | internal/controller/gateway_activation.go:57-116 | the run under the lock is safe, its outcome names the first failure and the build proved to serve, there is an error exactly if a step failed, and the events are those of the steps' results |
| Cutover.ActivateGateway | internal/controller/gateway_activation.go:45-117 | over all runs of failures: the run is safe, its events are those of the steps' results, the outcome is true of it, the lock is given back, nothing unproved is left without a stop, recovery is required only if a stop or forward recovery failed, and there is an error exactly if some step failed, that is, unless forward recovery is not needed |
| CutoverRuns.WhoServes | internal/controller/gateway_activation.go:45-140 | for every combination of failures: the first failure, and that the candidate serves exactly if nothing failed, or rolling back was given up and going forward succeeded, and the previous build exactly if everything was put back and it came up |
| CutoverRuns.FailureIsNamed | internal/controller/gateway_activation.go:45-117 | the failure phase of the outcome names the first step that failed, and none if none did |
| CutoverRuns.RestoredFilesServe | internal/controller/gateway_activation.go:65-140 | once the files are reported restored, the previous build serves exactly if it came up, and the candidate exactly if it did not, could be stopped and going forward succeeded |
| CutoverRuns.RestoredFilesMayNotServe | internal/controller/gateway_activation.go:65-140 | a run whose outcome reports databases and files restored and whose candidate serves |
| CutoverRuns.ServesWithoutSnapshot | internal/controller/gateway_activation.go:65-140 | after a failed snapshot the candidate serves exactly if rolling back was given up and going forward succeeded, and no snapshot is reported |
| CutoverRuns.MayServeWithoutSnapshot | internal/controller/gateway_activation.go:65-140 | a run that starts the candidate and ends with it serving though no snapshot was taken |
| Cutover.SelfActivate | internal/activation/activate_runtime_file.go:228-322 | a failure is a preflight failure exactly if nothing was done to the machine; the snapshot is retained exactly if forward recovery is required or serving; what is said to serve is running, installed and, after a rollback, on clean databases |
| DebugReceipt.EveryStepKeeps | internal/debug/activation.go:134-340 | every step of acceptors, workers, failed launches, failed writes and crashes keeps the invariant |
| DebugReceipt.AtMostOneCutover | internal/debug/activation.go:253-340 | over every interleaving at most one attempt at a source enters the cutover, and the receipt names that attempt from then on |
| DebugReceipt.AttemptsAreBounded | internal/debug/activation.go:46-62 | the attempt number stays within 3 and never goes down, and the earlier attempts on record are exactly 1 to the one before, none ever lost |
| DebugReceipt.FinalReceiptsStay | internal/debug/activation.go:184-213 | a success or a failure that may not be retried is never changed |
| DebugReceipt.CutoverIsNotRetried | internal/debug/activation.go:292-306 | once an attempt has entered the cutover nothing is admitted, launched or waiting to run, even if its worker crashes |
| DebugReceipt.ReceiptsTellTheTruth | internal/debug/activation.go:285-306 | over every run: a success stored means that its attempt entered the cutover and that the cutover ended without failure; a failure stored carries the error of its attempt's launch, checks or cutover, and may be retried exactly if that came before the cutover; so do the earlier attempts on record |
| DebugReceipt.EarlyFailureIsRetried | internal/debug/activation.go:57-62 | over every run a stored failure admits another attempt exactly if it came before the cutover and the bound allows one |
| DebugReceipt.EndsAreWritten | internal/debug/activation.go:285-306 | what is written when an attempt ends is a success exactly if a cutover ended without failure |
| DebugReceipt.WritesAreTriedTwice | internal/debug/activation.go:308-351 | the end of an attempt is tried twice under the lock: one failed write loses nothing, two leave the receipt as it was and give the lock back |
| DebugReceipt.LaunchFailureIsRecorded | internal/debug/activation.go:321-351 | a failed launch is recorded once the lock is free, as a failure of its attempt that may be retried, one failed write losing nothing |
| DebugReceipt.LockIsGivenBack | internal/debug/activation.go:253-340 | in every run a process that is over, even by a crash, does not hold the lock |
| DebugReceipt.AttemptsCanBeServed | internal/debug/activation.go:134-306 | with the lock free and an attempt admissible, a request can go on to a stored success, having entered the cutover, and also to a stored failure that may be retried, without entering it |
| RecoveryReceipt.EveryStepKeeps | internal/controller/gateway_recovery.go:99-317 | every step of acceptors, rescheduled workers, failed launches, failed writes and takeovers keeps the invariant |
| RecoveryReceipt.TerminalOutcomesStay | internal/controller/gateway_recovery.go:225-236 | a stored success or failure never changes, and the gateway is not stopped for the operation again |
| RecoveryReceipt.HandoversBeginProperly | internal/controller/gateway_recovery.go:214-295 | every hand-over begins under the controller lock, alone, from no receipt or an unfinished one, and with the receipt marked in progress |
| RecoveryReceipt.HandoversWereActionable | internal/controller/gateway_recovery.go:225-236 | all hand-overs of a run began from no receipt or an unfinished one |
| RecoveryReceipt.ReceiptsTellTheTruth | internal/controller/gateway_recovery.go:261-286 | over every run a stored success is that of the last hand-over, which did not fail; a stored failure carries an error that was met, or says that a success could not be written |
| RecoveryReceipt.EndsAreWritten | internal/controller/gateway_recovery.go:261-317 | what is written when a hand-over ends is a success exactly if it did not fail, and its error otherwise |
| RecoveryReceipt.UnwrittenEndStaysOpen | internal/controller/gateway_recovery.go:261-286 | an end that cannot be written leaves the receipt unfinished; if it was a success, a failure is tried instead |
| RecoveryReceipt.LaunchFailureIsRecorded | internal/controller/gateway_recovery.go:183-200 | a failed launch is recorded as a failure once the lock is free, unless the receipt is finished |
| RecoveryReceipt.LockIsGivenBack | internal/controller/gateway_recovery.go:99-317 | in every run a process that is over, even by a crash, does not hold the lock |
| RecoveryReceipt.UnfinishedIsTakenUp | internal/controller/gateway_recovery.go:112-155 | an acceptor that reads an unfinished receipt, with or without the lock, schedules a worker for it and leaves it as it is |
| RecoveryReceipt.TakenLockIsLookedPast | internal/controller/gateway_recovery.go:127-140 | an acceptor that finds the lock taken reads the receipt once more and takes up an unfinished one all the same |
| RecoveryReceipt.RecoveriesCanBeServed | internal/controller/gateway_recovery.go:99-317 | with the lock free and the operation unfinished, a request can go on to a hand-over whose end, whatever it is, is stored |

## Left out

- Floating point: numbers are reals, so rounding of large integers in `numericValue` and the non-finite values are not modelled.
- YAML and JSON tokenising, `normalizeJSON`, the regular-expression engine and the RFC 3339 parser: values arrive parsed, the engine and the parser are parameters.
- Projection.ProjectCompiledOutput: takes a parser that only ever returns real seconds, which is what the standard library's parser promises.
- Contract naming lints (`validateActionSchemaFields` and the tables of retired names), metadata rules and discovery output: long lists of branches about names.
- `compiledSchemaHasPath`: whether a mapping's path is declared by the contract does not affect what the mapping does.
- `cloneSchema` and `cloneJSONValue`: schemas and values are immutable here, so the absence of sharing between a clone and its original is not stated.
- Mappings.RenameFieldAtPath: gives back what it leaves of the value instead of changing shared objects; values are trees, as they are after `normalizeJSON`, so aliasing between parts is not modelled.
- The order in which properties and definitions are compiled, and error texts: the loops take names in any order, and errors carry a kind only.
- A nil and an empty required list are the same sequence here.
- Resolver.CompileDefinitions: refuses a contract as too deep only if some definition nests beyond 64 levels, but does not say that every such contract is refused: a definition that is already cached cuts a chain short, so that it depends on the order in which definitions are compiled.
- ProcedureMeaning.CompilingKeepsMeaning: speaks of documents without references, because the standard's reading of one would need the set of definitions; ReferenceMeaning says what a reference accepts.
- Procedure compilation of whole actions (`CompileProcedureAction` and the branches of its output): fixed tables around the schema compiler.
- Projection.ProjectionIsIdempotent: its condition is not exact. A choice that reaches a timestamp can be idempotent too, which depends on the values its branches accept before and after projecting.
- Shards.ShardNames: assumes that every profiled duration is positive and otherwise holds for any profile; the fifteen durations in the script's own table, scripts/test-full.py:39-55, are not part of this model.
- Git itself, its object names and its transport: commits are numbers, equal commits may or may not be one, and a push is a request that the server applies if the head is the one advertised. A path names a file or a directory, and adding one that matches nothing is an error; pathspec patterns and the normalisation of paths are not modelled.
- Hub calls are steps of a protocol, not methods, because their theorems are about interleavings; checks of paths, cloning, worktrees and cleanup are among the failures a call may have at any time.
- Hub.EarlyFailureLandsNothing: allows the call to have opened the branch, because the code does.
- SQLite, file replacement and process control in the cutover: each is a success or a failure with an arbitrary partial effect. Startup diagnostics and log capture are left out.
- Receipt writes are atomic, and a launch that reports an error has started nothing, as the code arranges. The identity checks of receipts, PIDs and readiness are left out.
- Workers started by hand: each debug admission launches at most one worker.
- Runs of both receipt protocols begin without a receipt: what an older format of either receipt leads to is not modelled.
- Liveness: that transactions and requests get to their end is stated as what can happen from a world where nothing stands in their way, not as what must; a worker that finds the lock taken gives up, and nothing is claimed about it being tried again.
- HTTP, MCP and command-line plumbing, role checks, release scripts and systemd.
