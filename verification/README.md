# TM3L break detector: verified model

TM3L compares two versions of an API description (or scans source code for patterns that a language
migration breaks), stores the verdict of each comparison, lets people override a verdict with an audit
note, and streams what happens to browser clients. This project models that behaviour in Dafny and
proves what it promises, and where it does not keep a promise, exactly when it does.

Three parts are modelled.

* **The OpenAPI diff.** `Prelude`, `OpenApi` and `SchemaDiff` hold the data and the recursive schema diff;
  `SpecDiff` holds the comparison of whole documents with its shared accumulators. `DiffLaws`, `DiffPolicy`,
  `SpecMembers`, `SpecCounts`, `SpecLaws` and `SpecGrowth` prove what the report contains, how it reacts to configuration and to
  safe additions, when it is empty and when compatible changes compose. `ParameterKeys` compares the code's notion
  of a parameter with that of OpenAPI. `JsonSchema` gives schemas their meaning (section 4.7.24 of OpenAPI 3.0.3),
  `Compatibility` measures the report on two schemas against it, and `Requests` the report on two documents against
  the requests that they accept.
* **The server.** `Broker` (event streaming), `JobPool` (uploads, queue and workers), `Ledger` (runs and audit
  rows) and `ListCache` (the cached run list) are transition systems whose actions are the statements of the
  goroutines. Their theorems quantify over every run, that is, over every interleaving. `JobPool` runs on top of
  `Ledger`, and its engine reads the files of a job by name and answers with what `SpecDiff` proves of a comparison,
  so the theorems lead from the upload's project, commit and documents to the stored run and its event.
* **The tree walks.** `SyntaxTree`, `CodeMigration` and `CodeAnalyzer` refine the recursive in-place walks to
  folds over the preorder of the tree, and say by node kind and text what each node contributes.

Locations are sequences of segments; the dotted text that users see is a function of the sequence
(`OpenApi.Render`) and ambiguous when a segment contains a dot. A finding carries its rule and arguments; the
human-readable texts are functions of these. Property, response, media-type and path maps are insertion-ordered
maps; `WellFormed` and `DocumentWellFormed` say that their keys are unique, as the original's maps guarantee.
What the diff cannot look into, a component behind a reference or a composite schema, stands for an arbitrary
set of values. The base and the target document each have such a meaning (`JsonSchema.Meaning`), and the theorems
hold for every pair of them.

## What the model says about the code

Some promises hold with a condition, which the theorems give in both directions.

* An empty report does not mean that every old request is still valid. In a schema the diff never looks at a string
  enum introduced where there was none, enums of other types, null, a property newly declared, array items, composite
  schemas, or a component that changes behind a kept reference (`Compatibility.IntroducedEnumIsUnseen`,
  `RemovedIntegerIsUnseen`, `LostNullIsUnseen`, `DeclaredPropertyIsUnseen`, `RetypedItemsAreUnseen`,
  `ChangedComponentIsUnseen`). For one pair of schemas `Compatibility.Covered` is equivalent to the promise. In a
  document it moreover never looks at dropped media types, bodies that become mandatory (`Requests.DroppedMediaIsUnseen`),
  bodies behind references, schemas of parameters, and head, options and trace. For whole requests
  `Requests.DocumentCovered` is equivalent to the promise.
* A finding is a false alarm when an integer becomes a number or a number that was always whole an integer, when an
  enum is lifted altogether, or when the null removed from a string enum was not allowed anyway or still is
  (`Compatibility.Bites`); new required fields never are, on a path that clients can populate.
* Responses are compared in the direction of requests, which is the wrong one for clients
  (`Compatibility.ResponsesAreComparedAsRequests`). `CoveredBack` is the exact condition under which an empty report
  is safe for clients, and `BitesClients` tells which findings about a response are real: a new required field never
  is. The architecture notes promise classification of risky changes; the OpenAPI diff never reports one
  (`SpecDiff.IsComparison`), and the model follows the code.
* Two compatible changes need not compose: the intermediate version may drop a property that returns with another
  type (`DiffPolicy.DroppedPropertyDoesNotCompose`, `Rejoins`).
* Parameters are compared by name alone, among the inline declarations of an operation, the last one of a name
  winning. OpenAPI 3.0.3 identifies them by name and location (section 4.7.12), allows references, and lets a path
  item declare them for all its methods. A required header that joins a query parameter of its name, comes by
  reference or for the path item, and a query parameter removed beside a header of its name, go unreported; a parameter
  that only moves behind a reference is reported as removed, and one that stays required as newly so when an optional
  one of its name goes (`ParameterKeys.RequiredHeaderIsUnseen`, `RequirementElsewhereIsUnseen`, `RemovedQueryIsUnseen`,
  `MovedParameterIsReported`, `KeptRequirementIsReported`). `NothingUnreportedExactly` and `NothingSpuriousExactly`
  give the conditions on the declarations.
* The comparison unwraps shared path items, so it stops at a path that both documents have and one has by reference,
  and only then (`SpecDiff.CompareSpecs`, `SharedReferenceStops`); a document with such a path cannot even be compared
  with itself.
* If the second temporary file of an upload cannot be created, the handler fails on it and the first file stays
  behind for good (`JobPool.FailedSiblingLeaks`, `LeakStays`, `LeaksExactly`). A code job removes its one
  file twice; if another code upload gets the name in between, it loses its file (`JobPool.Clobbers`,
  `ReusedNameIsClobbered`). The name patterns keep spec files out of this, so they are conserved in every run.
* Code jobs are enqueued under a project id that is no UUID, so the database refuses their runs: the result of a code
  job is never stored and never announced (`JobPool.CodeJobsStoreNothing`).
* A completion event goes to the project id as it was uploaded, although the database accepts every spelling of a UUID
  and returns its own, under which clients subscribe (`JobPool.PublishingIsEnabled`, `CompletionsAreStoredOnce`). An
  override event likewise names the run as the request spelled it (`Ledger.OverrideEventsAreCommitted`).
* The list cache gives project `all` the entry of the unfiltered list (`ListCache.KeysCollideOnlyForAll`), so a
  request for it, which the database would refuse, is served every project's runs. The scanning loop does not look
  at iteration errors, so a list cut short by one is returned, cached and served as if it were whole
  (`ListCache.ShortListIsServed`); a list is whole exactly if the cursor delivered every row.

## Model

| member | source | states |
|---|---|---|
| SchemaDiff.DiffSchemas | engine/src/diff.rs:245-346 | the recursive, vector-filling diff yields, in order, the findings that the specification `Diff` gives for the pair and only BREAKING ones; what `Diff` contains is settled independently by DiffIsExact |
| SchemaDiff.DiffEnums | engine/src/diff.rs:287-305 | the enum block, guarded once outside its loop, agrees with a filter applied value by value |
| SchemaDiff.DiffRequired | engine/src/diff.rs:307-324 | the required block, guarded once outside its loop, agrees with a filter applied name by name; each finding is located at the field |
| SchemaDiff.DiffCommonProperties | engine/src/diff.rs:326-341 | the property loop yields the concatenated diffs of the properties that are inline in both schemas, in base order |
| DiffLaws.DiffIsExact | engine/src/diff.rs:245-346 | every finding occurs exactly as often as the one pair of inline schemas at its site reports it, and not at all when there is no such pair: each common path is visited once |
| DiffLaws.DiffMembers | engine/src/diff.rs:326-341 | a finding is reported if and only if some property path leads, through inline objects of both schemas, to a pair that reports it |
| DiffLaws.EnumSites | engine/src/diff.rs:291-303 | exactly the enum values of the base absent from the target and not silenced are reported, at the schema |
| DiffLaws.RequiredSites | engine/src/diff.rs:312-323 | exactly the names required by the target, not by the base, and not silenced are reported, at the field |
| DiffLaws.LocalMembers | engine/src/diff.rs:256-324 | the findings of one pair of inline schemas, by literal rule names and flags: a type changed, an enum value lost, or a field newly required, and no other |
| DiffLaws.DiffReroot | engine/src/diff.rs:335 | diffing under another location changes only the common prefix of every path |
| DiffLaws.DiffBound | engine/src/diff.rs:245-346 | the report is never longer than the nodes and enum entries of the base plus the required entries of the target |
| DiffPolicy.DiffKept | engine/src/diff.rs:267-311 | the report under any configuration is the default report without the silenced findings, in the same order |
| DiffPolicy.KeptCount | engine/src/diff.rs:267-311 | filtering by configuration keeps the multiplicity of each finding it does not silence and drops the others entirely |
| DiffPolicy.GrowthInvisible | engine/src/diff.rs:287-341 | optional properties and enum values the base lacks, added at any depth of the target, leave the report unchanged |
| DiffPolicy.EmptyProperties | engine/src/diff.rs:326-341 | a diff of properties is empty if and only if each property is silent |
| DiffPolicy.EmptyEnums | engine/src/diff.rs:291-304 | no enum finding if and only if every base value that is not silenced is still allowed |
| DiffPolicy.EmptyRequired | engine/src/diff.rs:312-323 | no required-field finding if and only if every required name that is not silenced was required before |
| DiffPolicy.EmptyDiffExactly | engine/src/diff.rs:245-346 | under every configuration the report is empty if and only if, in both trees, wherever the rules are enforced, types agree, enum values survive and no field is newly required, at every common inline property |
| DiffPolicy.SelfDiffEmpty | engine/src/diff.rs:245-346 | a schema diffs to nothing against itself under every configuration |
| DiffPolicy.CompatibleChangesCompose | engine/src/diff.rs:245-346 | with types enforced and empty reports from A to B and B to C, the report from A to C is empty if and only if, wherever B is untyped or lacks a property inline, C keeps the types, enum values and required fields of A |
| DiffPolicy.BridgedChangesCompose | engine/src/diff.rs:245-346 | in particular it is empty when B is typed and keeps, inline, every property that A and C share |
| DiffPolicy.DroppedPropertyDoesNotCompose | engine/src/diff.rs:326-341 | a concrete chain of two compatible changes whose composition is reported as breaking |
| JsonSchema.SatisfiableExact | engine/src/diff.rs:253-263 | a structural condition on a schema holds if and only if the schema accepts some value |
| JsonSchema.IncludedIsSound | engine/src/diff.rs:253-263 | structural inclusion implies inclusion of values, with a meaning of names for each of the two documents |
| JsonSchema.Refute | engine/src/diff.rs:253-263 | where structural inclusion fails, a value accepted by one schema and rejected by the other is constructed |
| JsonSchema.InclusionIsStructural | engine/src/diff.rs:253-263 | structural inclusion is equivalent to inclusion of the accepted values, for all trees, references and composite schemas included |
| Compatibility.EmptyDiffLeavesCovered | engine/src/diff.rs:245-346 | after an empty default report, structural inclusion is equivalent to what the diff does not compare being covered |
| Compatibility.EmptyDiffIsSafeExactlyWhenCovered | engine/src/diff.rs:245-346 | semantic soundness with its exact condition, for all trees, nullable schemas and enums of every type included, and any two meanings of names: after an empty default report every value valid for the base is valid for the target if and only if the target is covered |
| Compatibility.EmptyDiffIsSafeWhenKept | engine/src/diff.rs:245-346 | a condition to be read off the documents: the promise holds when null stays allowed, no string enum or property is introduced, other enums, items, references and composite schemas are kept, and no name mentioned became stricter |
| Compatibility.ChangedComponentIsUnseen | engine/src/diff.rs:238-243 | a component changed behind a kept reference breaks a request without any finding |
| Compatibility.IntroducedEnumIsUnseen | engine/src/diff.rs:291-304 | an enum introduced where there was none breaks a request without any finding |
| Compatibility.DeclaredPropertyIsUnseen | engine/src/diff.rs:326-341 | a property declared where anything was allowed breaks a request without any finding |
| Compatibility.RetypedItemsAreUnseen | engine/src/diff.rs:307 | array items of another type break a request without any finding |
| Compatibility.RemovedIntegerIsUnseen | engine/src/diff.rs:287 | a value removed from an integer enum breaks a request without any finding |
| Compatibility.LostNullIsUnseen | engine/src/diff.rs:253-263 | so does null when a schema is no longer nullable |
| Compatibility.ResponsesAreComparedAsRequests | engine/src/diff.rs:205-210 | for responses the comparison misses a field that may now be absent and reports one that may no longer be |
| Compatibility.EmptyDiffIsSafeForClientsExactly | engine/src/diff.rs:205-210 | after an empty default report every value the target may send is one the base allowed if and only if the target sends no further null or enum value, drops no requirement, and includes items, names and dropped properties in return |
| Compatibility.BitesExactly | engine/src/diff.rs:265-324 | a pair's own finding is real if and only if some value valid for the base falls under it and is rejected by the target |
| Compatibility.AlarmsExactly | engine/src/diff.rs:265-341 | at any depth: some request valid for the base breaks at the finding's path if and only if the path is populatable and the finding bites |
| Compatibility.RequiredFieldAlarmsAreReal | engine/src/diff.rs:307-341 | for every new-required-field finding on a populatable path to a satisfiable object, a value is constructed that the base accepts and the target rejects, lacking that field |
| Compatibility.FalseAlarms | engine/src/diff.rs:265-303 | widening an integer to a number, lifting an enum and removing the null of an enum that is not nullable are reported although every old value stays valid |
| Compatibility.BitesClientsExactly | engine/src/diff.rs:265-324 | a finding about a pair of response schemas is real if and only if some value the target may send breaks what the base guaranteed by that keyword |
| Compatibility.ResponseAlarmsExactly | engine/src/diff.rs:205-219 | at any depth: some response of the target breaks the base's guarantee at the finding's path if and only if the path is populatable and the finding is a type change other than number to integer or integer to whole numbers, or about an enum that was lifted or gained values |
| Compatibility.RealResponseAlarmsBreakClients | engine/src/diff.rs:205-219 | each real finding comes with a whole response that the base did not allow |
| SpecDiff.Tally.PushBreaking | engine/src/diff.rs:17-25 | a push with its inline increment keeps counters equal to a recount of the findings |
| SpecDiff.Tally.Absorb | engine/src/diff.rs:77-85 | counting a local report before appending it keeps counters equal to a recount, whatever severities it holds |
| SpecDiff.LastDeclarationWins | engine/src/diff.rs:125-135 | the parameter map holds exactly the inline-declared names, each with its last declaration |
| SpecDiff.CollectParameters | engine/src/diff.rs:125-135 | the map-building loop yields that map, each parameter under its own name |
| SpecDiff.RemovedGrows | engine/src/diff.rs:137-149 | each visited base name adds its one finding, or none, whatever names were visited before |
| SpecDiff.RequiredGrows | engine/src/diff.rs:151-176 | each visited target name adds its one finding, or none, whatever names were visited before |
| SpecDiff.DiffParameters | engine/src/diff.rs:105-177 | for every iteration order of the hash maps, the findings added are one per removed name and one per name newly required, as a multiset, and earlier findings stay |
| ParameterKeys.RequiredHeaderIsUnseen | engine/src/diff.rs:125-135 | an input on which a parameter newly required by location and name goes unreported |
| ParameterKeys.RemovedQueryIsUnseen | engine/src/diff.rs:125-135 | an input on which a parameter removed by location and name goes unreported |
| ParameterKeys.RequirementElsewhereIsUnseen | engine/src/diff.rs:125-135 | inputs on which a requirement that comes by reference, or for the whole path item, goes unreported |
| ParameterKeys.MovedParameterIsReported | engine/src/diff.rs:137-149 | an input on which a parameter is reported as removed although both documents declare the same |
| ParameterKeys.KeptRequirementIsReported | engine/src/diff.rs:151-176 | an input on which a requirement is reported although none is new |
| ParameterKeys.RemovalReportedExactly | engine/src/diff.rs:137-149 | a removal is reported for exactly the keys last declared under their name in the base, the name being gone from the target |
| ParameterKeys.RequirementReportedExactly | engine/src/diff.rs:151-176 | a requirement is reported for exactly the keys last declared under their name in the target and required, as made required when the name's last base declaration is optional and as newly added when there is none |
| ParameterKeys.NothingUnreportedExactly | engine/src/diff.rs:125-176 | no removal or new requirement by location and name, references and path items included, goes unreported if and only if each name keeps its locations or loses only that of its last inline declaration and all inline ones, and is newly required only by its last inline declaration, after an optional one or none |
| ParameterKeys.SilenceExactly | engine/src/diff.rs:125-176 | a report silent about parameters means that none was removed or newly required under the same condition exactly |
| ParameterKeys.RemovalsTrueExactly | engine/src/diff.rs:137-149 | every reported removal is true if and only if, for each name reported, the target declares its key neither by reference nor for the path item |
| ParameterKeys.RequirementsTrueExactly | engine/src/diff.rs:151-176 | every reported requirement is true if and only if, for each name reported, no later reference of the target lifts it and the base did not require its key for the path item, by a reference, or in an inline declaration shadowed by a later one of that name |
| ParameterKeys.NothingSpuriousExactly | engine/src/diff.rs:125-176 | nothing is reported that did not happen if and only if both conditions hold for every name |
| ParameterKeys.NamesSuffice | engine/src/diff.rs:125-176 | when inline declarations say everything and no name stands under two locations, what is reported is exactly what is removed or newly required |
| SpecDiff.DiffResponses | engine/src/diff.rs:179-235 | the response loop appends, in base order, a removal or the schema findings of every media type, and keeps the counters true |
| SpecDiff.DiffContent | engine/src/diff.rs:64-88 | the media-type loop appends the findings of the media types with inline schemas on both sides, and keeps the counters true |
| SpecDiff.DiffOperation | engine/src/diff.rs:51-90 | parameters, responses and request body together add exactly the findings of the operation |
| SpecDiff.DiffItem | engine/src/diff.rs:31-91 | the five compared methods add exactly their findings |
| SpecDiff.CompareSpecs | engine/src/diff.rs:5-103 | the comparison stops if and only if a path of both documents is not inline in both; otherwise it returns exactly the declared findings, for every hash order, all of them BREAKING, and a summary that equals a recount of them in all three severities |
| SpecDiff.SharedReferenceStops | engine/src/diff.rs:28-29 | a document with a path item behind a reference, compared with itself, is such an input |
| SpecMembers.DocumentMembers | engine/src/diff.rs:11-93 | a finding is reported if and only if a path of the base is gone, or one of its five methods (each read from its field and located under its own name), a parameter, a response code, or a pair of inline schemas on a common property path of a compared body reports it and its rule is not ignored |
| SpecMembers.RemovedMethodsExactly | engine/src/diff.rs:31-50 | for each of get, post, put, delete and patch, its removal is reported at its own location if and only if both documents have the path inline, the base with that method and the target without it |
| SpecMembers.RequirementFindingsExactly | engine/src/diff.rs:151-176 | under every configuration that does not ignore the rule, a parameter is reported as made required if and only if its last declaration in the target requires it and the last one of its name in the base does not, and as newly added if and only if the base does not declare its name |
| SpecCounts.DocumentIsExact | engine/src/diff.rs:5-103 | every finding is reported exactly as often as there are causes for it: once for each path, method, response code or parameter, and for schemas as often as the pair at its site reports it, media types of one request body sharing their location |
| SpecLaws.SuppressionIsFiltering | engine/src/diff.rs:13-15 | for every configuration the findings are the default findings minus those whose rule is silenced, multiplicities kept |
| SpecLaws.SilencingMoreReportsLess | engine/src/diff.rs:41 | a configuration that silences more never adds a finding |
| SpecLaws.CoercionFlagIsARule | engine/src/diff.rs:267-269 | `allow_type_coercion` is equivalent to ignoring `type_change` |
| SpecLaws.EnumFlagIsARule | engine/src/diff.rs:288-289 | `allow_breaking_enums` is equivalent to ignoring `enum_removal` |
| SpecLaws.ParametersEmpty | engine/src/diff.rs:137-176 | no parameter finding if and only if every name is kept and every required name was required before |
| SpecLaws.EmptyReportExactly | engine/src/diff.rs:11-93 | the default report is empty if and only if the target keeps every path, method, response code and parameter, requires no further parameter, and keeps types, enum values and required fields in every compared schema |
| SpecLaws.CleanReportExactly | engine/src/diff.rs:95-102 | a comparison counts no BREAKING finding if and only if the target keeps the base in this sense, and never counts a finding of another severity |
| SpecLaws.SelfComparisonEmpty | engine/src/diff.rs:5-103 | a document compared with itself yields nothing, under every configuration |
| SpecLaws.EmptyReportKeepsBodies | engine/src/diff.rs:60-89 | from an empty report on whole documents: a compared request body accepts all it accepted before if and only if its target schema is covered |
| SpecLaws.EmptyReportKeepsResponses | engine/src/diff.rs:188-223 | and a compared response stays within what clients were promised if and only if its base schema is covered in return |
| Requests.EndpointInclusionIsStructural | engine/src/diff.rs:39-91 | an endpoint accepts every request another does if and only if no request can be written to the other, or parameters, media types and bodies are included in a structural sense |
| Requests.EmptyReportKeepsRequestsExactly | engine/src/diff.rs:5-103 | what an empty report is worth: after a completed comparison without findings, every request that the base document accepts is accepted by the target if and only if, at each of the eight methods, keys of parameters are kept, none is newly required or restricted, the body is no more mandatory, media types are kept and bodies covered |
| Requests.ParametersIncludedExactly | engine/src/diff.rs:105-177 | the parameters' part of that condition holds if and only if each name shows its removals and requirements and no schema accepts less |
| Requests.DroppedMediaIsUnseen | engine/src/diff.rs:64-88 | a dropped media type and a body that becomes mandatory break requests without any finding |
| SpecGrowth.SafeAdditionsInvisible | docs/triage/architecture.md:49 | whatever the target gains where the base is not looking (paths, methods, response codes, media types, optional parameters, properties, enum values) leaves the findings unchanged, under every configuration |
| SpecGrowth.SummaryUnmoved | engine/src/diff.rs:95-102 | nor do such additions change any count of the summary |
| SpecGrowth.AddedPropertyGrows | engine/src/diff.rs:326-327 | declaring an optional property that the base object lacks is such an addition |
| SpecGrowth.AddedEnumValueGrows | engine/src/diff.rs:291-292 | so is allowing an enum value that the base lacks |
| SpecGrowth.InsertedParameterGrows | engine/src/diff.rs:151-176 | so is inserting, anywhere in the list, an optional parameter with a fresh name |
| SpecGrowth.NestedGrowthGrows | engine/src/diff.rs:332-338 | growth of a nested property is growth of the object, at any depth |
| SpecGrowth.AddedMediaGrows | engine/src/diff.rs:64-65 | so is a media type that the base body lacks |
| SpecGrowth.AddedResponseGrows | engine/src/diff.rs:188-223 | so is a response code that the base operation lacks |
| SpecGrowth.ChangedBodyGrows | engine/src/diff.rs:60-89 | a grown request body makes a grown operation |
| SpecGrowth.ChangedResponseGrows | engine/src/diff.rs:188-223 | so does a grown response body |
| SpecGrowth.ChangedParametersGrow | engine/src/diff.rs:105-177 | so does a grown parameter list |
| SpecGrowth.ChangedMethodGrows | engine/src/diff.rs:39-53 | so is a method that the base lacks, or one that has grown |
| SpecGrowth.ChangedPathGrows | engine/src/diff.rs:11-12 | a grown path item makes a grown document |
| SpecGrowth.AddedPathInvisible | engine/src/diff.rs:11-12 | adding a path that the base lacks changes nothing |
| OpenApi.CountPositive | internal/api/worker.go:59 | a severity is counted if and only if a finding carries it |
| OpenApi.CountIsRight | engine/src/diff.rs:77-85 | a severity is counted once for each place at which a finding carries it |
| OpenApi.RulesByName | engine/src/config.rs:5-13 | which rule name and which flag silence each kind of finding |
| OpenApi.DecimalIsRight | engine/src/diff.rs:189-191 | status codes are written in decimal digits that stand for their number |
| OpenApi.StatusTextsDiffer | engine/src/diff.rs:188-192 | different status codes and ranges have different texts in a location |
| Broker.StepInv | internal/api/broker.go:30-91 | every step of listener, clients, publishers and connections keeps mutual exclusion, the client map, the fan-out and every client's log consistent |
| Broker.RunInv | internal/api/broker.go:21-91 | hence every state of every interleaving satisfies the invariant |
| Broker.ClientsSeeOnlyTheirProject | internal/api/broker.go:30-90 | what a client writes is, in publish order and each event at most once, drawn from the published events of the project that its own request named (`default` if none), fanned out while it was registered |
| Broker.ServedAsRequested | internal/api/broker.go:59-62 | from its request on, a client is served for the project that the request named, or `default` |
| Broker.PublishedInOrder | internal/api/broker.go:33 | the events that wait or were fanned out are exactly those published, in that order |
| Broker.WindowIsRegistration | internal/api/broker.go:64-80 | the window of events that a client may see opens when it is inserted into the client map and closes when it is removed |
| Broker.FanOutsVisitEveryClient | internal/api/broker.go:34-35 | a fan-out sets out to visit every client registered for the project of its event, and no other |
| Broker.FanOutsHandleEveryClient | internal/api/broker.go:33-43 | before the fan-out releases the mutex, each of these clients was given the event or skipped |
| Broker.ReadyClientsReceive | internal/api/broker.go:36-39 | a visited client that is ready can be given the event, and then writes its payload |
| Broker.ChannelsStaySafe | internal/api/broker.go:34-80 | channels in the map or still to be visited are open, each belongs to one project, with the mutex free no project is empty, and at most 100 events wait |
| Broker.ClosedIsUnreachable | internal/api/broker.go:72-80 | no send to a closed channel is ever possible |
| Broker.HolderCanStep | internal/api/broker.go:33-43 | whoever holds the mutex can always take a step, whatever the clients do |
| Broker.OthersDoNotDelay | internal/api/broker.go:65-79 | no step of anyone else takes the mutex away or lengthens the holder's work |
| Broker.TenureIsBounded | internal/api/broker.go:33-43 | along every run the holder takes at most the steps it had left before it releases the mutex |
| Broker.StepsLeftIsLinear | internal/api/broker.go:35-43 | that number is at most the clients of the event's project plus three |
| Broker.Registry.Register | internal/api/broker.go:66-69 | the first critical section adds the client under its project, creating the project if needed |
| Broker.Registry.Unregister | internal/api/broker.go:74-77 | the second removes it and prunes a project left empty |
| Broker.LeavingUndoesEntering | internal/api/broker.go:64-80 | registering and then unregistering a new client restores the client map |
| Broker.CriticalSectionsAreOperations | internal/api/broker.go:66-77 | the steps inside each critical section compose to the registry operations |
| Ledger.StepInv | internal/db/db.go:42-82 | every statement, commit and rollback of concurrent overrides keeps tables, transactions and events consistent |
| Ledger.LedgerConsistent | migrations/001_initial_schema.sql:10-27 | in every committed state a run is OVERRIDDEN if and only if it has an audit row, and every audit row names a run |
| Ledger.LedgerImmutable | internal/db/db.go:42-82 | between any two moments of a run of the system rows, counts, payloads and audit rows stay and OVERRIDDEN is never left |
| Ledger.OverrideEventsAreCommitted | internal/api/handlers.go:253-271 | every override event names, in some spelling of its id, a run that is OVERRIDDEN with an audit row of that user and note |
| Ledger.OverrideEventIsAsRequested | internal/api/handlers.go:253-271 | every override event carries the run, the user and the note of an override request |
| Ledger.AuditIsAsRequested | internal/db/db.go:62-72 | every audit row is that of a request: its run in the database's spelling, its user and note, and the instant of the statement that wrote it |
| Ledger.CanonicalIsRight | migrations/001_initial_schema.sql:10-27 | the database's spelling of a UUID is its 32 digits in groups with hyphens, and a spelling of the same UUID |
| Ledger.SameIdExactly | migrations/001_initial_schema.sql:10-27 | two spellings name the same row if and only if their digits are equal |
| Ledger.OverriddenDetailHasAudit | internal/api/handlers.go:101-117 | a detail page assembled by two separate reads never shows an OVERRIDDEN run without an audit row |
| Ledger.PostgresStore.OverrideDiffRun | internal/db/db.go:55-82 | all or nothing: both rows are written, under the database's spelling of the run's id, when no statement fails and the id is some spelling of an existing run's, otherwise the tables are as before |
| Ledger.PostgresStore.InsertDiffRun | internal/db/db.go:42-53 | an insert succeeds exactly when the database answers and the project id is some spelling of an existing project's UUID, and adds just that run, under the database's spelling |
| JobPool.StepInv | internal/api/worker.go:30-79 | every step of uploads, queue, workers and ledger keeps jobs, files, texts, reports, stored runs and events consistent |
| JobPool.JobsConserved | internal/api/worker.go:30-40 | accepted jobs are exactly the queued, in-flight and finished ones, none twice; at most 100 are queued and at most five in flight |
| JobPool.FilesKeptExactly | internal/api/worker.go:42-44 | a step keeps files and their holders in correspondence if and only if it is not the second removal of a name that has come back |
| JobPool.SpecFilesConserved | internal/api/handlers.go:213-225 | in every run each spec file on disk is held by the upload or job it is for, and each one held by an upload, a queued or an in-flight job is on disk, for that one holder |
| JobPool.FilesConserved | internal/api/handlers.go:365-381 | along every run without such a removal the same holds of all files, those of code jobs included |
| JobPool.LeaksExactly | internal/api/handlers.go:213-223 | in every run files on disk split into live and leaked ones, and none is leaked if and only if no upload failed with one of its two files made |
| JobPool.FailedSiblingLeaks | internal/api/handlers.go:213-223 | a run of four steps leaves a leaked file on disk |
| JobPool.LeakStays | internal/api/worker.go:43-44 | in every run a leaked file stays leaked and on disk for ever |
| JobPool.DiskIsHeld | internal/api/worker.go:42-44 | in every run every file on disk is one that its upload or job still holds |
| JobPool.ReusedNameIsClobbered | internal/api/handlers.go:374-381 | a run of nine steps deletes the file of an upload that is still waiting to be queued |
| JobPool.VerdictIsTheComparison | internal/api/worker.go:46-72 | end to end, for every interleaving: every stored run is that of a spec job, its payload is the comparison of the two documents uploaded for it, and the run, unless overridden, is PASSED if and only if the target document keeps the base document |
| JobPool.AcceptedAsUploaded | internal/api/handlers.go:220-225 | the job into which an upload was accepted has the project, the commit and the documents of the upload |
| JobPool.JobIsAsUploaded | internal/api/handlers.go:220-225 | and every spec job goes back to such an upload |
| JobPool.StoredRunIsAsUploaded | internal/api/worker.go:63-75 | every stored run goes back to an upload: its project is that of the upload in the database's spelling, its commit is that of the upload, and its payload compares the documents of the upload |
| JobPool.CompletionIsAsUploaded | internal/api/worker.go:77-78 | every completion event carries the project of an upload, literally, and announces a run made for it |
| JobPool.RowIsAsInserted | internal/db/db.go:42-53 | every stored run was written by an insert under its id, at its instant |
| JobPool.CodeJobsStoreNothing | internal/api/handlers.go:374-381 | in every run of the system a code job has stored no run, and its worker can only fail to insert one |
| JobPool.EngineReadsTheUpload | internal/api/worker.go:105-122 | what a worker reads under a job's file names is what was uploaded with that job |
| JobPool.VerdictIsTruthful | internal/api/worker.go:58-72 | for every stored run of every interleaving the breaking count is a recount of the payload, and a run that nobody has overridden is FAILED if and only if the payload contains a BREAKING finding |
| JobPool.CompletionsAreStoredOnce | internal/api/worker.go:72-78 | every completion event names a stored run, under some spelling of its project's id, and no run is announced twice |
| JobPool.PublishingIsEnabled | internal/api/worker.go:77-78 | a worker that has stored a run can always announce it |
| ListCache.ListDiffRuns | internal/db/db.go:84-122 | a list is returned unless the query or a row fails, holds no more rows than the limit (50 unless between 1 and 100), begins the newest-first listing of the project, and is whole if and only if the cursor delivered every row |
| ListCache.ScanRows | internal/db/db.go:113-121 | the scanning loop returns all rows in order, or nothing at the first row that does not scan |
| ListCache.KeysCollideOnlyForAll | internal/api/handlers.go:65-68 | two project ids share a cache key if and only if they are equal or are the empty id and `all` |
| ListCache.StepInv | internal/api/handlers.go:61-99 | every step keeps each cached or delivered list traceable to the project, instant and database version it was queried from |
| ListCache.StalenessIsBounded | internal/api/handlers.go:70-91 | for every project id but `all`, each response was the beginning of the list of the project that the request asked for, at an instant since it arrived, or older by less than 60000 milliseconds plus the delay from query to storing |
| ListCache.RequestIsAsAsked | internal/api/handlers.go:61-68 | a request stays one for the project that it named, since the instant at which it arrived |
| ListCache.VersionIsAsCommitted | internal/db/db.go:98-110 | every version of the database that a query may read was committed, at its instant |
| ListCache.CommitIsVersion | internal/db/db.go:98-110 | and every commit makes the next version |
| ListCache.AllIsServedTheWholeList | internal/api/handlers.go:65-76 | whenever a request for `all` is answered, it gets the unfiltered list and the bound fails |
| ListCache.AllCanBeServed | internal/api/handlers.go:65-76 | such an answer does occur |
| ListCache.ResponseIsWholeExactly | internal/db/db.go:113-121 | in every run a response is a whole listing of the version it was queried from if and only if its query delivered every row |
| ListCache.ShortListIsServed | internal/db/db.go:113-121 | a run in which a list cut short is cached and then served to another request |
| SyntaxTree.PreorderRises | engine/src/code_diff.rs:322-325 | in a tree whose children follow one another, the rows of the preorder never fall |
| SyntaxTree.PreorderIsRight | engine/src/code_diff.rs:322-325 | the preorder lists every place of the tree exactly once, in lexicographic order of child positions |
| SyntaxTree.TrimIsRight | engine/src/code_diff.rs:226-228 | trimming takes blanks off both ends, and all of them |
| CodeMigration.WalkPython | engine/src/code_diff.rs:55-326 | the recursive walk appends the node findings folded over the preorder, and its running counter stays a recount |
| CodeMigration.WalkOther | engine/src/code_diff.rs:371-398 | so do the Go and the TypeScript walk, which keep no counter |
| CodeMigration.CheckPython | engine/src/code_diff.rs:13-53 | the Python check reports the fold over the whole tree with a summary equal to a recount |
| CodeMigration.CheckOther | engine/src/code_diff.rs:328-369 | the other checks report the fold over the whole tree with a summary equal to a recount |
| CodeMigration.CheckIsExact | engine/src/code_diff.rs:55-326 | stated on node kinds, fields and literal texts: each of the Python, Go and TypeScript checks reports a pattern at a line exactly as often as nodes at that line fall under the rule for the pattern, with the severity of its language, and nothing else |
| CodeMigration.CheckLegacyModule | engine/src/code_diff.rs:469-495 | exactly the seven renamed or removed modules are reported, each once and counted |
| CodeMigration.ReportedLinesRise | engine/src/code_diff.rs:55-326 | on a well-placed tree the reported line numbers never fall |
| CodeMigration.FoldMembers | engine/src/code_diff.rs:55-326 | a finding is reported if and only if some node of the tree reports it |
| CodeAnalyzer.FirstOccurrencesAreRight | engine/src/analyzer.rs:113-160 | the dependencies are the imported names, distinct, and ordered by first import |
| CodeAnalyzer.CodeAnalysis.AddDependency | engine/src/analyzer.rs:113-160 | scanning before pushing keeps the dependencies the first occurrences of the names met so far |
| CodeAnalyzer.CodeAnalysis.VisitPython | engine/src/analyzer.rs:115-154 | the branch taken for a node changes exactly the one fact kind that its node kind contributes, the others staying as they were |
| CodeAnalyzer.CodeAnalysis.VisitGo | engine/src/analyzer.rs:188-232 | likewise for Go, where a function named main adds an entry point besides its count |
| CodeAnalyzer.CodeAnalysis.VisitJavaScript | engine/src/analyzer.rs:255-301 | likewise for JavaScript, where a call of require imports a package and is never a system call |
| CodeAnalyzer.CodeAnalysis.Traverse | engine/src/analyzer.rs:113-160 | a walk adds to the analysis exactly the facts of the subtree in preorder |
| CodeAnalyzer.Analyze | engine/src/analyzer.rs:85-111 | the analysis of a tree holds exactly the facts of its preorder, each dependency once |
| CodeAnalyzer.SumIsExact | engine/src/analyzer.rs:113-160 | stated on node kinds, fields and literal texts: for each language, the function and class counts and the multiplicity of every entry point, system call and imported name are those that the nodes contribute |

## Left out

- CompareSpecs: states the findings as a multiset, because parameter maps have no order
- FilesConserved: holds of code files in runs where no removal hits a reused name, because the original then does lose a file; FilesKeptExactly gives the condition step by step
- StalenessIsBounded: excludes the project id `all` and speaks of the beginning of a list, because of the shared cache key and the unchecked iteration errors
- JobPool.EngineAnswer: the engine is any that keeps the contracts of the comparison and of the migration checks on what it answers, and it may fail; process, gRPC and JSON plumbing between server and engine is not modelled, and a spec file is written together with its creation
- Broker, JobPool, ListCache and the concurrent part of Ledger are transition systems over values, one action per statement, instead of classes, since interleavings are their point
- the schema diff is one function in the original and one method per block here
- broker delivery: the non-blocking send may drop an event even when the client is ready, which allows more behaviours than the original; that the notifier is full while workers publish is not connected to the job pool
- texts of descriptions, citations (custom ones included) and proposed fixes; `strict_mode`, which the diff never reads
- schema keywords the diff never inspects other than nullable and the enums (patterns, bounds, additionalProperties, discriminators and others), the `default` response, and response headers
- requests: a client gives only declared parameters and listed media types (no ranges), parameter values are taken as parsed, and path templates as they are
- tree-sitter, OpenAPI parsing and serialisation: trees and documents are inputs
- trimming knows ASCII blanks only; the regular expression on broken except clauses is a parameter of the Python walk
- language, package hints, caveats, C-extension marks and the source line of an entry point in the analysis
- the SQL, GraphQL, protobuf and Terraform scans: line by line, with shallow facts
- column lengths: a text too long for its VARCHAR column is one of the faults at which a statement may fail
- PostgreSQL locking and isolation: overrides interleave statement by statement without row locks, which allows more behaviours than the database; deletion of projects, which the server never performs
- UUIDs: ids of projects and runs are compared by their digits and refused when they have not 32 of them, but where hyphens and braces stand is not checked
- Redis beyond a map with expiry, login and API keys, webhooks, the prompt generator and the viewer
