# protoc-gen-graphql: a verified model of the reachability-driven projector

protoc-gen-graphql is a protoc plugin. It turns protobuf descriptors into a
GraphQL schema. It emits only the types that the RPC methods admitted for a
chosen audience target actually use. This project models the four parts that
decide what gets emitted, and proves properties of that model:

- **The type analyzer** (`internal/analyzer/analyzer.go`), modules `Registry`,
  `Resolution`, `Reachability`, `Analysis` and `Analyzer`.
  - `TypeAnalyzer` is a class. Its registries are `map` fields, and its
    reachable and in-progress sets are `set` fields.
  - `NewTypeAnalyzer` and the `Register*` methods fill the registries. Each
    message, nested message and enum is stored under its dotted
    fully-qualified key, and a later write of the same key wins.
  - `ResolveTypeName`/`ResolveEnumName` map a reference to a registered key.
  - `MarkTypeReachableAsInput`/`AsOutput` mark the transitive dependencies of
    a type in one context, plus the shared enum set.
  - `AnalyzeRPCDependencies` seeds both contexts from the admitted methods.
  - Each marking method is proved equal to a pure specification, `Mark`,
    mutually recursive with `Run` over a list of actions. Closure,
    leastness, context separation, monotonicity and idempotence are proved
    about that specification.
- **The schema projection** (`internal/schema.go`), modules `Naming`,
  `Projection` and `Schemas`.
  - `Schema` is a class. Its object-type, enum, query and mutation lists are
    `seq` fields, and its text buffer is a `string` field.
  - The methods that append to these lists are proved equal to pure emission
    functions.
  - Those functions are proved sound against the registry: every emitted
    object type comes from a reachable registered message.
  - Completeness is proved as far as the source goes, in three parts:
    - every message of the list being walked whose key is reachable and
      which has fields is emitted;
    - the nested messages of an emitted parent are walked with it;
    - every top-level input or output message of an admitted method that
      has fields is emitted.
  - Completeness does not extend to every reachable nested message. The
    source walks a message's nested messages only inside a parent it emits
    (`internal/schema.go:71-82`). A reachable nested message whose parent
    has no fields, or is not itself reachable, gets no object type. The
    model does the same.
  - The naming rules for query and mutation inputs and outputs, and the
    target filter, are functions with lemmas about them.
- **The plugin driver** (`internal/execute.go`), modules `Dedup` and `Execute`.
  - `Plugin` is a class.
  - `processProtoFiles` builds one schema per file named in the request.
  - `generateCombinedOutput` merges the schemas with a first-occurrence-wins
    rule per name. The merged lists are proved to hold distinct names, to
    keep the first item of each name, and to keep nothing else. Each merged
    list is proved to be the schemas' lists, in file order, filtered to
    those first items.
- **The `generate` argument parser** (`generate.go`), module `Generate`.
  - The index-driven loop of `parseGenerateArgs` is a method, proved equal
    to a specification `Parse` that reads the arguments one step at a time.
  - The flag tables, the last-wins rule for the output directory, the
    ignored dangling flag, the skipped unknown `-` arguments and the file
    arguments are lemmas about `Parse`.

`Descriptors` holds the descriptor records (files, messages, fields, enums,
services, method options) as values. `Strs` holds `strings.HasPrefix`,
`HasSuffix`, `TrimPrefix` and `TrimSuffix`. `Wrappers` holds `Option`.
`Scenarios` restates the two analyzer tests as methods whose postconditions
are the tests' assertions.

Two behaviours of the code are easy to misread; the model follows the code:

- With no `gql_output` option, the output type name is the output type
  reference with the package qualifier trimmed (`internal/schema.go:145`).
  It is not first-letter-capitalized. Only an explicit `gql_output` is
  passed through `UppercaseFirst`.
- An empty command-line argument does not start with `-`. `parseGenerateArgs`
  therefore lists it as a proto file (`generate.go:176-178`), and so does
  `Generate.Parse`.

## Model

| member | source | states |
|---|---|---|
| Registry.FullName | internal/analyzer/analyzer.go:69-79 | A top-level key is `.pkg.Name`, or `.Name` when the package is empty. A nested key is `parentKey.Name`. |
| Registry.EnumWrites | internal/analyzer/analyzer.go:104-119 | One registry write per enum, in order, each under the enum's full key. |
| Registry.ApplyKeys | internal/analyzer/analyzer.go:81 | Registration never removes a key. The keys afterwards are the old keys plus every key written. |
| Registry.ApplyLastWins | internal/analyzer/analyzer.go:81 | Re-registering a key overwrites it: the stored value is the one from that key's last write. |
| Registry.ApplyUnwritten | internal/analyzer/analyzer.go:81 | A key that no write touches keeps its presence and its value. |
| Registry.ApplyOrigin | internal/analyzer/analyzer.go:81 | Every registered value came either from the old registry or from a write of that key. |
| Registry.TypeWritesCover | internal/analyzer/analyzer.go:68-91 | Every message of a list, nested ones included by recursion, is registered under its own full key. |
| Registry.TypeWritesWellFormed | internal/analyzer/analyzer.go:68-98 | In one registration pass every key written starts with a dot, and each written message's nested messages and enums are written under `key.Name`. |
| Registry.ApplyWellFormed | internal/analyzer/analyzer.go:68-98 | Registering well-formed writes into a well-formed registry keeps it well formed. |
| Registry.FileRegistrationStep | internal/analyzer/analyzer.go:50-54 | Registering file `i` extends the registry built from the earlier files by that file's messages, then its enums. |
| Registry.FileRegistryWellFormed | internal/analyzer/analyzer.go:34-58 | The registry built from any list of files is well formed: every registered message's nested types and enums are registered too. |
| Analyzer.KnownPackagesStep | internal/analyzer/analyzer.go:50-52 | Each file adds its package to the known packages unless it is already known. |
| Analyzer.KnownPackagesMeans | internal/analyzer/analyzer.go:50-52 | The known packages are exactly the files' packages, the empty one included, and each appears once. |
| Analyzer.TypeAnalyzer.constructor | internal/analyzer/analyzer.go:34-58 | The registries hold every file's writes. The primary package is the first file's, or empty when there are no files. Every reachable and in-progress set is empty. The registry is well formed. |
| Analyzer.TypeAnalyzer.RegisterFiles | internal/analyzer/analyzer.go:50-55 | The file loop: each package becomes known, then the file's messages and enums are registered, file by file. |
| Analyzer.TypeAnalyzer.RegisterTypesFromFile | internal/analyzer/analyzer.go:68-91 | The registries are the old ones with each message written under its key, followed by its nested messages and enums. |
| Analyzer.TypeAnalyzer.RegisterNestedEnums | internal/analyzer/analyzer.go:93-98 | Each enum is written under `prefix.Name`. |
| Analyzer.TypeAnalyzer.RegisterEnumsFromFile | internal/analyzer/analyzer.go:104-119 | Each enum is written under its full key, keyed like a message. |
| Analyzer.TypeAnalyzer.MarkTypeReachableAsInput | internal/analyzer/analyzer.go:170-214 | The new input set and enum set are those the specification `Mark` gives from the old ones. The output context is untouched. The in-progress set is restored. The input set stays within the registered keys. |
| Analyzer.TypeAnalyzer.MarkNestedAsInput | internal/analyzer/analyzer.go:189-192 | Marks `key.N` for each nested message `N`, in order, as `Run` over the nested actions. |
| Analyzer.TypeAnalyzer.MarkFieldTypesAsInput | internal/analyzer/analyzer.go:201-210 | Marks each message field's type and adds each enum field's resolved enum, as `Run` over the field actions. |
| Analyzer.TypeAnalyzer.MarkTypeReachableAsOutput | internal/analyzer/analyzer.go:218-262 | The same as the input case on the output set. The input context is untouched. |
| Analyzer.TypeAnalyzer.MarkNestedAsOutput | internal/analyzer/analyzer.go:237-240 | The nested-message loop in the output context. |
| Analyzer.TypeAnalyzer.MarkFieldTypesAsOutput | internal/analyzer/analyzer.go:249-258 | The field loop in the output context. |
| Analyzer.TypeAnalyzer.RegisterReachableNestedEnums | internal/analyzer/analyzer.go:195-198 | The reachable enums grow by exactly the message's nested enum keys. |
| Analyzer.TypeAnalyzer.AnalyzeRPCDependencies | internal/analyzer/analyzer.go:264-284 | The new sets are the analysis specification `AnalyzeMethods` over all methods of all services, in order. The in-progress sets are unchanged. |
| Analyzer.TypeAnalyzer.AnalyzeServiceMethods | internal/analyzer/analyzer.go:266-282 | One service's method loop: skipped methods change nothing, and admitted ones mark their input and output types. |
| Resolution.Resolve | internal/analyzer/analyzer.go:478-506 | The result is a registered key or the reference unchanged. A registered leading-dot reference is returned as-is. The primary package's key wins when registered. Any registered package or no-package form yields a registered key. The same function over the enum registry is `ResolveEnumName` (analyzer.go:508-536). |
| Resolution.FirstPackageMatch | internal/analyzer/analyzer.go:492-499 | The package loop returns a registered `.p.n` for a non-empty known `p`, and returns none only when no such key is registered. |
| Resolution.LookupMeans | internal/analyzer/analyzer.go:310-351 | `Is{Input,Output,Enum}Reachable(n)` holds iff `n` is in the set, or `n` is a short name and some member ends with `.n`. The answer is the same for every package iteration order. |
| Resolution.LookupQualified | internal/analyzer/analyzer.go:310-317 | A leading-dot or empty query is exactly set membership. |
| Resolution.TypeLookupIsEither | internal/analyzer/analyzer.go:400-441 | `IsTypeReachable` is input-reachable or output-reachable. |
| Resolution.LookupFindsResolved | internal/analyzer/analyzer.go:310-351 | A short reference, or a registered qualified one, whose resolved key was marked is found by the reachability query. |
| Resolution.QualifiedUnregisteredMissed | internal/analyzer/analyzer.go:478-489 | The excluded case: a leading-dot reference that resolves under the primary package is marked under that key, but a query by the reference as written misses it. |
| Reachability.Mark | internal/analyzer/analyzer.go:170-214 | Marking only grows the reached and enum sets, and keeps the reached set within the registered keys. |
| Reachability.MarkReaches | internal/analyzer/analyzer.go:184-186 | After marking `t`, the resolved key is reached or is not registered. |
| Reachability.MarkSkip | internal/analyzer/analyzer.go:173-181 | A type that is already reached, or whose resolved name is not registered, marks nothing. |
| Reachability.MarkUnfold | internal/analyzer/analyzer.go:183-210 | Marking an unreached registered key adds it first, then runs its nested, enum and field actions in that order. |
| Reachability.MarkInPasses | internal/analyzer/analyzer.go:188-210 | The three loops run one after another (nested messages, nested enums, fields) and give the same result as `Mark`. |
| Reachability.RunEnumWork | internal/analyzer/analyzer.go:195-198 | The nested-enum actions add exactly the nested enum keys and reach no type. |
| Reachability.RunAppend | internal/analyzer/analyzer.go:189-210 | Running two action lists one after the other is running their concatenation. |
| Reachability.RunDoesAll | internal/analyzer/analyzer.go:189-210 | After a list of actions runs, every action in it is done. |
| Reachability.MarkClosed | internal/analyzer/analyzer.go:170-214 | Marking from a closed state ends in a closed state, so all transitive dependencies are marked, on cyclic graphs too. |
| Reachability.ClosedMeans | internal/analyzer/analyzer.go:189-210 | In a closed state every reached message has its nested messages reached and its nested enums marked. Each message field resolves to a reached or unregistered name, and each enum field's resolved enum is marked. |
| Reachability.MarkLeast | internal/analyzer/analyzer.go:170-214 | Marking reaches nothing beyond any closed state that already covers `t`: the result is the least closure. |
| Reachability.MarkSeparates | internal/analyzer/analyzer.go:170-214 | The reached set does not depend on the enums already marked, and the enums are the old ones plus those this marking adds. |
| Analysis.ShouldIncludeMethod | internal/analyzer/analyzer.go:295-306 | A skipped method is excluded. Otherwise a wildcard (`all` or `*`) on either side admits it, and failing that only equal targets do. |
| Analysis.MarkInput | internal/analyzer/analyzer.go:170-214 | Marking as input leaves the output set alone and only grows the input and enum sets. |
| Analysis.MarkOutput | internal/analyzer/analyzer.go:218-262 | Marking as output leaves the input set alone and only grows the output and enum sets. |
| Analysis.AnalyzeMethod | internal/analyzer/analyzer.go:269-281 | One method only grows the three sets and keeps them within the registry. |
| Analysis.AnalyzeMethodsAppend | internal/analyzer/analyzer.go:265-283 | Analyzing two method lists one after the other is analyzing their concatenation. |
| Analysis.Admitted | internal/analyzer/analyzer.go:269-271 | The admitted methods are methods of the list that the filter admits. |
| Analysis.AnalyzeOnlyAdmitted | internal/analyzer/analyzer.go:269-271 | Filtered-out methods contribute nothing. |
| Analysis.AnalyzeSound | internal/analyzer/analyzer.go:273-281 | Every admitted method's non-empty input type is input-reached, and its non-empty output type is output-reached. |
| Analysis.AnalyzeStable | internal/analyzer/analyzer.go:173-176 | Analysis from a state that already covers every admitted type changes nothing. |
| Analysis.AnalyzeIdempotent | internal/analyzer/analyzer.go:264-284 | Running the analysis a second time changes nothing. |
| Analysis.AnalyzeClosed | internal/analyzer/analyzer.go:264-284 | The analysis keeps both contexts closed under the dependency relation. |
| Analysis.AnalyzeSeparates | internal/analyzer/analyzer.go:264-284 | The input set depends only on the admitted input types, and the output set only on the admitted output types. |
| Analysis.AnalyzeInputLeast | internal/analyzer/analyzer.go:273-276 | The input set lies within any closed set that covers the admitted input types. |
| Analysis.AnalyzeOutputLeast | internal/analyzer/analyzer.go:278-281 | The output set lies within any closed set that covers the admitted output types. |
| Scenarios.InputOutputSeparation | internal/analyzer/analyzer_test.go:9-74 | The first test: a type marked as input only is input-reachable and not output-reachable, by full and by short name. A type marked in both contexts is reachable in both. |
| Scenarios.DieturePackageReachability | internal/analyzer/analyzer_test.go:80-146 | The second test: the request is input-only and the response is output-only, by short name and by full name. |
| Scenarios.MarkLeaf | internal/analyzer/analyzer_test.go:35-38 | Marking a registered field-less message reaches that key alone. |
| Naming.ParseType | internal/schema.go:164-184 | An empty type is left alone. Brackets set `Array` and are stripped, and the name is first-letter-uppercased. A primitive sets `Primitive`, with `Bool` becoming `Boolean`. Otherwise `Empty` sets `Empty`. Flags already set stay set. |
| Naming.ParseTypeFlags | internal/schema.go:158-193 | A fresh parse never sets both `Primitive` and `Empty`. `Primitive` means one of the four GraphQL scalars, and `Empty` means the name `Empty`. |
| Naming.InputParam | internal/schema.go:195-200 | The option's parameter name, or `syntax.Input` when it is blank. |
| Naming.OutputTypeName | internal/schema.go:140-147 | An explicit `gql_output` is first-letter-uppercased. Otherwise the output reference loses the file's package qualifier. A missing or empty package is treated as `.`, which is the corrected behaviour under "Findings". |
| Naming.InputTypeOf | internal/schema.go:202-222 | The four input-naming branches: derived `I` plus bare name, `I` plus parsed type, bracketed primitive or `Empty` array, and the derived fallback. The parameter is the override's own non-blank one, else `syntax.Input`. Without an override every flag is clear; with one, `optional` is kept and the array, primitive and empty flags are those `parseType` sets. The qualifier is corrected as for `OutputTypeName`. |
| Naming.BareNameOfKey | internal/schema.go:145 | A top-level message key of the file loses exactly its qualifier. |
| Naming.DerivedInputName | internal/schema.go:203-207 | With no `gql_input`, a top-level input message `N` is named `IN` and takes the default parameter. |
| Naming.DerivedOutputName | internal/schema.go:145-146 | With no `gql_output`, a top-level output message `N` is named `N`. |
| Naming.GqlInputRecord.Parse | internal/schema.go:164-184 | Rewrites the record in place into `ParseType` of its old value. |
| Naming.GetGqlInputType | internal/schema.go:202-222 | The record returned is the given one, rewritten in place, or a fresh one when none was given. Its value is `InputTypeOf`. |
| Naming.CheckCompilerTarget | internal/schema.go:225-231 | A wildcard command-line target matches every method. Otherwise the targets must be equal. |
| Naming.SkipMethodAgrees | internal/schema.go:234-249 | `skipMethod(t, o)` is exactly `!shouldIncludeMethod(t, o)` for every target and options record. |
| Naming.OutputTypeNameAsWritten | internal/schema.go:140-147 | As written, the name is undefined (a nil dereference) exactly when there is no override and the file has no package. |
| Naming.InputTypeOfAsWritten | internal/schema.go:202-222 | As written, the input name is undefined only for a file without a package. |
| Naming.AsWrittenAgreesWithPackage | internal/schema.go:140-222 | For a file with a non-empty package, the code as written and the corrected naming agree. |
| Naming.EmptyPackageNames | internal/schema.go:145 | For a file whose package is set but empty, the code as written keeps the key's dot (`I.Req`, `.Res`), while the corrected naming gives `IReq` and `Res`. |
| Naming.NoPackageNames | internal/schema.go:145 | For a file without a package, the code as written dereferences nil, while the corrected naming gives `IReq` and `Res`. |
| Projection.FieldsOf | internal/schema.go:107-129 | One field per proto field, same length and order. Each is camel-cased unless `keep_case` is set. |
| Projection.ReachableEnums | internal/schema.go:285-307 | Its own contract is only the bound: no more enums are kept than are declared. Which enums are kept is stated by `Projection.ReachableEnumsMeans` (both directions); the order is the declaration order of the body, which no contract states separately. |
| Projection.ReachableEnumsMeans | internal/schema.go:286-298 | On the analyzer's answers, an enum is emitted iff its full key is a reachable enum. |
| Projection.AnalyzerGateExact | internal/schema.go:68 | On fully qualified keys, `IsTypeReachable` and `IsEnumReachable` are exact membership in the analyzer's sets. |
| Projection.EmitSound | internal/schema.go:53-99 | Every emitted object type is the object of a registered message whose key is reachable. |
| Projection.EmitEnumsSound | internal/schema.go:84-95 | Every emitted nested enum comes from a registered enum whose key is reachable. |
| Projection.EmitComplete | internal/schema.go:53-99 | Every message of the list that has fields and a reachable key is emitted. |
| Projection.EmitNestedIncluded | internal/schema.go:79-82 | The nested messages of an emitted parent are emitted along with it. |
| Projection.EmitSnoc | internal/schema.go:54 | Emission of a list is emission of its prefix followed by emission of its last message. |
| Projection.QueryMethodsMeans | internal/schema.go:263-279 | A method becomes a query iff the target admits it and its kind is not `mutation`/`Mutation`. |
| Projection.MutationMethodsMeans | internal/schema.go:267-272 | A method becomes a mutation iff the target admits it and its kind is `mutation` or `Mutation`. |
| Projection.OperationsPartition | internal/schema.go:252-282 | Every admitted method lands in exactly one of the two lists. |
| Projection.QueryMethodsAppend | internal/schema.go:253-254 | Queries follow the method order. |
| Projection.MutationMethodsAppend | internal/schema.go:253-254 | Mutations follow the method order. |
| Projection.OperationsForAppend | internal/schema.go:253-281 | The operations of two method lists are those of the first, then those of the second. |
| Schemas.Ext | internal/schema.go:376-379 | The extension is empty or starts with a dot and ends the path. |
| Schemas.FileNameReplacesExtension | internal/schema.go:376-379 | `stem.ext` becomes `stem.graphql`. |
| Schemas.FileNameAppendsExtension | internal/schema.go:376-379 | A name with no dot or slash gains `.graphql`. |
| Schemas.ExtAfterSlash | internal/schema.go:376-379 | A path whose last element has no dot has no extension, whatever dots its directories hold. |
| Schemas.FileNameInDirectory | internal/schema.go:376-379 | `dir/name`, with no dot in `name`, becomes `dir/name.graphql`, even when `dir` holds a dot. |
| Schemas.GenerateFields | internal/schema.go:107-129 | The loop produces one field per proto field, in order, with the field's own name under `keep_case` and the camel-cased name otherwise. |
| Schemas.GeneratedObjectsSound | internal/schema.go:310-336 | Every object type of a file's schema comes from a message of that file whose key the analyzer marked. |
| Schemas.GeneratedEnumsSound | internal/schema.go:310-336 | Every enum of a file's schema comes from an enum of that file whose key the analyzer marked. |
| Schemas.ServiceTypesEmitted | internal/schema.go:310-336 | An admitted method's top-level input or output message that has fields is emitted as an object type. |
| Schemas.AnalyzedFor | internal/schema.go:324-327 | The schema's analyzer holds all files' registries and the marks of this file's admitted methods. |
| Schemas.CreateSchema | internal/schema.go:310-336 | The schema's output name, package, analyzer state and lists are those the specification gives for this file, and its text is empty. |
| Schemas.Schema.Populate | internal/schema.go:320-334 | Sets the output name, then appends the emitted object types and enums, the reachable top-level enums and the operations. |
| Schemas.Schema.EmitLists | internal/schema.go:330-332 | Appends the emitted object types and their nested enums, then the reachable top-level enums. |
| Schemas.Schema.Write | internal/schema.go:368-373 | Appends `s`, so `Write("")` appends nothing. |
| Schemas.Schema.NewLine | internal/schema.go:339-347 | Appends one newline with no argument, else `length[0]` of them. |
| Schemas.Schema.Space | internal/schema.go:350-358 | Appends one space with no argument, else `length[0]` of them. |
| Schemas.Schema.Comment | internal/schema.go:361-365 | Appends `# ` and the text. |
| Schemas.Schema.FileName | internal/schema.go:376-379 | The output name is the proto name with its extension replaced by `.graphql`. |
| Schemas.Schema.MakeObjectTypes | internal/schema.go:48-50 | Appends what the emission specification gives for the top-level messages. |
| Schemas.Schema.MakeObjectTypesWithPrefix | internal/schema.go:53-99 | Appends what the emission specification gives for the messages under the prefix. |
| Schemas.Schema.MakeObjectType | internal/schema.go:56-97 | One message: skipped unless reachable and non-empty. Otherwise its nested objects and enums come first, then its own object. |
| Schemas.Schema.MakeNested | internal/schema.go:80-82 | Each nested message is emitted under the parent's key, in order. |
| Schemas.Schema.AppendReachableEnums | internal/schema.go:85-95 | Appends the message's nested enums whose keys are enum-reachable, in order. |
| Schemas.Schema.Enums | internal/schema.go:285-307 | Appends the file's top-level enums whose keys are enum-reachable, in order, with their values. |
| Schemas.Schema.AppendTopEnum | internal/schema.go:287-305 | One top-level enum: its key in the file's package, empty or missing, and the enum appended exactly when that key is enum-reachable. |
| Schemas.Schema.AddQueriesAndMutations | internal/schema.go:252-282 | Appends the operations of all services' methods, service by service. |
| Schemas.Schema.AddServiceMethods | internal/schema.go:254-280 | The method loop of one service. |
| Schemas.Schema.AddMethod | internal/schema.go:257-279 | A skipped method adds nothing. Otherwise it adds a mutation or a query with its input and payload names. |
| Dedup.NamesOfMeans | internal/execute.go:59-63 | The seen names are exactly the names that items of the list carry. |
| Dedup.UnseenAppend | internal/execute.go:57-97 | Merging two lists is merging the first, then the second with the first's names seen. |
| Dedup.UnseenSound | internal/execute.go:59-63 | Every kept item is an item of the list, has a name, and that name was not seen before. |
| Dedup.UnseenNames | internal/execute.go:59-63 | The kept names are exactly the list's names that were not seen before. |
| Dedup.UnseenDistinct | internal/execute.go:59-63 | No two kept items share a name. |
| Dedup.UnseenKeepsFirst | internal/execute.go:59-63 | The first item of each unseen name is kept. |
| Dedup.UnseenOnlyFirst | internal/execute.go:59-63 | Every kept item is the first of its name. |
| Dedup.FirstsOfFront | internal/execute.go:59-63 | Whether an item is the first of its name depends only on the items before it. |
| Dedup.UnseenInOrder | internal/execute.go:57-64 | The kept items are exactly the first items of their names, in their original order. |
| Dedup.UnseenKeepsDistinct | internal/execute.go:59-63 | A list of distinct, named, unseen items is kept whole. |
| Dedup.AppendUnseen | internal/execute.go:59-64 | One dedup loop appends the unseen first items and adds every name to the seen set. |
| Execute.Plugin.IsFileExplicit | internal/execute.go:12-19 | True iff the file's name is among the files to generate. |
| Execute.ExplicitFilesMeans | internal/execute.go:27-35 | A file gets a schema iff it is in the request and named among the files to generate. |
| Execute.Plugin.ProcessProtoFiles | internal/execute.go:27-35 | Appends exactly one schema per explicit file, in request order, and none for other files. |
| Execute.Plugin.ProcessFile | internal/execute.go:28-33 | One turn of the loop: a schema for an explicit file, nothing otherwise. |
| Execute.Plugin.AppendSchema | internal/execute.go:30-32 | Appends the schema `CreateSchema` makes for the file. |
| Execute.FilesByMeans | internal/execute.go:112-120 | The i-th response file is named after the i-th explicit file and holds its schema. |
| Execute.Plugin.GenerateSeparateOutputs | internal/execute.go:112-120 | Appends one response file per schema, in schema order, each named by its schema's file name. |
| Execute.Plugin.MergeAll | internal/execute.go:57-97 | The merge loop gives the first-occurrence-wins merge of the schemas' lists. |
| Execute.MergeSchema | internal/execute.go:58-96 | The five dedup loops over one schema extend the merge of the earlier schemas. |
| Execute.Plugin.GenerateCombinedOutput | internal/execute.go:45-110 | Appends exactly one response file, named by the first output file name or `schema.graphql`, holding the merged schema. |
| Execute.CombinedDistinct | internal/execute.go:57-97 | No two items of any merged list share a name. |
| Execute.CombinedInOrder | internal/execute.go:57-97 | Each of the five merged lists is the schemas' list in file order, filtered to the first item of each name. |
| Execute.CombinedObjectNames | internal/execute.go:57-64 | The merged object types come from the schemas, and every name any schema carries survives. |
| Execute.CombinedKeepsFirstObject | internal/execute.go:57-64 | For each name, the first object type across schemas is the one kept. |
| Execute.CombinedSingle | internal/execute.go:57-64 | One schema whose object names are distinct is kept whole. |
| Execute.Plugin.GenerateOutput | internal/execute.go:37-43 | Takes the combined path iff `combine_output` is set, else the separate one. |
| Execute.Plugin.Execute | internal/execute.go:22-25 | On a fresh plugin the response files are the specification `Response` of the request. |
| Execute.CombinedResponseShape | internal/execute.go:100-109 | Combined output is a single file named by the first output file name, or `schema.graphql` when there is none. |
| Execute.SeparateResponseShape | internal/execute.go:112-120 | Separate output has one file per explicit proto file, in request order, named after it with `.graphql` and holding that file's schema. |
| Execute.Run | internal/execute.go:22-25 | Running the plugin answers the specification `Response`. |
| Generate.Step | generate.go:111-179 | One step of the loop always advances, and never past the end. |
| Generate.ParseGenerateArgs | generate.go:101-183 | The loop's configuration is `Parse` of the arguments. |
| Generate.Consume | generate.go:109-179 | One turn of the loop is one `Step`. |
| Generate.ConsumeOutputDir | generate.go:112-120 | The `-o`/`--out` cases are `Step`. |
| Generate.ConsumeProtoPath | generate.go:122-130 | The `-I`/`--proto_path` cases are `Step`. |
| Generate.ConsumeOption | generate.go:132-147 | The `--target` and switch cases are `Step`. |
| Generate.ConsumeNamingOption | generate.go:149-178 | The naming-option, `--all` and proto-file cases are `Step`. |
| Generate.FlagKeys | generate.go:112-174 | The value-taking flags are the eight exact spellings, and the switches are the four. |
| Generate.SwitchesPlain | generate.go:140-174 | No switch takes a value or matches an attached-value form. |
| Generate.StepValueFlag | generate.go:112-171 | A value flag takes the next argument, or is ignored when it is last. |
| Generate.StepAttached | generate.go:117-171 | An attached `flag=value` (or `-IX`) stores its value. |
| Generate.StepSwitch | generate.go:140-174 | A switch appends its plugin option. |
| Generate.ParseConcat | generate.go:108-180 | Arguments that end cleanly are read the same way whatever follows them. |
| Generate.ValueFlagTakesNext | generate.go:112-171 | A value flag consumes the next argument and stores it where its table entry says. |
| Generate.DanglingFlagIgnored | generate.go:113-171 | A value flag given as the last argument is silently ignored. |
| Generate.UnknownFlagIgnored | generate.go:111-179 | An argument starting with `-` that is not a known flag, switch or attached form is skipped, and the configuration is unchanged. |
| Generate.VerboseIgnored | generate.go:111-179 | `--verbose a.proto` parses as the file `a.proto` alone. |
| Generate.AttachedStores | generate.go:117-171 | A flag with its value attached stores that value where the flag says. |
| Generate.SwitchAppends | generate.go:140-174 | `--keep_case`, `--keep_prefix`, `--combine_output` and `--all` append `keep_case`, `keep_prefix=true`, `combine_output` and `all=true`. |
| Generate.OutputUntouched | generate.go:112-120 | Arguments without an output form leave the output directory alone. |
| Generate.DefaultOutputDir | generate.go:102-104 | Without an output form the output directory is `.`. |
| Generate.LastOutWins | generate.go:112-116 | The last `-o X` or `--out X` wins. |
| Generate.LastAttachedOutWins | generate.go:117-120 | The last `-o=X` or `--out=X` wins. |
| Generate.NoDashNoFlag | generate.go:176 | An argument not starting with `-` is no flag of any kind. |
| Generate.PlainArgsAreFiles | generate.go:176-178 | Arguments that do not start with `-` are appended to the proto files, in order. |
| Generate.PlainFilesKept | generate.go:101-183 | With only file arguments, the configuration lists them and is otherwise the initial one. |
| Generate.ProtoPathForms | generate.go:127-130 | `-IX` and `--proto_path=X` add `X` to the import paths. |
| Generate.OptionForms | generate.go:137-171 | `--target=v`, `--output_filename=v`, `--input_naming=v` and `--affix=v` add `target=v`, `output_filenames=v`, `input_naming=v` and `affix=v`. |
| Generate.LongFormSkipsShort | generate.go:117-128 | A `--` argument never matches the short `-o=` or `-I` forms. |
| Generate.StepChangesOneField | generate.go:111-179 | One argument, with the value it takes, changes at most one field and adds at most one entry. |
| Generate.ParseGrows | generate.go:108-180 | Parsing only appends to the lists, at most one entry per argument. |

## Left out

- `main.go`, `init.go` and `internal/embedded/protos.go` are not part of this
  model. They are I/O: reading the request from stdin, writing the response,
  command dispatch, file creation and the embedded proto text.
- `runGenerate` (`generate.go:20-99`) is not modelled. It looks up and
  spawns `protoc`. `parseGenerateArgs` takes the argument list as a
  parameter instead of reading `os.Args[2:]`.
- Protobuf extension decoding (`getMethodOptions`, `keepCase`) is left out.
  Method options and each field's `keep_case` are plain record fields.
- Logging (`schema.Logger.Log`, `Print`) is side-effect only and is left out.
- `schema.generate()`, `WriteHeader` and `String()` render the lists as
  GraphQL text. Their source is not part of this model. A response file
  carries the schema's lists (`SchemaBody`) instead of the rendered text.
- `utils.UppercaseFirst`, `utils.CamelCase` and `syntax.Input` are
  parameters (`Naming.Helpers`) with no behaviour of their own.
- `descriptor.Field`'s `GetType`, `IsRequired` and `IsRepeated` are not
  modelled. An emitted field keeps its proto field.
- The legacy `MarkTypeReachable` (`analyzer.go:124-166`) is not called by
  the analysis and is not modelled.
- `NewTypeAnalyzerSingle`, `RegisterTypes` and `RegisterEnums` are thin
  wrappers that nothing in the modelled path calls. They are not modelled.
- Go map iteration order is left out. `ResolveTypeName`/`ResolveEnumName`
  scan `packageNames` in map order. The model uses one fixed order, the
  files' first appearance. The reachability queries are proved independent
  of that order (`Resolution.LookupMeans`); the resolved key is not.
- `schema.inputTypes` is never filled by the source. The model keeps it
  empty, and the merge handles it like the other lists.
- `FileName` is modelled with `/` as the only path separator.
- Aliasing of the `GqlInput` record between a method's options and the
  emitted operation is not modelled. `Naming.GetGqlInputType` rewrites the
  record in place, and the operations hold its value.

## Findings

| source | as written | input that shows it | evidently intended | confidence | as-written member | corrected member |
|---|---|---|---|---|---|---|
| internal/schema.go:140-222 | `getGqlOutputType` and `getGqlInputType` build the derived name with `*packageName`. `CreateSchema` sets `packageName` to `protoFile.Package`, which is nil for a file without a `package` line. | A file with no `package` line and an admitted method `Get(.Req) returns (.Res)` with no naming options dereferences nil. | Treat a missing package as the empty one, as `makeObjectTypesWithPrefix` does (`schema.go:58`): trim the `.` qualifier of a package-less key, naming the operation's input `IReq` and its payload `Res`. | not executed | Naming.InputTypeOfAsWritten, Naming.OutputTypeNameAsWritten, Naming.NoPackageNames | Naming.InputTypeOf, Naming.OutputTypeName |
| internal/schema.go:140-222 | The derived name trims `"." + *packageName + "."`. For a package that is set but empty, that is `..`, while the file's keys start with a single `.` (`schema.go:58-61`). | A file with an empty package and an admitted method `Get(.Req) returns (.Res)` with no naming options: the input type is named `I.Req` and the payload `.Res`, which are not GraphQL names. | Treat an empty package as a missing one, as `makeObjectTypesWithPrefix` does: trim the single `.`, naming them `IReq` and `Res`. | not executed | Naming.InputTypeOfAsWritten, Naming.OutputTypeNameAsWritten, Naming.EmptyPackageNames | Naming.InputTypeOf, Naming.OutputTypeName |
