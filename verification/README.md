# Orchestration reachability analysis and rule DF1101

This project is a Dafny model of the Roslyn analyzer core in the Durable Functions
worker extension. The core has four parts:

- **Entry discovery and closure** (`OrchestrationAnalyzer`). A method is an
  orchestration entry when one of its parameters carries the
  `OrchestrationTrigger` attribute. Each entry is inserted into a map from
  symbol to method declaration. `FindAndAddInvokedMethods` then walks every
  invocation of the entry's body. For each method declaration of the target it
  inserts the target if absent, and recurses only when the insert succeeded.
- **Rule DF1101** (`DateTimeOrchestrationAnalyzer`). Every property reference
  to `System.DateTime.Now`, `UtcNow` or `Today` is recorded together with its
  containing method. When the compilation ends, a diagnostic is reported for
  each recorded usage whose method is a key of the reachable map.
- **Attribute predicates and diagnostic construction** (`RoslynExtensions`).
- **The memoised well-known type lookup** (`KnownTypeSymbols`, with its
  `Cached<T>` slot).

## How the model represents the program

Roslyn's view of a compilation is an input value, `CodeModel.Compilation`. It has:

- a table of declaration nodes. Each node records the symbol it declares, whether it
  is a `MethodDeclarationSyntax`, and the call sites in its body.
- the symbol facts: attributes, and the attributes of each parameter.
- the original definition of each constructed symbol, such as `Helper<int>`
  for the generic method `Helper<T>`. A constructed symbol owns no syntax. Its
  declaring syntax is that of its original definition (`CodeModel.OriginalDefinition`).
- the metadata type names that resolution can find.
- the `System.DateTime` type.
- the property references, each with the symbol that contains it.

Symbols and declaration ids are natural numbers. Types are identified by their
full name.

The concurrent dictionary is an immutable map threaded through the traversal.
The concurrently firing syntax-node callbacks become a fold over the declaration
table, in order (`VisitDeclarations`). The compilation-end action runs after the
whole fold.

The usage bag has no defined enumeration order. The model enumerates it in
reference order, so "in reference order" below describes the model only. What
corresponds to the source is the multiset of findings, and that multiset is the
same for every enumeration order (`ReconcileOrderFree`, `FindingsIndependentOfBagOrder`).

The traversal terminates because every successful insert removes one symbol
from the finite set of declared symbols still absent from the map. This shows
that the analysis ends on direct and mutual recursion.

The key set is characterised in two ways:

- It is the least set that contains the entries and is closed under the call
  relation the traversal follows (`ReachableMethodsComplete` and
  `ReachableMethodsLeast`).
- Equivalently, it is the set of methods at the end of a call chain from an entry
  (`ReachableIffCallChain`).

The rule's record-then-filter pass is proved equal to a one-pass reference
definition (`RecordThenReconcile`).

### Behaviour as written

- **Where the trigger attribute is looked for.** The syntax-node callback
  (`OrchestrationAnalyzer.cs:41`) checks only the method's parameters, through
  `ContainsAttributeInAnyMethodArguments`. `RoslynExtensions.MethodLevelAttributeAlone`
  proves that a method carrying the attribute on itself, and on none of its
  parameters, is not an entry.
- **Methods declared in several places.** The comment at `OrchestrationAnalyzer.cs:75`
  says every declaration of a callee is iterated, because a method can be
  declared in several places (partial classes). The code does not explore them all.
  - For a callee, the code inserts the symbol for its first method declaration.
    The insert for each later declaration then fails (`:80`), and that
    declaration is skipped. So only the first declaration of a callee is explored.
  - An entry has every one of its method declarations explored. The syntax-node
    callback fires for each declaration, and the traversal at `:51` runs whatever
    the insert at `:48` returned.
  - The call relation `OrchestrationClosure.Calls` encodes exactly this.
    `Scenarios.SecondPartialDeclarationNotExplored` exhibits a program where a
    DateTime read reachable only through a second partial declaration is not
    reported.
  - This is not claimed as a defect, because the model does not show whether
    Roslyn yields such a program.
- **Constructed generic callees.** A call to `Helper<int>` has the constructed
  symbol as its target (`OrchestrationAnalyzer.cs:69`). Its declaring syntax is
  that of `Helper<T>` (`:76`), so `Helper<T>`'s body is explored and its callees
  are reached. The key inserted at `:80` is `Helper<int>`, however. The operation
  callback records a read in `Helper<T>`'s body under the containing symbol
  `Helper<T>` (`DateTimeOrchestrationAnalyzer.cs:41`). The end action looks that
  symbol up among the keys (`:51`), and `Helper<T>` is never a key unless something
  calls it directly. `Scenarios.GenericHelperOwnReadNotReported` exhibits a program
  where the read in the generic helper's own body is not reported, while the read
  in a method it calls is. This is not claimed as a defect either: the source's
  tests contain no generic helper, so the intent is not stated.

## Model

| member | source | states |
|---|---|---|
| RoslynExtensions.AnyOfClass | src/Worker.Extensions.DurableTask.Analyzers/Helpers/RoslynExtensions.cs:19-20 | the search over a list of attributes is true iff some attribute's class equals the target; an attribute with no resolved class never matches |
| RoslynExtensions.ParameterAttributes | src/Worker.Extensions.DurableTask.Analyzers/Helpers/RoslynExtensions.cs:30-31 | the attributes gathered from all of a method's parameters are exactly those found on some parameter |
| RoslynExtensions.ContainsAttribute | src/Worker.Extensions.DurableTask.Analyzers/Helpers/RoslynExtensions.cs:12-21 | false for a null symbol; otherwise true iff one of the symbol's own attributes has the target class |
| RoslynExtensions.ContainsAttributeInAnyMethodArguments | src/Worker.Extensions.DurableTask.Analyzers/Helpers/RoslynExtensions.cs:23-33 | false for null and non-method symbols; true iff the symbol is a method and some parameter carries an attribute of the target class |
| RoslynExtensions.MethodAttributesIgnored | src/Worker.Extensions.DurableTask.Analyzers/Helpers/RoslynExtensions.cs:30-32 | the answer depends only on the parameters: changing the method's own attributes never changes it |
| RoslynExtensions.MethodLevelAttributeAlone | src/Worker.Extensions.DurableTask.Analyzers/Helpers/RoslynExtensions.cs:23-33 | a method carrying the attribute on itself and on none of its parameters, whatever other attributes they carry, satisfies ContainsAttribute but is not an orchestration |
| RoslynExtensions.NoParametersNoMatch | src/Worker.Extensions.DurableTask.Analyzers/Helpers/RoslynExtensions.cs:30-32 | a method with zero parameters is never an orchestration, whatever its own attributes |
| RoslynExtensions.BuildDiagnostic | src/Worker.Extensions.DurableTask.Analyzers/Helpers/RoslynExtensions.cs:40-43 | the diagnostic carries the descriptor's id, the node's location and the message arguments unchanged |
| KnownTypeSymbols.NewKnownTypes | src/Worker.Extensions.DurableTask.Analyzers/Helpers/KnownTypeSymbols.cs:45-48 | a fresh object's slot is the struct default, with HasValue false |
| KnownTypeSymbols.GetTypeByMetadataName | src/Worker.Extensions.DurableTask.Analyzers/Helpers/KnownTypeSymbols.cs:37 | resolution finds a type iff the full name is known to the compilation, and the type found has that full name |
| KnownTypeSymbols.GetOrResolveType | src/Worker.Extensions.DurableTask.Analyzers/Helpers/KnownTypeSymbols.cs:30-40 | a filled slot returns its value, stays unchanged and does not consult resolution; an empty slot consults resolution once, returns its answer (null included) and is left filled with it |
| KnownTypeSymbols.OrchestrationTriggerAttribute | src/Worker.Extensions.DurableTask.Analyzers/Helpers/KnownTypeSymbols.cs:22-28 | the property resolves by the attribute's full name on first use, answers from the slot afterwards, and leaves the slot holding its answer |
| KnownTypeSymbols.FilledSlotIgnoresResolver | src/Worker.Extensions.DurableTask.Analyzers/Helpers/KnownTypeSymbols.cs:32-39 | after the first lookup, a second lookup returns the first answer whatever resolution would now say, so a null result is never retried |
| KnownTypeSymbols.ReadRepeatedly | src/Worker.Extensions.DurableTask.Analyzers/Helpers/KnownTypeSymbols.cs:30-40 | n reads of one slot consult resolution exactly once (none when n is 0), and every read returns resolution's answer |
| OrchestrationAnalyzer.MethodDeclarations | src/Worker.Extensions.DurableTask.Analyzers/Analyzers/Orchestration/OrchestrationAnalyzer.cs:76 | the declaring syntax of a symbol, which for a constructed symbol is that of its original definition, filtered to MethodDeclarationSyntax: exactly the method declarations of the symbol's original definition, each once, in declaration order |
| OrchestrationAnalyzer.FirstMethodDeclaration | src/Worker.Extensions.DurableTask.Analyzers/Analyzers/Orchestration/OrchestrationAnalyzer.cs:77-83 | the declaration the first successful insert records is a method declaration of the callee and precedes all its others |
| OrchestrationAnalyzer.TryAdd | src/Worker.Extensions.DurableTask.Analyzers/Analyzers/Orchestration/OrchestrationAnalyzer.cs:80-83 | the dictionary insert returns true iff the key was absent; afterwards the key is present, it holds the new declaration only if it was absent, and no other entry changes |
| OrchestrationAnalyzer.UnvisitedDecreases | src/Worker.Extensions.DurableTask.Analyzers/Analyzers/Orchestration/OrchestrationAnalyzer.cs:79-85 | a successful insert of a declared symbol strictly shrinks the set of declared symbols not yet in the map, which bounds the recursion |
| OrchestrationAnalyzer.FindAndAddInvokedMethods | src/Worker.Extensions.DurableTask.Analyzers/Analyzers/Orchestration/OrchestrationAnalyzer.cs:59-88 | terminates; never removes or overwrites an entry; every key it adds maps to its first method declaration, whose callees are keys too; every resolvable callee of the caller with a method declaration ends up a key |
| OrchestrationAnalyzer.VisitInvocations | src/Worker.Extensions.DurableTask.Analyzers/Analyzers/Orchestration/OrchestrationAnalyzer.cs:61-73 | call sites without an operation, with a non-invocation operation or with no target are skipped; every target with a method declaration becomes a key; existing entries are kept |
| OrchestrationAnalyzer.VisitCalleeDeclarations | src/Worker.Extensions.DurableTask.Analyzers/Analyzers/Orchestration/OrchestrationAnalyzer.cs:76-86 | a callee with a method declaration becomes a key; an already present key is not overwritten; recursion follows only a successful insert |
| OrchestrationAnalyzer.SkippedCalleeUnchanged | src/Worker.Extensions.DurableTask.Analyzers/Analyzers/Orchestration/OrchestrationAnalyzer.cs:79-83 | once the callee is a key, every remaining declaration fails the insert and is skipped, leaving the map unchanged |
| OrchestrationAnalyzer.IsOrchestration | src/Worker.Extensions.DurableTask.Analyzers/Analyzers/Orchestration/OrchestrationAnalyzer.cs:40-44 | the containing symbol passes the callback's test iff it is a method one of whose parameters carries an attribute whose class is the trigger type |
| OrchestrationAnalyzer.IsOrchestrationDeclaration | src/Worker.Extensions.DurableTask.Analyzers/Analyzers/Orchestration/OrchestrationAnalyzer.cs:41-52 | the callback acts on a node only when it is a method declaration (the registered syntax kind) of an orchestration, and such a node is one of that symbol's method declarations |
| OrchestrationAnalyzer.SyntaxNodeAction | src/Worker.Extensions.DurableTask.Analyzers/Analyzers/Orchestration/OrchestrationAnalyzer.cs:35-52 | a node that is not a method declaration of an orchestration leaves the map unchanged; one that is puts its symbol in the map and all its resolvable callees with method declarations, never overwriting an entry, even when the entry insert fails |
| OrchestrationAnalyzer.VisitDeclarations | src/Worker.Extensions.DurableTask.Analyzers/Analyzers/Orchestration/OrchestrationAnalyzer.cs:35-52 | the callbacks in table order: every key maps to one of its own method declarations and earlier entries are never overwritten |
| OrchestrationAnalyzer.ReachableMethods | src/Worker.Extensions.DurableTask.Analyzers/Analyzers/Orchestration/OrchestrationAnalyzer.cs:33-52 | the map after all callbacks, starting empty, maps each key to one of its own method declarations |
| OrchestrationAnalyzer.CompilationStart | src/Worker.Extensions.DurableTask.Analyzers/Analyzers/Orchestration/OrchestrationAnalyzer.cs:24-33 | nothing is registered iff the trigger attribute type cannot be resolved; otherwise the map is the reachable map for that type |
| OrchestrationClosure.VisitDeclarationsKeysExplored | src/Worker.Extensions.DurableTask.Analyzers/Analyzers/Orchestration/OrchestrationAnalyzer.cs:59-88 | across all callbacks, every key that is not an entry stays mapped to its first method declaration with all that declaration's callees present |
| OrchestrationClosure.VisitDeclarationsRootsExplored | src/Worker.Extensions.DurableTask.Analyzers/Analyzers/Orchestration/OrchestrationAnalyzer.cs:35-52 | after all callbacks, every method declaration of an orchestration belongs to a key and all its callees are keys |
| OrchestrationClosure.ReachableMethodsComplete | src/Worker.Extensions.DurableTask.Analyzers/Analyzers/Orchestration/OrchestrationAnalyzer.cs:59-88 | the keys contain every entry and are closed under the followed call relation |
| OrchestrationClosure.CalleesRecordFirstDeclaration | src/Worker.Extensions.DurableTask.Analyzers/Analyzers/Orchestration/OrchestrationAnalyzer.cs:77-83 | a key that is not an entry maps to its first method declaration: the first insert wins |
| OrchestrationClosure.ReachableMethodsLeast | src/Worker.Extensions.DurableTask.Analyzers/Analyzers/Orchestration/OrchestrationAnalyzer.cs:94-97 | the keys lie inside every set that contains the entries and is closed under calls: nothing unreachable is inserted |
| OrchestrationClosure.ReachableIffCallChain | src/Worker.Extensions.DurableTask.Analyzers/Analyzers/Orchestration/OrchestrationAnalyzer.cs:94-97 | a symbol is a key iff some call chain from an orchestration entry ends at it |
| OrchestrationClosure.NoOrchestrationNothingReachable | src/Worker.Extensions.DurableTask.Analyzers/Analyzers/Orchestration/OrchestrationAnalyzer.cs:40-44 | with no method having a trigger-attributed parameter the map stays empty |
| OrchestrationClosure.CallChainReachable | test/Worker.Extensions.DurableTask.Analyzers.Test/Analyzers/Orchestration/DateTimeOrchestrationAnalyzerTests.cs:127-161 | the end of a call chain of any length from an entry is a key |
| DateTimeOrchestrationAnalyzer.IsNonDeterministicDateTime | src/Worker.Extensions.DurableTask.Analyzers/Analyzers/Orchestration/DateTimeOrchestrationAnalyzer.cs:38-39 | a property matches iff its containing type is System.DateTime and its name is Now, UtcNow or Today |
| DateTimeOrchestrationAnalyzer.OnlyClockReadingsMatch | src/Worker.Extensions.DurableTask.Analyzers/Analyzers/Orchestration/DateTimeOrchestrationAnalyzer.cs:38-39 | of DateTime's properties exactly the three clock readings match and Ticks does not; no property of another type matches, whatever its name |
| CodeModel.PropertyDisplayString | src/Worker.Extensions.DurableTask.Analyzers/Analyzers/Orchestration/DateTimeOrchestrationAnalyzer.cs:53 | the message argument is the containing type's full name, a dot, then the property name |
| CodeModel.DisplayStringDistinguishesProperties | src/Worker.Extensions.DurableTask.Analyzers/Analyzers/Orchestration/DateTimeOrchestrationAnalyzer.cs:53 | two properties of one type with different names get different message arguments |
| DateTimeOrchestrationAnalyzer.RecordUsages | src/Worker.Extensions.DurableTask.Analyzers/Analyzers/Orchestration/DateTimeOrchestrationAnalyzer.cs:31-44 | a reference is recorded, once per occurrence and tagged with its containing symbol, iff its property belongs to System.DateTime and is Now, UtcNow or Today |
| DateTimeOrchestrationAnalyzer.ReportFor | src/Worker.Extensions.DurableTask.Analyzers/Analyzers/Orchestration/DateTimeOrchestrationAnalyzer.cs:53 | the diagnostic has rule DF1101, the operation's location and the qualified property name as its one argument |
| DateTimeOrchestrationAnalyzer.Reconcile | src/Worker.Extensions.DurableTask.Analyzers/Analyzers/Orchestration/DateTimeOrchestrationAnalyzer.cs:47-56 | a finding exists iff some recorded usage's method is a key; findings are no more than usages and all carry DF1101 |
| DateTimeOrchestrationAnalyzer.ExpectedFindings | src/Worker.Extensions.DurableTask.Analyzers/Analyzers/Orchestration/DateTimeOrchestrationAnalyzer.cs:24-56 | reference definition: a finding exists iff a matching reference sits in a key method |
| DateTimeOrchestrationAnalyzer.RecordThenReconcile | src/Worker.Extensions.DurableTask.Analyzers/Analyzers/Orchestration/DateTimeOrchestrationAnalyzer.cs:24-56 | recording all matches then filtering at the end gives exactly the one-pass findings, in reference order |
| DateTimeOrchestrationAnalyzer.ExpectedFindingsAppend | src/Worker.Extensions.DurableTask.Analyzers/Analyzers/Orchestration/DateTimeOrchestrationAnalyzer.cs:49-55 | each usage is judged on its own: the findings of two runs of references placed one after the other are the two runs' findings, concatenated |
| DateTimeOrchestrationAnalyzer.EveryReachableReadReported | src/Worker.Extensions.DurableTask.Analyzers/Analyzers/Orchestration/DateTimeOrchestrationAnalyzer.cs:49-55 | when every reference is a clock reading in a key method, there is one finding per reference and the k-th finding reports the k-th reference |
| DateTimeOrchestrationAnalyzer.ReconcileAppend | src/Worker.Extensions.DurableTask.Analyzers/Analyzers/Orchestration/DateTimeOrchestrationAnalyzer.cs:49-55 | the end action judges each usage on its own: enumerating two runs of usages one after the other gives the two runs' findings, concatenated |
| DateTimeOrchestrationAnalyzer.ReconcileOrderFree | src/Worker.Extensions.DurableTask.Analyzers/Analyzers/Orchestration/DateTimeOrchestrationAnalyzer.cs:28-55 | two enumerations of the same bag of usages, in any two orders, give the same multiset of findings |
| DateTimeOrchestrationAnalyzer.FindingsIndependentOfBagOrder | src/Worker.Extensions.DurableTask.Analyzers/Analyzers/Orchestration/DateTimeOrchestrationAnalyzer.cs:28-55 | whatever order the end action meets the recorded usages in, its findings are, as a multiset, those of the analysis |
| DateTimeOrchestrationAnalyzer.ReconcileReportsOncePerUsage | test/Worker.Extensions.DurableTask.Analyzers.Test/Analyzers/Orchestration/DateTimeOrchestrationAnalyzerTests.cs:164-196 | when every usage's method is reachable, there is exactly one finding per usage, in usage order, however many entries reach it |
| DateTimeOrchestrationAnalyzer.AnalyzeCompilation | src/Worker.Extensions.DurableTask.Analyzers/Analyzers/Orchestration/OrchestrationAnalyzer.cs:24-55 | no findings when the trigger type is unresolved; otherwise the matching references of methods reachable from orchestrations |
| DateTimeOrchestrationAnalyzer.NoOrchestrationNoFindings | test/Worker.Extensions.DurableTask.Analyzers.Test/Analyzers/Orchestration/DateTimeOrchestrationAnalyzerTests.cs:31-46 | a program without orchestrations gets no findings |
| DateTimeOrchestrationAnalyzer.NoReachableMatchNothingExpected | src/Worker.Extensions.DurableTask.Analyzers/Analyzers/Orchestration/DateTimeOrchestrationAnalyzer.cs:49-55 | when no matching reference sits in a key method, nothing is reported |
| DateTimeOrchestrationAnalyzer.UnreachedUsagesNotReported | test/Worker.Extensions.DurableTask.Analyzers.Test/Analyzers/Orchestration/DateTimeOrchestrationAnalyzerTests.cs:229-251 | matching references outside a call-closed set containing the entries are never reported |
| DateTimeOrchestrationAnalyzer.FindingsComeFromReachableMethods | src/Worker.Extensions.DurableTask.Analyzers/Analyzers/Orchestration/DateTimeOrchestrationAnalyzer.cs:49-55 | every finding reports a matching reference inside any call-closed set containing the entries |
| DateTimeOrchestrationAnalyzer.ChainedUsageReported | test/Worker.Extensions.DurableTask.Analyzers.Test/Analyzers/Orchestration/DateTimeOrchestrationAnalyzerTests.cs:126-161 | a matching reference in a method at the end of a call chain from an entry is reported |
| Scenarios.NowThenTicksReportsNow | test/Worker.Extensions.DurableTask.Analyzers.Test/Analyzers/Orchestration/DateTimeOrchestrationAnalyzerTests.cs:185-187 | `DateTime.Now.Ticks` in a reachable method gives the Now finding only; Ticks is not matched |
| Scenarios.ClockReadsReported | src/Worker.Extensions.DurableTask.Analyzers/Analyzers/Orchestration/DateTimeOrchestrationAnalyzer.cs:49-55 | reachable clock readings followed by reads of other properties give exactly one finding per clock reading, each naming System.DateTime and the property |
| Scenarios.DirectClockReadReported | test/Worker.Extensions.DurableTask.Analyzers.Test/Analyzers/Orchestration/DateTimeOrchestrationAnalyzerTests.cs:48-124 | a read of Now, UtcNow or Today in the orchestration's own body gives one finding whose argument is System.DateTime.<name>; a read of any other DateTime property gives none |
| Scenarios.ThreeDeepChainReportsThree | test/Worker.Extensions.DurableTask.Analyzers.Test/Analyzers/Orchestration/DateTimeOrchestrationAnalyzerTests.cs:126-161 | Now, UtcNow and Today read three calls away from the orchestration give exactly three findings, in reference order; the three Ticks reads give none |
| Scenarios.HelperCalledByTwoOrchestrationsReportedOnce | test/Worker.Extensions.DurableTask.Analyzers.Test/Analyzers/Orchestration/DateTimeOrchestrationAnalyzerTests.cs:163-196 | a helper called by two orchestrations gives one finding with argument System.DateTime.Now |
| Scenarios.RecursiveHelperReportedOnce | test/Worker.Extensions.DurableTask.Analyzers.Test/Analyzers/Orchestration/DateTimeOrchestrationAnalyzerTests.cs:198-227 | a self-recursive helper is analysed to the end and its read gives a single finding |
| Scenarios.UncalledMethodNotReported | test/Worker.Extensions.DurableTask.Analyzers.Test/Analyzers/Orchestration/DateTimeOrchestrationAnalyzerTests.cs:229-251 | a read in a method no orchestration calls gives no finding |
| Scenarios.LambdaReadsReported | test/Worker.Extensions.DurableTask.Analyzers.Test/Analyzers/Orchestration/DateTimeOrchestrationAnalyzerTests.cs:253-279 | four Now reads attributed to the orchestration give four findings, in reference order |
| Scenarios.AsyncCalleesReported | test/Worker.Extensions.DurableTask.Analyzers.Test/Analyzers/Orchestration/DateTimeOrchestrationAnalyzerTests.cs:281-310 | the reads in two awaited callees are both reported, in reference order |
| CodeModel.OriginalDefinition | src/Worker.Extensions.DurableTask.Analyzers/Analyzers/Orchestration/OrchestrationAnalyzer.cs:69-76 | a symbol that owns a declaration node, or has no recorded original definition, is its own definition; a constructed symbol's definition is the recorded one |
| Scenarios.GenericCalleeReachesOther | src/Worker.Extensions.DurableTask.Analyzers/Analyzers/Orchestration/OrchestrationAnalyzer.cs:69-85 | a call to a constructed generic method explores its definition's body, so the method that body calls is a key |
| Scenarios.GenericDefinitionNotKey | src/Worker.Extensions.DurableTask.Analyzers/Analyzers/Orchestration/OrchestrationAnalyzer.cs:69-85 | the key inserted is the constructed symbol; the generic definition itself, called by no one, is not a key |
| Scenarios.GenericHelperOwnReadNotReported | src/Worker.Extensions.DurableTask.Analyzers/Analyzers/Orchestration/DateTimeOrchestrationAnalyzer.cs:41-53 | as written, a read in the generic definition's body is recorded under the definition, which is not a key, and gives no finding; the read in the method it calls does |
| Scenarios.SecondPartialDeclarationNotExplored | src/Worker.Extensions.DurableTask.Analyzers/Analyzers/Orchestration/OrchestrationAnalyzer.cs:76-86 | as written, what only the second declaration of a callee invokes is not reached, so its read gives no finding |

## Left out

- Concurrency: `EnableConcurrentExecution` (`OrchestrationAnalyzer.cs:22`) and `ConcurrentDictionary`: the syntax-node callbacks are a sequential fold over the declaration nodes in table order, and the compilation-end action runs after the fold. One order, that of the table, serves both as the order of the callbacks and as the order of every symbol's `DeclaringSyntaxReferences`; the model does not vary it. A key that is not an entry is inserted only at `:80`, and always records its first method declaration (`CalleesRecordFirstDeclaration`). What an orchestration's key records can depend on how the entry insert at `:48` interleaves with an insert of the same symbol at `:80` from another callback; other interleavings are not modelled.
- `ConcurrentBag` (`DateTimeOrchestrationAnalyzer.cs:28`): the operation callbacks fill it (`RecordUsages`, in reference order), and the `foreach` of the end action (`:49`) meets its usages in no guaranteed order. The model enumerates them in reference order, so the order of its findings is not a property of the source; only their multiset is, and `ReconcileOrderFree` shows it does not depend on the order.
- Cancellation-token checks (`OrchestrationAnalyzer.cs:37`, `DateTimeOrchestrationAnalyzer.cs:33`): the model does not cancel work.
- `Debug.Assert` at `OrchestrationAnalyzer.cs:49`: it has no effect in release builds. The result of the entry insert is discarded, and the traversal runs either way.
- Roslyn internals are inputs, not modelled: parsing, `SemanticModel.GetOperation`, `OriginalDefinition` (which definition a constructed symbol comes from), `GetTypeByMetadataName`, `GetSpecialType`, `ctx.ContainingSymbol` (including how lambdas and local functions are attributed to their enclosing method), and `DescendantNodes`. Each is a field of `Compilation` or of a declaration node. `DeclaringSyntaxReferences` is derived from them: the nodes that declare the symbol's original definition.
- Symbol and type equality under `SymbolEqualityComparer.Default`: symbols are naturals and types are compared by full name.
- Descriptor title, message format, category and severity: the "TODO" strings and the warning level are not behaviour. Only the id is kept.
- `ReportDiagnostic` (`RoslynExtensions.cs:35-38`): this wrapper only forwards to `BuildDiagnostic`. The end action returns the diagnostics instead of reporting them.
- `SupportedDiagnostics` and the analyzer attribute: registration metadata without logic.
- Generated code: the model assumes the compilation contains none. The source turns analysis of generated code off (`OrchestrationAnalyzer.cs:21`), so an orchestration declared in generated code is never an entry and a DateTime read in generated code is never recorded, while `FindAndAddInvokedMethods` (`:76-85`) still walks into callees declared in generated code. None of this is modelled.
- Semantic models: how a call site resolves is a fixed field of its declaration node, whichever semantic model asks. The source resolves every call site along a chain through the orchestration's own semantic model (`OrchestrationAnalyzer.cs:51`, passed on at `:85`), which belongs to the orchestration's syntax tree; what that does for a callee declared in another file is not modelled.
- The test verifier in `CSharpAnalyzerVerifier.Functions.cs`: it is test infrastructure. `Scenarios` holds, as concrete compilations, the programs of these tests in `DateTimeOrchestrationAnalyzerTests.cs`: the direct Now, UtcNow and Today reads (`:48-124`), the three-deep chain (`:126-161`), the helper called by two orchestrations (`:163-196`), the recursive helper (`:198-227`), the uncalled method (`:229-251`), the lambdas (`:253-279`) and the awaited callees (`:281-310`). The empty-code and non-orchestration tests (`:14-46`) are covered by the general contracts of `AnalyzeCompilation` and `NoOrchestrationNoFindings` rather than by concrete programs. In the lambda program, that each read's containing symbol is the orchestration is an input, as every containing symbol is.
- `ISymbol.ToString()` of a property is modelled as the containing type's full name, a dot and the property name (`PropertyDisplayString`), which is its form for `System.DateTime` properties.
