# Reqlet, modelled and proved in Dafny

Reqlet is a Postman-compatible API client: a Go engine and agent, a Node process that runs
request scripts, and a React front end. This project models the parts of it that carry state
or have to agree with one another, and proves what they are relied on for.

- **Variable resolution.** The engine rewrites `{{name}}` references up to ten times; the front
  end expands every definition once, memoised and with a cycle guard, and substitutes once.
  `templates.dfy` has the scanner both regular expressions amount to, `expansion.dfy` an
  independent meaning of expansion, `variables.dfy` and `variable_scope.dfy` the two
  implementations, `substitution.dfy` what the engine shows slot by slot, `agreement.dfy` exactly when they agree, `seams.dfy` a text between braces on
  which they do not, `tokenizer.dfy` the input lexer.
- **The collection runner.** `flatten.dfy` (slices that share a backing array), `inheritance.dfy`
  (auth and scripts along the ancestor path), `scripts.dfy` (the `pm` object's copies and the
  write-back), `runner.dfy`, `iterations.dfy` and `runs.dfy` (one request, one iteration, a run),
  `exchanges.dfy` (what one request asks of the world, against what the tree plans for it),
  `run_properties.dfy` (what holds of every run in every world), `reporters.dfy` (the counters).
- **Two concurrent protocols**, as step systems whose properties hold in every interleaving:
  `sandbox_ipc.dfy` and `run_stream.dfy`. The sandbox's bounded pipes are in `sandbox_pipes.dfy`, its
  line framing in `lines.dfy`.
- **The workspace.** `item_tree.dfy` and `workspace.dfy` (tree edits and moves),
  `workspace_actions.dfy` (the store and every run of its actions), `sync.dfy` (the diff that keeps
  the server equal to the client).
- **Conversions.** `auth_conversion.dfy`, `convert.dfy` (front end to parser and back, in memory),
  `imports.dfy` (what is read of any collection), `collection_file.dfy` (the exported file and what
  the import accepts of it) and `query_params.dfy`
  (URL to parameter table and back); `splitting.dfy` is split and join.

`frontend.dfy` and `postman.dfy` are the two data models, `prelude.dfy` what all modules share.
`dafny verify dfyconfig.toml` verifies everything.

## How it is modelled

Where the source mutates, the model does: the resolver's scopes are an array of mutable maps, the
memo and the visiting set are fields, slices are headers over shared arrays, the workspace store is
a field its actions replace. Each such method is proved equal to a function of the old state, and the
lemmas are about that function. Scripts, HTTP exchanges, auth setup and cancellation are arbitrary
functions numbered by call, so a property proved of a run holds whatever they answer. A script is any
finite list of `pm` operations, each chosen by looking at all the script can read. JSON is a lossless
carrier between datatypes, but for collection files, where it leaves out empty lists and is checked
against the schema. Strings are sequences of characters.

## Where the code does less than it may seem to

Each of these is stated as an exact condition, and by an input at which it fails.

- Dropping an item onto a collection that does not exist, or onto a folder that is not in the target or
  lies inside the dragged item, deletes the item (`Workspace.MoveConservesIff`,
  `Workspace.DropIntoOwnChildLoses`). Adding a request or a folder to a parent that is not there loses it
  (`WorkspaceActions.AddedRequestIsFoundIff`, `WorkspaceActions.AddedFolderIsThereIff`).
- A script shares its console with the replies of the sandbox process: if it prints a line that reads as a
  reply to a waiting call, that call returns what was printed (`SandboxIpc.AnswersOwnRequest`,
  `SandboxIpc.PrintedReplyIsReturned`, `SandboxIpc.AnotherScriptCanAnswer`). A printed reply may have no
  result, and the call then returns neither result nor error, on which its caller does not count.
- With pipes of bounded size and synchronous output, as on Linux, a caller that writes its request, Node
  that prints and the read loop can wait for one another until the sandbox is closed or Node ends
  (`SandboxPipes.ProgressIffNotJammed`, `SandboxPipes.JamIsFinal`). A call that comes when all is quiet can
  be caught like this exactly when its request is larger than the pipe and a script is still running or has
  left a timer or callback behind (`SandboxPipes.CaughtIff`). Calls that wait for scripts and leftovers are
  safe (`SandboxPipes.OneAtATimeNeverJams`); the runner only waits for calls to return, which is not enough
  (`SandboxPipes.LeftoverCanJam`).
- An exported collection is refused by the import, as a whole, if it has an empty folder or a request
  without a method (`CollectionFile.EmptyFolderIsRefused`); the exact conditions under which it is accepted,
  and under which it comes back, are `CollectionFile.ImportAcceptsIff` and `CollectionFile.ExportImportIff`.
  In memory an empty folder comes back as it was, and a request without a method as an empty folder
  (`Convert.MethodlessBecomesFolder`).
- The editor keeps the settings of the auth or body type selected before; the conversion drops them
  (`AuthConversion.AuthRoundTripIff`, `AuthConversion.SwitchedAuthForgets`, `Convert.BodyRoundTripIff`,
  `Convert.SwitchedBodyForgets`).
- Query parameters are not escaped, so only keys without `&` and `=` and values without `&` survive
  (`QueryParams.ParseBuildIff`, `QueryParams.AmpersandSplitsKey`).
- The engine stops after ten levels of references, the front end does not (`Agreement.EnginesAgree`,
  `Agreement.ChainsAgreeUpToTen`). And the engine reads its own result again, so a value that lands
  between literal braces becomes a reference there and stays text in the front end
  (`Seams.SeamMakesReference`).
- A comment says that a key on a cycle keeps its reference; in fact all keys of a cycle end up with the
  reference to one of them, the one at which the iteration enters the cycle
  (`VariableScope.CycleSharesOneKey`, `VariableScope.CyclesDependOnOrder`, `VariableScope.OrdersDiffer`).
- `pm.variables.set` is said to be visible to later scripts; the data row and the environment may hide it,
  and so does a name that every object inherits, such as `constructor`, for which scripts read the inherited
  member (`Scripts.SetVisibleToScriptsIff`, `Scripts.InheritedNameHidesFromScripts`,
  `Scripts.ScriptSeesEngineValueIff`). The stores are plain objects, on which setting `__proto__` to a string
  stores nothing, so that the engine does not find it either (`Scripts.SetVisibleIff`, `Scripts.ProtoIsNotStored`).
- The sync calls of successive diffs are not awaited; if one overtakes another for the same entry the
  older content can stay (`Sync.OvertakingIff`, `Sync.OvertakenUpdateIsLost`), as some order brings about
  exactly when two calls say different things of one entry (`Sync.SomeOrderLosesIff`).
- The status handler reports a failed run as running for ever (`RunStream.FailedRunNeverReported`,
  `RunStream.FailedRunStaysRunning`, `RunStream.FailAtOnceIsDone`).
- The run's channel never drops an event exactly when it can hold the whole log
  (`RunStream.NeverDropsIffFits`), which a request that jumps back outgrows: 1002 events for a channel of
  100 (`RunProperties.BackwardJumpsOverflow`, `RunProperties.JumpingRunJumpsBack`).

## Model

| member | source | states |
|---|---|---|
| Templates.RenderScan | gui/web/src/components/ui/variable-input.tsx:9-30 | reading a string as text and references and printing it again loses nothing, for either pattern and any string |
| Templates.ScanRender | gui/web/src/hooks/use-variable-scope.ts:15-17 | printing pieces and re-reading the result gives the same pieces, so that re-tokenising a substituted string gives the concatenation of its parts, if names have no braces and no literal opening brace comes directly before another; other literal braces may stand anywhere |
| Templates.StrictScanSubstitutes | engine/variables/resolver.go:76-99 | the engine's stricter pattern (at least one character) substitutes the same as the front end's whenever the empty name is not defined |
| Expansion.ShallowIffNoCycle | gui/web/src/hooks/use-variable-scope.ts:19-22 | references in a text have a finite depth if and only if they lead to no cycle, and then the number of definitions bounds it |
| Expansion.ExpandStep | engine/variables/resolver.go:76-99 | expanding d + 1 levels is one substitution pass followed by d levels, though expansion is defined depth-first |
| Expansion.ExpandedIffShallow | engine/variables/resolver.go:76-99 | after d levels no known reference is left if and only if the references were at most d deep |
| VariableScope.CollectScope | gui/web/src/hooks/use-variable-scope.ts:62-82 | a key is in the map if and only if it is not empty and some enabled entry has it, and its value is the current value of the last such entry, or the initial one if that is empty |
| VariableScope.MergedExactly | gui/web/src/hooks/use-variable-scope.ts:84-85 | of the three lists merged, the environment decides where it has an active entry for the key, else the collection, else the globals |
| VariableScope.Expander.ResolveValue | gui/web/src/hooks/use-variable-scope.ts:25-37 | terminates on every map, leaves the visiting set as it was, and returns the text and memo of the guarded expansion |
| VariableScope.ResolveRecursive | gui/web/src/hooks/use-variable-scope.ts:22-46 | the loop over the keys, in any order, ends with the result of guarded expansion of every key not yet in the memo |
| VariableScope.ResolveRecursiveCorrect | gui/web/src/hooks/use-variable-scope.ts:22-46 | in any iteration order and whatever cycles exist elsewhere, the result has exactly the raw map's keys, and each key that leads to no cycle has its full expansion without memo or guard |
| VariableScope.ApplyIsExpansion | gui/web/src/hooks/use-variable-scope.ts:15-17 | one substitution with the resolved map is the full expansion of any text that leads to no cycle |
| VariableScope.CycleSharesOneKey | gui/web/src/hooks/use-variable-scope.ts:19-22 | whatever else the map holds and in whatever order, all keys of a cycle of any length, a self-reference included, end up as a reference to one and the same of them |
| VariableScope.CyclesDependOnOrder | gui/web/src/hooks/use-variable-scope.ts:39-43 | that key is the first one listed, if no key listed before it leads to the cycle; and if the first to lead there is a key outside whose value is a reference to it, it is the one referred to, wherever the keys of the cycle are listed |
| VariableScope.OrdersDiffer | gui/web/src/hooks/use-variable-scope.ts:39-43 | two such iteration orders give the keys of a cycle the same values if and only if they enter it at the same key |
| Variables.Resolver.constructor | engine/variables/resolver.go:27-34 | five distinct, fresh, empty scopes |
| Variables.Resolver.Set | engine/variables/resolver.go:36-38 | changes one key of one scope and nothing else |
| Variables.Resolver.Get | engine/variables/resolver.go:42-49 | the value of the highest-priority scope that defines the key, local over data over environment over collection over global |
| Variables.Resolver.Snapshot | engine/variables/resolver.go:55-61 | a fresh copy: later changes to it do not reach the scopes |
| Variables.Resolver.ReplaceScope | engine/variables/resolver.go:64-70 | the scope becomes a copy of the given map, the other scopes stay |
| Variables.Resolver.Resolve | engine/variables/resolver.go:76-99 | at most ten passes, the last being one that changes nothing, over the definitions in force |
| Variables.PriorityOrder | engine/variables/resolver.go:42-49 | the definitions in force are those of local over data over environment over collection over global, name by name |
| Substitution.ResolvesSlots | engine/variables/resolver.go:76-99 | texts with any references between them, without braces in texts, names and what is shown: resolving puts a generated value for each known dynamic name, evaluated once each from left to right, the definition for each other name that has one, and leaves the rest as written, an unknown dynamic name even where a scope defines it |
| Variables.EveryOccurrenceIsDrawn | engine/variables/resolver.go:81-86 | a pass evaluates each occurrence of a known dynamic name exactly once and nothing else |
| Agreement.PassesAreExpansion | engine/variables/resolver.go:76-99 | on plain text, n rewriting passes over the string are n levels of expansion; text is plain if no opening brace comes directly before another or before a reference and no name is dynamic, as in most JSON |
| Agreement.RoundsArePasses | engine/variables/resolver.go:76-99 | on plain text the loop with its early exit gives the result of n passes without one, and evaluates no dynamic name |
| Agreement.EnginesAgree | engine/variables/resolver.go:76-99 | for plain text that leads to no cycle, with plain values that do not end in an opening brace and empty local and data scopes, the engine's result equals the front end's if and only if the references are at most ten levels deep, in whatever order the front end visits keys |
| Agreement.ChainsAgreeUpToTen | engine/variables/resolver.go:51-52 | on a chain of n definitions, each referring to the next, the engines agree if and only if n is at most ten |
| Seams.SeamMakesReference | engine/variables/resolver.go:76-99 | a reference to x between two more pairs of braces, with a the value of x and v that of a: the engine ends with v, the front end with the reference to a |
| Tokenizer.TokenizeVariables | gui/web/src/components/ui/variable-input.tsx:9-30 | the tokens read as the scan of the value, none is empty, no two text tokens are adjacent, and flags and texts of variables are right |
| Tokenizer.LexerLossless | gui/web/src/components/ui/variable-input.tsx:9-30 | the token texts concatenate back to the input |
| Tokenizer.TokensUnique | gui/web/src/components/ui/variable-input.tsx:9-30 | only one token list satisfies the tokenizer's contract |
| Flatten.Append | engine/runner/runner.go:56 | an append shows the old cells and the new one, in place when there is capacity, and the shorter slice still shows what it did |
| Flatten.SiblingsShareACell | engine/runner/runner.go:56 | two appends to one slice with spare capacity overwrite each other: the first then shows the second's item |
| Flatten.FlattenItems | engine/runner/runner.go:52-64 | with shared backing arrays, the caller's visible ancestors are unchanged and the result is the depth-first list of leaves, each with its own copy of its folder path |
| Flatten.FlattenedExactly | engine/runner/runner.go:52-64 | an entry is in the flat list if and only if its folders are a root-to-parent path to its leaf |
| Flatten.WalkItems | engine/parser/parser.go:109-117 | the callback sees the leaves in flatten's order with the same paths |
| Flatten.CountRequests | agent/run.go:124-134 | the announced total is the length of the flat list |
| Flatten.FilterFolder | engine/runner/runner.go:67-75 | keeps, in order, the requests whose immediate parent has the name |
| Inheritance.ResolveChain | engine/auth/auth.go:54-64 | the first auth present among request, folders innermost first, collection |
| Inheritance.ResolveAuth | engine/runner/runner.go:348-358 | reverses the outermost-first folder list, so the nearest auth wins |
| Inheritance.AuthsAgree | engine/runner/runner.go:348-358 | for every leaf of every tree the auth found bottom-up is the one inherited top-down, a folder's auth replacing its parent's |
| Inheritance.JoinScripts | engine/runner/runner.go:250-270 | the matching scripts of collection, folders outermost first, and request |
| Inheritance.MatchingExactly | engine/runner/runner.go:252-256 | of each level exactly the events of the kind, in order, each with its lines joined |
| Inheritance.ScriptsAgree | engine/runner/runner.go:250-270 | for every leaf the scripts run are exactly the matching events met on the way down, outside in |
| Scripts.Pm.constructor | runner/src/pm.js:10-17 | every store of the pm object is a fresh copy of what the context holds |
| Scripts.Pm.Do | runner/src/pm.js:40-54 | one pm operation changes the script's own copies as the reference says, the ignored prototype setter included; nothing outside is touched |
| Scripts.OpExactly | runner/src/pm.js:40-119 | an operation changes one key of the one store it is meant for, or clears it, or hides a key of the data row, or changes its part of the flow, and nothing else; setting the prototype setter's name changes nothing unless the key is there |
| Scripts.RunIsStepwise | runner/src/executor.js:63-75 | a script is its operations one after the other, each chosen from what those before have left |
| Scripts.CopiesRefineInPlace | runner/src/pm.js:10-17 | a script run on copies and written back has the effect of running it in place on the shared scopes, flow control included |
| Scripts.ExecuteScript | engine/runner/runner.go:192-203 | snapshot, execute and replace is one in-place script run on the resolver |
| Scripts.ApplyMutations | engine/runner/runner.go:340-344 | global, environment and collection scope are replaced, data and local stay |
| Scripts.ThreadScripts | engine/runner/runner.go:222-233 | the whole test loop is running the scripts in place one after the other, with the tests added up, the last directive kept, and an end at the first script that cannot be run |
| Scripts.ThreadIsStepwise | engine/runner/runner.go:222-233 | the loop goes on from what a script leaves, adds its tests, keeps its directive if it gave one, and ends at the first that cannot be run |
| Scripts.DataRowWins | runner/src/pm.js:105-112 | whatever scripts do, the data row does not change and a key of it resolves to its row value |
| Scripts.ScriptSeesEngineValueIff | runner/src/pm.js:105-110 | a script reads for a key what the engine would resolve if and only if the key is no name every object inherits or the data row defines it |
| Scripts.SetVisibleIff | runner/src/pm.js:111-112 | a value set with pm.variables.set is what the engine finds afterwards if and only if no higher scope holds another, and, for the name of the prototype setter, the collection scope has the key already or the globals hold the value |
| Scripts.SetVisibleToScriptsIff | runner/src/pm.js:105-112 | a later script reads the value set if and only if the data row holds it, or does not have the key, the name is none that every object inherits, and the environment holds no other |
| Scripts.InheritedNameHidesFromScripts | runner/src/pm.js:105-110 | with constructor defined in neither, the engine finds what was set under it and a later script reads the inherited member |
| Scripts.ProtoIsNotStored | runner/src/pm.js:112 | setting that name changes nothing as long as the collection scope does not have it |
| Runner.RunRequest | engine/runner/runner.go:182-246 | the two halves of a request, scripts and exchange, as one function of the scopes and the world, of which the following row tells |
| Exchanges.RequestFollowsPlan | engine/runner/runner.go:182-246 | for every request of every collection in every world: the pre-request scripts it inherits top-down run in order, each once, on the scopes the one before left, until one fails or skips; then its own request goes out once with the auth it inherits; on a response its test scripts run likewise; and name, tests, last directive, response, error and scopes are those of these answers |
| RunProperties.PreScriptsInPlace | engine/runner/runner.go:192-203 | the runner's pre-request loop equals running the scripts directly on one shared set of scopes, skip and errors included |
| RunProperties.TestScriptsInPlace | engine/runner/runner.go:222-233 | likewise for the test loop, with its tests accumulated and the last directive kept |
| RunProperties.OneRequestShape | engine/runner/runner.go:182-246 | a skipped result has no error, tests or directive; an errored one no tests and no directive |
| Iterations.FindRequest | engine/runner/runner.go:78-85 | the first request with the name, or -1 |
| Iterations.RunIteration | engine/runner/runner.go:131-180 | the loop is the step machine run until it stops, of which the following rows tell; the callback gets exactly the recorded results in order |
| Iterations.IterationFollowsPath | engine/runner/runner.go:131-180 | in every world at most 1000 requests are recorded, each under the name of the request at its position; the first is the first of the list; each without a directive is followed by the next one, each with one by the first request of that name, or by the next one if there is none; no request but the last names the empty string or fails under bail; and the iteration finishes if and only if the last does or leads off the list, else it is broken off, at the limit or by cancellation |
| Iterations.PlainIterationIsInOrder | engine/runner/runner.go:136-177 | without directives the requests run in the order of the list, each once, and all of them unless one fails under bail or the iteration is broken off |
| Iterations.IterationThreadsScopes | engine/runner/runner.go:136-156 | each result is what its request gives in the scopes, and at the time, that the request before it left, waiting for the delay before every request but the first; a broken iteration ends with the limit, a cancelled delay or an aborted request |
| Iterations.ForwardBound | engine/runner/runner.go:163-176 | with forward jumps only, an iteration records at most as many requests as there are |
| Runs.BuildVars | engine/runner/runner.go:273-288 | the enabled collection and environment variables in their scopes, all other scopes empty |
| Runs.InitialVars | engine/runner/runner.go:100-115 | an iteration's scopes are a function of collection, environment, options and iteration number |
| Runs.InitialScopesExactly | engine/runner/runner.go:100-115 | key by key: what the options give, else the last variable of collection or environment that is not disabled, else nothing; the data row of the iteration number, if there is one |
| Runs.RunSelects | engine/runner/runner.go:66-96 | a run has exactly the requests directly inside a folder of the chosen name, or all of them if none is chosen, in order |
| Runs.RunCollection | engine/runner/runner.go:88-129 | at least one iteration, over the selected requests, stopping at the first error or, under bail, the first failed iteration |
| RunProperties.RunsAreGood | engine/runner/runner.go:88-129 | in every run each iteration starts from scopes no script has touched; all of them are run, at least one, unless one fails under bail, which is then the last, or is broken off, which is then the error; results have the promised shape, and the callbacks are the results in order |
| RunProperties.EventsTellRun | agent/run.go:226-307 | the k-th event after the start names the k-th recorded result, and the last one is done for a whole run and the error for a broken one |
| RunProperties.SummaryIffWhole | agent/run.go:295-392 | once a streamed run is done its summary is reported if and only if it was not broken off |
| RunProperties.RowValueWins | engine/runner/runner.go:111-115 | whatever the sandbox sends back, every key of the iteration's data row resolves to its row value to the end of the iteration |
| RunProperties.EveryCallFollowsPlan | engine/runner/runner.go:192-233 | an iteration asks the world nothing else: two worlds that answer alike when a planned script is asked for in its phase, with the row unchanged, and when a planned request goes out with its inherited auth, give the same iteration |
| RunProperties.EveryCallSeesRow | engine/runner/runner.go:192-233 | and the data row is unchanged at each of these calls: two worlds that differ only for another row, or other values of its keys, give the same iteration |
| RunProperties.ForwardCalls | engine/runner/runner.go:136-176 | with forward jumps only, a run makes at most requests times iterations callbacks |
| RunProperties.ForwardRunsStreamCompletely | agent/run.go:224-226 | such a run logs at most total times iterations plus 2 events, the channel sized for it drops none in any schedule, and a sole reader that stays to the end gets the whole log |
| RunProperties.BackwardJumpsOverflow | agent/run.go:224-226 | a run of one iteration whose first request always jumps back logs 1002 events for a channel of 100, and some schedule drops one |
| RunProperties.JumpingRunJumpsBack | engine/runner/runner.go:163-176 | such a run exists: one request whose test script names itself |
| Reporters.CliCounters | engine/reporter/cli.go:102-124 | the four counters over all iterations |
| Reporters.JsonCounters | engine/reporter/json.go:90-134 | the JSON stats over all iterations, with errors counted before the skip test |
| Reporters.JUnitCounters | engine/reporter/junit.go:92-158 | suite counters summed to the totals, an errored request being one failed case |
| Reporters.BuildRunSummary | agent/run.go:136-161 | the summary's totals, and total = passed + failed |
| Reporters.CountsExactly | engine/reporter/cli.go:102-124 | the console's counts are the numbers of requests run, of those with an error or a failed test, of their tests and of their failed tests |
| Reporters.RequestCountsAgree | engine/reporter/json.go:96-117 | on any results CLI and summary agree on requests and failures, and JSON with them if and only if no skipped request carries an error |
| Reporters.TestCountsAgree | engine/reporter/junit.go:98-155 | on results as the runner makes them all test counts agree, JUnit having one case more per errored request |
| Reporters.PassedIffNoFailures | engine/runner/result.go:16-66 | the run passed if and only if the failure count of each reporter is zero |
| Reporters.RunsAreShaped | engine/runner/runner.go:182-246 | every run satisfies what the counters' agreement needs |
| SandboxIpc.StepKeepsInvariant | engine/sandbox/runner.go:88-164 | every atomic step keeps the invariant on ids, in-flight map, pipes, channels and read loop |
| SandboxIpc.InvariantAlways | engine/sandbox/runner.go:88-164 | the invariant holds after every sequence of steps |
| SandboxIpc.IdsNeverRepeat | engine/sandbox/runner.go:89-94 | no two calls share an id |
| SandboxIpc.AnswersOwnRequest | engine/sandbox/runner.go:115-124 | whatever the completion order and whatever scripts print, a call returns the answer to its own request, or a reply some script printed with the call's id; the latter only if a script did print one |
| SandboxIpc.PrintedReplyIsReturned | engine/sandbox/runner.go:137-156 | in every reachable state where a call waits and the pipe is empty, a printed reply with its id leads to its returning what was printed, and to no other change but for the id being used up |
| SandboxIpc.AnotherScriptCanAnswer | runner/src/executor.js:46-58 | from every reachable state with an idle read loop, call d can return any printed reply while call c waits, Node has c's request, and no answer to it has been read or is under way |
| SandboxIpc.DeliveryNeverBlocks | engine/sandbox/runner.go:142-156 | each one-place channel is sent to at most once, so the read loop never waits on delivery |
| SandboxIpc.NoEntryOutlivesItsCall | engine/sandbox/runner.go:115-124 | a call that is over by any path has no in-flight entry |
| SandboxIpc.AnswersNeverLost | engine/sandbox/runner.go:133-158 | a waiting call without an entry has its answer in the channel or on the way there |
| SandboxIpc.ReaderClosesAtEnd | engine/sandbox/runner.go:133-158 | the read loop ends with Node's output and for no other reason |
| SandboxIpc.AnswerArrives | engine/sandbox/runner.go:137-156 | in every reachable state with the read loop running, a reply under way reaches the call that waits for it, whatever other lines stand before it, by steps of the read loop and the call alone |
| SandboxIpc.WaitingCallCanFinish | engine/sandbox/runner.go:107-124 | in every such state a waiting call for which no reply is under way can still return whatever Node makes of its request |
| SandboxIpc.FailureHasCause | engine/sandbox/runner.go:101-122 | a call fails only for what happened to it: marshalling, writing, its own cancellation, or the end of Node's output |
| SandboxIpc.GivingUp | engine/sandbox/runner.go:101-122 | a call in the phase for it can give up for each of these causes, takes its entry away, and changes nothing else |
| SandboxIpc.OutputCanEnd | engine/sandbox/runner.go:133-138 | Node's output may end whenever the read loop scans, and every waiting call can then leave |
| SandboxIpc.NoCallStuckAfterExit | engine/sandbox/runner.go:134 | once the process is gone every waiting call can leave, and can still take an answer that was read |
| SandboxPipes.ProgressIffNotJammed | engine/sandbox/runner.go:107-109 | with bounded pipes, what has begun can go on if and only if not all of these hold: a writer with the mutex at a full pipe, Node printing at a full pipe, the read loop waiting for the mutex |
| SandboxPipes.JamIsFinal | engine/sandbox/runner.go:107-130 | in that state no step is possible, not even a new call's, other than the closing of Node's input or the end of Node |
| SandboxPipes.ClosedDrains | engine/sandbox/runner.go:127-131 | once the input is closed or Node has ended, everything begun is worked off in finitely many steps |
| SandboxPipes.JamIsEnded | engine/sandbox/runner.go:127-131 | so either ends a jam, and all that was begun is worked off |
| SandboxPipes.DrainsOrJams | engine/sandbox/runner.go:133-158 | left alone, everything begun is worked off in finitely many steps, or the sandbox jams |
| SandboxPipes.OneAtATimeNeverJams | runner/src/executor.js:63-84 | over every run whose calls come when no script is running, no request is unread and nothing is left behind by an ended script, it never jams, however small the pipes |
| SandboxPipes.ScriptsCanEnd | runner/src/executor.js:63-84 | when everything is worked off, running scripts and leftovers can end, so that the next call finds the sandbox idle |
| SandboxPipes.CaughtIff | engine/sandbox/runner.go:107-109 | a call that comes when everything is worked off can be caught in a jam, with no further call, if and only if its request exceeds the pipe and a script is running or has left something behind |
| SandboxPipes.OneLineNeverJams | engine/sandbox/runner.go:137-147 | and not by one line alone, however long: the read loop needs the mutex for whole lines only |
| SandboxPipes.LeftoverCanJam | runner/src/executor.js:46-58 | whatever the capacities, a run reaches the jam though each call comes when every earlier script has ended: a timer left behind prints |
| SandboxPipes.TwoCallsCanJam | engine/sandbox/runner.go:107-109 | whatever the capacities, two calls can reach the jam, the second coming while the first one's script runs |
| RunStream.StepKeepsInvariant | agent/run.go:78-86 | every step of producer and readers keeps the invariant on log, channel, fates and readers |
| RunStream.LogSplits | agent/run.go:78-86 | in every reachable state each offered event is received by one live reader, queued or dropped, exactly one of these, and each reader's events increase |
| RunStream.NoSendAfterClose | agent/run.go:295-314 | nothing is offered on the closed channel, and it is closed once |
| RunStream.DoneIsFinal | agent/run.go:295-314 | done means that the log ends in its one final event and never grows again |
| RunStream.ReplayIsWholeLog | agent/run.go:343-354 | a replay is the whole log from start event to final event |
| RunStream.AttachedReader | agent/run.go:342-371 | who attaches before the run is done listens from then on, who attaches later gets the whole log with its end |
| RunStream.ProducerGoesOn | agent/run.go:78-86 | in every reachable state the producer has a next step, until the channel is closed |
| RunStream.ListenerCanEnd | agent/run.go:356-370 | once the channel is closed a listening reader can take all that is left in it and end |
| RunStream.ListenerCanLeave | agent/run.go:366-369 | a listening reader can leave at any time, and nothing changes for anybody else |
| RunStream.RunCanEnd | agent/run.go:290-315 | from every reachable state the producer can bring the run to its end, with the channel closed |
| RunStream.FailedRunNeverReported | agent/run.go:373-392 | a summary is reported if and only if the run is done and ended well |
| RunStream.FailedRunStaysRunning | agent/run.go:387-390 | once a failed run is done, every continuation still reports it as running |
| RunStream.FailAtOnceIsDone | agent/run.go:295-303 | a run that fails at once gets there |
| RunStream.NoDropWithinCapacity | agent/run.go:82-85 | no event is dropped while the log is no longer than the channel |
| RunStream.NeverDropsIffFits | agent/run.go:224-226 | no schedule drops an event of a complete log if and only if the channel can hold all of it |
| RunStream.SoleReaderGetsAll | agent/run.go:357-370 | a reader that is alone, whenever before completion it came, has received the whole log when the stream ends |
| Lines.ProcessChunk | runner/src/index.js:35-44 | handles the non-blank complete lines of buffer and chunk in order and returns the unterminated tail |
| Lines.Feed | runner/src/index.js:52-60 | a whole run of chunks handles the non-blank complete lines of their concatenation |
| Lines.NonBlankExactly | runner/src/index.js:35-44 | handled are exactly the lines with something other than white space in them, in order |
| Lines.FramingIgnoresChunks | runner/src/index.js:35-44 | folding the handler over the chunks depends on the concatenated stream only |
| Lines.ChunkingInvariant | runner/src/index.js:35-44 | two divisions of one stream are handled alike |
| Lines.LineHandledOnce | runner/src/index.js:35-44 | a message sent as one line is handled once its newline is there, and not before |
| ItemTree.ExtractFromList | gui/web/src/store/workspace.ts:173-197 | filter and map with a variable overwritten by each match return the reported item and what remains |
| ItemTree.ExtractSplits | gui/web/src/store/workspace.ts:173-197 | with a unique id, extraction takes out exactly one subtree, whole, and leaves every other node in its place; deletion leaves the same items |
| ItemTree.InsertCounts | gui/web/src/store/workspace.ts:199-212 | insertion adds exactly the item and its subtree if the target exists, else nothing |
| ItemTree.InsertAppends | gui/web/src/store/workspace.ts:199-212 | and it changes one folder only, putting the item behind that folder's other items |
| ItemTree.FindUnique | gui/web/src/store/workspace.ts:84-98 | a request with a unique id is found as it is, wherever it lies |
| ItemTree.CloneIsomorphic | gui/web/src/store/workspace.ts:144-149 | a clone differs from its original in ids only |
| ItemTree.CloneIds | gui/web/src/store/workspace.ts:144-149 | a clone uses each newly minted id once and no other |
| ItemTree.DuplicateInList | gui/web/src/store/workspace.ts:151-171 | the loop that pushes and overwrites the last element yields the duplicated list and the number of ids used |
| ItemTree.DuplicateOnce | gui/web/src/store/workspace.ts:151-171 | a unique item gets one copy, right behind it, and every other node stays |
| Workspace.MoveConservesIff | gui/web/src/store/workspace.ts:460-479 | a move that passes its guards keeps every node over all collections, with the subtree put whole at the end of its new list and every other node, folder and collection in its place, if and only if the target collection exists and the target folder is none or a folder of the destination outside the moved subtree |
| Workspace.MoveKeepsSubtree | gui/web/src/store/workspace.ts:460-479 | every subtree that holds neither the moved item nor the target folder is still there, whole, in its collection or inside the moved item |
| Workspace.DropIntoOwnChildLoses | gui/web/src/store/workspace.ts:460-479 | a folder dropped into its own child is gone |
| Workspace.MovedIsFound | gui/web/src/store/workspace.ts:460-479 | then every request of the moved subtree is found unchanged under the target collection |
| Workspace.MoveHappensIff | gui/web/src/store/workspace.ts:460-466 | a move happens if and only if the source is there and holds the item and the item is not to go into itself; otherwise nothing changes |
| WorkspaceActions.Store.AddCollection | gui/web/src/store/workspace.ts:250-263 | a new empty collection at the end, and returned |
| WorkspaceActions.NewCollectionIsLast | gui/web/src/store/workspace.ts:250-263 | behind all others, under a new id and the given title, without items and variables |
| WorkspaceActions.Store.DuplicateCollection | gui/web/src/store/workspace.ts:284-293 | a copy with new ids right behind the first collection with the id |
| WorkspaceActions.Store.DuplicateItem | gui/web/src/store/workspace.ts:295-300 | the map over collections, with ids minted from left to right |
| WorkspaceActions.Store.AddRequest | gui/web/src/store/workspace.ts:302-330 | a default request with a fresh id, last of the list or of the parent folder if that is there, everything else unchanged |
| WorkspaceActions.Store.AddFolder | gui/web/src/store/workspace.ts:332-348 | an empty folder with a fresh id, last of the list or of the parent folder if that is there, everything else unchanged |
| WorkspaceActions.Store.DeleteItem | gui/web/src/store/workspace.ts:267-272 | the item's subtree goes from the one collection named |
| WorkspaceActions.Store.MoveItem | gui/web/src/store/workspace.ts:460-479 | extraction and insertion in one state change, or none if a guard fails |
| WorkspaceActions.MoveItemConservesIff | gui/web/src/store/workspace.ts:460-479 | in every reachable state the action keeps every node, with the subtree relocated whole, if and only if the move can land; if it does not pass its guards nothing changes |
| WorkspaceActions.IdsStayUnique | gui/web/src/store/workspace.ts:250-348 | over every run of add, delete, duplicate and move actions item ids and collection ids stay unique, given fresh ids |
| WorkspaceActions.DuplicateSitsBehind | gui/web/src/store/workspace.ts:295-300 | in every reachable state the duplicate sits right behind its original and equals it up to ids and the root's name, all else unchanged |
| WorkspaceActions.CollectionCopyIsomorphic | gui/web/src/store/workspace.ts:284-293 | likewise for a duplicated collection |
| WorkspaceActions.AddedRequestIsFoundIff | gui/web/src/store/workspace.ts:302-330 | a new request is found, as created, in its collection if and only if its parent is none or a folder there; otherwise it is lost and nothing changes |
| WorkspaceActions.AddedFolderIsThereIff | gui/web/src/store/workspace.ts:332-348 | a new folder is in the tree, and takes new items itself, if and only if its parent is none or a folder there; otherwise nothing changes |
| WorkspaceActions.DroppedExactly | gui/web/src/store/workspace.ts:265 | deleting a collection removes it whole and keeps every other one unchanged |
| WorkspaceActions.DroppedInOrder | gui/web/src/store/workspace.ts:265 | and those that stay keep their order |
| WorkspaceActions.MissingChangesNothing | gui/web/src/store/workspace.ts:265-348 | what aims at a collection that is not there, or an item not in it, changes nothing |
| WorkspaceActions.DeleteTakesOut | gui/web/src/store/workspace.ts:267-272 | deleting takes out one subtree and leaves every other node in its place |
| WorkspaceActions.DeletedIsGone | gui/web/src/store/workspace.ts:267-272 | after a delete no node of the deleted subtree occurs or is found anywhere |
| WorkspaceActions.OthersAreKept | gui/web/src/store/workspace.ts:116-120 | and every other request is still found, unchanged, in its collection |
| Sync.SyncDiff | gui/web/src/hooks/use-workspace-sync.ts:7-21 | the loops emit the removals in map order, then creates and updates in list order, nothing if the lists are the same object |
| Sync.CallsExactly | gui/web/src/hooks/use-workspace-sync.ts:7-21 | for any two lists: an id is deleted exactly if only the old list has it, created exactly if only the new one has it, and updated exactly if the old list's last entry of it is another object than an entry of the new one, with that entry's content |
| Sync.CallsAreDistinct | gui/web/src/hooks/use-workspace-sync.ts:7-21 | the calls of one diff touch pairwise distinct ids |
| Sync.OrderIsIrrelevant | gui/web/src/hooks/use-workspace-sync.ts:11-20 | calls to distinct ids give the same store in every order |
| Sync.UnchangedGetsNoCall | gui/web/src/hooks/use-workspace-sync.ts:17 | an entry that is the same object in both lists gets no call |
| Sync.DiffBringsUpToDate | gui/web/src/hooks/use-workspace-sync.ts:7-37 | a store equal to the previous list by id becomes equal to the current one, whatever order the calls arrive in |
| Sync.ServerTracksClient | gui/web/src/hooks/use-workspace-sync.ts:64-70 | over every run of client states the store follows the client, when each diff's calls arrive, in any order, before those of the next |
| Sync.OvertakingIff | gui/web/src/hooks/use-workspace-sync.ts:11-20 | if all calls of a run arrive in any order at all, the store ends equal to the client if and only if, id by id, the last call to arrive says what the last one issued said |
| Sync.SomeOrderLosesIff | gui/web/src/hooks/use-workspace-sync.ts:11-20 | some order of arrival ends with another store than the client if and only if two of the issued calls touch one id with different effects |
| Sync.OrderPerIdSuffices | gui/web/src/hooks/use-workspace-sync.ts:11-20 | so it is enough that calls for one id do not overtake each other |
| Sync.OvertakenUpdateIsLost | gui/web/src/hooks/use-workspace-sync.ts:17-18 | three client states with one entry each, of one id: their two updates are the calls issued, and if they arrive in the other order the server keeps the older content |
| Sync.DiffBringsUpToDateIff | gui/web/src/hooks/use-workspace-sync.ts:7-21 | with repeated ids or without, a diff brings the server up to date if and only if, wherever an id's last entry is the one the server has, no other entry of that id that gets a call says otherwise |
| Sync.RepeatedIdsBreakTheMirror | gui/web/src/hooks/use-workspace-sync.ts:14-20 | a repeated id for which it does not |
| Convert.ScriptsReturn | agent/convert.go:147-171 | scripts survive split and join whatever they contain |
| AuthConversion.AuthRoundTripIff | agent/convert.go:181-360 | an auth comes back as it was if and only if its kind is supported, its own block is present and no other is, and a collection's own auth is not inherit |
| AuthConversion.OtherBlocksAreLost | agent/convert.go:181-360 | an auth of a supported kind with its own block comes back without the blocks of other kinds and otherwise unchanged |
| AuthConversion.SwitchedAuthForgets | gui/web/src/components/layout/auth-panel.tsx:74 | a bearer token kept when the kind was changed to basic does not come back |
| AuthConversion.ConvertedSurvives | agent/convert.go:181-259 | every auth that comes in from the parser's side survives |
| Convert.BodyRoundTripIff | agent/convert.go:364-506 | a body comes back up to ids, descriptions and file contents if and only if its kind is known, nothing of another kind is filled in, its content type is one of five and its form values have a type |
| Convert.OtherContentsAreLost | agent/convert.go:364-506 | a body comes back with its own kind's contents and nothing else |
| Convert.SwitchedBodyForgets | gui/web/src/components/layout/request-pane.tsx:353 | a text kept when the kind was changed to none does not come back |
| Convert.ConvertItemToParser | agent/convert.go:677-739 | loops and recursion yield the converted item; what has no method is read as a folder, empty folders included |
| Convert.ConvertItemToFrontend | agent/convert.go:510-598 | loops and recursion yield the front end's item |
| Convert.ItemRoundTripIff | agent/convert.go:510-739 | in memory, an item tree comes back up to ids, descriptions and file contents if and only if all its requests have a method and all auths and bodies survive |
| Convert.MethodlessBecomesFolder | agent/convert.go:678-686 | in memory, a request without a method is converted to an empty folder and comes back as one |
| Convert.CollectionToParser | agent/convert.go:742-777 | loops yield the converted collection |
| Convert.CollectionToFrontend | agent/convert.go:603-640 | loops yield the front end's collection |
| Convert.CollectionRoundTripIff | agent/convert.go:603-777 | in memory, a whole collection comes back, with current values reset to initial ones, if and only if its items and its auth survive |
| Convert.ImportIsStable | agent/convert.go:603-777 | in memory, an imported collection whose requests have methods is converted and converted back without any loss but its description |
| Imports.CollectionIsRead | agent/convert.go:603-640 | of any collection the parser holds: id, name, description, variables, first scripts, items in order, and the auth block of its type with the first parameter of each key |
| Imports.ItemIsRead | agent/convert.go:510-598 | of any item: a folder's own auth, a request's from its request part and not from the item around it, rows, body of its mode, first scripts |
| Imports.ExportWritesTwice | agent/convert.go:707-718 | a request's auth is written to the item and to its request part, and a collection's description is not written |
| CollectionFile.WrittenIsReadIff | engine/parser/types.go:26-39 | an item as it is written is valid by the schema, in a folder and at the top, if and only if no folder in it is empty and its requests and auths are valid, and is then read as it was |
| CollectionFile.ParseWrittenIff | engine/parser/parser.go:17-38 | a written collection is parsed back as it was if it has a name and all that holds, and refused otherwise |
| CollectionFile.ImportAcceptsIff | agent/collections.go:81-139 | the import accepts an exported collection if and only if it has a name, no folder is empty, every request has a method and form values are texts or files; what it yields is what the conversion in memory does |
| CollectionFile.ExportImportIff | agent/collections.go:81-139 | a collection comes back from its exported file, up to ids, descriptions, file contents and current values, if and only if that holds and its auths and bodies survive |
| CollectionFile.ReimportIff | agent/collections.go:81-139 | what was imported can be exported and imported again with no loss but its description if and only if it has a name, no folder is empty, every request has a method and form values are texts or files; otherwise the file is refused |
| CollectionFile.EmptyFolderIsRefused | engine/parser/schemas/collection_v21.json:442-536 | one empty folder or one request without a method at the top of a collection, and its exported file is refused |
| CollectionFile.NewItemsInFiles | gui/web/src/store/workspace.ts:302-348 | a request as the editor creates it goes through a file and comes back as it was, a new folder does not |
| QueryParams.ParseBuildIff | gui/web/src/components/layout/request-pane.tsx:852-877 | parsing a built URL gives exactly the enabled parameters with a key, in order, if and only if their keys avoid ampersand and equals sign and their values ampersand |
| QueryParams.BuiltExactly | gui/web/src/components/layout/request-pane.tsx:871-877 | what stands before the first question mark is kept and any query behind it dropped; the enabled parameters with a key follow in order, joined as key=value by ampersands; without any there is no question mark |
| QueryParams.ParsedExactly | gui/web/src/components/layout/request-pane.tsx:852-869 | each piece between ampersands gives a row whose key is what stands before its first equals sign, or all of it |
| QueryParams.EmptyPiecesAreSkipped | gui/web/src/components/layout/request-pane.tsx:852-869 | empty pieces give no row |
| QueryParams.AmpersandSplitsKey | gui/web/src/components/layout/request-pane.tsx:852-877 | a key with an ampersand comes back as two parameters |
| QueryParams.ParseBuildParse | gui/web/src/components/layout/request-pane.tsx:852-877 | rebuilding a URL from its own parameters loses the empty keys and nothing else |
| QueryParams.RebuildIdempotent | gui/web/src/components/layout/request-pane.tsx:871-877 | rebuilding twice is rebuilding once |

## Left out

- HTTP execution, redirects, TLS, multipart and base64 bodies, OAuth2, AWS and Digest signing: calls into libraries; the runner sees one arbitrary function.
- Storage, JSON and CSV: malformed JSON and its errors, and the import's limit of 10 MB, are not modelled; of the schema there is what the export can get wrong.
- CollectionFile.Read: an item with both a request and an item list is a folder here only if the list is valid, to the parser always; an export writes no such item.
- Migrations of older collection formats and environment conversion.
- `pm.sendRequest`, chai assertions, `replaceIn`, the visualizer, and the request and response headers a script can read.
- Rename, script, auth and variable updates in the workspace store, and its environments: they do not touch the tree.
- React components, tab state and code generation.
- Variables.Resolver.Resolve: the random generators behind the dynamic names are an arbitrary function of name and evaluation number.
- Runner.RunRequest: an item with neither children nor request is not representable; the source would dereference nil.
- Runs.RunCollection: the random choice between an expired delay and a cancelled context is the oracle's; the no-op sandbox used without Node is one such oracle.
- SandboxIpc.IdsNeverRepeat: ids are unbounded, wrap-around of the 64-bit counter is not modelled.
- SandboxIpc and RunStream are step systems over values, with one step per critical section or channel operation, rather than code with locks; the pipes of SandboxIpc are unbounded, those of SandboxPipes are bounded but carry no contents.
- SandboxPipes: that the read loop ends at a line of more than 4 MB is not modelled.
- Scripts.ExecuteScript: a directive or test name that is no string, which makes the reply unreadable and the call wait for ever, and a printed reply without a result, which the runner dereferences, are not modelled.
- Flatten.Append: the growth policy of slices is left open; any larger capacity is allowed.
- WorkspaceActions.IdsStayUnique: new ids are a supply assumed never to repeat and never to be in use; the source keeps eight hexadecimal digits of a random UUID, which may collide.
- Sync.OvertakingIff: calls are taken to succeed; failed ones, which the source ignores, are not modelled.
- Convert.CollectionRoundTripIff: ids minted on import are left blank, so equality is up to ids; the binary body's file is not part of the collection.
- Agreement.EnginesAgree: nothing is said about text that leads to a cycle, where the front end's result depends on the order of its map.
- QueryParams.ParseBuildIff: the ids of parsed rows are left blank.
