# Verified models of the benchmark runtime, the agent loop and the web transcript

This project models, in Dafny, the parts of the repository whose correctness depends on more than one function or on a
whole run, and proves properties of the models.

- **Scorer** (`Text`, `TopLevelScan`, `Json`, `JsLiterals`, `JsLiteralScan`, `JsLiteralRoundTrip`, `JsTexts`,
  `GreedyMatching`, `GreedyCorrectness`, `CallMatching`, `ValueMatching`): the quote- and depth-aware splitter, the
  mutually recursive literal parsers, the comparison of values, and the greedy matching of calls in any order.
- **Stateful worker** (`StatefulRuntime`, `RuntimeSession`, `WorkerProtocol`, `StatefulWorker`, `StatefulWorkerRuns`,
  `WorkerCommands`, `WorkerLife`, `JoinedWorker`): the session that reassembles lines and correlates replies, joined by
  pipes to an arbitrary worker under every interleaving of sends, deliveries of arbitrary chunks, timeouts and crashes;
  the Python worker; and that worker in the arbitrary one's place.
- **Dataset fetch** (`FetchLock`, `FetchLockExclusion`, `FetchRows`): the lock-file protocol under crashes and stale
  takeover, the paging loops, and the rule that lets a cache stand in for a fetch.
- **Agent loop** (`ToolCalls`, `ToolTranscript`, `ToolBatch`, `AgentLoop`, `AgentRuns`, `AgentTrace`): the turn loop with
  its budgets, the rewriting of tool calls, the in-place correction of the transcript and the streak of blocked outputs.
- **Stream and transcript** (`StreamTranslator`, `StreamFaithful`, `StreamFields`, `TranscriptBlocks`,
  `TranscriptFaithful`, `TranscriptParts`, `TranscriptStreaming`): the event translator and the grouping of a message's parts into blocks.
- **Registry, planner, prompt, report** (`PendingAsks`, `PendingAskRuns`, `PendingAskRegistry`, `MemoryDedupe`,
  `DedupeKeys`, `DedupeFixpoint`, `DedupeContents`, `PromptGeometry`, `PromptKeys`, `PooledCounts`, `PooledReport`,
  `WilsonInterval`).

Code that changes things step by step is a class or a method with a loop, proved equal to a function of the old state; the
theorems are lemmas about those functions. Services outside the code (models, routers, clocks, JSON, files, backends) are
arbitrary function parameters. `dafny verify dfyconfig.toml` checks everything.

Where the code does not meet what its documentation or a caller would expect, the model follows the code, and lemmas
give the failing input and the condition under which it does:

- Greedy matching can reject calls that do correspond (`CallMatching.OverlappingExpectations`); it is complete for every
  choice of calls from two pools exactly when the match sets of any two expected calls are equal or disjoint
  (`GreedyCorrectness.CompleteIffEqualOrDisjoint`).
- A worker error with an empty message loses its request: it leaves `pending` and never settles
  (`WorkerProtocol.UnreadableLosesRequest`). The worker sends such a report exactly when a backend method raises with an
  empty text, or a backend cannot be created and the exception's text is empty (`StatefulWorkerRuns.EmptyMessageIff`);
  nothing else loses a request (`JoinedWorker.LostOnlyByEmptyText`).
- After a failed `init_task` the worker takes snapshots and calls exactly if it did before: a later start that fails
  leaves it serving a half-built set of instances (`StatefulWorkerRuns.FailedStartIff`,
  `StatefulWorkerRuns.FailedStartResolves`).
- The fetch lock is exclusive exactly when no process dies between creating and writing the lock file, and either removal
  is atomic with its check or no owner dies (`FetchLockExclusion.ExclusiveIffSound`).
- A page shorter than requested ends the paging loop, so a server cap below the page size truncates the dataset
  (`FetchRows.FetchCompleteIff`).
- Calls that share an id are recorded as the first of them when it is corrected a second time
  (`ToolTranscript.SharedIdMisrecords`, `ToolTranscript.RecordedIsExecutedIff`).
- Text parts that overlap on a channel are attributed to the last one started (`StreamFaithful.OverlapMisattributes`,
  `StreamFaithful.DeltaUnderOwnIdIff`).
- The pump's comment also announces an assistant message at the end of a step in which a text part closed; the code emits
  one at `finish` only, so the comment is true of a stream exactly when no step ends after a text part closed in it
  (`StreamFaithful.CommentMetIff`, `StreamFaithful.StepEndsSilently`).
- Records of two tiers, such as `a` and `a:`, can share a dedupe bucket: exactly when one tier's key prefix continues to
  the other's like a normalized content (`DedupeKeys.TiersClashIff`).
- Asks of two sessions, such as `a` and `a::b`, can share a key: exactly when one session id with its colons goes on from
  the other's and the ask ids make up the difference (`PendingAskRuns.KeysMeetIff`).
- The redrawn prompt's cursor is off by one row for each help line that exactly fills its rows
  (`PromptGeometry.CursorRestoredIff`).

## Model

| member | source | states |
|---|---|---|
| TopLevelScan.TopLevelSeparatorIndex | benchmarks/src/scorers/bfcl-v4-ast.ts:724-752 | The scanning loop finds the first separator outside quotes and brackets, or none |
| TopLevelScan.ExposedIff | benchmarks/src/scorers/bfcl-v4-ast.ts:700-712 | Without quotes before it a separator splits exactly where as many of the three kinds of brackets have closed as opened |
| TopLevelScan.QuoteEnds | benchmarks/src/scorers/bfcl-v4-ast.ts:693-703 | A text between two equal quote marks is skipped, marks after a backslash included |
| TopLevelScan.SplitTopLevel | benchmarks/src/scorers/bfcl-v4-ast.ts:687-722 | The one-pass loop equals splitting recursively at each top-level comma, trimming, and dropping an empty last item |
| TopLevelScan.JoinPieces | benchmarks/src/scorers/bfcl-v4-ast.ts:687-722 | Joining the untrimmed pieces with commas gives back the input: splitting loses nothing |
| TopLevelScan.SplitJoin | benchmarks/src/scorers/bfcl-v4-ast.ts:687-722 | Splitting inverts joining for trimmed items closed in quotes and depth, exactly when the last item is not empty |
| JsLiteralRoundTrip.RoundTrip | benchmarks/src/scorers/bfcl-v4-ast.ts:657-685 | For every tree of integers, booleans, strings, arrays and string-keyed records, in every spelling of the grammar, reading the printed literal gives the tree back |
| JsLiteralRoundTrip.PaddedRoundTrip | benchmarks/src/scorers/bfcl-v4-ast.ts:588-685 | The same under any padding, and through the array and dict conversions |
| JsLiteralRoundTrip.TypedRoundTrip | benchmarks/src/scorers/bfcl-v4-ast.ts:588-619 | The same for scalars read under their declared type |
| JsLiteralRoundTrip.NewArrayRoundTrip | benchmarks/src/scorers/bfcl-v4-ast.ts:621-632 | The constructor spelling of an array reads like the bracket spelling |
| JsLiteralRoundTrip.ListRoundTrip | benchmarks/src/scorers/bfcl-v4-ast.ts:621-632 | A printed array body of valid items reads back as the items' values in order |
| JsLiteralRoundTrip.RecordRoundTrip | benchmarks/src/scorers/bfcl-v4-ast.ts:634-655 | A printed record reads back with the last value given to each key |
| JsLiteralRoundTrip.PairSplit | benchmarks/src/scorers/bfcl-v4-ast.ts:634-655 | The first top-level colon of a printed pair is its own, whatever key and value contain |
| JsLiteralRoundTrip.FieldsKeys | benchmarks/src/scorers/bfcl-v4-ast.ts:634-655 | A record literal keeps exactly the keys it spells other than `__proto__` |
| JsLiteralRoundTrip.SpellingDeterminesMeaning | benchmarks/src/scorers/bfcl-v4-ast.ts:588-759 | The literal grammar is unambiguous: one spelling denotes one value |
| JsLiteralRoundTrip.DeclaredItems | benchmarks/src/scorers/bfcl-v4-ast.ts:621-632 | An array with a declared item type is read item by item under that type |
| JsLiteralRoundTrip.DeclaredListRoundTrip | benchmarks/src/scorers/bfcl-v4-ast.ts:588-632 | With items spelled in their declared type it denotes what it spells |
| JsLiteralRoundTrip.PlainStringValid | benchmarks/src/scorers/bfcl-v4-ast.ts:754-759 | Every one-line string without the quote mark or a backslash can be written between that mark |
| JsTexts.ScalarIs | benchmarks/src/scorers/bfcl-v4-ast.ts:657-685 | Any scalar text reads as what it is: a truth value, a bracketed list or record, quoted text, an integer, a fraction, or else itself |
| JsTexts.UnreadableStays | benchmarks/src/scorers/bfcl-v4-ast.ts:588-619 | Under a declared type a text not written that way stays as it is |
| JsTexts.ArrayTextIff | benchmarks/src/scorers/bfcl-v4-ast.ts:621-627 | Exactly texts in brackets, or in the constructor's spelling of them, on one line are arrays |
| JsTexts.BadRecordStays | benchmarks/src/scorers/bfcl-v4-ast.ts:634-655 | One field without a separator, or with a key neither quoted nor a name, and the whole record stays text |
| JsTexts.QuotesIff | benchmarks/src/scorers/bfcl-v4-ast.ts:754-760 | Quotes are stripped exactly between two equal marks, a lone mark counting as an empty pair |
| JsTexts.IntegerIs | benchmarks/src/scorers/bfcl-v4-ast.ts:675-680 | A numeral reads as the number it denotes up to 2^53 - 1 and is not held to be exact beyond |
| JsLiterals.ReadJsArray | benchmarks/src/scorers/bfcl-v4-ast.ts:621-632 | The array-reading code computes the specified parse |
| JsLiterals.ReadJsObject | benchmarks/src/scorers/bfcl-v4-ast.ts:634-655 | The record-filling loop computes the specified parse, including the inputs it rejects |
| GreedyMatching.MatchCallsUnordered | benchmarks/src/scorers/bfcl-v4-ast.ts:228-248 | The loop over a growing set of used positions refines taking the first match off the list of free calls |
| GreedyCorrectness.GreedySound | benchmarks/src/scorers/bfcl-v4-ast.ts:228-248 | A true answer has a one-to-one pairing of expected and actual calls that match |
| GreedyCorrectness.GreedyCorrect | benchmarks/src/scorers/bfcl-v4-ast.ts:228-248 | With match sets equal or disjoint, the answer is true if and only if such a pairing exists |
| GreedyCorrectness.GreedyOrderFree | benchmarks/src/scorers/bfcl-v4-ast.ts:228-248 | Then the answer is the same for every permutation of both lists |
| GreedyCorrectness.CompleteIffEqualOrDisjoint | benchmarks/src/scorers/bfcl-v4-ast.ts:228-248 | Over two pools of calls, greedy matching misses no pairing if and only if match sets are equal or disjoint |
| CallMatching.DistinctNamesScoredExactly | benchmarks/src/scorers/bfcl-v4-ast.ts:228-290 | Expected calls that are equal or have different names are scored exactly, in any order |
| ValueMatching.StringsMatchIff | benchmarks/src/scorers/bfcl-v4-ast.ts:365-370 | Two strings are the same to the scorer if and only if, separators aside, they agree letter by letter up to case and kind of quotes |
| ValueMatching.EquivalentIff | benchmarks/src/scorers/bfcl-v4-ast.ts:307-370 | For all values, an actual one satisfies an expected one if and only if it is like a reading of it, in which lists inside records may give way to one of their items |
| ValueMatching.RefusedIff | benchmarks/src/scorers/bfcl-v4-ast.ts:250-305 | A call is refused if and only if its name differs, it has an unexpected argument, it lacks one that is not optional, or a value is right by none of the allowed ones |
| ValueMatching.LiteralsAreScored | benchmarks/src/scorers/bfcl-v4-ast.ts:426-467 | In JavaScript a declared argument spelled as a literal is scored as the value it denotes |
| CallMatching.OverlappingExpectations | benchmarks/src/scorers/bfcl-v4-ast.ts:228-290 | A concrete correct pair of calls is rejected in one order of expectations and accepted in the other |
| StatefulRuntime.ChunkingInvariant | benchmarks/src/runtime/bfcl-stateful-runtime.ts:256-280 | Two ways of cutting a stream within the limit leave the same session, when no error report is unreadable |
| StatefulRuntime.ChunkingFreeIff | benchmarks/src/runtime/bfcl-stateful-runtime.ts:256-280 | Chunking is invisible if and only if draining is never interrupted with lines left |
| StatefulRuntime.LinesRestore | benchmarks/src/runtime/bfcl-stateful-runtime.ts:269-279 | The complete lines and the newline-free remainder are the whole stream |
| StatefulRuntime.DrainHandlesLines | benchmarks/src/runtime/bfcl-stateful-runtime.ts:269-279 | An uninterrupted drain handles exactly the non-blank complete lines in order and keeps the remainder |
| RuntimeSession.BfclStatefulRuntimeSession.SendCommand | benchmarks/src/runtime/bfcl-stateful-runtime.ts:223-254 | A command is refused exactly after a terminal error or close; otherwise it gets the next id, joins the pending requests and has its timeout armed |
| RuntimeSession.BfclStatefulRuntimeSession.RejectAllPending | benchmarks/src/runtime/bfcl-stateful-runtime.ts:393-400 | Every pending request is rejected once and its timer cleared |
| RuntimeSession.BfclStatefulRuntimeSession.Fail | benchmarks/src/runtime/bfcl-stateful-runtime.ts:388-391 | The first terminal error sticks, every waiting request is rejected once and in order, and from then on commands are refused |
| RuntimeSession.BfclStatefulRuntimeSession.HandleWorkerLine | benchmarks/src/runtime/bfcl-stateful-runtime.ts:282-332 | An object touches at most the request it names, and throws exactly when that request leaves `pending` unsettled; a greeting, and no other object, makes a waiting start succeed; any other line ends the session |
| RuntimeSession.BfclStatefulRuntimeSession.HandleStdout | benchmarks/src/runtime/bfcl-stateful-runtime.ts:256-280 | The draining loop, with its early exit on a throw, computes the specified new session; beyond the limit nothing is read and everything that waits is rejected |
| RuntimeSession.BfclStatefulRuntimeSession.HandleStderr | benchmarks/src/runtime/bfcl-stateful-runtime.ts:334-345 | Within its own limit error output leaves every request alone; beyond it the session fails and rejects all of them |
| RuntimeSession.BfclStatefulRuntimeSession.OnCommandTimeout | benchmarks/src/runtime/bfcl-stateful-runtime.ts:237-246 | A timeout rejects its own request, leaves every other one waiting with its timer, and kills the child without a terminal error |
| RuntimeSession.BfclStatefulRuntimeSession.OnIdleTimeout | benchmarks/src/runtime/bfcl-stateful-runtime.ts:360-375 | Idling rejects everything pending, in order, and kills the child without a terminal error |
| WorkerProtocol.EveryRun | benchmarks/src/runtime/bfcl-stateful-runtime.ts:223-400 | On every interleaving ids are fresh, a request settles at most once and only when it leaves `pending`, what resolves request i is an answer the worker gave to command i after the earlier commands and before any of them stopped it, and after a terminal error nothing is pending |
| WorkerProtocol.StepInv | benchmarks/src/runtime/bfcl-stateful-runtime.ts:223-400 | Every step of session, worker, pipe, timer and crash keeps the protocol invariant |
| WorkerProtocol.PendingOrSettled | benchmarks/src/runtime/bfcl-stateful-runtime.ts:310-331 | With readable error reports no request is lost: each is pending or settled |
| WorkerProtocol.RemovalSettles | benchmarks/src/runtime/bfcl-stateful-runtime.ts:310-331 | A message that removes a request settles it if and only if it is not an unreadable error report |
| WorkerProtocol.UnreadableLosesRequest | benchmarks/src/runtime/bfcl-stateful-runtime.ts:318-328 | A run in which an error report without a message leaves its request neither pending nor settled |
| WorkerLife.StartupIs | benchmarks/src/runtime/bfcl-stateful-runtime.ts:153-190 | On every run the start has succeeded if and only if a greeting was handled before everything was first rejected, failed if and only if it was the other way round, and waits if and only if neither happened |
| WorkerLife.StartupIsFinal | benchmarks/src/runtime/bfcl-stateful-runtime.ts:153-190 | Once the start has succeeded or failed, nothing changes that |
| WorkerLife.EndIs | benchmarks/src/runtime/bfcl-stateful-runtime.ts:208-412 | On every run the terminal error is the first lasting reason to fail, the session is closed if and only if a close was due, the child is killed if and only if a lasting failure, a timeout or a close came, and every rejection that the worker did not report has its own timeout or a reason that occurred |
| WorkerLife.NoneWaitsUntimed | benchmarks/src/runtime/bfcl-stateful-runtime.ts:223-254 | On every run, until a close, no request waits without a timer |
| WorkerLife.ThrowsIff | benchmarks/src/runtime/bfcl-stateful-runtime.ts:282-332 | Handling a message throws if and only if its request stops waiting and is left unsettled |
| StatefulWorker.BfclStatefulWorker.RefreshMethodMapping | benchmarks/scripts/bfcl-stateful-worker.py:223-242 | The nested loops fill the two tables with the methods of one owner and of several owners |
| StatefulWorker.BfclStatefulWorker.InitTask | benchmarks/scripts/bfcl-stateful-worker.py:85-110 | Creating instances one by one computes the specified state, also when a creation fails midway |
| StatefulWorker.BfclStatefulWorker.CallTool | benchmarks/scripts/bfcl-stateful-worker.py:112-140 | A call changes at most one backend and no table, nothing before a start, and on success reports the state it leaves |
| StatefulWorker.BfclStatefulWorker.HandleLine | benchmarks/scripts/bfcl-stateful-worker.py:326-359 | A line gets one response, under its own id, and only a close command ends the loop and resets the worker |
| StatefulWorkerRuns.BareNameIff | benchmarks/scripts/bfcl-stateful-worker.py:244-296 | A bare method name resolves exactly when one active class offers it, is ambiguous exactly when several do, and missing exactly when none does |
| StatefulWorkerRuns.QualifiedReachesEveryOwner | benchmarks/scripts/bfcl-stateful-worker.py:244-276 | Every class that offers a method can be reached by the qualified name |
| StatefulWorkerRuns.ResolvedIsActive | benchmarks/scripts/bfcl-stateful-worker.py:112-118 | In every reachable state a name resolves only to an active instance |
| WorkerCommands.QualifiedIs | benchmarks/scripts/bfcl-stateful-worker.py:244-276 | A qualified name is refused for its method's spelling, then its class's, then for want of an active class or of the method, each under its own error; any other resolves |
| WorkerCommands.BareIs | benchmarks/scripts/bfcl-stateful-worker.py:244-296 | So is a bare name, which otherwise is looked up among the methods of one owner and of several |
| WorkerCommands.PathRefused | benchmarks/scripts/bfcl-stateful-worker.py:244-252 | A name with two dots or more is refused |
| WorkerCommands.IdentifierIff | benchmarks/scripts/bfcl-stateful-worker.py:397-403 | An identifier is a letter with letters, digits and underscores after it, and at most one final line break |
| WorkerCommands.SkippedIff | benchmarks/scripts/bfcl-stateful-worker.py:316-320 | A line is skipped exactly if every character is white space in Python |
| WorkerCommands.OwnersAre | benchmarks/scripts/bfcl-stateful-worker.py:223-242 | A class owns the names it lists that do not begin with an underscore and can be called; owners keep the order of activation |
| StatefulWorkerRuns.ServesInOrder | benchmarks/scripts/bfcl-stateful-worker.py:306-359 | For any input the worker answers exactly the lines that are not blank, one response each, in order and under the own id, up to the first close command and no further |
| StatefulWorkerRuns.AnswerIgnoresId | benchmarks/scripts/bfcl-stateful-worker.py:326-348 | What a command does and answers does not depend on its id, which comes back as sent |
| WorkerCommands.ObeyIs | benchmarks/scripts/bfcl-stateful-worker.py:326-348 | A command is obeyed by its type, and refused for want of one or for an unknown one; a snapshot shows task and state and changes nothing |
| WorkerCommands.InitRefused | benchmarks/scripts/bfcl-stateful-worker.py:85-95 | A start is refused for the first of its fields that is wrong and then changes nothing |
| WorkerCommands.InitDone | benchmarks/scripts/bfcl-stateful-worker.py:85-110 | A start with right fields creates its classes in order with its own configuration; it is ready with exactly them, or reports the first failure and keeps those before |
| WorkerCommands.CallRefused | benchmarks/scripts/bfcl-stateful-worker.py:112-118 | A call is refused for the first thing wrong with it and then reaches no backend |
| WorkerCommands.CallReaches | benchmarks/scripts/bfcl-stateful-worker.py:112-140 | A call that resolves runs the method on its instance with its arguments, keeps the state it leaves, and reports its value with that state, or its error under the type of its kind |
| StatefulWorkerRuns.CallChangesOne | benchmarks/scripts/bfcl-stateful-worker.py:112-140 | A call changes at most the backend it reached, and nothing when it reaches none |
| StatefulWorkerRuns.FailedStartIff | benchmarks/scripts/bfcl-stateful-worker.py:85-110 | After a start that fails the worker takes commands if and only if it did before; a rejected header changes nothing, a failed creation empties both method tables |
| StatefulWorkerRuns.FailedStartResolves | benchmarks/scripts/bfcl-stateful-worker.py:85-110 | Then no bare name resolves, and every qualified name of an instance made so far does |
| StatefulWorkerRuns.EmptyMessageIff | benchmarks/scripts/bfcl-stateful-worker.py:112-133 | An error report is empty if and only if a backend method raised with an empty text, or creating a backend did |
| StatefulWorkerRuns.ErrorsAreTyped | benchmarks/scripts/bfcl-stateful-worker.py:326-359 | Every error report names an error type, for any command in any state |
| JoinedWorker.ServesReplies | benchmarks/scripts/bfcl-stateful-worker.py:306-359 | Fed the commands the session writes, the worker answers the k-th under its id with the reply that the protocol assumes, up to the one that stops it |
| JoinedWorker.JoinedRun | benchmarks/src/runtime/bfcl-stateful-runtime.ts:223-400 | On every interleaving of the session with this worker a request settles at most once, and by the response to its own command line or a local failure |
| JoinedWorker.UnreadableIff | benchmarks/src/runtime/bfcl-stateful-runtime.ts:310-331 | The session cannot read the answer to command i if and only if a backend raised with an empty text while serving it |
| JoinedWorker.LostOnlyByEmptyText | benchmarks/src/runtime/bfcl-stateful-runtime.ts:310-331 | Nothing else, in any run, leaves a request neither pending nor settled |
| FetchLockExclusion.StepInv | benchmarks/scripts/fetch-benchmark.ts:270-399 | Every step of creation, heartbeat, takeover, release and allowed crash keeps the lock invariant |
| FetchLockExclusion.InvExclusive | benchmarks/scripts/fetch-benchmark.ts:270-309 | The invariant gives mutual exclusion, with the holder's nonce in the file |
| FetchLockExclusion.LiveLockUntouched | benchmarks/scripts/fetch-benchmark.ts:311-399 | No step of another process removes or replaces the lock of a live owner |
| FetchLockExclusion.TakeoverIff | benchmarks/scripts/fetch-benchmark.ts:311-332 | A process condemns a lock if and only if both of its times are more than half an hour back, or its body names a dead process; otherwise it leaves everything alone |
| FetchLockExclusion.TakeoverSucceeds | benchmarks/scripts/fetch-benchmark.ts:270-384 | A process that condemns a lock and meets nobody on the way removes it and ends up holding its own |
| FetchLockExclusion.TornLockBreaksExclusion | benchmarks/scripts/fetch-benchmark.ts:311-332 | A crash between creating and writing the lock file lets two processes in |
| FetchLockExclusion.SplitReleaseBreaksExclusion | benchmarks/scripts/fetch-benchmark.ts:311-384 | With crashes of owners and a check separate from the removal, two processes get in |
| FetchLockExclusion.ExclusiveIffSound | benchmarks/scripts/fetch-benchmark.ts:270-399 | Over all runs, exclusion holds if and only if neither of those two situations is allowed |
| FetchRows.FetchAllRows | benchmarks/scripts/fetch-benchmark.ts:464-511 | The paging loop returns a prefix of the source whose length is known from server cap, page size and target |
| FetchRows.FetchCompleteIff | benchmarks/scripts/fetch-benchmark.ts:464-511 | That prefix is the whole of what was asked for if and only if no page is cut short |
| FetchRows.FetchBfclRows | benchmarks/scripts/fetch-benchmark.ts:545-609 | The nested loops return the first rows of the concatenated categories, up to the limit |
| FetchRows.CacheAgreesWithFetch | benchmarks/scripts/fetch-benchmark.ts:979-998 | Whenever the cache satisfies a request, a fresh fetch would return a prefix of the cached rows |
| FetchRows.OwnCacheHitsIff | benchmarks/scripts/fetch-benchmark.ts:979-998 | What a fetch cached satisfies the same request again if and only if the fetch got all that was asked for |
| FetchRows.CacheCovers | benchmarks/scripts/fetch-benchmark.ts:979-998 | A cache that satisfies a limit satisfies smaller ones, an unlimited one exactly those it has rows for, and a limited one no unlimited request |
| ToolCalls.RewriteIdempotent | packages/agent-core/src/loop-tool-calls.ts:164-232 | Tier and identity rewriting together are idempotent and touch no other field or argument |
| ToolTranscript.TierIs | packages/agent-core/src/loop-tool-calls.ts:203-232 | A memory store under any scope has its two legacy tiers renamed, and any other tier of a call stays, unless it names a member of every object |
| ToolTranscript.ContentIs | packages/agent-core/src/loop-tool-calls.ts:164-201 | A stored content that gives the assistant's name to the user becomes the note of both names, and nothing else is corrected |
| ToolCalls.ReplacedAt | packages/agent-core/src/loop-tool-calls.ts:234-258 | Of the messages carrying an id only the last changes |
| ToolCalls.Transcript.ReplaceAssistantToolCall | packages/agent-core/src/loop-tool-calls.ts:234-258 | The backward scan updates the shared transcript in place accordingly |
| ToolCalls.Execute | packages/agent-core/src/loop-tool-calls.ts:340-565 | Executing a batch in place yields the specified transcript, streak, completed calls and reason to stop |
| ToolTranscript.ExecutesRewritten | packages/agent-core/src/loop-tool-calls.ts:340-378 | The second rewriting leaves the calls to execute as they are and only re-records the corrected ones |
| ToolTranscript.RecordedIsExecutedIff | packages/agent-core/src/loop-tool-calls.ts:361-378 | The transcript records the executed calls if and only if no different call precedes a call under a corrected id |
| ToolTranscript.SharedIdMisrecords | packages/agent-core/src/loop-tool-calls.ts:361-378 | For a concrete user message, two calls under one id, one of them corrected, are recorded as one call twice |
| ToolTranscript.BatchAnswers | packages/agent-core/src/loop-tool-calls.ts:380-562 | A batch answers a prefix of its calls in order, and all of them unless it stops |
| ToolBatch.BatchExplained | packages/agent-core/src/loop-tool-calls.ts:380-565 | Each result is the redacted scan of what its call produced at that moment of the transcript, blocked if and only if the call was refused or the scan reports a blocked threat; and the batch stops for the reason it gives |
| ToolTranscript.RefusedNeverRuns | packages/agent-core/src/loop-tool-calls.ts:390-419 | A call that the verifier refuses never reaches the router, and counts as blocked |
| ToolTranscript.RawOutputHidden | packages/agent-core/src/loop-tool-calls.ts:434-508 | Two routers whose outputs look alike once scanned and redacted give the same batch: raw output reaches neither transcript, streak nor outcome |
| ToolTranscript.LatestUserIs | packages/agent-core/src/loop-tool-calls.ts:153-162 | The identity guard reads the last user message |
| ToolTranscript.StreakExact | packages/agent-core/src/loop-tool-calls.ts:501-561 | The counter is the length of the blocked suffix over all results so far, and the abort comes at exactly the first third in a row |
| AgentLoop.RunAgentLoop | packages/agent-core/src/loop.ts:53-517 | The turn loop over its mutable variables and shared transcript computes the specified run |
| AgentRuns.LoopBudgets | packages/agent-core/src/loop.ts:113-330 | Every run makes at most max(0, maxTurns - initial count) model calls, exactly that many when turns run out, and none once summed usage exceeds the token budget |
| AgentRuns.DefaultBudgets | packages/agent-core/src/loop.ts:72-76 | Without limits of its own a run makes at most 50 model calls, and none beyond 200,000 tokens |
| AgentRuns.RunCallBound | packages/agent-core/src/loop.ts:113-117 | From any state on, a run makes at most one model call for each turn that is left |
| AgentRuns.LoopStreak | packages/agent-core/src/loop-tool-calls.ts:501-561 | Across turns, the run aborts for blocked outputs exactly at the first third in a row |
| AgentRuns.LoopTranscript | packages/agent-core/src/loop.ts:417-498 | At every model call of every run the transcript past the input is complete blocks of calls and their results in order, recording exactly the calls executed by then |
| AgentTrace.RunsAreTraced | packages/agent-core/src/loop.ts:113-498 | Every run is a chain of requests, each carrying the transcript that the reply before it and its calls left, with every result, usage and system prompt explained by the services |
| AgentTrace.EndingIff | packages/agent-core/src/loop.ts:113-421 | The run returns a content, or throws, if and only if the model's reply to the last request and the tokens spent call for it |
| AgentRuns.RunsSeeNoRawOutput | packages/agent-core/src/loop.ts:113-517 | With such a router instead, every run has the same model calls, executed calls, counters and ending |
| StreamTranslator.PumpFullStream | apps/web/lib/sse-translator.ts:116-314 | The pumping loop over its mutable state emits the specified events |
| StreamFaithful.OpenStartIs | apps/web/lib/sse-translator.ts:173-236 | The active part of a channel is the last start that no end or start follows |
| StreamFaithful.TranslationPreserves | apps/web/lib/sse-translator.ts:116-473 | For every chunk stream the browser receives the input chunk by chunk, each rewritten by its place in the stream alone |
| StreamFaithful.DeltasConcatenate | apps/web/lib/sse-translator.ts:179-192 | The text deltas sent concatenate to the assembled text |
| StreamFields.DeltaCarries | apps/web/lib/sse-translator.ts:158-192 | A delta that reaches the browser carries exactly the first of its four text fields that is present; without one, or with an empty one, nothing is sent |
| StreamFields.PartIdIs | apps/web/lib/sse-translator.ts:153-208 | A part goes out under the first of its three id fields that is present, or a name made of channel, turn and step, and the number of its step |
| StreamFields.ToolCarries | apps/web/lib/sse-translator.ts:238-276 | Tool chunks carry their own id, name, first non-null content field and error, each with its default |
| StreamFields.OthersSend | apps/web/lib/sse-translator.ts:165-304 | Steps and finishes are passed on with their reasons, starts of the stream and unknown chunks are not |
| StreamFaithful.PumpCounts | apps/web/lib/sse-translator.ts:179-250 | The counters are the numbers of non-empty text deltas and of tool calls |
| StreamFaithful.EventsAsPromised | apps/web/lib/sse-translator.ts:76-108 | Exactly the boundary events touch the activity clock, and the assistant messages are, in order, the whole text so far at each finish chunk that comes after some text |
| StreamFaithful.FinishPlacesAre | apps/web/lib/sse-translator.ts:290-304 | Those places are ascending, and exactly the finish chunks before which some text came |
| StreamFaithful.CommentMetIff | apps/web/lib/sse-translator.ts:105-108 | Messages come where the comment announces them if and only if no step ends after a text part closed in it |
| StreamFaithful.StepEndsSilently | apps/web/lib/sse-translator.ts:277-289 | A step of one text part that ends is announced to emit a message, and its stream emits none |
| StreamFaithful.SuffixInjective | apps/web/lib/sse-translator.ts:134-156 | A suffixed part id determines its base and its step |
| StreamFaithful.IdsDistinctIff | apps/web/lib/sse-translator.ts:134-156 | Start ids are unique over the turn if and only if bases are unique within each step |
| StreamFaithful.EndCarriesStartId | apps/web/lib/sse-translator.ts:193-208 | In a well-bracketed stream every end carries its start's id, even if steps began in between |
| StreamFaithful.BrowserAcceptsIff | apps/web/lib/sse-translator.ts:134-236 | A browser that refuses repeated starts and unmatched deltas or ends accepts a well-bracketed stream's translation if and only if no base is started twice within a step |
| StreamFaithful.DeltaUnderOwnIdIff | apps/web/lib/sse-translator.ts:173-236 | A delta goes out under an id of its own base if and only if the last open part was started with that base |
| StreamFaithful.OverlapMisattributes | apps/web/lib/sse-translator.ts:173-192 | With two parts open on a channel, a delta of the first goes out under the second's id |
| TranscriptBlocks.DedupeRenderableParts | apps/web/lib/transcript-blocks.ts:120-141 | The two passes over map and set keep the specified parts |
| TranscriptBlocks.BuildTranscriptBlocks | apps/web/lib/transcript-blocks.ts:143-217 | The building loop with its shared variables yields the specified blocks |
| TranscriptFaithful.KeepsIff | apps/web/lib/transcript-blocks.ts:120-141 | A part is kept if and only if it bears no id or is the first part of a known tool under its id, or the first part if there is none |
| TranscriptFaithful.BuildLosesNothing | apps/web/lib/transcript-blocks.ts:143-217 | Flattening the blocks to characters and parts gives the deduplicated renderable parts in order |
| TranscriptFaithful.BuildIsTidy | apps/web/lib/transcript-blocks.ts:143-217 | No block is empty, no two text blocks touch, touching tool groups differ in name, and each id carries its block's number among the blocks of its kind, so that all ids differ |
| TranscriptParts.TextBecomes | apps/web/lib/transcript-blocks.ts:163-184 | A text part becomes prose, and nothing when it is empty or has no text |
| TranscriptParts.ReasoningBecomes | apps/web/lib/transcript-blocks.ts:197-200 | A reasoning part becomes a thought |
| TranscriptParts.TalkBecomes | apps/web/lib/transcript-blocks.ts:101-106 | A question, an approval and an aside become an interaction of that kind with their data, or an empty object for want of it |
| TranscriptParts.ToolBecomes | apps/web/lib/transcript-blocks.ts:108-111 | A tool part becomes a group under its tool name, or else under what its kind says |
| TranscriptParts.ShowsIff | apps/web/lib/transcript-blocks.ts:178-213 | Every other part, and only such a part, shows nothing |
| TranscriptParts.CompetesIff | apps/web/lib/transcript-blocks.ts:93-118 | Exactly a tool part with a call id that is not empty competes with others under that id |
| TranscriptParts.OneOfTwo | apps/web/lib/transcript-blocks.ts:120-141 | Of two tool parts under one id the first stays, unless it is dynamic and the second is not |
| TranscriptStreaming.DedupeGrowsIff | apps/web/lib/transcript-blocks.ts:120-141 | A new part keeps everything kept so far if and only if it does not supersede an earlier dynamic tool part |
| TranscriptStreaming.StreamingIsStable | apps/web/lib/transcript-blocks.ts:143-217 | However many such parts arrive, every block but the last is unchanged, the last only grows, and the old ids are a prefix of the new |
| TranscriptStreaming.GrowingTextIsStable | apps/web/lib/transcript-blocks.ts:143-217 | The same while the text of the last part grows in place |
| PendingAsks.Oldest | apps/web/lib/pending-asks.ts:95-110 | Eviction picks the first of the asks registered earliest |
| PendingAskRuns.RunInv | apps/web/lib/pending-asks.ts:88-165 | Over every run with distinct tokens at most 1000 asks wait on distinct keys, and every ask waits, or was resolved once, or lost its key to a later one |
| PendingAskRuns.NewAskWaits | apps/web/lib/pending-asks.ts:88-135 | A new ask waits, timed if and only if a positive timeout was given, and displaces only the evicted ask and the holder of its key |
| PendingAskRuns.EvictionFair | apps/web/lib/pending-asks.ts:95-110 | Eviction resolves exactly the first oldest ask, a decision with a denial for timeout, a question with an empty timeout answer |
| PendingAskRuns.TimerResolvesItsOwn | apps/web/lib/pending-asks.ts:113-123 | A timer resolves its own ask, in the same way, or nothing, never a successor under the key |
| PendingAskRuns.ReplyNeedsToken | apps/web/lib/pending-asks.ts:150-165 | A reply is accepted if and only if an ask waits under that key with that token, and resolves that ask |
| PendingAskRuns.LostForGood | apps/web/lib/pending-asks.ts:88-165 | An ask that neither waits nor was resolved at some point of a run is not resolved by anything that follows |
| PendingAskRuns.KeysMeetIff | apps/web/lib/pending-asks.ts:62-64 | Two asks share a key if and only if the longer session id, with its colons, goes on from the shorter one's and the ask ids make up the difference |
| PendingAskRuns.ColonFreeSessionsApart | apps/web/lib/pending-asks.ts:62-64 | Under session ids without colons a key is one session and one ask |
| PendingAskRegistry.AskRegistry.RegisterAsk | apps/web/lib/pending-asks.ts:88-135 | A new ask waits under its key and token, timed if and only if a positive timeout was given; only when the map is full is another resolved, the first oldest |
| PendingAskRegistry.AskRegistry.ResolveAsk | apps/web/lib/pending-asks.ts:150-165 | A reply is taken if and only if an ask waits under that key with that token; then that ask alone stops waiting, and otherwise nothing changes |
| PendingAskRegistry.AskRegistry.OnTimeout | apps/web/lib/pending-asks.ts:113-123 | A timer resolves the ask it was armed for if that still waits, and leaves all others |
| MemoryDedupe.FillBuckets | apps/web/lib/memory-dedupe.ts:101-112 | The bucket map holds, per key in order of first occurrence, the indices of its records in order |
| MemoryDedupe.BuildDedupePlan | apps/web/lib/memory-dedupe.ts:100-136 | The loops over buckets, totals and groups compute the specified plan |
| DedupeFixpoint.KeeperIsFirst | apps/web/lib/memory-dedupe.ts:65-88 | The keeper precedes every other record of its class by time, then by place |
| DedupeFixpoint.DeletesIff | apps/web/lib/memory-dedupe.ts:100-136 | With distinct ids the plan deletes exactly the records that are not keepers |
| DedupeFixpoint.StaysIff | apps/web/lib/memory-dedupe.ts:100-136 | With distinct ids a record stays if and only if its content is blank or it is its class's keeper |
| DedupeFixpoint.PlanSorted | apps/web/lib/memory-dedupe.ts:131-133 | The groups are a rearrangement of the buckets' groups, the largest first |
| DedupeFixpoint.GroupNamesKeeper | apps/web/lib/memory-dedupe.ts:117-129 | Every group deletes something and names a record that stays, with its tier and normalized content |
| DedupeFixpoint.OneRecordPerClass | apps/web/lib/memory-dedupe.ts:100-136 | Applying it leaves one record a class, its minimum by time and then place, and loses no class |
| DedupeFixpoint.DeletesWhatItAnnounced | apps/web/lib/memory-dedupe.ts:114-135 | Applying it removes exactly `totalDelete` records and keeps one for each of `totalKeep` groups |
| DedupeFixpoint.PlanIsFixpoint | apps/web/lib/memory-dedupe.ts:100-136 | Planning again afterwards yields an empty plan |
| DedupeContents.NormalizedIsWords | apps/web/lib/memory-dedupe.ts:50-52 | Normalized content is the words of the content with single spaces between them |
| DedupeContents.SameContentIff | apps/web/lib/memory-dedupe.ts:50-52 | Two contents normalize alike if and only if they have the same words in the same order |
| DedupeContents.MattersIff | apps/web/lib/memory-dedupe.ts:102-104 | A record takes part if and only if its content has a word |
| DedupeContents.DeletesDuplicates | apps/web/lib/memory-dedupe.ts:65-136 | With distinct ids a record is deleted if and only if another has its tier and words under one label and an earlier time, any time before none, or the same time and an earlier place |
| DedupeKeys.NormalizeFixesIff | apps/web/lib/memory-dedupe.ts:50-52 | Normalizing is idempotent: it leaves alone exactly the texts with single spaces between words |
| DedupeKeys.TiersClashIff | apps/web/lib/memory-dedupe.ts:105 | Two tiers can share a bucket key if and only if one's prefix continues to the other's like a normalized content |
| DedupeKeys.KeyIsTierAndContent | apps/web/lib/memory-dedupe.ts:105 | Otherwise a key is one tier and one normalized content |
| DedupeKeys.ColonFreeTiersApart | apps/web/lib/memory-dedupe.ts:105 | Tiers without a colon never share keys |
| PromptGeometry.MeasureDisplayPosition | packages/agent-core/src/repl.ts:2016-2038 | The counting loop computes the screen position step by step |
| PromptGeometry.MeasureDisplayRows | packages/agent-core/src/repl.ts:2040-2051 | The summing loop counts the rows of the lines |
| PromptGeometry.BlockRows | packages/agent-core/src/repl.ts:2016-2051 | For any help over any prompt the two measures differ by exactly the number of help lines that fill their rows |
| PromptGeometry.CursorRestoredIff | packages/agent-core/src/repl.ts:2209-2242 | The cursor returns to its character if and only if no help line fills its rows |
| PromptGeometry.SlashCommandInputTracker.ApplyKeypress | packages/agent-core/src/repl.ts:2126-2206 | Splicing the buffer and moving the index equals the zipper's step, for every key |
| PromptGeometry.Type | packages/agent-core/src/repl.ts:2107-2207 | After any key sequence the tracker is the before/after zipper of those keys |
| PromptKeys.MovesKeepTheLine | packages/agent-core/src/repl.ts:2153-2195 | The moving keys keep the line and put the cursor one place or all the way to either side |
| PromptKeys.ErasesAtTheCursor | packages/agent-core/src/repl.ts:2138-2203 | The erasing keys take the character before or behind the cursor, everything on one side of it, or the line |
| PromptKeys.InsertsAtTheCursor | packages/agent-core/src/repl.ts:2171-2178 | Any other plain key inserts what it types at the cursor and steps over it |
| PromptKeys.ModifiedKeysIgnored | packages/agent-core/src/repl.ts:2132-2135 | With meta, or with control and none of the four letters, a key changes nothing |
| PromptKeys.PrintableIs | packages/agent-core/src/repl.ts:2092-2105 | What is typed is the input without the characters below 32 and 127 |
| PromptKeys.TypingIsUndone | packages/agent-core/src/repl.ts:2142-2178 | Whatever is typed into any line, as many backspaces restore line and cursor |
| PromptKeys.LineRowsAre | packages/agent-core/src/repl.ts:2046-2048 | A line takes the rows that its characters need, and one when it is empty |
| WilsonInterval.ClampsAreNoOps | scripts/bench-real-dspy.py:181-193 | Over the reals the unclamped bounds satisfy 0 <= lower <= k/n <= upper <= 1 |
| WilsonInterval.ScoreTestInverted | scripts/bench-real-dspy.py:181-193 | The interval is exactly the set of rates that lie at most z of their own standard errors from the observed rate |
| PooledCounts.ArmResult.RecordOutcome | scripts/bench-real-dspy.py:342-359 | Recording sets the category up and counts one outcome, or none without an oracle, in place |
| PooledCounts.RunSeedArm | scripts/bench-real-dspy.py:309-339 | The scoring loop computes the fold of the outcomes over the trajectories |
| PooledCounts.PooledPerCategory | scripts/bench-real-dspy.py:398-406 | The nested loops over seeds and categories compute the pooled table |
| PooledReport.OracleIff | scripts/bench-real-dspy.py:140-178 | A trajectory is scored if and only if its expected text has three token characters in a row |
| PooledReport.TokenCharacterIff | scripts/bench-real-dspy.py:140 | A token character is an ASCII letter or digit or a code point from U+4E00 to U+9FFF |
| PooledReport.TokenIff | scripts/bench-real-dspy.py:140-145 | The tokens of a text are its whole runs of at least three token characters, in lower case |
| PooledReport.PassesIff | scripts/bench-real-dspy.py:148-178 | A candidate passes if and only if it has at least half of the expected tokens |
| PooledReport.ScoredCounts | scripts/bench-real-dspy.py:309-359 | The counters are the numbers of passes and failures, in all and in each category, and the categories add up |
| PooledReport.PooledCountsAll | scripts/bench-real-dspy.py:309-406 | For every arm and whatever its proposals, pooled passes plus failures are seeds times trajectories with an oracle, in each category too, and the categories sum to the pool |
| PooledReport.ArmsComparable | scripts/bench-real-dspy.py:309-406 | Two arms over as many seeds are compared on the same number of outcomes, in all and in each category |
| PooledReport.PooledInterval | scripts/bench-real-dspy.py:390-392 | The reported interval is in [0, 1] around the pooled failure rate, and says nothing exactly without seeds or oracles |

## Left out

- JSON encoding and decoding: a message is an abstract one-line text that decodes to itself; section 7 of RFC 8259 makes the worker's output one line a message. In `JoinedWorker` the worker reads back every object that the session writes.
- Processes, timers, files, hashing, the network and telemetry: abstract steps, an abstract clock and arbitrary parameters; hooks, checkpoints and run logs of the agent loop are not modelled, except as the record of calls that the theorems read.
- The Java literal parsers, floating-point literals and integers beyond 2^53 - 1: a numeral that a double does not hold exactly is kept as text, and the Java conversion is an arbitrary function.
- Case folding in `standardizeString` beyond ASCII letters, and strings as UTF-16 units: strings are sequences of code points, so display rows are exact for text in the basic multilingual plane.
- `matchCallsOrdered`: it compares position by position.
- Arguments named like members of the object prototype in scored calls; in memory tiers they are modelled.
- "Every request settles" for the worker session: `close` clears the timers of requests still pending, so only at-most-once and correlation hold.
- A throw while the session handles a worker line ends the draining and nothing more; in Node it is an uncaught exception of the `data` listener, which may end the process.
- The protocol's events are more than the runtime can produce (any order of timeouts, crashes and closings), so its theorems cover more runs than exist.
- Each read, and each re-read followed by removal or touch, of the lock file is one atomic step; the split version is the assumption the exactness theorem varies. A live process's lock is never older than the stale threshold.
- The set of callable methods of a worker backend depends on its class only; snapshots (`to_json_safe`) are an arbitrary function of the instances. Listing a class and taking a snapshot are taken not to raise.
- Assembling the outbound request (prompt segments, reasoning removal) is part of the model's arbitrary reply function; stored reasoning parts are not kept in messages.
- Router, verifier, scanner, redactor, meta verifier and the identity phrase patterns are arbitrary functions.
- AgentRuns.LoopTranscript: requires a router that echoes call ids, as `packages/agent-core/src/tools/router.ts` does, and replies in which an id names one call; without the latter, ToolTranscript.RecordedIsExecutedIff is exact.
- Events that the stream pump never emits (session events, asks, approvals, asides), and the frame text around a browser chunk.
- DedupeFixpoint.OneRecordPerClass: requires distinct record ids, since deletion is by id.
- DedupeContents.DeletesDuplicates: requires distinct record ids, for the same reason.
- Parsing dates in the dedupe planner: a record carries its parsed time or none.
- Rendering the help table and the prompt text; terminal columns are any positive number.
- The optimizer and the baseline's fixed prompts in the benchmark report: an arm is any function from trajectories to texts. The recall is a real; comparing it with one half gives the same answer in doubles.
- Rounding in the Wilson interval: it is proved over the reals, with the square root as a parameter.
- Path containment, sandboxing, schemas, React components and command handlers.
