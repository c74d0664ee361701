# AgentSLA, verified

AgentSLA is a small runtime around a tool-calling agent. Adapters drive the agent and record every
message, call and result as an event; an append-only store keeps the events; replay rebuilds the tools
from the log and runs the loop again; a policy gate and a budget decide which calls may run; a numeric
verifier judges the claims of the final answer; log triggers and a paid benchmark work on top.

This project models these mechanisms in Dafny and proves what holds over whole runs. Code that changes
state step by step is a class or a method with loops, proved against a function of its inputs or of the
old state; what the program promises is then proved about that function.

## How the modules fit together

- `Helpers`, `Text`, `CanonicalJson`, `JsonReader`, `Events`: shared facts, whitespace trimming, JSON values, the
  canonical payload and a reader of it, the four event types and their validation.
- `TraceStore`: the keyed table, rotation, the writer and the reader.
- `StubRegistry`, `Runtime`, `Recording`: recorded results as tools, hooks and tools as arbitrary
  functions of everything they were told, and how an adapter keeps its events.
- `RawLoop`, `LangGraph`, `ReplayExec`, `ReplayReports`, `StructuralReplay`: the reference loop, the adapter that
  repeats it, execution replay and its report, and hash replay.
- `ClaudeSdk`, `ClaudeSdkProperties`, `RunContents`: the message-driven adapter, its event grammar, its agreement
  with the reference loop, its runs under a policy, and what both loops record.
- `Luhn`, `PolicyGate`, `GateProperties`, `GateDecisions`: the policy gate, its runs, and each of its decisions.
- `Budget`, `BudgetProperties`, `BudgetDecisions`, `BudgetedRuns`: the budget around it, and what both leave of an
  adapter's run.
- `RangeParser`, `RangeRoundTrip`, `Claims`, `ClaimProperties`, `ClaimVerdicts`, `VerificationGate`: numeric claims
  from the text to the persisted verdict.
- `Heuristics`, `RealLlmBench`, `BenchRows`: order-dependent log triggers, the paid-call guard and the rows of a run.

Functions that methods are proved against are in turn described by what they are not made of: positions in a log, sets
of positions, the stream alone, the policy alone, sums, a reader for a printer (`ReplayReports`, `RunContents`,
`GateDecisions`, `BudgetDecisions`, `ClaimVerdicts`, `BenchRows`, `JsonReader`).

## Where the code and its documentation differ

- `max_calls_per_trace` is documented as a bound on the tool calls of a trace
  (agentsla/policy/schema.py:62-66), but the gate compares it with a counter per trace and tool.
  `TraceCapCounterexample` gives two calls that pass a cap of one, and `TraceCapBoundsTraceIff` says for
  which policies the documented bound holds.
- A recorded run is meant to replay identically. The store trims text fields and does not trim tool
  results, and it keeps tool results as JSON, so a task with surrounding whitespace, a tool text with trailing
  whitespace, and a tool that returns a tuple, which is stored as a list, replay with exit code 1.
  `RecordedRunReplays` gives the exact condition, `PaddedTaskDoesNotReplay` and `TupleDoesNotReplay` inputs.
- Rotation moves the whole live file aside, and the reader looks at the live file only, so a recorded run
  replays exactly when none of its appends rotates (`WrittenRunReplays`, `StoredRunReplays`). Two rotations
  with the same stamp, which has a resolution of one second, lose events; nothing is lost exactly when the
  stamps differ (`NothingIsLostIffStampsDiffer`, with `OneStampTwice` for an input).
- `args_hash` is meant to identify the recorded arguments. It is taken of the arguments as proposed, while
  validation trims their top-level keys, so a call with a padded key drifts without anyone changing it.
  `NoDriftIffKeysTight` gives the exact condition, `PaddedKeyDrifts` an input.
- The range pattern takes en and em dashes, and `to` without a blank on one of its sides, for separators; the
  range parser does not. Such ranges are silently dropped (`GluedToReadsNothing`, `EnDashReadsNothing`).
  `RangeReadsBack` says what every text that the pattern takes parses to, `RangeMatchMakesClaimIff` which
  matches make a claim.
- A `Trace` is documented as one run (agentsla/core/events.py:313-318), and an adapter shows one to the
  final-answer hook. The adapter never empties its events, so from its second run on the trace holds events
  of earlier ones (`ShowsOtherTracesIff`, `SecondRunShowsFirst`).
- In strict mode a drifted structural replay raises; it does not also return a report, as the docstring of
  agentsla/core/replay.py:145-148 says.
- A budget breach is meant to be an emergency. Breaches of calls, tokens and cost carry that level in every
  run exactly when the ceilings are not too small for the guards of the level computation
  (`EmergencyIffMeaningfulCeilings`).
- A retry threshold below two behaves as two (`TriggerRetryLoop`).
- With every claim as its own source, range claims are always judged incorrect, because a pair is not a
  number (`IdentityPipeline`).

## Model

| member | source | states |
|---|---|---|
| `ReplayExec.RecordedRunReplays` | agentsla/adapters/replay_exec.py:136-192 | For every task, tool list, hook decision and tool behaviour, and with any verdicts appended, the log of a run replays with exit code 0 exactly when the run was answered, its task has no surrounding whitespace, and its tool's text, trimmed at the right, is the text of what is stored of the output; then answers agree and every recorded call's hash matches. A denied run replays with 1. |
| `ReplayExec.JsonReplaysIff` | agentsla/core/events.py:140-144 | For a tool that returns a JSON value or raises, the condition on its text is that it has no trailing whitespace. |
| `ReplayExec.PaddedTaskDoesNotReplay` | agentsla/core/events.py:140-144 | The recorded run of the task ` hi` replays with exit code 1. |
| `ReplayExec.TupleDoesNotReplay` | agentsla/adapters/rawloop.py:234-254 | The recorded run of any tool that returns the tuple `(1, 2)`, which is stored as a list, replays with exit code 1. |
| `ReplayExec.ExitZeroIffReproducible` | agentsla/adapters/replay_exec.py:156-192 | For any stored log of the echo model: exit 0 exactly when there is no call and the last answer is the echo of the task, or there is exactly one call, hashed as the loop's own call, with a later result, and the last answer is the echo followed by the first such result's text. |
| `ReplayExec.StoredRunReplays` | agentsla/core/trace.py:150-175 | After the events went through the writer, under any interleaving with other traces' appends and rotations and followed by verdicts (whose numbers may start again after a rotation), the run replays with the verdict of `RecordedRunReplays` exactly when no rotation hides a part of it, and otherwise with exit code 2. |
| `ReplayExec.WrittenRunReplays` | agentsla/adapters/rawloop.py:116-120 | A run recorded through the adapter's own writer into a store that does not know its trace reads back from its last rotating append on, and replays with the verdict of `RecordedRunReplays` exactly when none of its appends rotates. |
| `ReplayExec.CutRunIsNotReplayable` | agentsla/adapters/replay_exec.py:144-160 | Any proper suffix of a recorded run, verdicts after it included, gives exit code 2. |
| `ReplayExec.FreshRunIsRead` | agentsla/core/trace.py:111-128 | What a reader sees of a run written into a store that did not know its trace is exactly the events after the last append that rotated. |
| `ReplayExec.ReachableReplay` | agentsla/adapters/replay_exec.py:144-192 | For every trace of every store that appends can produce: exit code 2 without live events, echo model or user message, 0 exactly for a reproducible log, and else 1. |
| `ReplayExec.RotatedRunIsNotFound` | agentsla/adapters/replay_exec.py:146-149 | For every list of appends, a trace is not found exactly when none of its accepted events came after the last rotation. |
| `ReplayExec.FreshEventsAccepted` | agentsla/core/trace.py:150-175 | Events numbered 0, 1, 2, ... of an unknown trace are all accepted unchanged, whether or not rotations happen in between. |
| `ReplayExec.ReplayExecution` | agentsla/adapters/replay_exec.py:136-192 | Reading, rebuilding the stubs, running the adapter and comparing gives the report that the log alone determines. |
| `ReplayReports.ReportIs` | agentsla/adapters/replay_exec.py:156-192 | Every field, for any stored log of the echo model with a user message, by positions in the log: the recorded answer is the last assistant content; without a result of an earlier call the replay echoes the first user content and calls nothing, otherwise it calls the tool of the first such result once and its answer ends with that result's text; the call matches exactly when the first recorded call is of this tool with the hash of the loop's own arguments; and the log is identical, with exit code 0, exactly when answers and counts agree. |
| `ReplayReports.RefusalIs` | agentsla/adapters/replay_exec.py:146-161 | A log without events, of another model, or without a user message is refused by this guard and noted so, with exit code 2, empty answers and counts of zero; any other log is compared. |
| `ReplayReports.PlainRunReport` | agentsla/adapters/replay_exec.py:163-192 | The report on a run without tools has the echo of the task as recorded answer and the echo of the trimmed task as replayed one. |
| `ReplayExec.AnswersAgreeIffTight` | agentsla/core/events.py:140-144 | The stored (trimmed) answer equals the answer re-run from the stored (trimmed) task exactly when the task was not trimmed and the tool's trimmed text is the one that the stored output gives. |
| `ReplayExec.SingleCallMatches` | agentsla/adapters/replay_exec.py:69-78 | In a log with one call, what gets filed first is the first later result with the call's identifier, and nothing is filed exactly when there is none. |
| `StubRegistry.FromEvents` | agentsla/adapters/replay_exec.py:69-78 | One pass files exactly the results whose call came earlier, per tool and in order, with the tools in order of first appearance. |
| `StubRegistry.StubsReplayPairedLog` | agentsla/adapters/replay_exec.py:80-91 | When each call is directly followed by its own result, calling the stubs in the recorded order repeats the recorded results in order (a result that is no error is returned as its value, an error is raised with its text, or with a fixed text when that is missing or empty), leaves every queue empty, and one more call of any tool raises. |
| `StubRegistry.MatchedPaired` | agentsla/adapters/replay_exec.py:69-78 | Appending a paired log to any log files exactly its pairs, in order, after what was filed before. |
| `Runtime.Toolbox.Invoke` | agentsla/adapters/replay_exec.py:83-89 | A stub takes the head of its tool's queue and returns or raises as recorded; on an empty queue it raises. |
| `TraceStore.ReadIsExact` | agentsla/core/trace.py:299-315 | A read gives exactly the live events of the trace, in strictly increasing sequence order. |
| `TraceStore.ReadFrame` | agentsla/core/trace.py:171-174 | An event of one trace changes neither the read nor the next sequence number of any other. |
| `TraceStore.AppendAtNextSeqReadsLast` | agentsla/core/trace.py:177-185 | An event at or above `next_seq` never violates the primary key, is read back last, and moves `next_seq` just past it. |
| `TraceStore.InterleavedRead` | agentsla/core/trace.py:150-175 | Under any interleaving of appends to many traces, rotations included, a trace whose accepted events since the last rotation come in increasing order reads back as exactly those events. |
| `TraceStore.SightOf` | agentsla/core/trace.py:111-128 | What can be read of a trace is a suffix of its accepted events, and all of them exactly when no accepted append rotates at or after the first of them. |
| `TraceStore.ReachableReadIsExact` | agentsla/core/trace.py:299-315 | In every store that appends can produce, a read gives exactly the valid events of the trace accepted since the last rotation, in increasing sequence order. |
| `TraceStore.RunKeepsFiles` | agentsla/core/trace.py:162-175 | Every table, live or set aside, holds valid events, each under its own key, after any appends. |
| `TraceStore.AppendHolds` | agentsla/core/trace.py:150-175 | An accepted append, rotating onto an unused stamp or not, adds its event to what the live and rotated files hold and removes nothing. |
| `TraceStore.AppendIs` | agentsla/core/trace.py:150-175 | An append is refused as invalid exactly when the event does not fit, as a duplicate when its key is live, and then changes nothing; else the trimmed event is added, and the file is set aside under the stamp when it is over the threshold. |
| `TraceStore.NothingIsLost` | agentsla/core/trace.py:111-128 | When the stamps of the rotations that took place differ, live and rotated files together hold exactly the accepted events. |
| `TraceStore.NothingIsLostIffStampsDiffer` | agentsla/core/trace.py:111-128 | When no event is appended twice, every accepted event is still held exactly when no rotation that took place reused an earlier one's stamp. |
| `TraceStore.SameStampLosesEvents` | agentsla/core/trace.py:125-127 | In every such run a reused stamp loses an accepted event. |
| `TraceStore.OneStampTwice` | agentsla/core/trace.py:125-127 | Two rotating appends with the same stamp lose the first event. |
| `TraceStore.TraceWriter.Append` | agentsla/core/trace.py:150-175 | A closed writer, an invalid event and a taken key change nothing; otherwise the validated row is inserted and every earlier row is still live or in a rotated file. |
| `TraceStore.TraceWriter.MaybeRotate` | agentsla/core/trace.py:111-128 | Over the threshold the live rows move to the stamped file and the live table is empty; below it nothing happens. |
| `TraceStore.TraceWriter.NextSeqFor` | agentsla/core/trace.py:177-185 | The result is one above the greatest live sequence number of the trace, 0 without rows; a closed writer gives an error. |
| `TraceStore.TraceReader.ReadTrace` | agentsla/core/trace.py:317-350 | No trace without events; otherwise all events, the first model identifier found, and an empty final answer. |
| `Events.ValidateIsIdempotent` | agentsla/core/events.py:130-144 | Trimming (text fields, and the top-level keys of `args`) twice is trimming once, what validation returns is valid, and an event is valid exactly when validation returns it unchanged. |
| `Events.ValidateMeans` | agentsla/core/events.py:130-144 | An event is valid exactly when its trimmed name has one to two hundred characters, or its coverage is a fraction; validation trims its names, texts, error, claim texts and argument keys and nothing else. |
| `Events.TrimmingKeepsArgsIff` | agentsla/core/events.py:161-164 | Validation leaves the arguments the same JSON value exactly when no top-level key has surrounding whitespace. |
| `Events.LastKeyWins` | agentsla/core/events.py:140-144 | Of the keys that trim to the same, the last one's value survives. |
| `Text.StripSpec` | agentsla/core/events.py:140-144 | Trimming leaves no whitespace at either end and leaves a text alone exactly when it had none. |
| `Text.StripIs` | agentsla/core/events.py:140-144 | Whitespace around a text without any at its ends is what trimming removes. |
| `Text.StripSplits` | agentsla/core/events.py:140-144 | Every text is what trimming leaves of it, with whitespace around. |
| `CanonicalJson.CanonDecidesSameValue` | agentsla/core/events.py:109-112 | Two argument values are the same JSON value, key order aside at every level, exactly when their sorted forms are identical. |
| `CanonicalJson.PrintCancel` | agentsla/core/events.py:121 | The compact text is uniquely readable: equal texts, even with anything delimited after them, come from equal values. |
| `CanonicalJson.DumpsIdentifiesValue` | agentsla/core/events.py:106-122 | Canonical payloads are equal exactly when the arguments are the same value. |
| `JsonReader.ReadsBack` | agentsla/core/events.py:121 | A reader of compact JSON (RFC 8259) inverts the printer: a printed value before anything delimited reads as itself, and nothing more is read. |
| `JsonReader.DumpsReads` | agentsla/core/events.py:106-122 | The digested text reads, to its end, as the same value with the keys of every object ascending at every level; without whitespace, which the reader does not take. |
| `JsonReader.EscapesAre` | agentsla/core/events.py:121 | Only quotation marks, backslashes and control characters are escaped, by two characters where there are two, else with lower-case digits. |
| `JsonReader.BeforeIff` | agentsla/core/events.py:121 | Keys are ordered by their first difference, a proper prefix first. |
| `StructuralReplay.Replay` | agentsla/core/replay.py:137-198 | The report lists the drifted calls, matches plus drifts is the number of calls, an unknown trace exits with 1, and strict mode raises exactly on drift. |
| `StructuralReplay.DriftsAreTheDriftedCalls` | agentsla/core/replay.py:167-183 | A detail is listed exactly when some recorded call carries a hash other than that of its arguments, and the detail gives its number, tool and arguments, the recorded hash as expected and the hash of the arguments as actual. |
| `StructuralReplay.DriftsConcat` | agentsla/core/replay.py:167-183 | The drifts of a longer log are those of its parts, in order. |
| `StructuralReplay.DriftIffArgumentsChanged` | agentsla/core/replay.py:171-175 | Without collisions a call drifts exactly when its arguments are not the same value as the ones that were hashed. |
| `StructuralReplay.RecordedCallDriftsIff` | agentsla/core/events.py:106-122 | Without collisions, what is recorded of a call drifts exactly when one of its top-level keys was padded. |
| `StructuralReplay.NoDriftIff` | agentsla/core/replay.py:167-183 | The report is free of drift exactly when every recorded call's hash is that of its recorded arguments. |
| `StructuralReplay.RecordedRunHasNoDrift` | agentsla/adapters/rawloop.py:193-204 | A log recorded by the reference loop, allowed, denied or failing, never drifts: its one key is `text`. |
| `RawLoop.RawLoopAdapter.Run` | agentsla/adapters/rawloop.py:122-280 | Events in memory and in the store, hook calls and answer of a run are those of `RawLoopRun`, for every hook and every tool; events of earlier runs stay. |
| `RawLoop.RawLoopAdapter.CallTool` | agentsla/adapters/rawloop.py:190-221 | The call is recorded before the hook sees it; a denial ends the run with an empty answer and no result. |
| `RawLoop.RawLoopAdapter.Execute` | agentsla/adapters/rawloop.py:223-280 | An allowed call adds a result (an error result when the tool raises) and the final message, and the answer carries the tool's text. |
| `RunContents.LoopRunIs` | agentsla/adapters/rawloop.py:122-280 | Every event, hook call and the answer of a reference run, field by field: the question; without tools the echo; else the call of the first tool with the task and its hash, and if denied the empty end; else what came of it (a returned value as it is or as it is stored and no error, a raise as null with type and message as error) and the echo followed by its text. The final hook is shown the whole record. |
| `RunContents.LoopFailsIff` | agentsla/adapters/rawloop.py:224-244 | The log of a reference run shows a failure exactly when its tool was executed and raised. |
| `RawLoop.ShowsOtherTracesIff` | agentsla/adapters/rawloop.py:267-276 | The trace that a run shows to the final-answer hook holds everything that the adapter kept, and so events of another trace exactly when it kept some before the run. |
| `RawLoop.SecondRunShowsFirst` | agentsla/adapters/rawloop.py:111-118 | From its second run on, under a fresh trace identifier, an adapter shows events of another trace. |
| `Recording.Recorder.WriteEvent` | agentsla/adapters/rawloop.py:116-120 | Every event goes to memory and, if there is a writer, through it, in the same order. |
| `LangGraph.LangGraphAdapter.Run` | agentsla/adapters/langgraph.py:82-213 | For every hook and tool, events, hook calls and answer are those of `RawLoopRun`, the reference loop's run. |
| `LangGraph.LangGraphAdapter.UseFirstTool` | agentsla/adapters/langgraph.py:139-213 | Proposal, denial and execution of the first tool end as the refused, denied or allowed run of the reference loop. |
| `ClaudeSdk.ClaudeSdkAdapter.Run` | agentsla/adapters/claude_sdk.py:196-349 | Events, hook calls and exit of a run are those of the recursive account `WholeRun`, for every message stream, hook and tool. |
| `ClaudeSdk.ClaudeSdkAdapter.Consume` | agentsla/adapters/claude_sdk.py:234-328 | The message loop with its skip, denial, text and cap exits leaves exactly the rest of the run to be finished. |
| `ClaudeSdk.ClaudeSdkAdapter.HandleToolUse` | agentsla/adapters/claude_sdk.py:253-315 | One proposed call: recorded, shown to the hook, then denied with an empty answer or executed and recorded; the numbering advances accordingly. |
| `RunContents.StreamRunIs` | agentsla/adapters/claude_sdk.py:196-349 | A run read off its stream: of the messages before the end, the cap or the first text, the uses of registered tools are recorded in order, each with trimmed name and keys and the hash of its input, allowed by the hook on top of all it was shown, executed, and its outcome recorded; all of them, unless one cannot be recorded or is denied, which ends the run; else it ends with the first text when that is not empty, and otherwise the echo. |
| `RunContents.PlaysAt` | agentsla/adapters/claude_sdk.py:255-310 | Each executed use is recorded where the run stands, by a call and by a result that holds what the tool returned, or that it raised and with what text. |
| `RunContents.AfterIs` | agentsla/adapters/claude_sdk.py:265-307 | After `j` executed uses the next number is `2 * j` higher, and what remains are the uses from the `j`-th and the events from the `2 * j`-th on. |
| `RunContents.AfterStands` | agentsla/adapters/claude_sdk.py:286-287 | The tools then stand where the first `j` uses have left them. |
| `RunContents.LiveToolsSeeAll` | agentsla/adapters/claude_sdk.py:286-287 | Live tools answer each use by all uses so far, it included. |
| `RunContents.StubsGiveOut` | agentsla/adapters/replay_exec.py:80-91 | Stubs answer the uses of a run in turn with what their queues give out. |
| `RunContents.PlaysLength` | agentsla/adapters/claude_sdk.py:237-349 | A run has two events per executed use and at most one more after the question, and it answers exactly when it executed all uses that the stream asks for. |
| `RunContents.StreamFailsIff` | agentsla/adapters/claude_sdk.py:286-305 | The log of a run shows a failure exactly when some executed tool raised. |
| `RunContents.StreamRunShowsRecord` | agentsla/adapters/claude_sdk.py:272-283 | The last hook call of a run shows its identifiers, all events that the adapter has, and the answer, empty after a denial. |
| `ClaudeSdkProperties.RunGrammar` | agentsla/adapters/claude_sdk.py:196-349 | A run adds user (call result)* and then the assistant's answer or a denied call, numbered 0 to n-1 in its trace, with at most one call per message and no more than `max_messages`; the answer is empty only when denied. |
| `ClaudeSdkProperties.RunHooks` | agentsla/adapters/claude_sdk.py:268-310 | The hooks see every call, every result and one final answer, in event order; every executed call was allowed when shown, and a denied one is the last. |
| `ClaudeSdkProperties.ParityWithReferenceLoop` | agentsla/adapters/claude_sdk.py:237-349 | On the stream that uses the first tool on the task and then speaks, the events equal those of `RawLoopRun` (the run of the reference and of the LangGraph adapter) in kind, tool, arguments, hash and outcome, for every hook and tool; with the loop's own text the answers are equal. |
| `ClaudeSdkProperties.RunIsHashedFrom` | agentsla/adapters/claude_sdk.py:253-265 | The recorded calls are, in stream order, those of the proposed arguments, each with trimmed keys and the hash of the untrimmed arguments. |
| `ClaudeSdkProperties.NoDriftIffKeysTight` | agentsla/adapters/claude_sdk.py:253-265 | Without collisions, a log recorded by this adapter is free of drift exactly when no recorded call was proposed with a padded top-level key. |
| `ClaudeSdkProperties.PaddedKeyDrifts` | agentsla/adapters/claude_sdk.py:253-265 | One tool use with the input `{" q": 1}` drifts, whatever the hook decides. |
| `ClaudeSdkProperties.ExecutionsAreAllowed` | agentsla/adapters/claude_sdk.py:269-287 | Under a policy gate, the executions of a tool in a run are exactly the calls of that tool that the gate allows among those it is shown in the run. |
| `ClaudeSdkProperties.GovernedRunWithinCap` | agentsla/policy/gate.py:98-109 | Whatever the model asks for, in one run under hooks that allow no more than a policy gate, a tool executes at most as often as its cap allows. |
| `ClaudeSdkProperties.ShowsOtherTracesIff` | agentsla/adapters/claude_sdk.py:338-348 | The trace shown to the final-answer hook holds events of another trace exactly when the adapter kept some before the run. |
| `Luhn.LuhnValid` | agentsla/policy/egress.py:90-104 | The left-to-right loop accepts exactly the 13 to 19 digit numbers whose weighted sum, counted from the right, is a multiple of ten. |
| `Luhn.AcceptsIff` | agentsla/policy/egress.py:90-104 | A text is accepted exactly when its digits number 13 to 19 and, from the right with every second digit counted as the digits of its double, add up to a multiple of ten. |
| `Luhn.DigitsOfConcat` | agentsla/policy/egress.py:92 | The digits of a text are those of its parts, in order. |
| `Luhn.DigitsOfOne` | agentsla/policy/egress.py:92 | Of a single character an ASCII digit is kept and anything else dropped. |
| `Luhn.SingleErrorDetected` | agentsla/policy/egress.py:90-104 | Changing any one digit of a valid number makes it invalid. |
| `Luhn.TranspositionDetected` | agentsla/policy/egress.py:90-104 | Swapping two different neighbours of a valid number leaves it valid exactly when they are 0 and 9. |
| `Luhn.UniqueCheckDigit` | agentsla/policy/egress.py:90-104 | Every payload of 12 to 18 digits has exactly one valid check digit. |
| `PolicyGate.LeavesAreAllLeaves` | agentsla/policy/gate.py:205-214 | The recursive walk yields exactly the string values that occur, however deeply nested. |
| `PolicyGate.ScanIsEarliest` | agentsla/policy/gate.py:173-187 | The scan gives the earliest rule that fires on some string leaf, and none exactly when no rule fires. |
| `PolicyGate.Gate.ScanEgress` | agentsla/policy/gate.py:173-187 | The nested loop with its skip of card numbers that fail the checksum computes that scan. |
| `PolicyGate.ExtractPanLuhnOk` | agentsla/policy/gate.py:217-223 | True exactly when some match is a valid card number. |
| `PolicyGate.Gate.OnToolCall` | agentsla/policy/gate.py:60-128 | The decision is a pure function of policy, call and the number of earlier counted calls of the same trace and tool; the audit log grows by this decision. |
| `PolicyGate.Gate.Check` | agentsla/policy/gate.py:70-128 | The first failing check decides; the counter advances exactly for calls that pass membership and schema, and no other counter moves. |
| `GateDecisions.AllowedIff` | agentsla/policy/gate.py:60-128 | For every policy, history and call: it is allowed exactly when its tool is listed, the schema of the first rule for the tool accepts the arguments, the number of earlier calls of the trace and tool that passed these two is below that rule's cap and the policy's, and the earliest egress rule that fires on a string anywhere in the arguments does not deny. |
| `GateDecisions.DenialIs` | agentsla/policy/gate.py:71-118 | A denied call has the reason of the first of these checks that fails, with the tool, cap or rule it names, rewrites nothing and carries no hash. |
| `GateDecisions.AllowanceIs` | agentsla/policy/gate.py:111-159 | An allowed call on which no rule fires goes on as it is, with its own hash; otherwise the earliest firing rule rewrites: its name stands under `_redacted_by`, in place of an existing key or else at the end, all other members stay, and the hash is that of the rewritten arguments. |
| `GateDecisions.CountedIsCardinality` | agentsla/policy/gate.py:97-105 | The counter of a trace and tool is the number of earlier positions whose call passed membership and schema. |
| `GateDecisions.RuleForIsFirst` | agentsla/policy/gate.py:138-142 | The rule of a tool is the first with its name. |
| `GateDecisions.CapIsSmaller` | agentsla/policy/gate.py:100-109 | A count is below the cap of a tool exactly when it is below that of the tool's first rule, if it has one, and below the policy's. |
| `GateDecisions.HitsMeans` | agentsla/policy/gate.py:180-187 | The card rule hits a string exactly when one of its matches is a card number, any other rule when it matches. |
| `GateDecisions.AuditEntryIs` | agentsla/policy/gate.py:144-171 | Entry `i` of the audit log gives the trace and tool of call `i`, whether it was denied, allowed or rewritten, and the reason. |
| `GateProperties.AuditIsFaithful` | agentsla/policy/gate.py:144-171 | Entry i of the audit log records the decision on call i after the first i calls. |
| `GateProperties.DecisionIgnoresOtherKeys` | agentsla/policy/gate.py:98-109 | Calls of other traces or other tools have no influence on a decision. |
| `GateProperties.FreshTraceFreshGate` | agentsla/policy/gate.py:98-109 | A gate with any history decides a call of a new trace as a new gate does. |
| `GateProperties.AllowedWithinCap` | agentsla/policy/gate.py:98-109 | Allowed calls per trace and tool never exceed the smaller of the two caps, nor the counted calls. |
| `GateProperties.CapDenialAbsorbs` | agentsla/policy/gate.py:99-109 | After a denial by a cap every later call of that trace and tool is denied, whatever comes between. |
| `GateProperties.TraceWithinSumOfCaps` | agentsla/policy/gate.py:98-109 | Over all histories of possible calls (valid events with dictionary arguments), allowed calls per trace never exceed the sum of the caps of the distinct tools of which some possible call gets through. |
| `GateProperties.TraceCapBoundsTraceIff` | agentsla/policy/schema.py:62-66 | `max_calls_per_trace` bounds the allowed calls of every trace, over all histories of possible calls, exactly when the caps of the usable tools add up to no more than it. |
| `GateProperties.TraceCapCounterexample` | agentsla/policy/gate.py:105-109 | Two allowed tools get two calls of one trace past a cap of one. |
| `Budget.BudgetManager.RecordToolCall` | agentsla/core/budget.py:98-102 | The count is booked before the ceiling is checked, so a rejected call is counted. |
| `Budget.BudgetManager.RecordToolResult` | agentsla/core/budget.py:104-117 | Tokens and cost are booked first; then wall time, tokens and cost are checked in this order and the first excess is reported with the current level. |
| `Budget.BudgetedHooks.OnToolCall` | agentsla/adapters/budget_hooks.py:70-97 | The inner gate decides first, and sees every call; the budget can only turn its allowance into a denial, and counts a denial exactly when the gate allowed. |
| `Budget.BudgetedHooks.OnToolResult` | agentsla/adapters/budget_hooks.py:99-108 | The charge is booked and a breach found after the tool ran is kept for the next call. |
| `BudgetDecisions.CallAllowedIff` | agentsla/adapters/budget_hooks.py:70-97 | In every run a call is allowed exactly when the inner policy allows it, nothing has been breached, and its trace has fewer than `max_calls` allowed calls. |
| `BudgetDecisions.CallIsAnswered` | agentsla/adapters/budget_hooks.py:70-97 | The answer to each call and what it leaves: inner denials change nothing; after a breach the first one is quoted with the present level; a call over the ceiling is kept as a breach with the count that it would have made. |
| `BudgetDecisions.ResultIsBooked` | agentsla/core/budget.py:104-117 | A result adds its charge to its trace and is kept as a breach exactly when wall time (with a latency, the larger of it and the time since the first counted call), tokens or cost then exceed their ceiling, in this order, with what was observed, the ceiling and the level. |
| `BudgetDecisions.LedgerIsSpent` | agentsla/core/budget.py:112-113 | The tokens and cost recorded of a trace are the sums of its charges. |
| `BudgetDecisions.LedgerIsStarted` | agentsla/core/budget.py:98-100 | The clock starts at the first call that the inner policy allows while nothing is breached. |
| `BudgetDecisions.LevelMeans` | agentsla/core/budget.py:119-132 | The level of a trace tells whether its tokens or its cost reach nine tenths, three quarters or half of a ceiling, these being at least 1 and 1e-9. |
| `BudgetProperties.BreachesOnlyGrow` | agentsla/adapters/budget_hooks.py:65 | Over any run recorded breaches are kept, in order. |
| `BudgetProperties.BreachDeniesEveryTrace` | agentsla/adapters/budget_hooks.py:78-85 | Once any trace has breached, every later call of every trace is denied. |
| `BudgetProperties.CallsBreachIsFirst` | agentsla/adapters/budget_hooks.py:87-96 | A breach of the call count can only be the first breach. |
| `BudgetProperties.CallsAddUp` | agentsla/adapters/budget_hooks.py:70-97 | In every run all calls are the allowed, the inner-denied and the `denied_calls` together. |
| `BudgetProperties.CounterIsAllowed` | agentsla/core/budget.py:98-102 | A trace's counter is its allowed calls, plus one for the single trace whose call ran over. |
| `BudgetProperties.CallCeilingHolds` | agentsla/core/budget.py:142-151 | Allowed calls per trace stay within `max_calls`, and at most one trace's counter ever reaches one more. |
| `BudgetProperties.CleanMeansWithin` | agentsla/core/budget.py:153-173 | While there is no breach every trace is within its token and cost ceilings. |
| `BudgetProperties.OverrunIsOneCharge` | agentsla/adapters/budget_hooks.py:99-108 | When each result directly follows its allowed call, recorded spend exceeds a ceiling by at most the latest result's charge. |
| `BudgetProperties.LevelNeverDecreases` | agentsla/core/budget.py:119-132 | Over any continuation of a run with non-negative charges the degradation level of a trace never goes down. |
| `BudgetProperties.BreachesAreEmergencies` | agentsla/core/budget.py:142-173 | With meaningful ceilings every breach of calls, tokens or cost in every run carries the emergency level. |
| `BudgetProperties.EmergencyIffMeaningfulCeilings` | agentsla/core/budget.py:119-132 | That holds in all runs exactly when the token ceiling is not negative and the cost ceiling is at least 0.9e-9. |
| `BudgetProperties.BothWithinGate` | agentsla/adapters/budget_hooks.py:70-76 | What budget and gate both allow is at most what the gate allows, per trace and tool and per trace. |
| `BudgetProperties.GovernedAndBudgeted` | agentsla/adapters/budget_hooks.py:70-97 | Gate and budget together, over every interleaving: a tool's allowed calls keep to both its caps, and a trace's to the budget ceiling and to the sum of the usable tools' caps. |
| `BudgetedRuns.SdkRunKeepsOrder` | agentsla/adapters/claude_sdk.py:269-310 | Under a budget, in every run of the message-driven adapter, after whatever ran before, each result directly follows its own allowed call, and the executions are exactly the calls of its trace that the budget allows. |
| `BudgetedRuns.LoopRunKeepsOrder` | agentsla/adapters/rawloop.py:208-249 | The same of the reference loop. |
| `BudgetedRuns.KeptRunWithinBudget` | agentsla/adapters/budget_hooks.py:70-108 | Such a run executes at most `max_calls` calls, and the spend recorded of every trace exceeds a ceiling by at most the latest result's charge. |
| `BudgetedRuns.SdkRunWithinBudget` | agentsla/adapters/claude_sdk.py:234-328 | Hence whatever the model asks for, a run of the message-driven adapter executes and spends no more than that. |
| `BudgetedRuns.GatedAndBudgetedRun` | agentsla/adapters/budget_hooks.py:70-97 | Under a budget around a policy gate, a run of the message-driven adapter executes a tool at most as often as its caps allow, and all tools together at most `max_calls` times. |
| `RangeParser.ParseRange` | agentsla/verify/claims.py:142-205 | The loop with its early exits and the final exchange computes the ordered pair of the two endpoints of the split, or nothing. |
| `RangeParser.ParseEndpoint` | agentsla/verify/claims.py:177-195 | Cleaning, multiplier and conversion of one endpoint written in ASCII digits, with both rejections. |
| `RangeParser.RangeOf` | agentsla/verify/claims.py:196-205 | Every result has low strictly below high. |
| `RangeRoundTrip.RangeReadsBack` | agentsla/verify/claims.py:142-205 | Any two amounts as the pattern takes them (currency symbol, blanks, sign, fraction after a point or comma, K/M/B or percent suffix, ASCII digits) with any separator it takes (a hyphen, an en or em dash or `to`, with or without blanks) parse to exactly the ordered pair of their scaled values when the separator is a hyphen, or `to` with blanks on both sides, and the values differ; in every other case to nothing. |
| `RangeRoundTrip.EndpointsCommute` | agentsla/verify/claims.py:201-205 | Exchanging the endpoints, or one of the parser's separators for another, gives the same range. |
| `RangeRoundTrip.EndpointReadsAmount` | agentsla/verify/claims.py:178-195 | A printed amount reads back as its scaled value. |
| `RangeRoundTrip.SplitsInTwo` | agentsla/verify/claims.py:166-175 | The parser splits at the joining separator when it is one of its own and nowhere else: sign dashes do not split. |
| `RangeRoundTrip.ReadsSomethingIff` | agentsla/verify/claims.py:65-74 | Of the texts that the pattern takes, exactly those parse whose separator is one of the parser's and whose values differ. |
| `RangeRoundTrip.GluedToReadsNothing` | agentsla/verify/claims.py:173 | `4 to-5` parses to nothing. |
| `RangeRoundTrip.EnDashReadsNothing` | agentsla/verify/claims.py:173 | 4 and 5 joined by an en dash parse to nothing. |
| `Claims.Extract` | agentsla/verify/claims.py:77-121 | The loops over the patterns compute the stable sort, by start, of the first matches of each span. |
| `Claims.AddMatches` | agentsla/verify/claims.py:91-109 | One pattern's pass keeps a match only if its span is new, and marks the span even when a range does not parse. |
| `Claims.Verify` | agentsla/verify/numeric.py:59-67 | One verdict per extracted claim, in order. |
| `ClaimVerdicts.VerdictsAre` | agentsla/verify/numeric.py:59-115 | For arbitrary resolvers, one verdict per claim, in order, with the claim's text and value and its source: unverified without a source; a range verified exactly when its source reads as a number between its ends; any other claim verified exactly when it equals its source or both read as numbers that differ by at most the tolerance times the largest of their magnitudes and 1e-12; and else incorrect. |
| `ClaimVerdicts.ScaledClaim` | agentsla/verify/numeric.py:89-115 | A claim off its source by the factor 1+j is verified exactly when abs(j) is within tol times the larger of abs(1+j) and 1, and else incorrect. |
| `ClaimVerdicts.AnswerPassesIff` | agentsla/verify/chain.py:31-41 | An answer passes exactly when it has no claims, or no claim disagrees with its source and the claims that agree with theirs are at least the threshold's share of all. |
| `ClaimVerdicts.FullAnswerPassesIff` | agentsla/verify/chain.py:31-41 | At threshold one an answer passes exactly when every claim has a source and agrees with it. |
| `ClaimProperties.ExtractedSpec` | agentsla/verify/claims.py:77-121 | Claims come sorted by start with distinct spans and are exactly those of each span's first match; ranges and only ranges carry an interval, low below high. |
| `ClaimVerdicts.ExtractedIff` | agentsla/verify/claims.py:77-121 | A claim is extracted exactly when it is made by a match that is the first of its span: its own pattern did not find the span before, nor any pattern that is tried earlier. It has the match's text and span, the pattern's kind, and the value of the text by kind. |
| `ClaimVerdicts.ExtractedInOrder` | agentsla/verify/claims.py:120 | The claims come by start, and those that start together in the order in which they were found. |
| `ClaimProperties.RangeMatchMakesClaimIff` | agentsla/verify/claims.py:101-109 | A match of two amounts makes a range claim exactly when its separator is one of the parser's and the values differ. |
| `ClaimProperties.DroppedMatchHidesSpan` | agentsla/verify/claims.py:103-108 | The span of a match that makes no claim counts as seen: a later match of the same span makes none either. |
| `ClaimProperties.ToleranceExact` | agentsla/verify/numeric.py:105-115 | A claim off the truth by the factor 1+j is accepted exactly when abs(j) is within tol times the larger of abs(1+j) and 1. |
| `ClaimProperties.ToleranceBounds` | agentsla/verify/numeric.py:105-115 | It is accepted whenever abs(j) is within tol and rejected whenever abs(j) exceeds tol/(1-tol). |
| `ClaimProperties.LooserTolerancePasses` | agentsla/verify/numeric.py:71-115 | Whatever the claims and sources, an answer that passes goes on passing under a looser tolerance. |
| `ClaimProperties.PassingConcatenates` | agentsla/verify/chain.py:37-41 | Two passing verdict lists concatenate to a passing list, at any threshold. |
| `ClaimProperties.PassedMeans` | agentsla/verify/chain.py:31-41 | A list passes exactly when it is empty, or none is incorrect and the verified ones number at least threshold times all. |
| `ClaimProperties.FullThreshold` | agentsla/verify/chain.py:37-41 | At threshold one a list passes exactly when every claim is verified. |
| `ClaimProperties.FullThresholdConcatenates` | agentsla/verify/chain.py:37-41 | At threshold one a concatenation passes exactly when both parts do. |
| `ClaimProperties.IdentityPipeline` | agentsla/verify/numeric.py:59-103 | With the identity source claims are judged one to one and in order, each verified unless it is a range; the answer passes exactly when no range was extracted. |
| `VerificationGate.RunChain` | agentsla/verify/chain.py:56-66 | The chain's claims are the verdicts of all verifiers, in order. |
| `VerificationGate.ChainConcat` | agentsla/verify/chain.py:56-66 | The claims of a longer chain are those of its parts, in order. |
| `VerificationGate.ChainPassesIffAllPass` | agentsla/verify/chain.py:56-66 | At threshold one a chain passes exactly when every verifier's own list passes. |
| `VerificationGate.RunGate` | agentsla/verify/gate.py:55-69 | A closed writer is an error and changes nothing; otherwise the verdict takes the next sequence number, is always accepted by the store, and unless its own append rotates is read back last after everything that was there. |
| `VerificationGate.BuildVerdict` | agentsla/verify/gate.py:73-99 | The loop keeps the numeric verdicts, in order, in an event whose outcome and coverage are those of all verdicts. |
| `VerificationGate.VerdictIs` | agentsla/verify/gate.py:73-99 | What is persisted: verified exactly when there is no claim, or none is incorrect and the verified ones reach the threshold's share; coverage is their share; one record per numeric verdict, in order, with its trimmed text and whether it was verified. |
| `VerificationGate.RecordsSpec` | agentsla/verify/gate.py:73-90 | A record is persisted exactly for the numeric verdicts, and passes exactly when its verdict is verified. |
| `VerificationGate.VerdictIsWellFormed` | agentsla/verify/gate.py:91-99 | The persisted verdict always satisfies the event's constraints. |
| `VerificationGate.VerifiedRunReplays` | agentsla/verify/gate.py:64-69 | Record, verify, replay: a run written through the adapter's own writer and then judged by any chain replays with the verdict of `RecordedRunReplays` exactly when none of its appends, the verdict's included, rotates, and otherwise with exit code 2. |
| `VerificationGate.VerdictFits` | agentsla/verify/gate.py:66-68 | The verdict of any chain is accepted after any stored log; it is read back after it, or nothing is if its append rotates. |
| `VerificationGate.PersistedIdentityVerdict` | agentsla/verify/gate.py:91-99 | A self-certified answer is persisted as verified exactly when it makes no range claim. |
| `Heuristics.TriggerToolResponseMisuse` | agentsla/classify/heuristics.py:107-142 | Fires exactly when some error result's next call repeats the tool and arguments hash of the call that failed. |
| `Heuristics.CallByIdIs` | agentsla/classify/heuristics.py:126 | The call that failed is the last in the whole log with the result's identifier. |
| `Heuristics.SameHashMeansSameCall` | agentsla/classify/heuristics.py:56-69 | Without collisions the repetition test means same tool and same arguments, whatever the key order. |
| `Heuristics.TriggerRetryLoop` | agentsla/classify/heuristics.py:245-260 | The counter fires exactly when some window of threshold consecutive calls, at least two, is constant. |
| `Heuristics.TriggerUnexpectedToolFailure` | agentsla/classify/heuristics.py:291-299 | Fires exactly on a log with an error and no misuse, so on a log with an error exactly one of the two triggers fires, and otherwise none. |
| `RealLlmBench.SelectTasks` | agentsla/bench/real_llm.py:202-205 | Grouping by domain and slicing computes the selection. |
| `RealLlmBench.SelectionIsStratified` | agentsla/bench/real_llm.py:193-205 | Of every domain the selection holds exactly its leading slice, in corpus order. |
| `BenchRows.SelectionInOrder` | agentsla/bench/real_llm.py:202-205 | The selection goes domain by domain, in the order in which the domains first appear in the corpus. |
| `RealLlmBench.Bench.MakePlan` | agentsla/bench/real_llm.py:249-267 | The plan counts all prompts and those the cache can answer. |
| `BenchRows.PlanCounts` | agentsla/bench/real_llm.py:236-267 | The plan counts the tasks, the prompts, two rows for each, the prompts whose key is cached when the run resumes, and the others as live calls. |
| `RealLlmBench.CallsWithinUncached` | agentsla/bench/real_llm.py:338-389 | The cache only gains entries, and no more calls are paid than there are prompts not cached beforehand. |
| `RealLlmBench.PlanBoundsPaidCalls` | agentsla/bench/real_llm.py:236-267 | Paid calls of the run never exceed the plan's live calls, for every cache, error pattern and key collision. |
| `RealLlmBench.RowsComeInPairs` | agentsla/bench/real_llm.py:333-433 | Rows come in naked and wrapped pairs, two per processed prompt and in prompt order; with fail-fast there is at most one error pair and it is the last. |
| `BenchRows.EveryPairIs` | agentsla/bench/real_llm.py:333-433 | Every pair of rows is explained by the prompts, the oracle, the first cache and the rows before: it is from the cache exactly when the run resumes and an earlier pair wrote its key or the cache began with it, and then has the latest such text; otherwise it has the answer to the next paid call, or is blank when that fails. The naked row succeeds exactly when the expected text occurs, the gate passes exactly by the text, and the wrapped row succeeds exactly when both hold. The paid calls are the pairs not from the cache. |
| `BenchRows.PromptAt` | agentsla/bench/real_llm.py:335-338 | The prompts go through the seeds of one task after the other. |
| `RealLlmBench.ResumeIsFree` | agentsla/bench/real_llm.py:338-389 | After a run with caching and without errors, a second run with `resume` plans and pays no call and leaves the cache alone, whatever the model would answer; it gives the same texts exactly when prompts that share a cache key got the same text in the first. |
| `RealLlmBench.ResumedIsConsistent` | agentsla/bench/real_llm.py:339-340 | That is so when the prompts' keys differ, or the first run resumed already. |
| `RealLlmBench.ReusedGateDecidesByText` | agentsla/bench/real_llm.py:169-185 | The one gate of a run decides each response by its text alone, as a fresh gate would. |
| `RealLlmBench.Bench.Run` | agentsla/bench/real_llm.py:300-331 | Each guard refuses before any paid call and leaves the cache alone; otherwise rows, cache and paid calls are those of the account `Process`, within `max_paid_calls`. |
| `RealLlmBench.Bench.RunAll` | agentsla/bench/real_llm.py:333-433 | The nested loops with their abort flag, cache and shared gate compute that account. |

## Left out

- DuckDB, Parquet, renaming on disk, connection life cycle beyond open and closed: the store is a keyed map, and the size test and the rotation stamp are inputs.
- SHA-256 is an arbitrary function of the payload; the absence of collisions is assumed only where a row says so. A digest is a number, so the check of the hash's hexadecimal shape (agentsla/core/events.py:175-183) has no counterpart.
- Timestamps, message, response and verdict identifiers, latencies and the free-text details of events: no modelled decision depends on them.
- Floating point: costs, values and coverage are exact reals, so rounding is not modelled.
- JSON floats, NaN and lone surrogates in canonical payloads: numbers are integers and strings are sequences of characters. A tool result that is no JSON value is given by its text and by what it is stored as; one that cannot be stored at all, and makes the writer raise, is not modelled.
- The regular-expression engine, `jsonschema` and `ast.parse`: lists of matches, predicates of the arguments. Of the patterns only the split of a range is modelled; `_RANGE_PATTERN` and `_parse_value` are parameters.
- `RangeParser.ParseEndpoint`: reads signed decimals in ASCII digits. Exponents, underscores, `inf` and `nan`, which Python's `float` accepts too, do not occur in what `_RANGE_PATTERN` matches; digits of other scripts do, and are not modelled.
- `RawLoop.RawLoopAdapter.Run`: the `trace_writer` argument is not modelled, because the source never writes through it (agentsla/adapters/rawloop.py:143, 116-120); the adapter's own writer is.
- `BudgetProperties.CallCeilingHolds`: is stated for a ceiling of zero or more, since a counter never is negative; `CounterIsAllowed` holds for every ceiling.
- `BudgetProperties.CleanMeansWithin` and `BudgetProperties.OverrunIsOneCharge` are stated for token and cost ceilings of zero or more: an unused trace exceeds a negative ceiling before anything is recorded.
- Hooks and tools are arbitrary functions of what they were told so far; a hook that changes the adapter or the store while it is asked is not modelled. Adapters read only whether a call is allowed, so rewritten arguments have no effect on a run, here as in the source.
- `ClaudeSdk` reads only messages that are tool uses or texts, and takes a tool use's input for an object; the SDK client itself, and exceptions that it raises between messages, are not part of this model.
- `RealLlmBench.Bench.Run`: cache files, key resolution, the rows' latency and ground-truth columns and the Parquet file are not modelled; the cache is the map of its readable entries and the key a flag.
- The remaining triggers, the classifier and its ranking, the LLM judge, metrics, command line, reports and fixtures: single branches, tables or presentation.
- `mode: shadow` of the policy: no modelled code reads it.
