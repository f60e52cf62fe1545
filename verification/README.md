# MarkBot agent core: a verified model

MarkBot is a daemon that runs an LLM agent. This project models, in Dafny 4.11, the parts of its
core that decide things: when a looping turn is stopped, who may work on a session, what of a
conversation survives compaction, how messages and cached responses are kept, how calls are
scheduled and billed, which prompt sections are kept, and when an answer counts as finished.
`dafny verify dfyconfig.toml` checks all of it.

The main results hold for every input, every run or every reachable state. Where a property the
repository aims at is false of the code, the model keeps the code, and a lemma gives the exact
condition under which the property holds; those lemmas end in `Iff`, or say so in their row.

## What is in which file

- **Tool-loop guardrail** (`tool_guardrails.py`, driven by `iteration.py`).
  `GuardrailDecisions.dfy` has the lattice allow < warn < block < halt. `GuardrailHistory.dfy`
  defines what every counter means as a function of the history of observations: streaks,
  exact-failure counts, identical results, repeated calls, blocked and warned sets.
  `GuardrailVerdicts.dfy` tells every verdict on a call by trailing runs and counts.
  `FailurePolicy.dfy` has the failure window, the cumulative rate (as a real), the stagnation
  counter and the runner's phase, with the bounds on how long a turn can go; `TurnVerdicts.dfy`
  tells when a turn is interrupted, and when not, by its outcomes and calls alone.
  `ToolLoopGuardrail.dfy` has the class with the mutable fields; its `Valid` says that each field
  equals its function of the history.
- **Turn admission** (`loop.py`). `TurnAdmission.dfy` is the protocol: one event is one stretch of
  code between two suspension points, so a run is any interleaving of coroutines, cancellation and
  idle cleanup included. `AdmissionSafety.dfy` proves its invariant, `AdmissionOutcome.dfy` who gets
  in at once, `AdmissionProgress.dfy` that it drains, `AdmissionLegality.dfy` which steps break
  exclusion, `OwnerEntries.dfy` when the owner map is accurate. `AdmissionControl.dfy` is the class
  whose methods are those stretches and each refine one step. Waiters are granted locks and permits
  in any order, a superset of FIFO.
- **Queues** (`queue.py`). `PriorityQueues.dfy` and `PartitionedQueues.dfy` model the queue classes
  up to their suspension points; every method leaves counter, event and waiters consistent.
- **Response cache** (`llm_response_cache.py`). `ResponseCache.dfy`: trace semantics, inclusion
  between capacities, recency guarantees, and the class with its eviction loop.
- **Context compaction** (`compact.py`). `Conversation.dfy` has messages and pairing of calls with
  results; `AutoCompaction.dfy` the split search, `HistorySnip.dfy` the last resort, `PtlRetry.dfy`
  the truncation of an over-long compaction request, `Collapse.dfy` and `CollapsePass.dfy` the
  head-and-tail collapse and its pass over a conversation.
- **Turn execution** (`iteration.py`, `outcome.py`, `shell_classify.py`). `ToolBatches.dfy` plans
  and runs the tool calls of one message; `ShellClassify.dfy` classifies commands;
  `CompletionGate.dfy` has the flags, the gate and whole turns.
- **Accounting** (`cache_protocol.py`, `cost.py`, `iteration.py`). `UsageBilling.dfy` compares the
  two ways from a usage report to a charge; `CostTracking.dfy` is the tracker. `Normalise` is
  `normalise` with its three subclasses (cache_protocol.py:201-242, iteration.py:254-283),
  `CanonicalCharge` the billable-input rule (cost.py:244-260). Amounts and prices are reals.
- **Prompt assembly** (`context.py`). `PromptAssembly.dfy`: stable sort, greedy selection, the
  shrink loop and the final order. The token estimate is a parameter.
- **Turn metadata** (`turn_metadata.py`). `TurnMetadata.dfy`: the block at the tail of a message.
- `PyLists.dfy`, `PyStrings.dfy`: Python's negative slices, stripping and searching.

## Where the code and its documentation differ

The model follows the code.

- `tool_guardrails.py:865-874`: `failed_methods_cap` may be configured as 1, and then `[-0:]` keeps
  the whole list (exactly: `BlacklistBoundedIff`). `tool_guardrails.py:970-985`: the key `tool:signature`
  is ambiguous for tool names with a colon (`ExactCountsArePairCountsIff`).
- `loop.py:717-736` promises that an owner entry means a held lock. A coroutine cancelled while it
  queues for the gate leaves its entry behind (`CancelledAtGateKeepsOwner`), and its next entry
  bypasses the lock (`IllegalEnterBreaks`). Exactly such cancellations break the promise
  (`OwnersStayHeldIff`, over whole runs `AlwaysHeldIff`); without them, and with cleanups of unused
  sessions only, exclusion holds from the start (`FromTheStart`). `LegalIffSafe` is the exact
  condition for a single step to keep exclusion.
- `queue.py:132-138` promises the oldest message across partitions; the code serves partitions
  round-robin, and overtakes an older item as soon as there are two session keys (`Overtakes`,
  exactly: `OldestFirstIff`).
- `compact.py:206-208` promises that the collapsed text fits; with head + tail just below the
  limit it does not (`MiddleGroundOverflows`, exactly: `FitsExactly`).
- `compact.py:1048-1049` looks back 39 messages and never at message 0, so a longer batch of
  results, or a conversation that starts with an assistant, loses its call (`KeptIsPairedIff`).
- `cost.py:230-243` says each prompt token is charged once; a prompt that is cached to the last
  token is charged in full and again as cache reads (`OpenAIChargedOnceIff`), and the subagent
  path does not know Codex's `cached_tokens` (`CodexAgreesIff`).
- `iteration.py:1695-1753`: a test that ran before the change satisfies the completion gate
  (`StaleTestSuffices`; when a later test is certain: `TestAfterChangeIff`), and a failed test
  counts like a passed one (`PassedTestIff`). A command is judged by its first segment only
  (`OnlySegmentCounts`).
- `context.py:643-644`: the cut section's sort key is 999, so it can land in front of whole sections
  (`CutCanComeFirst`) as soon as there are more than a thousand sections, and not before
  (`CutIsLastIff`). The callers in `context.py` build far fewer.
- `context.py:119-124` documents priority 1 as never truncated; a section of any priority is dropped
  or cut when the sections up to that priority exceed the budget (exactly: `UrgentKeptIff`).
- `turn_metadata.py:93-96` promises the leading text byte for byte; blanks at its end are lost
  (exactly: `TextUnchangedIff`).
- `cost.py:348-357` speaks of the most recent call; without a model it reports on the model whose
  first call came last (exactly: `SavingsOfLatestCallIff`).
- `turn_metadata.py:120-122` says a list keeps the user's text untouched; a text block that quotes
  both tags is dropped (`QuotedTagsAreDropped`, exactly: `OthersIdempotent`).

## Model

| member | source | states |
|---|---|---|
| GuardrailDecisions.Strictest | markbot/agent/tool_guardrails.py:565-576 | The combined decision comes from the list (or is ALLOW) and none in the list outranks it. |
| GuardrailDecisions.StrictestIsFirst | markbot/agent/tool_guardrails.py:565-576 | Of equally strict decisions the earliest wins; ALLOW results exactly when nothing is stricter. |
| GuardrailHistory.StreakIsTrailingRun | markbot/agent/tool_guardrails.py:1016-1051 | A tool's streak is the length of the maximal trailing run of failed, non-denied calls among that tool's own observations. |
| GuardrailHistory.BlockedToolIff | markbot/agent/tool_guardrails.py:1016-1051 | A tool is blocked if and only if some streak of it in the history since the last reset reached `tool_streak_block`. |
| GuardrailHistory.ExactCountSinceLastClear | markbot/agent/tool_guardrails.py:970-1014 | The exact-failure count of a key is the number of failures with it after the last observation that clears it, with the cut point. |
| GuardrailHistory.ExactCountsArePairCountsIff | markbot/agent/tool_guardrails.py:970-1014 | The colon-joined key counts failures per (tool, signature) since the tool's last success on every history if and only if no tool name followed by a colon begins another one followed by a colon. |
| GuardrailHistory.ColonCollision | markbot/agent/tool_guardrails.py:970-985 | A failure of tool "a:b" with signature "c" counts as one of tool "a" with signature "b:c", which that pair never had. |
| GuardrailHistory.BlockedSigIff | markbot/agent/tool_guardrails.py:970-1001 | A signature key is blocked if and only if at some observation its failure count or its run of identical results reached the blocking threshold. |
| GuardrailHistory.BlockedStaysBlocked | markbot/agent/tool_guardrails.py:917-929 | A call refused after a history is refused after every extension of it. |
| GuardrailHistory.ObserveBlocksIff | markbot/agent/tool_guardrails.py:630-676 | An observation never halts; it answers Block if and only if it lifts its tool's streak, its exact key or its normalised key over the threshold, and the same call is refused from then on. |
| GuardrailHistory.StreakWarnsOnce | markbot/agent/tool_guardrails.py:1039-1051 | Between resets a tool gets at most one streak warning. |
| GuardrailVerdicts.RunIsTrailing | markbot/agent/tool_guardrails.py:1053-1108 | A run is the maximal number of equal entries at the end of a list. |
| GuardrailVerdicts.NoProgressIsRun | markbot/agent/tool_guardrails.py:1110-1157 | The no-progress entry of a key is the last result of the idempotent calls with that key and the run of equal results. |
| GuardrailVerdicts.RepeatCountIsRun | markbot/agent/tool_guardrails.py:1053-1108 | The repeat counter is the run of equal keys among the calls that have one. |
| GuardrailVerdicts.RepeatRemindsIff | markbot/agent/tool_guardrails.py:1053-1108 | A reminder comes if and only if that run is at least 2 and has just reached a configured tier, and names its length. |
| GuardrailVerdicts.WarnedToolIff | markbot/agent/tool_guardrails.py:1039-1051 | A tool was warned about if and only if some streak of it lay from the warning threshold on below the blocking one. |
| GuardrailVerdicts.WarnedSigIff | markbot/agent/tool_guardrails.py:992-1014 | A key was warned about if and only if, at some call with it, its failure count or its run of equal results lay between the two thresholds. |
| GuardrailVerdicts.CallRefusedIff | markbot/agent/tool_guardrails.py:917-929 | A call is refused if and only if at some point its tool had broken as often in a row as the threshold says, or one of its two keys had failed or repeated a result that often. |
| GuardrailVerdicts.ObserveVerdict | markbot/agent/tool_guardrails.py:630-676 | The complete answer to one observation, with reason and count: blocks before warnings, in the order exact failure, streak, repeat, no progress, each warning once. |
| FailurePolicy.PhaseCases | markbot/agent/iteration.py:1946-2033 | The phase halts if and only if one of the two verdicts halts; a failure warning beats a stagnation warning. |
| FailurePolicy.PhaseEffect | markbot/agent/iteration.py:1946-2033 | A phase that does not halt trims the failure window and clears the rate exactly if a failure detector fired, and halts whenever one fires with the budget spent. |
| FailurePolicy.FailingRunHalts | markbot/agent/tool_guardrails.py:678-746 | From any all-failed window, an unbroken series of failing batches is halted within the number of batches `Patience` computes from window and budget. |
| FailurePolicy.FreshFailingTurnHalts | markbot/agent/tool_guardrails.py:678-758 | From a fresh window with window_size >= threshold >= 1: halted after at most threshold + max_reflections * max(1, threshold - max(1, window_size/2)) batches of failures. |
| FailurePolicy.WindowAloneHaltsExactly | markbot/agent/tool_guardrails.py:678-758 | With the rate detector and stagnation silent, single failing calls are halted at exactly that batch and not earlier. |
| FailurePolicy.OtherDetectorsOnlyHaltEarlier | markbot/agent/tool_guardrails.py:678-721 | For failing batches of any size: of two configurations with the same window policy, one in which the other detectors stay silent never halts earlier, from any state no closer to its halt. |
| FailurePolicy.SilencingNeverHaltsEarlier | markbot/agent/tool_guardrails.py:678-721 | In particular from the same state: enabling the other detectors never delays the halt of a failing turn. |
| FailurePolicy.ShortWindowNeverFires | markbot/agent/tool_guardrails.py:678-695 | With a threshold above the window size the window detector fires on no outcome sequence. |
| FailurePolicy.UnproductiveTurnHalts | markbot/agent/tool_guardrails.py:764-854 | With S unseen signatures and F mutating iterations, stagnation halts a turn by its (S + F + 1) * ceiling-th non-neutral iteration (less what is already counted), whatever the texts and the waits in between. |
| FailurePolicy.FreshUnproductiveTurnHalts | markbot/agent/tool_guardrails.py:764-854 | Without mutations, from a fresh tracker: halted by the (S + 1) * max(stagnation_warn, stagnation_block)-th non-neutral iteration. |
| FailurePolicy.ReflectionsBounded | markbot/agent/tool_guardrails.py:723-746 | However the turn goes, at most max_reflections failure reflections and at most max_reflections stagnation reflections are injected, less those already spent. |
| TurnVerdicts.FailuresCounted | markbot/agent/tool_guardrails.py:695-697 | What is compared with the threshold is the number of failures in the window. |
| TurnVerdicts.WindowIsLatest | markbot/agent/tool_guardrails.py:659-664 | After any series of outcomes the window is the last window_size of them and the totals count all. |
| TurnVerdicts.VerdictOnOutcomes | markbot/agent/tool_guardrails.py:678-746 | The verdict on any series of outcomes, with reason and count: window if at least threshold of the last window_size failed, else rate if enough calls were made and failed since the last reflection; halt if and only if the budget is spent. |
| TurnVerdicts.UnlessStagnant | markbot/agent/iteration.py:1946-2033 | Below the stagnation threshold the phase gives exactly that verdict. |
| TurnVerdicts.ReflectionKeepsHalf | markbot/agent/tool_guardrails.py:748-758 | A reflection keeps the last max(1, window_size/2) outcomes and forgets the totals; after a forced stop a detector that fires halts. |
| TurnVerdicts.FewFailuresNeverIntervene | markbot/agent/tool_guardrails.py:678-746 | A turn whose failures, with those in the window, stay below the threshold and below min_calls * ratio is never reflected on and never halted for failing, however long it is. |
| TurnVerdicts.SuccessfulTurnIsLeftAlone | markbot/agent/tool_guardrails.py:678-746 | In particular a fresh turn in which every call succeeds. |
| TurnVerdicts.SeenIffMade | markbot/agent/tool_guardrails.py:795-801 | The signatures remembered are those of the calls made that are not waits. |
| TurnVerdicts.ProductiveIff | markbot/agent/tool_guardrails.py:764-815 | An iteration resets the counter if and only if it mutated a file, or made a call no earlier iteration made while the assistant did not repeat its last text; pure waiting leaves it. |
| TurnVerdicts.StagnationAloneHaltsExactly | markbot/agent/tool_guardrails.py:817-854 | With few failures, a turn that only repeats earlier calls is halted for stagnation at exactly the iteration that thresholds and budget determine, and not before. |
| TurnVerdicts.MutatingTurnNeverStagnates | markbot/agent/tool_guardrails.py:764-854 | A turn whose iterations all mutate a file or only wait is never reflected on or halted for stagnation. |
| ToolLoopGuardrail.MethodsDistinct | markbot/agent/tool_guardrails.py:865-874 | Whatever list without duplicates was installed, no entry is ever added twice. |
| ToolLoopGuardrail.BlacklistBoundedIff | markbot/agent/tool_guardrails.py:865-874 | From any installed list, the larger of its length and the configured cap bounds the failed-method list on all entry sequences if and only if the cap is at least 2. |
| ToolLoopGuardrail.NoteMethodsConcat | markbot/agent/tool_guardrails.py:865-874 | Entries of successive batches add up, so both facts hold after any number of batches. |
| ToolLoopGuardrail.LatestMethodsKept | markbot/agent/tool_guardrails.py:865-874 | With a cap of at least 2 the list holds the latest cap distinct entries, oldest first. |
| ToolLoopGuardrail.ListedMethodIgnored | markbot/agent/tool_guardrails.py:865-874 | An entry that is listed already changes nothing. |
| ToolLoopGuardrail.CapIsHard | markbot/agent/tool_guardrails.py:876-915 | In any sequence of checks of any tools, exactly as many calls of a capped tool are admitted as are requested, up to what is left of its cap. |
| ToolLoopGuardrail.TurnCeilings | markbot/agent/tool_guardrails.py:876-915 | In a fresh turn each of the four capped tools is admitted up to its own configured ceiling and every other tool always. |
| ToolLoopGuardrail.ToolCallGuardrail.constructor | markbot/agent/tool_guardrails.py:582-588 | Starts with every field agreeing with the empty history. |
| ToolLoopGuardrail.ToolCallGuardrail.ResetTurnLocal | markbot/agent/tool_guardrails.py:590-612 | Clears exactly the per-turn state; the history starts over. |
| ToolLoopGuardrail.ToolCallGuardrail.ResetForTurn | markbot/agent/tool_guardrails.py:614-628 | Additionally clears reflections, forced stops and the failed-method list. |
| ToolLoopGuardrail.ToolCallGuardrail.LoadPersisted | markbot/agent/tool_guardrails.py:957-964 | Installs the budgets and the failed-method list of the session and nothing else. |
| ToolLoopGuardrail.ToolCallGuardrail.Observe | markbot/agent/tool_guardrails.py:630-676 | All dictionaries, sets and counters again equal their functions of the history extended by the observation; the decision is the strictest of the detectors' on that history. |
| ToolLoopGuardrail.ToolCallGuardrail.RunDetectors | markbot/agent/tool_guardrails.py:669-676 | The four detectors in order, on fields that agree with the history. |
| ToolLoopGuardrail.ToolCallGuardrail.NoteWindow | markbot/agent/tool_guardrails.py:659-664 | Window and cumulative counters after one outcome. |
| ToolLoopGuardrail.ToolCallGuardrail.ObserveExactFailure | markbot/agent/tool_guardrails.py:970-1014 | Counts and signature sets agree with the extended history. |
| ToolLoopGuardrail.ToolCallGuardrail.ObserveToolStreak | markbot/agent/tool_guardrails.py:1016-1051 | Streaks and blocked and warned tools agree with the extended history. |
| ToolLoopGuardrail.ToolCallGuardrail.ObserveRepeatCall | markbot/agent/tool_guardrails.py:1053-1108 | Last call, run length and announced tiers agree with the extended history. |
| ToolLoopGuardrail.ToolCallGuardrail.ObserveNoProgress | markbot/agent/tool_guardrails.py:1110-1157 | Identical-result runs agree with the extended history. |
| ToolLoopGuardrail.ToolCallGuardrail.NoteFailedMethod | markbot/agent/tool_guardrails.py:865-874 | The list after one entry: de-duplicated and trimmed by the source's slice. |
| ToolLoopGuardrail.ToolCallGuardrail.IsCallBlocked | markbot/agent/tool_guardrails.py:917-929 | True exactly if the tool or one of the call's two signatures is blocked in the history. |
| ToolLoopGuardrail.ToolCallGuardrail.CheckLoopCap | markbot/agent/tool_guardrails.py:876-915 | Blocks exactly at the cap; the counts change as the step that the sequence result is about. |
| ToolLoopGuardrail.ToolCallGuardrail.NoteToolIteration | markbot/agent/tool_guardrails.py:764-815 | The stagnation tracker after one batch. |
| ToolLoopGuardrail.ToolCallGuardrail.ObserveAll | markbot/agent/iteration.py:1946-2033 | Every result of a batch is observed: window and failed-method list are those of the whole series. |
| ToolLoopGuardrail.ToolCallGuardrail.CheckFailureLoop | markbot/agent/iteration.py:1946-2033 | Acts on the stricter verdict and charges the warning to the detector that gave it. |
| ToolLoopGuardrail.ToolCallGuardrail.RunBatch | markbot/agent/iteration.py:1946-2033 | One iteration (observe each result, note the batch, check) is one step of the turn-level run the bounds are about, and offers its failures to the failed-method list. |
| AdmissionSafety.StepKeepsInv | markbot/agent/loop.py:739-780 | Every legal step of every coroutine keeps the invariant: holders of a lock are the recorded owner, work on the session's current lock, and permits plus gate holders equal the gate's size. |
| AdmissionSafety.InvIsExclusive | markbot/agent/loop.py:739-757 | The invariant implies at most one coroutine per session past the lock and at most `max` on the gate. |
| AdmissionSafety.LegalRunsAreSafe | markbot/agent/loop.py:739-780 | So does every state reached by legal steps. |
| AdmissionSafety.InitIsSafe | markbot/agent/loop.py:181-203 | The initial state satisfies the invariant. |
| AdmissionProgress.ReentryNeverWaits | markbot/agent/loop.py:717-761 | In a safe state an owner that enters again is inside at once, one level deeper, and nothing else changes. |
| AdmissionOutcome.LockFreeIff | markbot/agent/loop.py:766-772 | A session's lock is free and unqueued if and only if no coroutine of the session holds it or waits for it. |
| AdmissionOutcome.PermitsLeftIff | markbot/agent/loop.py:773-775 | A permit is left if and only if fewer than max coroutines hold the gate. |
| AdmissionOutcome.EnterOutcome | markbot/agent/loop.py:739-775 | A new request queues behind its own session if that is claimed, runs at once if fewer than max hold the gate and nobody queues for it, and queues for the gate otherwise. |
| AdmissionOutcome.GateOutcome | markbot/agent/loop.py:766-775 | The same gate rule for a waiter that is handed its lock, and for a reply. |
| AdmissionOutcome.ResumableIff | markbot/agent/loop.py:766-776 | A queued coroutine can get its lock if and only if no other of its session is past it, and the gate if and only if fewer than max hold it. |
| AdmissionOutcome.OwnerReentry | markbot/agent/loop.py:759-761 | In every state, an owner re-enters without suspending and leaving undoes the entry. |
| AdmissionProgress.SomeStepForward | markbot/agent/loop.py:763-780 | In every safe state that is not idle some grant or exit is possible: nothing is stuck, since a gate holder never waits for a session lock. |
| AdmissionProgress.ForwardRunsDrain | markbot/agent/loop.py:739-780 | From every safe state, grants and exits in any order are bounded by what there is to do, nested frames included, and a run of them that cannot go on has left every coroutine idle, every lock free and every permit back. |
| AdmissionProgress.Drains | markbot/agent/loop.py:739-780 | Such a run exists from every safe state. |
| AdmissionLegality.LegalIffSafe | markbot/agent/loop.py:739-780 | The condition is exact: a step is legal if and only if no legal continuation breaks exclusion. |
| AdmissionLegality.IllegalCleanupBreaks | markbot/agent/loop.py:1038-1039 | Dropping the lock of a session that is in use lets two coroutines in. |
| AdmissionLegality.IllegalEnterBreaks | markbot/agent/loop.py:759-761 | Entering on a leftover owner entry lets two coroutines in. |
| AdmissionLegality.CancelledAtGateKeepsOwner | markbot/agent/loop.py:771-780 | A run of two coroutines in which a cancellation while queuing for the gate leaves an owner entry without a lock behind. |
| OwnerEntries.OwnersStayHeldIff | markbot/agent/loop.py:717-780 | While every owner entry names a coroutine that holds its session lock, every step keeps that so except exactly a cancellation at the gate, and no step but a cleanup can be illegal. |
| OwnerEntries.AlwaysHeldIff | markbot/agent/loop.py:717-780 | Over every run with cleanups of unused sessions only: every owner entry belongs to a holder in every state if and only if no coroutine is cancelled at the gate; then every step is legal and exclusion holds. |
| OwnerEntries.FromTheStart | markbot/agent/loop.py:717-780 | The same from the initial state, so exclusion there rests on the surroundings alone. |
| AdmissionControl.KeptSafe | markbot/agent/loop.py:739-780 | Legal steps keep the class's state safe. |
| AdmissionControl.AgentLoop.constructor | markbot/agent/loop.py:181-203 | The fields start as the protocol's initial state. |
| AdmissionControl.AgentLoop.GetSessionLock | markbot/agent/loop.py:680-685 | The known lock object, or a new one that is entered in the dictionary. |
| AdmissionControl.AgentLoop.PastSessionLock | markbot/agent/loop.py:766-774 | Owner recorded; inside at once without a gate, or with a permit left and nobody queuing for one, else queued on the gate. |
| AdmissionControl.AgentLoop.EnterTurn | markbot/agent/loop.py:739-774 | Is the Enter step of the protocol, the re-entrant bypass included; from a safe state a new request gets in, or waits for its session or the gate, exactly as the other coroutines' states say. |
| AdmissionControl.AgentLoop.ResumeWithLock | markbot/agent/loop.py:766-774 | Is the LockGranted step: inside if the gate has room, else queued on it. |
| AdmissionControl.AgentLoop.ResumeWithGate | markbot/agent/loop.py:773-776 | Is the GateGranted step. |
| AdmissionControl.AgentLoop.LeaveTurn | markbot/agent/loop.py:775-780 | Is the Leave step: owner entry, permit and lock go, in that order. |
| AdmissionControl.AgentLoop.CancelWait | markbot/agent/loop.py:763-774 | Is the Cancel step, which keeps the owner entry. |
| AdmissionControl.AgentLoop.EnterReply | markbot/agent/loop.py:1119-1129 | A reply takes only the gate, at once if it has room. |
| AdmissionControl.AgentLoop.ResumeReply | markbot/agent/loop.py:1126-1129 | Is the ReplyGranted step. |
| AdmissionControl.AgentLoop.LeaveReply | markbot/agent/loop.py:1126-1138 | Is the ReplyLeaves step. |
| AdmissionControl.AgentLoop.CleanupSession | markbot/agent/loop.py:1038-1039 | Drops the dictionary entry and only that. |
| PriorityQueues.ClassesPartition | markbot/bus/queue.py:44-61 | The lengths of the three class queues add up to the number of pending items. |
| PriorityQueues.ClassesHoldPending | markbot/bus/queue.py:44-61 | The three class queues together hold exactly the pending items, each under its class. |
| PriorityQueues.OldestPops | markbot/bus/queue.py:98-111 | Removing the oldest item of a class takes the head of that class's queue and leaves the other classes alone. |
| PriorityQueues.OldestOfFirstIsNext | markbot/bus/queue.py:104-111 | The oldest item of the first non-empty class in scan order is the oldest item of the most urgent class. |
| PriorityQueues.ClassIsFifo | markbot/bus/queue.py:58-111 | Over every run each class is FIFO: contents then inputs equal outputs (served or evicted) then contents, so nothing is delivered twice or lost. |
| PriorityQueues.PriorityQueue.constructor | markbot/bus/queue.py:44-50 | Starts empty with the event clear. |
| PriorityQueues.PriorityQueue.Signal | markbot/bus/queue.py:52-56 | The event tells whether something is pending; setting it wakes every waiter. |
| PriorityQueues.PriorityQueue.PutNoWait | markbot/bus/queue.py:58-66 | Refuses exactly when its class holds maxsize items and there is a limit, else appends; no class ever exceeds the limit, the count is the sum of the class lengths and nobody is left waiting. |
| PriorityQueues.PriorityQueue.PutWithBackpressure | markbot/bus/queue.py:68-96 | With room the item is appended; without, DROP_OLDEST replaces exactly the oldest item of the same class and the other policies refuse. |
| PriorityQueues.PriorityQueue.GetAttempt | markbot/bus/queue.py:98-115 | Suspends exactly when nothing is pending, else returns the oldest item of its class: a system item if there is one, else a heartbeat item, else a user item. |
| PartitionedQueues.TakeApproaches | markbot/bus/queue.py:169-180 | A get serves a waiting partition or brings the cursor nearer to it by what it passed, despite the modular index. |
| PartitionedQueues.PutKeepsDistance | markbot/bus/queue.py:150-158 | A put moves a partition away from the cursor by at most one, and only by creating a partition. |
| PartitionedQueues.ServedInTime | markbot/bus/queue.py:160-180 | A non-empty partition is served before the gets exceed its distance plus the partitions created meanwhile. |
| PartitionedQueues.Fair | markbot/bus/queue.py:160-180 | So within as many gets as there are partitions plus those created meanwhile, whatever else is put. |
| PartitionedQueues.PartitionIsFifo | markbot/bus/queue.py:150-180 | Each partition is FIFO over every run. |
| PartitionedQueues.Overtakes | markbot/bus/queue.py:160-180 | Two items of one session, then one of another: the second get serves the newest while an older item waits. |
| PartitionedQueues.OldestFirstIff | markbot/bus/queue.py:132-138 | Every run of a new queue over a set of session keys hands items out oldest first if and only if there is at most one key. |
| PartitionedQueues.ScanCovers | markbot/bus/queue.py:169-191 | If the scan finds every partition empty the total is 0, so the fall-through behind it is not reached. |
| PartitionedQueues.PartitionedQueue.constructor | markbot/bus/queue.py:140-148 | Starts without partitions. |
| PartitionedQueues.PartitionedQueue.PutNoWait | markbot/bus/queue.py:150-158 | Refuses exactly when the partition holds maxsize items and there is a limit, else appends, creating it if needed; no partition exceeds the limit and the count is the sum of the lengths. |
| PartitionedQueues.PartitionedQueue.GetAttempt | markbot/bus/queue.py:160-191 | Suspends exactly when the total is 0, else performs the round-robin take. |
| PartitionedQueues.PartitionedQueue.Scan | markbot/bus/queue.py:169-174 | Finds the first non-empty partition behind the cursor whenever the total is positive. |
| PartitionedQueues.PartitionedQueue.Serve | markbot/bus/queue.py:173-180 | Takes the oldest item of that partition, moves the cursor behind it, clears the event at 0. |
| ResponseCache.WithinCapacity | markbot/agent/llm_response_cache.py:188-197 | After every trace the cache holds at most `capacity` entries and no key twice. |
| ResponseCache.EntriesAreCurrent | markbot/agent/llm_response_cache.py:177-197 | Every entry holds the latest put of its key since its last invalidation, and its hit count is the number of lookups since that put. |
| ResponseCache.HitIsLatestPut | markbot/agent/llm_response_cache.py:177-186 | A hit returns exactly that body. |
| ResponseCache.StepKeepsNear | markbot/agent/llm_response_cache.py:177-205 | One operation keeps caches of capacity c and c + 1 equal up to one additional entry somewhere in the recency order. |
| ResponseCache.OneMoreSlot | markbot/agent/llm_response_cache.py:177-205 | So every trace does. |
| ResponseCache.Inclusion | markbot/agent/llm_response_cache.py:177-205 | For all capacities c <= d and every trace, the contents at c are contained in those at d, and every hit at c is the same hit at d. |
| ResponseCache.HitsGrow | markbot/agent/llm_response_cache.py:177-186 | The number of hits never falls as the capacity grows. |
| ResponseCache.SurvivesEviction | markbot/agent/llm_response_cache.py:196-197 | A key with fewer than `capacity` keys behind it in recency order outlives an eviction. |
| ResponseCache.RecentlyUsedSurvives | markbot/agent/llm_response_cache.py:177-205 | A key whose reuse distances all stay below the capacity is still cached. |
| ResponseCache.BigEnoughIsExact | markbot/agent/llm_response_cache.py:177-205 | A cache no smaller than the number of keys ever put is an exact map. |
| ResponseCache.LLMResponseCache.constructor | markbot/agent/llm_response_cache.py:154-162 | Starts empty. |
| ResponseCache.LLMResponseCache.Make | markbot/agent/llm_response_cache.py:154-156 | Refuses a capacity below one. |
| ResponseCache.LLMResponseCache.GetEntry | markbot/agent/llm_response_cache.py:177-186 | Answers as the trace says, moves the entry to the recent end, counts hit or miss. |
| ResponseCache.LLMResponseCache.PutBody | markbot/agent/llm_response_cache.py:188-197 | The entries are again the function of the extended trace. |
| ResponseCache.LLMResponseCache.Trim | markbot/agent/llm_response_cache.py:196-197 | The eviction loop keeps the most recently used entries. |
| ResponseCache.LLMResponseCache.Invalidate | markbot/agent/llm_response_cache.py:199-205 | Drops one key or all. |
| ResponseCache.LLMResponseCache.Clear | markbot/agent/llm_response_cache.py:207-211 | Restarts trace and counters. |
| Conversation.SplitRoles | markbot/agent/compact.py:853-868 | System messages on one side, all others on the other, and the sizes add up. |
| Conversation.SplitLosesNothing | markbot/agent/compact.py:853-868 | Together the two sides hold exactly the messages of the whole. |
| Conversation.SplitOneMore | markbot/agent/compact.py:853-868 | Each further message goes to the end of its side, so both keep the order. |
| Conversation.SystemsStayFirst | markbot/agent/compact.py:1113-1113 | System messages in front of the rest are exactly the system messages of the whole, in order. |
| AutoCompaction.Collect | markbot/agent/compact.py:1035-1046 | The needed and declared ids of the recent part, exactly. |
| AutoCompaction.FindEarliest | markbot/agent/compact.py:1047-1061 | The earliest find among the 39 messages before the split and never message 0, or none if there is none. |
| AutoCompaction.OpenAtUser | markbot/agent/compact.py:1062-1067 | The nearest user message at most nine before the find, else the find. |
| AutoCompaction.FindSplit | markbot/agent/compact.py:1034-1069 | The split point as specified by the three above. |
| AutoCompaction.SplitIsUnique | markbot/agent/compact.py:1034-1069 | That specification determines it. |
| AutoCompaction.KeptSize | markbot/agent/compact.py:1034-1069 | At least 2 * keep_recent messages are kept, at most 48 more, and at least one is dropped. |
| AutoCompaction.SplitExactly | markbot/agent/compact.py:1034-1069 | The kept tail starts 2 * keep_recent messages from the end, or, if an assistant at most 39 messages before and not first is separated from a result, at the nearest user message at most nine before it, else at it. |
| AutoCompaction.ClosedFromNonTool | markbot/agent/compact.py:1062-1069 | A tail of a well-paired conversation that does not begin with a tool message has no orphan. |
| AutoCompaction.KeptIsPairedIff | markbot/agent/compact.py:1034-1069 | With results directly behind their call and ids declared once: every kept result's assistant is kept if and only if the assistant the tentative split separates from its results is not message 0 and at most 39 messages before the split. |
| AutoCompaction.ShortBatchesStayPaired | markbot/agent/compact.py:1034-1069 | So always with at most 39 results to a call and a non-assistant first message. |
| AutoCompaction.FirstAssistantIsLost | markbot/agent/compact.py:1048-1049 | A conversation that begins with an assistant can lose it. |
| AutoCompaction.FortyResultsAreLost | markbot/agent/compact.py:1048-1049 | So can a call with forty results. |
| AutoCompaction.AutoCompact | markbot/agent/compact.py:1025-1143 | Short input, or no summary at all, comes back as it was; else the system messages, a user message whose text starts with the continuation notice, the summary and the task context, the plan as a user message of its own if there is one, and exactly the kept tail. |
| AutoCompaction.CompactedConversation | markbot/agent/compact.py:1113-1143 | System messages survive first and in order, the last 2 * keep_recent messages are unchanged, and the output has no orphan exactly under the condition above. |
| HistorySnip.Clean | markbot/agent/compact.py:1166-1181 | The cleaning loop drops exactly the orphans. |
| HistorySnip.CleanedExactly | markbot/agent/compact.py:1166-1181 | The result is the subsequence of precisely the messages that answer no call, or the call of an assistant before them. |
| HistorySnip.CleanedHasNoOrphan | markbot/agent/compact.py:1166-1181 | Every result left is preceded by an assistant that declares it. |
| HistorySnip.PrefixSurvives | markbot/agent/compact.py:1163-1181 | The system messages and the notice pass the cleaning and influence no other message. |
| HistorySnip.Snip | markbot/agent/compact.py:1146-1186 | System messages, one notice, then the cleaned last `keep` messages. |
| HistorySnip.SnipLeavesNoOrphan | markbot/agent/compact.py:1146-1186 | For keep >= 1: systems first and in order, the cleaned last keep others behind the notice, no orphan anywhere. |
| HistorySnip.ZeroKeepKeepsAll | markbot/agent/compact.py:1151-1151 | With keep = 0 the slice keeps everything. |
| PtlRetry.Group | markbot/agent/compact.py:411-430 | The rounds: concatenated they are the input, none is empty, a new one starts exactly at each non-blank string user message. |
| PtlRetry.StartsRoundIff | markbot/agent/compact.py:411-430 | A round starts at a user message whose string content has a character that is not blank. |
| PtlRetry.GroupingIsUnique | markbot/agent/compact.py:411-430 | That describes one grouping only. |
| PtlRetry.TruncateHead | markbot/agent/compact.py:403-443 | None exactly with fewer than two rounds; else the oldest min(max(1, g/5), g - 1) rounds are gone and the marker branch is never taken. |
| PtlRetry.TruncationIsProper | markbot/agent/compact.py:432-443 | With g >= 2 rounds exactly the oldest g/5 rounds go, but at least one; the result is a proper, non-empty suffix that starts with a non-blank user message and ends with the newest round. |
| PtlRetry.RestIsGrouped | markbot/agent/compact.py:434-436 | Re-grouping what is retained gives the remaining rounds. |
| PtlRetry.RetriesEnd | markbot/agent/compact.py:403-443 | A conversation of g rounds is truncated successfully at most g - 1 times; after that many only its newest round is left. |
| Collapse.FitsExactly | markbot/agent/compact.py:194-219 | All texts of a length collapse to within the limit if and only if shares, marker and decimal count fit it and the tail share is positive. |
| Collapse.SharesAre | markbot/agent/compact.py:206-216 | Shares that do not fit are replaced by two halves, equal up to one, of limit - 40, or by one character each for limits up to 41. |
| Collapse.DecimalStandsForIt | markbot/agent/compact.py:217-219 | The number in the marker is the decimal one, without leading zeros. |
| Collapse.RoomyFits | markbot/agent/compact.py:206-216 | They do for limit >= 42, tail >= 1, head + tail either >= limit or <= limit - 40, and fewer than 10^14 omitted characters. |
| Collapse.KeepsBothEnds | markbot/agent/compact.py:217-219 | For every text over the limit and every configuration: the front share and the back share, each up to stripped blanks, around the marker text with the number of characters the shares leave out; a tail share of 0 is the whole text. |
| Collapse.CollapseTwice | markbot/agent/compact.py:204-205 | When the length fits, a second collapse changes nothing. |
| Collapse.MiddleGroundOverflows | markbot/agent/compact.py:206-219 | With head + tail within 26 below the limit the result exceeds the limit. |
| CollapsePass.CollapseBlocks | markbot/agent/compact.py:914-926 | Exactly the text and tool_result blocks over the limit are collapsed. |
| CollapsePass.ApplyCollapse | markbot/agent/compact.py:891-927 | Every message is rewritten in its place, in its content only, and system messages not at all. |
| CollapsePass.OnlyTextsChange | markbot/agent/compact.py:891-927 | In each non-system message exactly the string content, and the text and tool_result blocks, are collapsed; every other block and field stays. |
| CollapsePass.PassBoundsAndSettles | markbot/agent/compact.py:891-927 | When all lengths fit, every non-system text ends within the limit and a second pass is the identity. |
| ToolBatches.PlanToolBatches | markbot/agent/iteration.py:656-678 | The batches are the calls in order, parallel only if all safe, and no two neighbours are both safe. |
| ToolBatches.PlanIsUnique | markbot/agent/iteration.py:656-678 | These properties determine the plan. |
| ToolBatches.BatchesAreRuns | markbot/agent/iteration.py:656-678 | A batch is a maximal run of safe calls or a single unsafe call. |
| ToolBatches.SurvivedIff | markbot/agent/iteration.py:773-798 | The execution survives a result always, an error if and only if the call is safe with a safe neighbour, and a cancellation never. |
| ToolBatches.ExecuteToolCalls | markbot/agent/iteration.py:773-798 | Each call is started once, in order, and result i lands in slot i, unless a lone call fails or a parallel one is cancelled: then the first such outcome is raised after its batch and no later batch starts. |
| ShellClassify.ClassifyShellCommand | markbot/agent/shell_classify.py:81-139 | The loops over separators and prefixes compute the kind of the first segment's words. |
| ShellClassify.Split | markbot/agent/shell_classify.py:105-105 | The words of the command. |
| ShellClassify.TokensAfterWord | markbot/agent/shell_classify.py:105-105 | Splitting read from the front: a word before a blank is the first word, and the rest splits by itself. |
| ShellClassify.BareIs | markbot/agent/shell_classify.py:106-113 | Exactly the leading words that are assignments or sudo, env, time or noglob are skipped, in any order. |
| ShellClassify.KindByTables | markbot/agent/shell_classify.py:114-139 | The kind of every command by its words: action if its first two words, or its first alone, are in the action table; else verify by the verify table or a known tool anywhere; the third word decides for service. |
| ShellClassify.RestartsAct | markbot/agent/shell_classify.py:19-71 | The documented examples: restarting, installing, pushing and removing act; asking a service for its status verifies. |
| ShellClassify.PrefixChangesNothing | markbot/agent/shell_classify.py:106-113 | A wrapper or an assignment in front never changes the kind of any command, as long as it holds no separator itself. |
| ShellClassify.ChainIsIgnored | markbot/agent/shell_classify.py:102-104 | A command stays the first segment when a chain follows, with or without a blank, exactly if it holds no separator and does not end in an ampersand before `&&`; then the chain changes nothing. |
| ShellClassify.OnlySegmentCounts | markbot/agent/shell_classify.py:102-104 | Every command has the kind of its first segment. |
| CompletionGate.Evaluate | markbot/agent/outcome.py:72-123 | Allows if and only if no requirement is unmet on a gated surface; nudges only below the maximum, else footers. |
| CompletionGate.PendingStep | markbot/agent/iteration.py:1735-1753 | A call leaves an action pending exactly if it acts, or one was pending and it does not confirm. |
| CompletionGate.ActionStaysPending | markbot/agent/iteration.py:1735-1753 | After a command of the action table no answer is completed without an outcome footer until run_code or a verifying command is called. |
| CompletionGate.ReplyTable | markbot/agent/iteration.py:3389-3548 | What every attempt to finish gets, case by case: error, content filter, cut-off answers, nudge, steer; only the rest is completed, with a footer if and only if a requirement is unmet. |
| CompletionGate.NudgesBounded | markbot/agent/iteration.py:3389-3548 | At most max_nudges nudges, three steers and two continuations of cut-off answers a turn, and a turn still open has had exactly that many attempts. |
| CompletionGate.CompletionMeansVerified | markbot/agent/iteration.py:3506-3548 | For every configuration: a completed answer has no outcome footer if and only if the gate is off for the surface, or each requirement switched on is met: nothing but documents changed or a counting command was run, and the last acting or confirming command did not act. |
| CompletionGate.StaleTestSuffices | markbot/agent/iteration.py:1751-1753 | After any history with a test and no pending action, a further change is accepted at once. |
| CompletionGate.TestAfterChangeIff | markbot/agent/iteration.py:1695-1753 | Every continuation that is accepted without an outcome footer runs a counting command after the change if and only if, just before the change, no counting command had been run or an action was pending. |
| CompletionGate.PassedTestIff | markbot/agent/iteration.py:1695-1753 | Every accepted continuation of a change rests on a test that passed if and only if one had passed before: a failed test counts like a passed one. |
| CompletionGate.AfterLastDot | markbot/agent/iteration.py:1760-1762 | The extension is what follows the last dot. |
| CompletionGate.DocumentIff | markbot/agent/iteration.py:1755-1765 | A path is a document if and only if what follows its last dot is, in lower case, one of the seven endings. |
| CompletionGate.LowerIff | markbot/agent/iteration.py:1755-1765 | Lower case turns exactly A to Z, and the Kelvin sign, into the letters that the endings use. |
| CompletionGate.LoopState.constructor | markbot/agent/iteration.py:344-358 | A fresh turn. |
| CompletionGate.LoopState.RecordFileMutation | markbot/agent/iteration.py:1665-1693 | Records exactly the successful calls of the three mutating tools. |
| CompletionGate.LoopState.RecordVerificationCall | markbot/agent/iteration.py:1695-1753 | run_code and verifying commands set the test flag and clear the pending one, acting commands only set the pending flag, neutral ones only the test flag. |
| CompletionGate.LoopState.RecordCall | markbot/agent/iteration.py:3038-3041 | Flags and list again summarise the whole command history. |
| CompletionGate.LoopState.NonDocMutations | markbot/agent/iteration.py:1755-1765 | Exactly the changes that are not to documents, in order. |
| CompletionGate.LoopState.OutcomeDecision | markbot/agent/iteration.py:1767-1778 | Allow, nudge or footer as the history demands, and the footer names exactly the unmet requirements. |
| CompletionGate.LoopState.FinalResponse | markbot/agent/iteration.py:3389-3548 | The reply is the one the history determines, early exits included; the saved text is the answer, the cut-off warning where it applies, and behind a rule the claim footer and the outcome footer that names the unmet requirements. |
| UsageBilling.DirectCharge | markbot/agent/cost.py:283-343 | The subagent path charges input minus cache buckets exactly when a read is reported in another key than Anthropic's or beside `prompt_tokens`. |
| UsageBilling.AnthropicAgrees | markbot/agent/cache_protocol.py:201-242 | For Anthropic-shaped usage both paths charge the four counts as reported. |
| UsageBilling.DeepSeekAgreesIff | markbot/agent/iteration.py:254-261 | For DeepSeek-shaped usage they agree if and only if the miss count is what the hit leaves of the prompt, or both are 0; a consistent report is charged once. |
| UsageBilling.DirectByKeys | markbot/agent/cost.py:283-343 | On the direct path every count is the first reported one of its keys, and the cache buckets leave the input unless Anthropic's own input figure stands beside its own read figure. |
| UsageBilling.DeepSeekCharges | markbot/agent/cost.py:283-343 | Both charges for a DeepSeek-shaped report, count by count. |
| UsageBilling.OpenAICharges | markbot/agent/cost.py:219-343 | Both charges for an OpenAI-shaped report: the cached part leaves the prompt on one path if something was read, on the other if something is left. |
| UsageBilling.CodexCharges | markbot/agent/cost.py:219-343 | Both charges for a Codex-shaped report. |
| UsageBilling.OpenAIAgreesIff | markbot/agent/cost.py:219-260 | For OpenAI-shaped usage they agree if and only if: without cached tokens, there is no creation or it exceeds the prompt; with them, the prompt is 0 or exceeds cached plus creation. |
| UsageBilling.OpenAIChargedOnceIff | markbot/agent/cost.py:244-260 | Charged input, read and creation add up to the prompt if and only if some of it was not cached or nothing was. |
| UsageBilling.CodexAgreesIff | markbot/agent/iteration.py:264-269 | For Codex-shaped usage the paths agree only on uncached calls. |
| CostTracking.ModelsAddUp | markbot/agent/cost.py:160-217 | Over every log the per-model costs sum to the total. |
| CostTracking.UnitPrices | markbot/agent/cost.py:177-182 | A thousand tokens of one kind cost that kind's price. |
| CostTracking.CostAdds | markbot/agent/cost.py:177-182 | Costs add up over tokens, so the four prices determine the cost of every call. |
| CostTracking.SavingsAreTheExcess | markbot/agent/cost.py:366-380 | None without a call or without cache reads, else the larger of zero and what the latest call would have cost more with its reads charged as input. |
| CostTracking.UsageOfOne | markbot/agent/cost.py:184-193 | The usage of a single call is that call, for its own model, and nothing for every other. |
| CostTracking.UsageAdds | markbot/agent/cost.py:184-193 | A model's tokens, calls and cost add up over two stretches of a log, and the last read is the later stretch's if it has a call. |
| CostTracking.OverspendBounded | markbot/agent/cost.py:205-217 | A run that stops at the first refusal records a prefix of its calls, all of them unless the budget is reached, and overspends by less than its last call. |
| CostTracking.SavingsFromUsage | markbot/agent/cost.py:366-380 | The snapshot of the last read suffices to compute what the model's latest call would have cost more without its cache reads, clamped at 0, and None without reads. |
| CostTracking.SavingsOfLatestCallIff | markbot/agent/cost.py:348-371 | Asked without a model, the reported savings are those of the latest call if and only if no model was first called after the first call of the latest call's model. |
| CostTracking.CostTracker.constructor | markbot/agent/cost.py:139-150 | Starts with nothing spent. |
| CostTracking.CostTracker.IsOverBudget | markbot/agent/cost.py:155-158 | Over exactly when a budget is set and the logged calls cost it. |
| CostTracking.CostTracker.Accumulate | markbot/agent/cost.py:184-193 | The accumulators are again the sums of each model's calls, one for each model in the log. |
| CostTracking.CostTracker.AddUsage | markbot/agent/cost.py:160-217 | Totals and accumulators are sums over the extended log, models in the order of their first calls; the spend is recorded even when the budget error is raised, which names total and budget and is raised exactly when the total reaches the budget; the warning comes at a positive threshold. |
| CostTracking.CostTracker.AddCanonicalUsage | markbot/agent/cost.py:219-260 | Adds the charge of the normalised usage. |
| CostTracking.CostTracker.UpdateFromResponse | markbot/agent/cost.py:262-343 | Adds the direct charge; no usage, no call. |
| CostTracking.CostTracker.LastTurnCacheSavings | markbot/agent/cost.py:348-380 | The savings of the given model, else of the model whose first call came last; None before any call. |
| PromptAssembly.SortPairwise | markbot/agent/context.py:604-604 | The sort by key is stable. |
| PromptAssembly.OrderIsStable | markbot/agent/context.py:604-604 | Sections by priority, equal priorities in declaration order. |
| PromptAssembly.OrderedByNumber | markbot/agent/context.py:604-604 | Of two sections in that order the first has the smaller priority number, or the same and an earlier declaration. |
| PromptAssembly.Shrink | markbot/agent/context.py:620-624 | The shrink loop ends, at the length its specification gives. |
| PromptAssembly.ShrunkFits | markbot/agent/context.py:620-624 | What is left fits the remaining budget if one character needs at most 300 tokens, and the length before did not. |
| PromptAssembly.Choose | markbot/agent/context.py:607-640 | The loop keeps exactly the longest prefix of the priority order that fits, then perhaps a cut section. |
| PromptAssembly.GreedyIsUnique | markbot/agent/context.py:610-613 | That prefix is determined. |
| PromptAssembly.Assemble | markbot/agent/context.py:587-645 | Everything in declaration order if it fits; else the kept sections in the order of their sort keys, with one cut section exactly if more than 300 tokens were left. |
| PromptAssembly.PartsAreUnique | markbot/agent/context.py:642-645 | What is kept determines the list. |
| PromptAssembly.ShapeOfAssembly | markbot/agent/context.py:642-645 | Whole sections in declaration order, at most one cut section, last if and only if no section with declaration index 1000 or more is kept whole. |
| PromptAssembly.CutIsLastIff | markbot/agent/context.py:642-645 | For every n: all assemblies of n sections, whatever their contents, priorities, budget and estimate, end in the cut section if and only if n is at most 1000. |
| PromptAssembly.CutCanComeFirst | markbot/agent/context.py:642-645 | For every n above 1000 an input on which the cut section is not last. |
| PromptAssembly.UrgentKeptIff | markbot/agent/context.py:604-613 | When not everything fits, for every priority q: all sections of priority q and more urgent ones are kept whole if and only if there are none or their tokens together fit the budget. |
| PromptAssembly.FitsBudget | markbot/agent/context.py:607-640 | Without the truncation note, what is kept fits the budget. |
| PromptAssembly.NotedIffShortened | markbot/agent/context.py:614-628 | The cut text begins with the section's own text and has the note if and only if that is not all of it. |
| PromptAssembly.CutIsNoted | markbot/agent/context.py:614-640 | A section is cut if and only if more than 300 tokens were left: its text is then a proper beginning that fits, the first tried that does, and the note. |
| TurnMetadata.StripOfBlock | markbot/agent/turn_metadata.py:90-108 | What stripping returns for any text that ends in a block, for any json. |
| TurnMetadata.StripMetaIs | markbot/agent/turn_metadata.py:90-108 | For every text: what precedes the last opening tag, right-trimmed, and what stands between it and the next closing tag; the text itself without such a pair. |
| TurnMetadata.AttachIs | markbot/agent/turn_metadata.py:111-128 | The clean text, a blank line unless it is empty, and the tagged json. |
| TurnMetadata.JsonRoundTripIff | markbot/agent/turn_metadata.py:90-128 | For every text, stripping an attached block returns exactly its json if and only if the json contains neither tag. |
| TurnMetadata.TextRoundTripIff | markbot/agent/turn_metadata.py:90-128 | It returns the right-trimmed clean text if and only if the json does not contain the opening tag. |
| TurnMetadata.CleanUnchangedIff | markbot/agent/turn_metadata.py:90-128 | The clean text comes back unchanged if and only if, besides, it does not end in a blank. |
| TurnMetadata.TextUnchangedIff | markbot/agent/turn_metadata.py:90-128 | A text without the opening tag comes back character for character if and only if the json lacks that tag and the text does not end in a blank. |
| TurnMetadata.CleanText | markbot/agent/turn_metadata.py:100-103 | A text without the opening tag is its own clean text. |
| TurnMetadata.AttachTwiceIff | markbot/agent/turn_metadata.py:111-128 | Attaching again replaces the first block if and only if the first json does not contain the opening tag. |
| TurnMetadata.AttachTwiceToCleanText | markbot/agent/turn_metadata.py:111-128 | For a text without the opening tag that is attaching the second metadata to the right-trimmed text. |
| TurnMetadata.AttachToList | markbot/agent/turn_metadata.py:129-143 | In a list exactly the text blocks with both tags are dropped and the new block comes last. |
| TurnMetadata.AttachTwiceToList | markbot/agent/turn_metadata.py:129-143 | Attaching twice to a list is attaching the second, whatever the metadata. |
| TurnMetadata.OthersIdempotent | markbot/agent/turn_metadata.py:129-141 | A block survives in a list if and only if it is not a text with both tags. |
| TurnMetadata.QuotedTagsAreDropped | markbot/agent/turn_metadata.py:131-141 | A user's own text that quotes both tags disappears from a list. |

## Left out

- GuardrailHistory.ObserveBlocksIff: whether a call failed or was denied, its signatures and its result digest are inputs; the keyword lists, hashes and message texts behind them are not modelled.
- FailurePolicy.FreshFailingTurnHalts: the float ratio of the cumulative detector is a real, so its rounding is not modelled; the bound does not depend on it.
- AdmissionSafety.LegalRunsAreSafe: nesting inside a reply coroutine, and what a nested entry does after its owner entry was overwritten (only possible behind an illegal step), are not modelled; `_direct_inflight` and cancellation of a running body are plain exits.
- AdmissionControl.AgentLoop.CancelWait: asyncio's hand-over of a lock to the next waiter on cancellation is any later grant, in any order.
- PriorityQueues.PriorityQueue.PutNoWait: a suspended `put` is the same step taken once its class has room; the order in which suspended producers resume is left open. The same holds for the partitioned queue.
- AutoCompaction.AutoCompact: the summary, its formatting and the fallback are arbitrary strings; image placeholders and the failure cooldown are not modelled.
- AutoCompaction.KeptIsPairedIff: for conversations in which results directly follow their call and ids are declared once; for others only the split point itself is specified.
- PtlRetry.TruncateHead: contents are strings, block lists or absent, and a dictionary compares as its role and content.
- CollapsePass.ApplyCollapse: messages are values in an array that is updated in place; two positions sharing one dictionary are not modelled. A block's text stands for its printed form.
- ToolBatches.ExecuteToolCalls: what a call comes to is given per call; cancellation of the runner itself from outside, and effects of concurrent calls on each other, are not modelled.
- ShellClassify.ClassifyShellCommand: characters are compared as they are, and the whitespace set is that of `str.isspace`.
- CompletionGate.LoopState.FinalResponse: the wording check behind the separate claim footer is not modelled; that footer is an input.
- CostTracking.CostTracker.AddUsage: prices are a function of the model name, costs are exact reals; rounding to six digits (here and in the reported savings) and the price-key matching are not modelled.
- PromptAssembly.FitsBudget: the truncation note itself may exceed the budget, as in the code; the float product with 0.8 is the exact floor of four fifths; the final join with the separator is not modelled.
- ResponseCache.LLMResponseCache.GetEntry: the entry is a value, not the cache's own object; the time stamp and the thread lock are not modelled.
- TurnMetadata.JsonRoundTripIff: the JSON text is an arbitrary string; its rendering is not modelled.
- Micro-compaction, the compactor's persisted state, `MessageBus`, provider calls, hooks, the watchdog, `sanitize_tool_output`, `StreamFilter` and the autopilot are not part of this model.
