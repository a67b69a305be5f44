# Verified model of ebiclaw's conversation and concurrency core

ebiclaw is an agent gateway written in Go. This project models, in Dafny, the parts of it whose
correctness is hardest to see from the code, and proves what they keep.

| file | what it models |
|---|---|
| `Messages.dfy`, `Subsequences.dfy` | messages reduced to role, content, call ids and answered id; ordered sub-lists |
| `Sanitizer.dfy`, `SanitizeProofs.dfy`, `WellFormedness.dfy` | `sanitizeHistoryForProvider`: its loops, distribution over turn boundaries, when its result is well-formed and a fixpoint |
| `TurnCut.dfy` | turn boundaries and `forceCompression` on a session |
| `Rollback.dfy` | the restore point of a turn through compressions, and what an abort restores |
| `ToolBatch.dfy`, `BatchProofs.dfy`, `BatchAnswers.dfy` | the loop of `runTurn` over the tool calls of one assistant message |
| `MessageSplitter.dfy`, `SplitRule.dfy`, `SplitContent.dfy`, `SplitTermination.dfy`, `SplitExact.dfy` | `SplitMessage`: where it cuts, bounds, content, fences, and exactly when it ends |
| `Delivery.dfy`, `SpawnTree.dfy`, `SpawnLimits.dfy`, `CascadeRuns.dfy` | sub-turn result delivery against `Finish`; depth, slots and the hard-abort cascade, also while sub-turns are being spawned |
| `HookProcess.dfy`, `HookReplies.dfy` | the pending-call table of the JSON-RPC hook process, and that every sent reply arrives |
| `Cron.dfy`, `CronRuns.dfy`, `CronEffects.dfy` | the cron service, its jobs and their claims, and what its calls achieve |
| `Archiver.dfy` | distill runs, raw appends and cleanups |
| `CodexPipe.dfy`, `PipeTurns.dfy`, `SessionLocks.dfy` | the per-session Codex pipe and its thread store; its table of mutex objects, which refines it |
| `PromptCache.dfy` | the system-prompt cache and its baseline |
| `Iteration.dfy`, `Descent.dfy` | repeated steps, and the lexicographic order along which nothing descends for ever |

Code that loops over local state or updates fields is written as methods and classes, proved against
functions; the functions carry the theorems. Code that several goroutines run at once is written as a
state machine whose steps are single lock, channel, clock or file operations; its theorems are about
every run of those steps. Everything the code gets from outside - model answers, hooks, tools, clocks,
file contents, the order of goroutines - is an argument or a step.

Where the code does not do what its comments say, the code is modelled and the difference is stated:

- `sanitizeHistoryForProvider` removes duplicate results by id over the whole history, so a call id
  that is reused by a later turn loses its answer there and leaves an unanswered call
  (`WellFormedness.ReusedIdExample`); the exact condition is `WellFormedness.WellFormedIffNoReuse`.
- A hook that responds to a tool call while a steering message or an interrupt is pending does not end
  the batch: the `break` leaves only the `switch`, the call is executed all the same and calls are
  answered again (`BatchProofs.RespondWithSteeringRepeats`); this is the only way to get more than one
  answer per call (`BatchProofs.OneAnswerPerCallIff`). Sanitizing hides the repetitions.
- The rollback compares the session's tail with the messages the turn recorded. The default session
  store keeps JSON lines, which have no tool names, so that it never recognises an assistant message
  that calls a tool by name: when such a message survives a compression, an abort restores messages of
  the aborted turn (`Rollback.StoredCallerExample`). A SubTurn result that is written but not recorded,
  and a compression that leaves only the running turn's user message, do the same
  (`Rollback.UnrecordedMessageExample`, `Rollback.SwallowKeepsOwnMessage`). The exact condition, over
  every run and on either store, is `Rollback.AbortRestoresIff`.
- A code block whose header line has more than `maxLen - 7` runes, and which `SplitMessage` has to split
  at the front of what is left, is reopened without progress for ever. From a limit of ten on this is
  the only way in which the loop does not end (`SplitExact.EndsIff`); a block at the front that does not
  close within the limit runs into it at once (`SplitExact.FrontBlockEndsIff`).
- The archiver stamps a record before it appends it, outside the writer's lock, so a record can be
  deleted without having been distilled (`Archiver.StragglerIsLost`); so can a line of which only the
  timestamp is readable. The exact condition is `Archiver.DeletedUndistilledIff`.
- A hard abort copies the child list of each turn it finishes: a sub-turn that is linked afterwards goes
  on (`CascadeRuns.LateChildEscapes`, from an empty tree). Exactly which registered descendants are
  finished is `CascadeRuns.FinishedIffCopied`.
- The next run of an "every" job is a 64-bit sum: an interval that overflows it is due at once, each
  time again (`CronRuns.OverflowingIntervalExample`, exact condition in `CronRuns.SpacedIff`).
- A tracked file that is created after the prompt baseline, read, and deleted again leaves its text in
  a cached prompt that the check calls unchanged (`PromptCache.TransientFileExample`); exactly when this
  can happen is `PromptCache.CanGoStaleIff`. That a source file was replaced by one with an older time is
  not noticed either (`PromptCache.UnchangedIff`); in a skill file it is.
- The error for a hook call whose channel is closed without a response cannot occur: every close of a
  channel that somebody still waits for follows a send (`HookReplies.NoCallIsClosed`).

## Model

| member | source | states |
|---|---|---|
| `Sanitizer.FindOwner` | pkg/agent/context.go:643-654 | the backward walk answers whether the nearest non-tool message kept so far is a calling assistant |
| `Sanitizer.RepairPass` | pkg/agent/context.go:627-682 | the first loop computes the admission fold `Repair` |
| `Sanitizer.ExpectedIds` | pkg/agent/context.go:705-709 | the map of expected ids has exactly the call ids, none of them found |
| `Sanitizer.CheckAnswers` | pkg/agent/context.go:704-739 | the lookahead decides whether all call ids occur in the run of tool messages that follows, and how long the run is |
| `Sanitizer.PrunePass` | pkg/agent/context.go:684-748 | the second loop, with its mutable set of seen ids and its jumps, computes `Prune` |
| `Sanitizer.SanitizeHistoryForProvider` | pkg/agent/context.go:622-751 | both passes together compute `Sanitize` |
| `SanitizeProofs.SanitizeSplitsAtUser` | pkg/agent/context.go:622-751 | before a user message the history splits: the second part is sanitized alone, less the results whose id the first part already answered |
| `SanitizeProofs.SanitizeDistributesIff` | pkg/agent/context.go:622-751 | sanitizing distributes over a turn boundary if and only if the two sanitized parts share no result id |
| `SanitizeProofs.SanitizeDistributes` | pkg/agent/context_budget.go:13-20 | turns that share no tool call id are sanitized independently |
| `SanitizeProofs.SanitizeLosesNothingEssential` | pkg/agent/context.go:627-750 | for every history the result is a subsequence with exactly the same user, plain-assistant and other-role messages |
| `WellFormedness.SanitizedResultsAreOwned` | pkg/agent/context.go:630-659 | for every history no system message survives, and every result's nearest non-tool predecessor calls tools |
| `WellFormedness.WellFormedIffNoReuse` | pkg/agent/context.go:684-748 | the result is well-formed if and only if no complete block asks for an id that an earlier complete block answered |
| `WellFormedness.WellFormedIffFixed` | pkg/agent/context.go:622-751 | a history is well-formed if and only if sanitizing leaves it alone |
| `WellFormedness.SanitizeIsIdempotentIff` | pkg/agent/context.go:622-751 | sanitizing twice changes nothing if and only if no id is reused |
| `WellFormedness.SanitizeIsWellFormed` | pkg/agent/context.go:684-748 | if no id is answered in two runs of the history, the result is well-formed and a fixpoint |
| `WellFormedness.ReusedIdExample` | pkg/agent/context.go:693-702 | a reused id leaves a calling assistant without its answer, and a second pass removes more |
| `TurnCut.ParseTurnBoundaries` | pkg/agent/context_budget.go:20-28 | collects the positions of the user messages |
| `TurnCut.FindSafeBoundary` | pkg/agent/context_budget.go:44-85 | returns the last boundary after the front and at or before the target, else the first one after it, else zero, or the target when there is no turn |
| `TurnCut.PreferredBoundary` | pkg/agent/context_budget.go:33-43 | that boundary is unique, and safe whenever the history has a turn |
| `TurnCut.Session.ForceCompression` | pkg/agent/context_legacy.go:104-159 | replaces the history by `Compress` of it and notes the dropped count; reports nothing to do on two messages or fewer |
| `TurnCut.LastUserMessage` | pkg/agent/context_legacy.go:123-129 | the fallback finds the last user message |
| `TurnCut.CompressShape` | pkg/agent/context_legacy.go:110-132 | compression strictly shrinks and leaves a suffix that starts at a user message if there is one, or, exactly when the only turn starts at the front, that user message alone |
| `TurnCut.CompressKeepsNewerHalf` | pkg/agent/context_legacy.go:115-132 | of n >= 2 turns the newer half, rounded up, stays |
| `TurnCut.TurnCutKeepsWellFormedness` | pkg/agent/context_budget.go:18-19 | both sides of a turn boundary of a well-formed history are well-formed |
| `TurnCut.CompressKeepsWellFormedness` | pkg/agent/context_legacy.go:101-132 | compression maps every well-formed history to a well-formed one |
| `TurnCut.CompressionEnds` | pkg/agent/context_legacy.go:110-113 | repeated compression reaches a history it leaves alone |
| `TurnCut.CompressionsKeepWellFormedness` | pkg/agent/context_legacy.go:110-132 | however often it is repeated, compression keeps well-formedness |
| `Rollback.MatchingTurnMessageTail` | pkg/agent/turn.go:370-378 | computes the longest common tail of history and recorded messages |
| `Rollback.TurnState.BeginTurn` | pkg/agent/loop.go:1600-1612 | captures history and summary as the restore point |
| `Rollback.TurnState.WriteMessage` | pkg/agent/loop.go:2238-2242 | a write appends the stored form of the message to the session - on the default store, without the names of its tool calls - and the message itself to the record |
| `Rollback.SessionHoldsWhatWasWritten` | pkg/agent/loop.go:2238-2242 | as long as no compression reaches it, the session holds the old history and then every message the turn wrote, in order, the same but for the tool names on the default store; the record holds exactly the recorded ones |
| `Rollback.TurnState.RefreshRestorePointFromSession` | pkg/agent/turn.go:327-340 | the restore point becomes the history less the longest recorded tail |
| `Rollback.TurnState.CompactSession` | pkg/agent/loop.go:2027-2037 | a mid-turn compression of the default agent's session, which may be another one than the turn's, and the refresh from the turn's own session are the step `Compact` |
| `Rollback.TurnState.AbortTurn` | pkg/agent/loop.go:3015-3031 | an abort brings back the restore point |
| `Rollback.RefreshRestoresIff` | pkg/agent/turn.go:327-340 | in every state a turn can reach, a refresh leaves a restore point free of the turn if and only if each of the turn's messages in the session was recorded and is stored without loss |
| `Rollback.CompactRestoresIff` | pkg/agent/context_legacy.go:115-132 | a compression does so if and only if it does not swallow the turn, and of the turn's messages leaves only recorded ones that are stored without loss |
| `Rollback.AbortRestoresIff` | pkg/agent/turn.go:314-378 | over every run of recorded and unrecorded writes and compressions, on either store, an abort restores exactly the messages older than the turn if and only if the last compression was harmless in that sense |
| `Rollback.AbortRestoresPreTurn` | pkg/agent/turn.go:314-378 | on the fallback store, and wherever nothing is lost in storing, recorded writes and no swallowing compression suffice |
| `Rollback.AbortRestoresSuffix` | pkg/agent/turn.go:314-378 | if every compression cuts after the front, what is older than the turn is a suffix of the old history, and so is what such an abort restores |
| `Rollback.SwallowKeepsOwnMessage` | pkg/agent/context_legacy.go:123-129 | a compression that finds the running turn alone makes its user message the restore point |
| `Rollback.SwallowExample` | pkg/agent/context_legacy.go:123-129 | a run from an empty session in which this happens, on either store |
| `Rollback.StoredCallerExample` | pkg/providers/protocoltypes/types.go:3-11 | on the default store an abort after a compression restores the user message and the calling assistant of the aborted turn |
| `Rollback.UnrecordedMessageExample` | pkg/agent/loop.go:2863-2872 | an injected SubTurn result that is not recorded is restored although it belongs to the aborted turn |
| `ToolBatch.Conversation.RunToolBatch` | pkg/agent/loop.go:2245-2877 | the loop over the calls extends messages, session history, recorded and pending messages as `RunFrom` says, and ends as it says |
| `ToolBatch.Conversation.RunHook` | pkg/agent/loop.go:2254-2528 | the before-tool hook, with the break that leaves the switch only |
| `ToolBatch.Conversation.ApproveAndExecute` | pkg/agent/loop.go:2530-2877 | approval, execution, checkpoint and skip of one call |
| `ToolBatch.Conversation.SkipFrom` | pkg/agent/loop.go:2838-2858 | one skip message for every later call |
| `BatchProofs.FinishedBatchAnswersEachCall` | pkg/agent/loop.go:2244-2877 | in every finished batch without injected messages each call is answered, and dropping repetitions leaves exactly one answer per call, the first, in call order |
| `BatchProofs.SanitizedFinishedBatch` | pkg/agent/loop.go:2244-2877 | with fresh ids the provider sees the assistant message followed by exactly those answers |
| `BatchAnswers.EachCallGetsItsAnswer` | pkg/agent/loop.go:2245-2877 | however the batch ends and whatever is injected, the first answer to a call is the skip notice if an earlier call was the first after whose result something made the rest be skipped; else it is its own - the responding hook's content, the denial, the refusal or the executed result; there is none if and only if the turn stopped at that call or before |
| `BatchAnswers.FinishedBatchContents` | pkg/agent/loop.go:2787-2812 | what the provider is shown of a finished batch: for each call exactly its own answer or, if it was skipped, the skip notice |
| `BatchAnswers.FirstDisturbanceDecides` | pkg/agent/loop.go:2814-2861 | the first call that stops the turn or makes the rest be skipped decides how the batch ends; the steering that came with it is queued behind what was pending, and without such a call the batch finishes and queues nothing |
| `BatchAnswers.SkippingResponseGoesOn` | pkg/agent/loop.go:2424-2472 | after a hook's answer that makes the rest be skipped the batch goes on exactly as if the hook had let the call pass |
| `BatchAnswers.SteeringStays` | pkg/agent/loop.go:2814-2816 | queued steering is never dropped or reordered by a batch |
| `BatchAnswers.BatchRecordsItsTools` | pkg/agent/loop.go:2806-2872 | however the batch ends, exactly its tool messages are recorded for the rollback, in order, and no injected SubTurn result |
| `BatchProofs.SanitizedAnyBatch` | pkg/agent/loop.go:2474-2487 | for every batch, also failed, aborted or interrupted ones, the block survives sanitizing if and only if every call was answered before the first injected message |
| `BatchProofs.OneAnswerPerCallIff` | pkg/agent/loop.go:2424-2472 | a finished batch holds exactly one answer per call, in call order, if and only if no call it reached was answered by a hook while something made the rest be skipped |
| `BatchProofs.RespondWithSteeringRepeats` | pkg/agent/loop.go:2424-2472 | a response with pending steering executes the call anyway and answers every call twice |
| `MessageSplitter.FindLastUnclosedCodeBlockInRange` | pkg/channels/split.go:144-162 | the scan that toggles at every three ticks |
| `MessageSplitter.FindNextClosingCodeBlockInRange` | pkg/channels/split.go:166-173 | the end of the first fence |
| `MessageSplitter.FindNewlineFrom` | pkg/channels/split.go:177-184 | the first newline |
| `MessageSplitter.FindLastNewlineInRange` | pkg/channels/split.go:188-196 | the last newline in the window |
| `MessageSplitter.FindLastSpaceInRange` | pkg/channels/split.go:200-208 | the last space or tab in the window |
| `MessageSplitter.DecideRound` | pkg/channels/split.go:33-125 | the whole case analysis of a round computes `Decide` |
| `SplitRule.PlainCutIsNatural` | pkg/channels/split.go:41-51 | in a text without fences a round cuts at the last newline among the last 200 runes before the effective limit and after the start, else at the last space or tab among the last 100, else at the limit, which is nine tenths of a large maximum, fifty less than a middling one and half of a small one |
| `SplitRule.CutBeforeBreaks` | pkg/channels/split.go:102-107 | the cut before a block follows the same rule, or there is no such place |
| `SplitRule.DecidesIff` | pkg/channels/split.go:32-125 | every round decides exactly what a rule on the positions of newlines, gaps and fences prescribes: rest, natural cut, extension to the closing fence, cut inside a re-fenced block, cut before it, or last resort; the rule leaves no choice |
| `SplitRule.RoundIff` | pkg/channels/split.go:91-137 | a round goes from one state to another if and only if the rule says so: only blanks are dropped, the next chunk starts at a rune that is not blank, a re-fenced chunk is its text without the blanks at its end and a closing fence, and the rest reopens with the header |
| `MessageSplitter.DecisionInBounds` | pkg/channels/split.go:25-139 | for every input and every positive limit no slice leaves its bounds and no cut lies beyond the limit |
| `MessageSplitter.Round` | pkg/channels/split.go:32-137 | one round of the loop, for every input |
| `SplitContent.ChunksFit` | pkg/channels/split.go:8-12 | for every content, every positive limit and any number of rounds each chunk is non-empty and fits |
| `SplitContent.ChunksContainContent` | pkg/channels/split.go:31-137 | nothing is lost or reordered: the content's non-space runes are a subsequence of those of the chunks |
| `SplitContent.ChunksEqualContent` | pkg/channels/split.go:31-137 | without a fence they are equal |
| `SplitContent.InnerCutIsLater` | pkg/channels/split.go:79-90 | the cut inside a block never falls behind the tentative cut |
| `SplitContent.RefencedChunkIsBalanced` | pkg/channels/split.go:54-99 | a re-fenced chunk has an even number of fences if and only if no fence straddles the tentative cut, and the rest reopens with the same header |
| `SplitContent.NaturalCutIsBalanced` | pkg/channels/split.go:54-99 | so it is balanced whenever the tentative cut landed on a newline or space |
| `SplitTermination.RefenceShrinks` | pkg/channels/split.go:80-121 | re-fencing shrinks what is left although it repeats the header, when the cut lies well inside the block or the header fits |
| `SplitTermination.RoundShrinks` | pkg/channels/split.go:32-137 | every round leaves less, and headers that still fit |
| `SplitTermination.SplittingEnds` | pkg/channels/split.go:31-139 | with fitting headers the loop ends within as many rounds as there are runes |
| `SplitExact.StuckNeverEnds` | pkg/channels/split.go:113-120 | once the last resort is taken at the front with a header line of more than maxLen-7 runes, it is taken in every later round |
| `SplitExact.RoundLowers` | pkg/channels/split.go:32-137 | every other round lowers a vector of the fences by header length and the runes left, although re-fencing copies headers and may double fences |
| `SplitExact.EndsIff` | pkg/channels/split.go:31-139 | for every content and every limit from ten on, the loop ends if and only if it never gets stuck in that way |
| `SplitExact.TinyLimitEnds` | pkg/channels/split.go:25-41 | with a limit below five it always ends |
| `SplitExact.SplitMessage` | pkg/channels/split.go:13-140 | on every content on which the loop ends it returns the chunks; they fit and contain the content |
| `SplitExact.FrontBlockEndsIff` | pkg/channels/split.go:54-121 | for a block at the front that does not close within the limit, in a content whose other headers fit, the loop ends if and only if the block's header has at most maxLen-7 runes |
| `SplitExact.OpenEndedEndsIff` | pkg/channels/split.go:113-120 | in particular for a block that is never closed |
| `SplitExact.TenRuneLimitExample` | pkg/channels/split.go:113-120 | a concrete content on which a round changes nothing |
| `Delivery.OneEventPerResult` | pkg/agent/subturn.go:509-576 | under every interleaving with `Finish` a completed delivery of a result has exactly one event: delivered if it went through the channel, orphan otherwise |
| `Delivery.DeliveredIsReceivedOrBuffered` | pkg/agent/subturn.go:497-508 | once all deliveries are settled the delivered results are exactly those received or still buffered, each once |
| `Delivery.RunningParentGetsEveryResult` | pkg/agent/subturn.go:528-556 | in every run, as long as the parent runs and has a channel no result is orphaned and each completed one was delivered; a parent without a channel gets none |
| `Delivery.FreeSlotTakesResult` | pkg/agent/subturn.go:548-556 | while the parent runs and a slot is free, a delivery gets through by its own steps alone and has its event |
| `Delivery.ResultsPassInOrder` | pkg/agent/subturn.go:548-550 | what has passed through the channel stays, first in, first out |
| `Delivery.DeliveriesEndAfterFinish` | pkg/agent/turn.go:395-409 | in every run, once the parent has finished, a delivery has at most three steps of its own left, can take one at any time until it is through, and is through after them |
| `SpawnTree.DepthIsBounded` | pkg/agent/subturn.go:305-313 | in every reachable tree no turn is deeper than the limit |
| `SpawnTree.SlotsAreHeldByChildren` | pkg/agent/subturn.go:280-303 | the used slots of a turn are its spawns between acquire and release, within its capacity |
| `SpawnTree.SlotIsFreedOnce` | pkg/agent/subturn.go:461-470 | rejected, returned or panicked: every spawn frees its slot exactly once |
| `SpawnLimits.SubTurnsAreLimited` | pkg/agent/subturn.go:280-303 | in every run a sub-turn has no more unreturned spawns than the limit, and a spawn waits exactly when it has that many |
| `SpawnLimits.RootsAreLimited` | pkg/agent/subturn.go:280-303 | so it is for a root turn that was given a limit; one without a limit never makes a spawn wait |
| `SpawnLimits.RegistrationIsExact` | pkg/agent/subturn.go:407-415 | a registered turn is in the table of active turns, one that has left is not; exactly the linked spawns are among their parent's children, one level deeper |
| `SpawnTree.FinishedFlags.FinishHard` | pkg/agent/turn.go:395-433 | the recursive hard finish ends and finishes exactly the cascade |
| `SpawnTree.HardAbortFinishesReachable` | pkg/agent/turn.go:422-432 | the cascade of a sub-turn is exactly what is reachable through registered turns; a root turn finishes alone |
| `CascadeRuns.CascadeReachesDescendants` | pkg/agent/turn.go:422-432 | while sub-turns are spawned, linked and unregistered, a cascade finishes every turn below its sub-turn that was linked before it began and is still registered with all turns in between |
| `CascadeRuns.CascadeStaysBelow` | pkg/agent/turn.go:422-432 | and at no time any turn that is not below |
| `CascadeRuns.CascadeEnds` | pkg/agent/turn.go:422-432 | and it ends however much is spawned meanwhile, because its work moves ever deeper and depth is bounded |
| `CascadeRuns.FinishedIffCopied` | pkg/agent/turn.go:422-432 | in every run, before and during a cascade, a turn on a chain of registered turns below the aborted one is finished if and only if each link of the chain was made before its parent's child list was copied |
| `CascadeRuns.LateChildEscapes` | pkg/agent/subturn.go:412-415 | a run from an empty tree in which a registered sub-turn, linked after its parent's child list was copied, is not finished; linked before that, though after the cascade began, it is |
| `HookProcess.PendingTable.RegisterCall` | pkg/agent/hook_process.go:329-333 | a call gets a new id and a new channel in the table |
| `HookProcess.PendingTable.HandleLine` | pkg/agent/hook_process.go:409-431 | a line answers and closes the pending channel with its id, or changes nothing |
| `HookProcess.PendingTable.RemovePendingCall` | pkg/agent/hook_process.go:475-483 | a cancelled call closes its own channel if it is still pending |
| `HookProcess.PendingTable.FailPending` | pkg/agent/hook_process.go:454-473 | every pending call is told about the exit and nothing else changes |
| `HookProcess.ChannelsAreUsedOnce` | pkg/agent/hook_process.go:405-483 | in every interleaving each channel has at most one send and one close, never a send or close after the close |
| `HookProcess.SendsNeverBlock` | pkg/agent/hook_process.go:427-430 | whoever took a channel out of the table can send on it at once |
| `HookProcess.RepliesMatchCalls` | pkg/agent/hook_process.go:354-371 | a call is answered only by the response with its id, or by the exit |
| `HookReplies.SentReplyArrives` | pkg/agent/hook_process.go:354-371 | whatever happened before a reply is sent and happens after, its call has exactly that reply or, as long as it waits, can receive it at once, also after the close |
| `HookReplies.NoCallIsClosed` | pkg/agent/hook_process.go:355-358 | no call ever finds its channel closed without a reply, so that the error for that case cannot occur; calls that are over are not in the table |
| `HookReplies.CallIsAnswered` | pkg/agent/hook_process.go:324-371 | in every reachable state of a living process a new call whose response comes is answered with it, and nothing else changes |
| `HookReplies.ExitEmptiesTable` | pkg/agent/hook_process.go:445-473 | from every state in which the process exits, the exit handler comes to its end and empties the table |
| `HookProcess.WaitersWakeUp` | pkg/agent/hook_process.go:354-371 | a waiting call is stuck only while it is in the table or its channel is in someone's hands |
| `HookProcess.NobodyWaitsAfterExit` | pkg/agent/hook_process.go:445-473 | once the exit handler is done no waiting call is left in the table: it can receive at once or after the reader has sent and closed |
| `HookProcess.RegisterCallIsSteps` | pkg/agent/hook_process.go:329-333 | what `RegisterCall` does is two of the interleaved steps |
| `HookProcess.HandleLineIsSteps` | pkg/agent/hook_process.go:419-430 | what `HandleLine` does is a run of the interleaved steps |
| `HookProcess.RemovePendingCallIsStep` | pkg/agent/hook_process.go:475-483 | what `RemovePendingCall` does is the step `RemovePending` |
| `HookProcess.FailPendingIsSteps` | pkg/agent/hook_process.go:454-473 | what `FailPending` does is a run of the exit handler's steps |
| `Cron.CronService.RecomputeNextRuns` | pkg/cron/service.go:355-363 | the loop reschedules every enabled job |
| `Cron.CronService.Start` | pkg/cron/service.go:92-117 | reloads, reschedules, saves; does nothing when running |
| `Cron.CronService.CheckJobs` | pkg/cron/service.go:181-221 | claims the due jobs in order and clears their next run before they execute |
| `Cron.CronService.EnableJob` | pkg/cron/service.go:505-532 | the first job with the id is rescheduled or cleared |
| `Cron.CronService.RemoveJob` | pkg/cron/service.go:476-503 | removes the jobs with the id |
| `Cron.CronService.FinishJob` | pkg/cron/service.go:254-310 | after a run an "at" job is deleted or disabled, another one rescheduled |
| `CronRuns.ClaimsArePunctualAndSpaced` | pkg/cron/service.go:181-221 | over every run, also one in which the process dies and restarts, no claim is early, an "at" job is claimed at most once, and claims of an "every" job are at least its interval apart as long as time plus interval fit in 64 bits |
| `CronRuns.OverflowingIntervalExample` | pkg/cron/service.go:320-325 | as soon as they do not fit, the job is claimed twice at the same moment |
| `CronRuns.SpacedIff` | pkg/cron/service.go:320-325 | up to a given time, an interval keeps the claims of its jobs apart in all runs if and only if time and interval add up within 64 bits |
| `CronEffects.DisabledIsNotClaimed` | pkg/cron/service.go:505-520 | over every run, restarts and running jobs included, a disabled job is not claimed before it is enabled again |
| `CronEffects.RemovedIsGone` | pkg/cron/service.go:476-503 | over every run a removed job is gone for good and never claimed again, and no other job is removed with it |
| `CronEffects.EnableTakesEffect` | pkg/cron/service.go:509-520 | in every run enabling or disabling changes that job alone: it is enabled and next due by its schedule, or disabled without a next run |
| `CronEffects.EnabledIsDueFrom` | pkg/cron/service.go:515-517 | right after it is enabled a job is claimed by a check exactly from the time its schedule gives |
| `CronEffects.CheckClaimsIff` | pkg/cron/service.go:192-198 | a check claims an id if and only if the service runs and a job with it is enabled and its next run has come |
| `CronEffects.CheckClaimsDueJobs` | pkg/cron/service.go:189-198 | each claim names a due job, its schedule, the present moment and when it was due |
| `CronEffects.FinishTakesEffect` | pkg/cron/service.go:284-297 | a finished one-time job is gone or disabled, any other is due again by its schedule, and the other jobs stay |
| `CronEffects.StartTakesEffect` | pkg/cron/service.go:92-117 | a start puts every enabled job where its schedule says and leaves disabled ones alone |
| `CronEffects.AddTakesEffect` | pkg/cron/service.go:424-452 | a new job is enabled and due by its schedule, to be deleted after its run exactly if it is a one-time job, and the others stay |
| `CronEffects.RestartLosesNothing` | pkg/cron/service.go:80-117 | whenever the process dies, the new service has every job as it was and claims nothing until it is started |
| `Archiver.RawWriter.CleanupRawFile` | pkg/archiver/raw.go:123-185 | keeps in order exactly the newer and the malformed lines, counts the others, removes an emptied file |
| `Archiver.RawWriter.CleanupBefore` | pkg/archiver/raw.go:96-119 | does so for every file |
| `Archiver.KeptIsExact` | pkg/archiver/raw.go:139-160 | a cleanup keeps each newer or malformed line as often as it was there, in the old order, and no other |
| `Archiver.RecordsAreKeptOrDeleted` | pkg/archiver/raw.go:93-119 | over every interleaving a record that was ever written is in its file or among the deleted ones, never both and never neither; a complete cleanup leaves none up to its cutoff |
| `Archiver.ConsideredUnlessLate` | pkg/archiver/distill.go:38-41 | over every interleaving a run that has collected has every readable record up to its cutoff, or a committed run had it, or it was appended behind a run's back |
| `Archiver.DeletedUndistilledIff` | pkg/archiver/service.go:84-160 | over every interleaving, lost states and restarts included, a deleted record was in no committed batch if and only if it was appended, with a time that a committed run covers, after that run's last look at its file, or only the cleanup could read its line |
| `Archiver.DeletedWasDistilled` | pkg/archiver/distill.go:93-115 | if no run begins between a stamp and its append, every deleted record was in a committed batch |
| `Archiver.StragglerIsLost` | pkg/archiver/observer.go:19-37 | from the start of the archiver: a record stamped before a run and appended after its collection is deleted undistilled |
| `SessionLocks.LockTable.SessionLock` | pkg/codexpipe/pipe.go:72-81 | the same key always gets the same mutex, different keys different ones |
| `SessionLocks.RunRefines` | pkg/codexpipe/pipe.go:83-137 | every run of the handlers with their mutex objects is a run in which a key is owned by one handler |
| `SessionLocks.CanRunIff` | pkg/codexpipe/pipe.go:72-94 | the mutex objects allow exactly the runs that owned keys allow |
| `SessionLocks.MutexesExclude` | pkg/codexpipe/pipe.go:72-94 | in every interleaving at most one turn per session key runs |
| `CodexPipe.TurnsContinueTheirThread` | pkg/codexpipe/pipe.go:96-136 | every turn continues the last non-empty thread id returned by the earlier turns of its key in lock order |
| `PipeTurns.EachMessageGetsItsTurn` | pkg/codexpipe/pipe.go:83-121 | in every run the turns of a session are by different handlers, and these are exactly its handlers past the beginning of a turn whose message is neither blank nor only observed |
| `PipeTurns.LeftAfterItsTurn` | pkg/codexpipe/pipe.go:83-137 | a handler that has left has had exactly one turn, unless its message was blank or only observed |
| `PipeTurns.TurnIsItsHandlers` | pkg/codexpipe/pipe.go:121-136 | a turn has the thread its handler was given and the result it returned |
| `PipeTurns.MessageIsHandled` | pkg/codexpipe/pipe.go:83-137 | from any state in which nobody holds the session, a message that asks for a turn continues the stored thread and leaves the session on the returned one |
| `SessionLocks.PipeContinuesThreads` | pkg/codexpipe/pipe.go:83-137 | so it is with the mutex objects |
| `SessionLocks.PipeAnswersEachMessage` | pkg/codexpipe/pipe.go:83-137 | every message that asks for a turn gets exactly one, also with the mutex objects |
| `PromptCache.ContextBuilder.BuildCacheBaseline` | pkg/agent/context.go:263-308 | the baseline records which sources exist, when each skill file was written, and the latest of all these times |
| `PromptCache.ContextBuilder.SourceFilesChanged` | pkg/agent/context.go:317-342 | the check answers "changed" if and only if some tracked file differs from the baseline |
| `PromptCache.UnchangedIff` | pkg/agent/context.go:317-370 | for a baseline of any files, and any files with any times now: "unchanged" if and only if the same tracked files exist, no source is later than all tracked files were, and every skill file has exactly its old time |
| `PromptCache.BaselineIsSteps` | pkg/agent/context.go:263-308 | the steps of a build, undisturbed and in any order, take the baseline that the method takes |
| `PromptCache.UnchangedIsFresh` | pkg/agent/context.go:192-203 | over every interleaving of file changes with builds, "unchanged" means that every existing tracked file is in the prompt as it is, and, if the prompt has no file its baseline did not see, that it is exactly the current prompt |
| `PromptCache.CanGoStaleIff` | pkg/agent/context.go:344-370 | in every reachable state, file changes can make the cached prompt stale without the check noticing if and only if the prompt has a file its baseline did not see and the files it did see are unchanged |
| `PromptCache.TransientFileExample` | pkg/agent/context.go:344-370 | such a file is reachable |

## Left out

- Message payloads other than text, call ids and tool names: media, reasoning content and tool arguments play no part in the modelled decisions. Equality of messages stands for the deep comparison of the recorded ones; what a store does not hand back, such as bytes that are not UTF-8, counts as part of `callNames`.
- Rollback.AbortRestoresIff: takes it that no unrecorded SubTurn result reads exactly like a message the turn recorded; with such a coincidence the comparison may recognise it.
- The wording of skip notices and of the compression note: a summary is a list of paragraphs, of which an emergency note keeps its count.
- Sessions without history (`NoHistory`) and session save errors: a turn is modelled with its session, and saving succeeds.
- `summarizeSession` runs asynchronously and truncates by a count, so it keeps no invariant with concurrent appends.
- SplitExact.SplitMessage: requires that the loop ends, because otherwise the code does not return either; `SplitContent.ChunksFit`, `SplitContent.ChunksContainContent` and `MessageSplitter.Round` hold for every content and any number of rounds.
- SplitExact.EndsIff: its condition is about the states of the run; `SplitExact.FrontBlockEndsIff` gives one on the content alone for blocks at the front. For limits from five to nine only the sufficient condition of `SplitTermination.SplittingEnds` is given; there a re-fencing round may keep a fence that the next one still closes.
- Invalid UTF-8: a content is a sequence of Unicode scalar values.
- Delivery.OneEventPerResult: does not model the panic of a nil result in detail; its delivery ends without an event.
- SpawnTree.HardAbortFinishesReachable: models the cascade on one state of the tree; `CascadeRuns` interleaves it with the spawning, linking and leaving of sub-turns.
- Sub-turn time-outs, token budgets and the events other than delivered and orphan.
- HookProcess.ChannelsAreUsedOnce: request ids are unbounded; the 64-bit counter of the code would wrap after 2^64 calls.
- CronRuns.ClaimsArePunctualAndSpaced: leaves out `UpdateJob`, failed saves and a clock that runs backwards, under which the code makes no such promise; cron expressions are a foreign function of the time.
- Archiver.DeletedUndistilledIff: does not model `Reload`, which swaps in a writer with a mutex of its own (pkg/archiver/service.go:69-82), so that an append could fall into the rewriting of a file; nor edits by others during a cleanup.
- Archiver file formats, topics, the language model and git: a run commits or fails as a step; records are timestamp and identity.
- The replies of the Codex pipe, their streaming, its notice about media, and the file that backs the thread store.
- PromptCache.UnchangedIsFresh: the tracked files are a fixed set; the code computes them anew from the loaded agent definition for each baseline and each check (pkg/agent/context.go:231-236).
- PromptCache.CanGoStaleIff: every write gets a later time than all earlier ones (for any times see `PromptCache.UnchangedIff`); the check itself is one step, and the modification times of the skill root directories, which can only add "changed" answers, are left out; daily notes are not tracked by the code.
- Model providers, channels, MCP, credentials, configuration, command handling and the web front end.
