# A verified model of the agent runtime

This project models five parts of a durable agent runtime and proves what they are for. The
runtime mounts extension components into a lease-counted registry, rewrites conversation history
before it reaches a model, seals settled tool results against tampering, runs sibling tool calls
in declared order, fingerprints admissions, splits provider-private state off messages, and
replays a session's events to a reconnecting client.

Run `dafny verify dfyconfig.toml` in this directory.

| module | what it models | main results |
|---|---|---|
| `Lifecycle`, `Quiescence`, `Accounting`, `Registry` | the mount registry and its notification workers, one step per critical section | `Quiescence.DrainedIsExact`, `CleanupIsQuiescent`, `EffectHistory`, `Accounting.RefsAreSteps`, `LeaseBlocksCleanup`, `DeliveryIsInOrder`, `HolderCanLetGo` |
| `Composition`, `PlanSelection`, `Scopes` | what may be mounted together and what a plan selects | `PlanSelection.CallbackOrderIsUnique`, `CallbacksAre`, `ToolNamesAreUnique`, `PromptWinnersAreUnique`, `Composition.MountIff` |
| `Around` | chains of around callbacks | `Around.TerminalAtMostOnce`, `NilErrorMeansProceeded`, `LevelReports` |
| `Boundary` | repositioning a compaction boundary, dropping placeholders | `Boundary.RepositionIsClean`, `DropPlaceholders` |
| `Correlation`, `Embedding`, `Compaction` | tracing a projection to its baseline; collapsing a range and re-applying that | `Embedding.CorrelationIsEarliest`, `Correlation.OwnTagsIffUnstolen`, `Compaction.ReapplyAgreesWithFinalize`, `ChoiceIsExact`, `TailCutIsLargestWhole` |
| `Seal` | the settlement seal over any chain of handlers | `Seal.SealIsExact`, `DispatchCycle` |
| `ToolBatch` | sibling tool calls running concurrently | `ToolBatch.OrderIffNoEarlyExit`, `NothingAfterFatal`, `AbortIsExact`, `NoDeadlock` |
| `Json`, `Fingerprint`, `Literals` | the size predicted before marshalling, and what the marshalled bytes determine | `Fingerprint.SizeIsEncodedLength`, `FingerprintAdmission`, `Literals.EncodingDetermines` |
| `StateCodec`, `CodecLaws` | capture and restore of provider state | `StateCodec.RoundTrip`, `CodecLaws.CaptureSplits`, `RestoreIff` |
| `ContextKeys` | context contributions and their keys | `ContextKeys.SourceInjective`, `NeverDuplicate` |
| `Replay`, `Bridge` | paged replay with a live tail; the frame ledger of a connection | `Replay.HydratePausesBeforeCursor`, `Reconnect`, `Bridge.Run` |

Concurrent code is a transition system whose steps are the critical sections of the code, so a run
is any interleaving. Objects that the code updates in place are classes; each of their critical
sections is proved to do what a step, or a short run of steps, of the transition system does.
Loops are loops, with the invariants they need. Where an operation iterates over a Go map or uses
an unstable sort, the model visits in any order, or takes any outcome the sort may have. Where a loop
keeps some elements of a list, `Selections` says what that means.

Seven promises turn out to hold only under a condition; each is proved as an if-and-only-if, with
inputs that show the other side:

- A repositioned boundary splits no tool group exactly when no group crosses the earliest spanning
  one and no call of a leading system message is answered behind the boundary
  (`Boundary.RepositionIsClean`; `CrossingGroupsStaySplit`, `SystemCallStaysSplit`).
- Every kept or cloned message is traced to its own baseline slot exactly when no inserted message
  has the content of the slot that the content pass is then looking for; with all pointers intact
  that never happens (`Correlation.OwnTagsIffUnstolen`, `KeptPointersCorrelate`;
  `DuplicateTakesSlot`).
- A nil error of an around chain keeps its promise exactly when neither the terminal, nor the output
  validator, nor an input clone unwinds into a callback that recovers
  (`Around.NilErrorMeansProceeded`; `SwallowedPanicLooksLikeSuccess`, `SwallowedCheckLosesTheOutput`,
  `SwallowedCloneSkipsTheTerminal`).
- A batch executes in order in every interleaving exactly when no call between the first and the
  last may leave early without a fatal mark (`ToolBatch.OrderIffNoEarlyExit`;
  `OvertakingBreaksOrder`).
- `Restore` undoes `Capture` exactly when every block with private fields has a non-empty id that
  no earlier block answers to, and the response id is held by the first vendor extension present
  (`StateCodec.RoundTrip`; `IDChangesVendor`, `SignatureChangesBlock`, `EmptyIDFails`).
- Capture leaves no vendor's response id in the public message exactly when at most one vendor set one
  (`CodecLaws.NoIDIffOneVendor`; `SecondIDStaysPublic`).
- The seal keeps copies of a settled result out exactly when all results of the call are the same:
  the comment at runtime/adk_middleware.go:663-665 promises it for all, but the code compares the
  number of results, not each digest's (`Seal.NeverRepeatsIffAllEqual`; `CopiesPass`).

## Model

| member | source | states |
|---|---|---|
| `Lifecycle.StepKeeps` | extension/registry.go:112-579 | every enabled step of every operation keeps the registry invariant: exact counts, table of active mounts, effect logs |
| `Lifecycle.SnapshotKeeps` | extension/registry.go:426-491 | taking a plan snapshot adds one reference per leased mount and keeps the invariant |
| `Lifecycle.CommitKeeps` | extension/registry.go:158-204 | publishing a prepared mount keeps the invariant |
| `Lifecycle.DeactivateKeeps` | extension/registry.go:252-270 | withdrawing a mount keeps the invariant; drained closes exactly if nothing holds it |
| `Lifecycle.RetainKeeps` | extension/notification_dispatcher.go:29-46 | an enqueue that has retained but not yet sent is counted as a holder |
| `Lifecycle.DropKeeps` | extension/notification_dispatcher.go:37-46 | a full queue gives the reference back and keeps the invariant |
| `Lifecycle.FinishKeeps` | extension/notification_dispatcher.go:12-27 | a finished callback gives its reference back and keeps the invariant |
| `Lifecycle.ReleaseLeaseKeeps` | extension/registry.go:549-579 | a released plan lease keeps the invariant |
| `Lifecycle.CloseEffectKeeps` | extension/registry.go:299-332 | one cleanup of a close pass keeps the effect log lawful |
| `Lifecycle.RollbackEffectKeeps` | extension/registry.go:232-250 | one cleanup of a rollback keeps the effect log lawful |
| `Quiescence.InvAlongRun` | extension/registry.go:112-579 | the invariant holds in every state of every run |
| `Quiescence.DrainedIsExact` | extension/registry.go:252-270 | refs equals live leases plus queued, running and half-sent notifications; drained closes at most once, and exactly when the mount is withdrawn and unheld |
| `Quiescence.DrainedStays` | extension/registry.go:549-562 | once drained is closed, refs stays 0 for the rest of the run |
| `Quiescence.CleanupIsQuiescent` | extension/registry.go:299-332 | no cleanup runs while a plan or callback holds the mount, or ever could again |
| `Quiescence.ReleaseFindsReference` | extension/registry.go:549-562 | every release finds a positive count, so the guard never hides an underflow |
| `Quiescence.EffectHistory` | extension/registry.go:112-141 | effects run on the rollback path or the close path, never both; passes go in reverse order; a success is never repeated |
| `Quiescence.HistoryGrows` | extension/registry.go:232-342 | the effect log only grows and a mount never changes path |
| `Quiescence.OnlyOwnDeactivationRemoves` | extension/registry.go:261-270 | a table entry goes only by deactivating the very mount it names, not an older one of the same instance id |
| `Accounting.PreparationStays` | extension/registry.go:112-141 | the mount of a preparation keeps its instance id and its effects for the whole run |
| `Accounting.RollbackRunsAll` | extension/registry.go:232-250 | a finished rollback has run each of the n effects prepared once, the last first, and nothing else |
| `Accounting.ClosePassRunsAll` | extension/registry.go:311-331 | at the end of a close pass each of the n effects prepared has succeeded, now or before, or failed in this pass |
| `Accounting.RefsAreSteps` | extension/registry.go:549-562 | a mount's count is the references that snapshots and enqueues took minus those given back, step by step |
| `Accounting.LeaseBlocksCleanup` | extension/registry.go:426-491 | between a snapshot that leases a mount and the release of that lease no cleanup of the mount runs |
| `Accounting.DeliveryIsInOrder` | extension/notification_dispatcher.go:12-46 | what a plan's worker has finished, runs and has queued is what was sent to it, Flush markers included, in that order |
| `Accounting.QueueIsBounded` | extension/notification_dispatcher.go:29-46 | a queue never holds more than 128 tasks, and a notification is dropped only at exactly 128 |
| `Accounting.HolderCanLetGo` | extension/notification_dispatcher.go:12-46 | in every reachable state a plan that holds a mount has an enabled step that brings it closer to holding nothing |
| `Accounting.CloseCanGoOn` | extension/registry.go:299-332 | a withdrawn mount that nothing holds can always go on being cleaned up |
| `Registry.MountState.CleanupPass` | extension/registry.go:311-331 | a close pass runs exactly the effects not yet done, last first, and leaves flags and log as the steps of the pass do |
| `Registry.ClosePassIsARun` | extension/registry.go:311-331 | the loop of Close is the run of steps that the lifecycle theorems speak of |
| `Registry.RollbackIsARun` | extension/registry.go:334-342 | so is the loop of a rollback |
| `Registry.CleanupReverse` | extension/registry.go:334-342 | a rollback runs every effect once in reverse order and reports a failure if any failed |
| `Registry.PreparedMount.ClaimRollback` | extension/registry.go:232-243 | a claim succeeds exactly where the step Rollback is enabled, so at most once and never after a commit |
| `Registry.Registry.Commit` | extension/registry.go:158-204 | a commit succeeds exactly where the checks accept and the step Commit is enabled, and then table and mount are what that step makes of them; otherwise nothing changes |
| `Registry.Registry.DeactivateLocked` | extension/registry.go:261-270 | as the step Deactivate: only an active mount leaves the table, and closes drained at once if unreferenced |
| `Registry.Registry.Release` | extension/registry.go:549-562 | the count goes down (not below zero) and drained closes once, when it must |
| `Registry.Registry.Snapshot` | extension/registry.go:426-491 | exactly the allowed active mounts that a scope brings to the target gain one reference, as the step Snapshot does |
| `Registry.NotificationQueue.Enqueue` | extension/notification_dispatcher.go:29-46 | enqueueing is the steps Retain and Send, or Retain and Drop on a full queue, which leaves no trace |
| `Scopes.ApplicableScopesAgree` | extension/registry.go:525-527 | two valid scopes of one kind that reach a target are the same scope |
| `Scopes.AppliesIff` | extension/registry.go:525-527 | among valid scopes a registration reaches the global one's targets or its own session, and no other |
| `Composition.Registrar.Register` | extension/registry.go:70-87 | a registration is staged unless the stage is closed, the id or scope is invalid, or point, scope and id are already staged |
| `Composition.Registrar.Tool` | composition/registry.go:262-296 | a tool is staged unless an identifier, the scope, the definition or the source is invalid, or its name is taken in that scope |
| `Composition.Registrar.Prompt` | composition/registry.go:168-188 | a prompt is staged unless an identifier or the scope is invalid, the provider is missing, or its name is taken in that scope |
| `Composition.ValidateComponentPayload` | composition/registry.go:420-446 | a candidate is accepted exactly if it clashes neither with itself nor with an active component |
| `Composition.ReachableInv` | extension/registry.go:158-204 | every state reached by mounts and deactivations has unique registrations and clash-free tools and prompts |
| `Composition.IdentifierIff` | extension/types.go:359-367 | an identifier is 1 to 256 letters, digits and five marks, not beginning with a mark |
| `Composition.OverlapIffMeet` | composition/registry.go:448-453 | two tool scopes overlap exactly if some valid target is reached by both, so sessions do not disturb each other |
| `Composition.MountIff` | composition/registry.go:420-453 | in every reachable state a component is mounted exactly if its id is free, its points are the host's, no target would see two tools of one name, and no active prompt has its name and scope |
| `PlanSelection.MatchingEntries` | extension/dispatch.go:265-276 | the loop selects the planned entries of a point in plan order |
| `PlanSelection.SamePointConnected` | extension/registry.go:529-547 | entries of one point that reach the same target are strictly ordered by entryLess |
| `PlanSelection.CallbackOrderIsUnique` | extension/registry.go:426-491 | in every reachable state the callback sequence of a point does not depend on map iteration or sort stability |
| `PlanSelection.CallbacksAre` | extension/registry.go:529-547 | the callbacks of a point are exactly the applicable entries of the selected mounts, by order, then global before session, then by instance, then by id |
| `PlanSelection.PlanTools` | composition/plan_selection.go:95-122 | the selected tools are those whose scope applies, in component order |
| `PlanSelection.ToolNamesAreUnique` | composition/registry.go:448-453 | in every reachable state and for every target the selected tools have distinct names |
| `PlanSelection.SelectedIff` | composition/plan_selection.go:95-122 | a plan holds a tool exactly if a selected component registered it, its scope applies and it was selected |
| `PlanSelection.ToolsInOrder` | composition/plan_selection.go:95-122 | the tools stand in component order and, within one, in registration order |
| `PlanSelection.NewPlanSelection` | composition/plan_selection.go:46-73 | the winners map holds, for each offered prompt name, its winner |
| `PlanSelection.PromptWinnersAreUnique` | composition/plan_selection.go:46-73 | the winner of a prompt name is the same whatever the component order |
| `PlanSelection.OnePromptPerName` | composition/plan_selection.go:95-122 | each prompt name has one winner in the plan, session-scoped whenever such an offer applies |
| `Around.EventsKeepLevel` | extension/dispatch.go:32-81 | at every moment of a level at most one proceed was accepted and it alone accounts for terminal runs |
| `Around.TerminalAtMostOnce` | extension/dispatch.go:208-263 | for every chain length and behaviour the terminal runs at most once |
| `Around.NilErrorMeansProceeded` | extension/dispatch.go:208-263 | a nil error means every callback proceeded exactly once and the output is the terminal's validated one, if and only if no clone, terminal or validator unwinds |
| `Around.SwallowedPanicLooksLikeSuccess` | extension/dispatch.go:32-68 | the concrete chain in which a recovered terminal panic is reported as success |
| `Around.SwallowedCheckLosesTheOutput` | extension/dispatch.go:218-226 | the same for a panicking validator: the terminal's output is lost |
| `Around.SwallowedCloneSkipsTheTerminal` | extension/dispatch.go:227-237 | the same for a panicking clone: success without any terminal run |
| `Around.PanicIsAtTheFront` | extension/dispatch.go:322-336 | a chain unwinds only at its own clone or at its terminal and validator; callbacks are recovered |
| `Around.TransparentChain` | extension/dispatch.go:208-263 | callbacks that proceed once and return leave the terminal's outcome unchanged |
| `Around.LevelReports` | extension/dispatch.go:208-263 | the whole verdict of a level from the order of its events: a chain that never returns, repeated, missing and outliving proceeds, failed callbacks |
| `Around.ChainEnds` | extension/dispatch.go:218-236 | only a terminal without an error is validated; a refused output is still returned; a failed clone ends the chain before it |
| `Around.AroundInvocation.EnterProceed` | extension/dispatch.go:32-52 | only the first proceed on an open invocation is admitted; otherwise an error and no step |
| `Around.AroundInvocation.LeaveProceed` | extension/dispatch.go:53-67 | leaving proceed records what the rest of the chain delivered, zero values if it unwound |
| `Around.AroundInvocation.CloseSection` | extension/dispatch.go:70-81 | closing an invocation notes whether a proceed outlives the callback |
| `Around.AroundInvocation.Verdict` | extension/dispatch.go:228-259 | the result of a drained invocation, including repeated, missing and outliving proceeds |
| `Boundary.RecordToolCallAdjacency` | runtime/adk_model.go:831-855 | a call is open afterwards exactly if a block makes it and none from there on answers it, by either kind of result, or it was open and no block answers it |
| `Boundary.RecordSettledCallIDs` | runtime/adk_model.go:857-872 | a call is settled afterwards exactly if it was, or a block is a result of it of either kind |
| `Boundary.OpenAtIff` | runtime/adk_model.go:728-745 | a call is open at a position exactly if an earlier message makes it and none since answers it |
| `Boundary.SettledInIff` | runtime/adk_model.go:754-757 | a call is settled in a range exactly if a message there answers it |
| `Boundary.Reposition` | runtime/adk_model.go:706-822 | the boundary goes ahead of the earliest call it separates from its result, not ahead of the system prefix; if it separates none, nothing changes |
| `Boundary.Reorder` | runtime/adk_model.go:786-804 | the new order and the old-to-new index map describe one move |
| `Boundary.Readdress` | runtime/adk_model.go:805-821 | state entries are re-addressed by the index map |
| `Boundary.MovedKeepsAddresses` | runtime/adk_model.go:786-804 | all other messages keep their order and every message is where the map says |
| `Boundary.StateFollowsMessages` | runtime/adk_model.go:805-821 | every provider-state entry still addresses the message it addressed |
| `Boundary.RepositionIsClean` | runtime/adk_model.go:706-822 | on the blocks themselves: the moved boundary separates no call from its result exactly if no exposed crossing exists and no leading system call is answered behind it; the list is unchanged if nothing was split |
| `Boundary.RepositionWithoutCrossing` | runtime/adk_model.go:706-822 | if groups do not interleave once the boundary is ignored, nothing is separated exactly if no leading system call is answered behind it |
| `Boundary.NoSystemCallsNoSpan` | runtime/adk_model.go:706-822 | which never happens while leading system messages carry no calls |
| `Boundary.CrossingGroupsStaySplit` | runtime/adk_model.go:706-822 | a concrete history with crossing groups that stays split |
| `Boundary.SystemCallStaysSplit` | runtime/adk_model.go:706-822 | a concrete history in which a system message's call stays split |
| `Boundary.DropPlaceholders` | runtime/adk_model.go:885-909 | exactly the messages that are not an assistant's or have a block stay, in order and with their ids; the state kept is that of those messages, each entry addressing the message it did |
| `Correlation.IndexByID` | runtime/adk_middleware_recipes.go:853-858 | the id index leads to the last slot with that id |
| `Correlation.PointerPass` | runtime/adk_middleware_recipes.go:859-874 | pass 1 consumes exactly the slots that pointers name |
| `Correlation.FallbackPass` | runtime/adk_middleware_recipes.go:875-898 | pass 2 gives out slots by content behind the moving cursor, and reports whether all slots were consumed |
| `Correlation.CorrelateDurableSubsequence` | runtime/adk_middleware_recipes.go:847-901 | it succeeds exactly when no slot is left over; ids and positions are those of the two passes |
| `Correlation.CorrelationIsBijection` | runtime/adk_middleware_recipes.go:847-901 | with distinct ids and pointers a success is a bijection onto the baseline, each pair by pointer or by equal content |
| `Correlation.OwnTagsIffUnstolen` | runtime/adk_middleware_recipes.go:847-901 | for the baseline in order with anything inserted, every kept or cloned message gets its own slot if and only if no insertion has the content of the slot the second pass is looking for |
| `Correlation.KeptPointersCorrelate` | runtime/adk_middleware_recipes.go:804-823 | while all baseline pointers are intact no insertion can take a slot, whatever its content |
| `Correlation.OnlyClonesCanLose` | runtime/adk_middleware_recipes.go:804-833 | a duplicate is harmless if the owners of its content were kept |
| `Correlation.DuplicateTakesSlot` | runtime/adk_middleware_recipes.go:823-833 | a duplicate inserted before a cloned message takes its slot without an error |
| `Embedding.CorrelatesIffEmbeds` | runtime/adk_middleware_recipes.go:847-901 | for all inputs correlation succeeds exactly if the slots no pointer claims can be found in order among the messages no pointer knows |
| `Embedding.CorrelationIsEarliest` | runtime/adk_middleware_recipes.go:847-901 | the tags are those of pointers and of the earliest such embedding, and no others |
| `Compaction.Reassemble` | runtime/adk_middleware_recipes.go:773-789 | the output loop emits one summary for the collapsed messages and keeps the others |
| `Compaction.OneSummary` | runtime/adk_middleware_recipes.go:773-789 | exactly one summary, where the range began; every other message once and in order |
| `Compaction.ScanRange` | runtime/adk_middleware_recipes.go:737-756 | the scan by ids collapses the range and drops the last boundary message |
| `Compaction.ReapplyDurableSummary` | runtime/adk_middleware_recipes.go:723-790 | re-application fails only if nothing correlates or neither range nor boundary is found |
| `Compaction.ReapplyIsExact` | runtime/adk_middleware_recipes.go:737-790 | for any tags: a message is collapsed exactly from the first of the range up to its last, the last boundary message is dropped, and re-application refuses exactly if there is neither |
| `Compaction.UncollapsedIsKept` | runtime/adk_middleware_recipes.go:773-789 | around the summary stand exactly the messages that are kept, in order |
| `Compaction.MoveTailStartToGroupBoundary` | runtime/adk_middleware_recipes.go:1069-1090 | the walk terminates at the cut the theorem speaks of |
| `Compaction.TailCutIsLargestWhole` | runtime/adk_middleware_recipes.go:1058-1090 | for grouped histories the cut separates no call from a result and is the largest such cut not above the requested one |
| `Compaction.RangeIsWhole` | runtime/adk_middleware_recipes.go:976-999 | the chosen range spares the system prefix and at least the requested tail, splits no group at the cut, and stops no earlier than it must |
| `Compaction.ChooseRange` | runtime/adk_middleware_recipes.go:984-1010 | clamping, tail cut and system prefix give the range, nothing, or an unsplittable tail |
| `Compaction.ChoiceIsExact` | runtime/adk_middleware_recipes.go:984-1010 | for every conversation: a range exactly if a cut stands that leaves the tail and a message in front of the last one is not the system's; unsplittable exactly if the tail is shorter and no cut stands; nothing otherwise |
| `Compaction.CutIsWhole` | runtime/adk_middleware_recipes.go:1058-1090 | for grouped histories the cut that stands last is the largest that separates no call from a result |
| `Compaction.SummarizationFinalize` | runtime/adk_middleware_recipes.go:930-1056 | the list part of Finalize with every outcome: empty summary, uncorrelated, missing, unchanged, unsplittable, failed commit, compacted |
| `Compaction.OutcomeIsExact` | runtime/adk_middleware_recipes.go:930-1056 | which outcome Finalize has, on its inputs: blank, uncorrelated, a message the history lacks, and else as the choice on the conversation says |
| `Compaction.CompactHasOneSummary` | runtime/adk_middleware_recipes.go:1026-1056 | the first output has exactly one summary, and collapses exactly the durable messages between the recorded ends |
| `Compaction.TaggedReapplyAgrees` | runtime/adk_middleware_recipes.go:723-790 | whatever the correlation, the range found by ids is the range chosen by position |
| `Compaction.ReapplyAgreesWithFinalize` | runtime/adk_middleware_recipes.go:708-790 | a later cycle with the boundary inserted anywhere and new messages appended yields the first output followed by the new messages |
| `Seal.OccurrencesByCallID` | runtime/adk_middleware.go:545-564 | the map lists every digest of every call, in order |
| `Seal.OccurrencesAreBlocks` | runtime/adk_middleware.go:545-564 | the occurrences of a call are the digests of exactly the blocks of that kind and call, in message order |
| `Seal.AuthorizedRewriteSet.RecordRewrite` | runtime/adk_middleware.go:366-374 | a record authorizes the digest and queues an audit entry, unless the call is empty |
| `Seal.AuthorizedRewriteSet.ResetCycle` | runtime/adk_middleware.go:432-439 | authorizations do not outlive the cycle; the audit queue does |
| `Seal.AuthorizedRewriteSet.DrainPending` | runtime/adk_middleware.go:443-452 | draining returns and clears the audit queue |
| `Seal.AuthorizedRewriteSet.AuthorizeChanges` | runtime/adk_middleware.go:482-516 | exactly the changed calls bound to a durable fact are authorized and audited, once each, in whatever order they are visited |
| `Seal.GrantIsProduct` | runtime/adk_middleware.go:407-417 | a grant is given exactly for a reduction of the call's settled content or a patch of a call with no settled result, if it changed the call's last result |
| `Seal.CheckCall` | runtime/adk_middleware.go:687-734 | the counting loop accepts exactly the authorized rewrite alone, or baseline content and no more of it |
| `Seal.VerifyOccurrenceKind` | runtime/adk_middleware.go:687-736 | a pass accepts exactly if every call is accepted, and names an offending call otherwise |
| `Seal.VerifySettledToolResults` | runtime/adk_middleware.go:674-679 | both passes must accept; tool-search results have no authorizations |
| `Seal.NeverRepeatsIffAllEqual` | runtime/adk_middleware.go:663-665 | accepted results never repeat one more often than the baseline has it, if and only if all baseline results of the call are equal |
| `Seal.CopiesPass` | runtime/adk_middleware.go:700-720 | of two different results, one can be shown twice and the other dropped |
| `Seal.EntryFollowsSteps` | runtime/adk_middleware.go:482-516 | the authorization in force changes by a recipe's diff and by nothing else |
| `Seal.EntryHasProvenance` | runtime/adk_middleware.go:407-417 | every authorization in force is the last sanctioned rewrite of its call |
| `Seal.ProductIsEntry` | runtime/adk_middleware.go:482-516 | every last sanctioned rewrite of a call is an authorization in force, which still binds at dispatch |
| `Seal.SealIsExact` | runtime/adk_middleware.go:674-736 | the seal accepts exactly if every call shows its last sanctioned rewrite alone, or baseline content, no more of it than there is and none of the rewrite, and tool-search results only of the baseline |
| `Seal.SealWithoutRecipes` | runtime/adk_middleware.go:674-736 | without sanctioned steps the seal is exactly the baseline test |
| `Seal.DispatchCycle` | runtime/adk_middleware.go:259-306 | a whole cycle on the real set: sealed exactly as above, else an offending call and the right reason; the audit queue gains one record for each sanctioned rewrite of each step, in step order |
| `ToolBatch.Batches.RegisterToolBatch` | runtime/adk_execution.go:306-321 | a batch of two or more gets its order and one fresh open channel per call, and so starts as the protocol does |
| `ToolBatch.Batches.Position` | runtime/adk_execution.go:326-336 | the first position of a call in its batch, if it has one |
| `ToolBatch.Batches.WaitOn` | runtime/adk_execution.go:337-350 | a call waits for the one declared before it, if that is still registered, as the step Await says |
| `ToolBatch.Batches.Aborted` | runtime/adk_execution.go:349-352 | reading the flag is the step Check |
| `ToolBatch.Batches.SettleToolTurn` | runtime/adk_execution.go:363-379 | settling is the steps Settle and CloseDone: it marks the abort, removes and closes the channel once; settling again closes nothing |
| `ToolBatch.ChannelsAlongRun` | runtime/adk_execution.go:363-379 | in every interleaving a channel is closed once, after its call settled |
| `ToolBatch.ExitReleasesSuccessor` | runtime/adk_execution.go:1051-1069 | every exiting call has closed its channel, so its successor can go on |
| `ToolBatch.StepsRunOut` | runtime/adk_execution.go:1051-1200 | every step brings the batch closer to its end |
| `ToolBatch.NoDeadlock` | runtime/adk_execution.go:327-356 | the first call that is not gone can always move |
| `ToolBatch.OrderAlongRun` | runtime/adk_execution.go:1051-1200 | the ordering invariant holds along every run without early non-fatal exits in the middle |
| `ToolBatch.OrderIffNoEarlyExit` | runtime/adk_execution.go:1051-1200 | on the steps alone: in every interleaving each call executes only after all earlier ones settled and none of those ever ends fatally, if and only if no middle call may leave early without a fatal mark |
| `ToolBatch.OvertakingBreaksOrder` | runtime/adk_execution.go:1091-1100 | the run in which a call replayed from a terminal record lets its successor overtake the first call |
| `ToolBatch.NothingAfterFatal` | runtime/adk_execution.go:1180-1200 | once a call ends fatally by a panic, a cancelled wait, a failed claim or an early error, nothing declared after it executes, and its settling raises the flag |
| `ToolBatch.RunIsRemembered` | runtime/adk_execution.go:363-379 | in every run a call counts as settled, executed or fatal exactly if its steps say so |
| `ToolBatch.AbortIsExact` | runtime/adk_execution.go:363-371 | the batch is aborted exactly if some call ended fatally and has settled since |
| `ToolBatch.ExecutesOnce` | runtime/adk_execution.go:1051-1200 | no call executes twice, whoever leaves early |
| `ToolBatch.EveryCallCanExecute` | runtime/adk_execution.go:1051-1200 | calls that take their turns one after the other all execute |
| `ToolBatch.EveryFatalEndHappens` | runtime/adk_execution.go:1074-1198 | each of the four fatal ends occurs in some run, at every position |
| `ToolBatch.SettlingAgainIsHarmless` | runtime/adk_execution.go:355-379 | settling a call once more changes nothing in any run |
| `Json.ValidIffUtf8` | runtime/admission_fingerprint.go:184-187 | the decoder accepts exactly the UTF-8 forms of code point sequences |
| `Json.EncodedJSONStringBytes` | runtime/admission_fingerprint.go:184-216 | the count is the length of the JSON literal, for exactly the valid strings |
| `Fingerprint.AddEntries` | runtime/admission_fingerprint.go:148-152 | the entries of a map are added in any order with one verdict and one sum |
| `Fingerprint.AddPermissions` | runtime/admission_fingerprint.go:167-180 | permissions cost their fixed shape, separators and strings |
| `Fingerprint.AdmissionInputJSONSize` | runtime/admission_fingerprint.go:101-182 | it succeeds exactly for valid requests whose size fits, and returns that size |
| `Fingerprint.MapLength` | runtime/admission_fingerprint.go:139-153 | the length of an encoded map does not depend on the key order |
| `Fingerprint.SizeIsEncodedLength` | runtime/admission_fingerprint.go:101-246 | the computed size is the length of the canonical encoding of the payload |
| `Fingerprint.AdmittedFits` | runtime/admission_fingerprint.go:226-229 | an admitted request's encoding never exceeds the limit |
| `Fingerprint.FingerprintAdmission` | runtime/admission_fingerprint.go:218-231 | it succeeds exactly for a valid request whose encoding is at most a mebibyte, and hashes exactly that encoding: the second limit check never fails |
| `Literals.QuoteReads` | runtime/admission_fingerprint.go:184-216 | a reader of an encoded string gets exactly that string back and stops at its end |
| `Literals.OtherEscapesAre` | runtime/admission_fingerprint.go:184-216 | six bytes for control characters, HTML characters and the two separators; everything else is plain UTF-8 |
| `Literals.EncodingDetermines` | runtime/admission_fingerprint.go:218-246 | two valid payloads with one encoding are one payload, so nothing of an admission is lost before the hash |
| `StateCodec.CaptureClaudeEncryptedIndexes` | model/agentic_state.go:182-214 | encrypted indexes are blanked and listed under their annotation numbers |
| `StateCodec.RestoreClaudeEncryptedIndexes` | model/agentic_state.go:385-414 | indexes are written back by annotation number, or the whole block is refused |
| `StateCodec.CitationsRoundTrip` | model/agentic_state.go:182-214 | every encrypted index goes back to its own citation, nil entries and OpenAI offsets included |
| `StateCodec.BlockRoundTrip` | model/agentic_state.go:128-160 | a block's payload restores it; a block without one is unchanged |
| `StateCodec.CaptureResponseMetaPrivate` | model/agentic_state.go:216-263 | the first vendor's id that is set, the OpenAI link fields and the SDK blob are held back |
| `StateCodec.RestoreResponseMetaPrivate` | model/agentic_state.go:416-480 | message-level payloads are applied in order, and any other payload is refused |
| `StateCodec.MetaRoundTrip` | model/agentic_state.go:458-480 | the response meta comes back if and only if the first vendor present held the id, or none was set |
| `StateCodec.CaptureMessage` | model/agentic_state.go:93-180 | capture refuses extras and extensions, and otherwise splits the message |
| `CodecLaws.CaptureSplits` | model/agentic_state.go:93-180 | on the fields: capture takes exactly messages without extras whose items are within the limits, holds back every signature, encrypted index, link field, blob and first id under its block's id, leaves none of them public and keeps all the rest |
| `CodecLaws.IndexesAreListed` | model/agentic_state.go:182-214 | every encrypted index is listed under its number, which counts the annotations and citations before it that are not nil, and nothing else is |
| `CodecLaws.NoIDIffOneVendor` | model/agentic_state.go:216-263 | no vendor's id stays public if and only if at most one was set |
| `CodecLaws.SecondIDStaysPublic` | model/agentic_state.go:231-237 | with an OpenAI and a Claude id set, the Claude id stays in the public message |
| `StateCodec.RestoreMessage` | model/agentic_state.go:265-361 | restore applies items by block id and refuses leftovers and mismatches |
| `CodecLaws.RestoreIff` | model/agentic_state.go:265-361 | restore succeeds exactly if the items are within the limits, the message has no extra, and each item is alone for the first block of its id and fits it, or fits the response meta |
| `CodecLaws.RestoreContents` | model/agentic_state.go:293-335 | a restored block is the public one with its item's fields put back; the other blocks are as they were |
| `StateCodec.RoundTrip` | model/agentic_state.go:93-480 | restoring a capture gives the message back if and only if its private blocks are addressable and the id goes back to its vendor |
| `StateCodec.IDChangesVendor` | model/agentic_state.go:458-480 | the id of a Claude extension beside an OpenAI one without an id comes back on the OpenAI one |
| `StateCodec.SignatureChangesBlock` | model/agentic_state.go:293-320 | of two reasoning blocks under one id, the signature of the second comes back on the first |
| `StateCodec.EmptyIDFails` | model/agentic_state.go:283-292 | a private block with an empty id makes restoring fail |
| `StateCodec.Recapture` | model/agentic_state.go:585-600 | capturing the restored message again gives the same public message and items |
| `ContextKeys.SourceInjective` | runtime/extension_context.go:271-274 | the length-prefixed key is injective in instance, registration id, scope and index |
| `ContextKeys.SourceLooksLike` | runtime/extension_context.go:271-274 | a key as it is written: lengths, parts and an index padded to six digits |
| `ContextKeys.DistinctIdentity` | runtime/extension_context.go:112-137 | two registrations of one point in a plan never share a key |
| `ContextKeys.ValidateContextAssembly` | runtime/extension_context.go:248-269 | an assembly is valid exactly if every contribution is acceptable and no key repeats |
| `ContextKeys.NeverDuplicate` | runtime/extension_context.go:112-137 | in every reachable registry state the contributions of registered sources have distinct keys |
| `ContextKeys.EveryMessageContributes` | runtime/extension_context.go:112-137 | every message of every source is contributed under its own key and the source's order |
| `ContextKeys.Materialize` | runtime/extension_context.go:380-417 | system contributions, base, other contributions; BaseToFinal locates every base message |
| `ContextKeys.MaterializedOrderIsUnique` | runtime/extension_context.go:385-390 | the order depends on nothing but order and key |
| `ContextKeys.MaterializedInOrder` | runtime/extension_context.go:385-390 | contributions come by order and, where it is the same, by key |
| `ContextKeys.SidesAre` | runtime/extension_context.go:391-402 | in front of the base stand the system contributions, behind it the others, each in the sorted order |
| `Replay.ListEvents` | store/internal/sqlstore/events.go:135-173 | one page after the cursor's event, or an error if that event is unknown or another session's |
| `Replay.ScanPage` | agui/replay.go:122-134 | a page adds its pauses and resolutions up to the cursor's event |
| `Replay.HydratePausesBeforeCursor` | agui/replay.go:110-154 | for every page size, and while the log grows, exactly the decodable durable pauses up to the cursor that no valid resume resolves, in order |
| `Replay.HydrationSelects` | agui/replay.go:122-143 | on the records: the durable decodable pauses up to the cursor that no durable valid resume up to it names, in order |
| `Replay.ReplayPage` | agui/replay.go:78-104 | a page's durable records are emitted once, in order, and remembered |
| `Replay.ReplayAfter` | agui/replay.go:73-108 | replay emits the durable records of the pages it reads, all after the cursor and none twice, even if the log grows between reads |
| `Replay.ReplayIsExact` | agui/replay.go:73-108 | for every page size an unchanging log yields all durable records after the cursor |
| `Replay.DurableSelects` | agui/replay.go:78-104 | exactly the records that are not live-only, in order |
| `Replay.Follow` | agui/replay.go:180-210 | the tail passes on the session's events, each id the first time and only if replay has not, and moves the cursor to the last of them |
| `Replay.ForwardedSelects` | agui/replay.go:180-210 | on the events: the session's own whose id neither replay nor an earlier event of the tail had, in order |
| `Replay.ForwardedOnce` | agui/replay.go:180-210 | replay and tail together pass no id on twice |
| `Replay.Reconnect` | agui/replay.go:159-211 | the open pauses up to the cursor, then all durable records after it, then what the tail adds; no id twice among the last two, wherever an error or a cancellation stops it |
| `Replay.AtMostOnce` | agui/replay.go:159-211 | an id after the cursor reaches Emit at most once in a reconnection |
| `Bridge.DirectAtMostOnce` | agui/bridge.go:209-221 | each ledger key is directly written at most once |
| `Bridge.LedgerIff` | agui/bridge.go:209-221 | the ledger holds exactly the keys that a direct write or a projection put on the wire |
| `Bridge.OneTerminal` | agui/bridge.go:561-572 | the count of terminal frames bounds what is on the wire |
| `Bridge.StartComesFirst` | agui/bridge.go:761-804 | a call's args, end or result is directly written only after its start |
| `Bridge.Connection.DeliverNative` | agui/bridge.go:209-221 | a key is written only if new and the emitter is sound, and recorded only if written |
| `Bridge.Connection.EnsureNative` | agui/bridge.go:229-231 | it succeeds exactly if the key is in the ledger afterwards |
| `Bridge.Connection.CloseText` | agui/bridge.go:813-821 | a text span is closed once; one that could not be closed stays open |
| `Bridge.Connection.CloseReasoning` | agui/bridge.go:822-832 | a reasoning span is forgotten only when both its end frames are in the ledger |
| `Bridge.Connection.EmitTerminalError` | agui/bridge.go:561-572 | nothing after a terminal frame; success means one terminal frame with all spans closed before it, failure means a latched error and none |
| `Bridge.Connection.TerminateStream` | agui/bridge.go:520-548 | benign or repeated termination writes nothing; otherwise at most one terminal frame |
| `Bridge.Connection.FinishRun` | agui/bridge.go:276-304 | a second run-finished event writes nothing |
| `Bridge.Connection.UpdateToolCall` | agui/bridge.go:761-804 | which frames an update may write, and when it is an error |
| `Bridge.Connection.EmitTransientBlock` | agui/bridge.go:692-743 | a live chunk is written under a key of its own |
| `Bridge.Connection.EmitCommittedProjection` | agui/bridge.go:840-855 | native keys are registered exactly when the projection brought them and was accepted |
| `Bridge.Connection.CommitMessage` | agui/bridge.go:989-1063 | a message is projected at most once per connection; an invisible one is counted, not an error |
| `Bridge.Run` | agui/bridge.go:255-306 | over every sequence of events and calls at most one terminal frame, and a lawful history of direct writes |

## Left out

- Preparation, context checks and reporting in the registry: PrepareMount's validation of components and points, close rejection inside callbacks, cancellation and diagnostics are not modelled; a cleanup succeeds or fails nondeterministically.
- Hooks, transforms and gates.
- Guards, tool restrictions, tool search, sealed handlers and the schema hashes of components.
- Nil messages and nil blocks in Boundary and Seal: they contribute nothing in the code either.
- Correlation.CorrelationIsBijection: assumes that the pointer map of the cycle leads only to baseline ids, each from one pointer, as the baseline handler builds it.
- Compaction.TailCutIsLargestWhole: speaks of function tool results only. The comment at runtime/adk_model.go:823-830 says that the tail cut also looks at tool-search results; the code does not, and the model follows the code.
- Registry.Registry.Commit: the scopes, the point definitions and the host's validator are one answer here; Composition models them.
- Composition.Registrar.Tool: whether a definition and its source are valid and can be frozen is one answer.
- Compaction.ReapplyAgreesWithFinalize: outputs are compared by content, since a later cycle has new pointers.
- Replay.HydratePausesBeforeCursor: while it reads, records are only appended to the log; transport, encoding and live errors of a connection are one latched failure.
- Replay.Reconnect: the message snapshot succeeds or fails; what it writes is part of Bridge.
- The store, its transactions and the epoch commit: a commit succeeds or fails.
- SHA-256: digests are opaque values of fixed length compared by equality.
- A recipe that returns an error or no state: the turn ends there.
- ToolBatch models one registered batch with distinct call ids; claims, settlement records and timing are outcomes of steps.
- Literals.EncodingDetermines: the encoding of the message blocks is an opaque byte string that both the size and the payload use; it assumes that of two such encodings neither is a proper prefix of the other, as holds of JSON values.
- The response-meta marker and identity item of the state codec, the error kinds of Restore, and the JSON form of payloads.
- Bridge.Run: an emitter's failed write leaves nothing on the wire; projection contents, identities and digests are not modelled.
- The turn loop, interrupts, checkpoints, scratch and workspace files, configuration, catalogue and permissions.
