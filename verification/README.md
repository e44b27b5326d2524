# Verified model of the Node Harness Host

This Dafny project models the state machines and the stream and text algorithms of the Node
Harness Host, and proves what a maintainer relies on when changing them. `dafny verify
dfyconfig.toml` checks everything. Nothing here runs the Host.

| component | files |
|---|---|
| model transport: event stream and its written forms, accumulator, what its reports mean, replay of deltas, streaming against one shot | `Sse`, `SseForms`, `Transport`, `TransportMeaning`, `TransportReplay`, `TransportRefinement` |
| Session Goals: decision, lock, protocol and its invariant, whole behaviours, evidence and admissions, statuses, what is written | `GoalDecision`, `GoalLock`, `GoalProtocol`, `GoalInvariant`, `GoalRuns`, `GoalEvidence`, `GoalStatuses`, `GoalRecords` |
| session store and migration | `SessionState`, `SessionStore`, `Migration`, `MigrationPlanning`, `MigrationApply` |
| event-sourced Runs: store, projection runner, the two status readers, contract-eval wrapper | `EventStore`, `Projection`, `RunStatus`, `EvalWrapper`, `EvalContract` |
| text: UTF-8 pages, canonical JSON keys, duplicate-name scanner | `Utf8`, `PagedRead`, `CanonicalJson`, `DuplicateKeys`, `DuplicateKeyTrees`, `JsonStrings` |
| Owner approvals: protocol and its invariant, whole behaviours | `Approval`, `ApprovalSafety`, `ApprovalRuns` |
| evaluation and small algorithms | `ContractEval`, `QualityEval`, `StableSort`, `CapabilityIds`, `ProcessTree`, `CappedSink` |
| shared | `Prelude` |

Objects the Host updates in place are classes (`Accumulator`, `WorkbenchSessionStore`,
`ChannelStore`, `Scanner`, `EventSink`, `Sink`), and its loops are methods, each proved equal to a
function; the theorems are lemmas about those functions. Protocols whose steps interleave at every
`await` are state machines whose theorems quantify over every behaviour.

What the code needs from outside is a parameter: JSON parsing and printing as an assumed inverse
pair (`Transport.Lawful`), the digest (injective where the claim needs it), lower-casing, the
locale's collation (a place on the real line, so that different strings may tie), the clock,
whether a persist or an append succeeds, and how many bytes a read delivers. Fresh ids are ids that
were never given out before. A `char` is a Unicode scalar value; the duplicate-name scanner works
on UTF-16 code units.

## Where the code does less than one might expect

Each is stated with the exact condition, and most with a concrete input.

- A whole message overwrites reasoning that was already streamed
  (`apps/harness-service/src/omp-model-transport.ts:291-294`), and the worker then refuses the
  response: `TransportReplay.DeltasReplay`, `TransportReplay.OverwrittenReasoningFails`.
- A failing persist in `createOrGetRun` cancels an admission that an earlier call left pending
  under the same run id: `SessionStore.FailureChangesNothing`, `SessionStore.CancelledAdmission`.
- A NUL in a session id can make two source events look alike to the migration, exactly when one
  session id and NUL begin the other and NUL: `MigrationApply.SourceKeysExact`,
  `MigrationApply.SourceKeysCollide`.
- A read that delivers less than one code point makes a page repeat its own offset:
  `PagedRead.PageMovesOn`.
- A kernel that throws, or whose append is refused, after its terminal event was held while the
  contract passes leaves `run.completed` in the stream and reports a failure:
  `EvalContract.LateThrowDisagrees`, `EvalContract.LateAppendDisagrees`; the exact condition is
  `EvalWrapper.StatusAgrees`.
- An event whose type names a function every object inherits, such as `toString`, stops the harness
  projection for good, and leaves the scan without a status as long as it is the last word:
  `RunStatus.StoreReadersAgree`.
- A throw between storing a Goal's Run and linking it makes the retry link the Run and never admit
  it: `GoalEvidence.RetryAdmitsExactly`.
- Recovery writes `run.failed` over a Run that was suspended between its two reads of the stream:
  `RunStatus.SuspensionOverwritten`.
- Two decision handlers can log contradicting decisions, exactly when both read the log before
  either wrote: `ApprovalRuns.TwoDecisionsExactly`, `ApprovalRuns.DecisionsMayContradict`.
- A decision whose append rejects after writing is logged but not handed on to its waiter:
  `ApprovalRuns.SettledExactly`, `ApprovalRuns.TornDecisionIsLost`.
- A call whose second read failed leaves its timer behind, which takes the waiter of a repeated call
  out of the table: `ApprovalRuns.DroppedExactly`, `ApprovalRuns.OrphanTimerLosesDecision`.
- A capability id cut for length behind an underscore does not survive its wire alias:
  `CapabilityIds.CapabilityIdSurvives`.
- Checked event ids follow the order of recording where the comparator ties two events with
  different ids: `ContractEval.OrderIndependent`, `ContractEval.TiedIdsShow`.
- The capped sink reports truncation when an empty chunk arrives at the cap: `CappedSink.Sink.Push`.

## Model

| member | source | states |
|---|---|---|
| Sse.ReadServerSentEvents | apps/harness-service/src/omp-model-transport.ts:154-196 | the chunked reader with its buffer, pending lines and byte cap yields what the chunks mean as one text, stopping at the cap, at `[DONE]`, at a bad event or at the end of the body |
| Sse.DrainLines | apps/harness-service/src/omp-model-transport.ts:166-184 | taking complete lines out of the buffer feeds exactly the lines of the received text and keeps its unfinished rest |
| Sse.ChunkingIndependence | apps/harness-service/src/omp-model-transport.ts:154-203 | two bodies with the same text within the cap read the same, wherever the cuts fall, also between CR and LF |
| Sse.LargeBodyIsRefused | apps/harness-service/src/omp-model-transport.ts:160-165 | a body of more than a mebibyte whose text never ends the reading is too large |
| Sse.ReadingDecided | apps/harness-service/src/omp-model-transport.ts:170-184 | once the text so far has ended the reading, nothing later changes it, not even the cap |
| Sse.SentEventsAreRead | apps/harness-service/src/omp-model-transport.ts:154-203 | payloads written one data line each, then `[DONE]`, are read back as sent whatever follows |
| SseForms.LineEndingsDoNotMatter | apps/harness-service/src/omp-model-transport.ts:174-175 | lines ended by LF or CRLF, each either way, and a stray carriage return at the very end read the same |
| SseForms.CrlfReadsAlike | apps/harness-service/src/omp-model-transport.ts:174-175 | a body with CRLF line ends reads as the same body with LF |
| SseForms.WrittenEventsAreRead | apps/harness-service/src/omp-model-transport.ts:166-203 | events over several data lines, with white space after the colon or none, among other fields and with any line ends, are read as the payloads they spell, up to the end marker or the first payload that does not parse |
| SseForms.UnfinishedEventIsRead | apps/harness-service/src/omp-model-transport.ts:186-192 | a last event without its blank line, or whose last line has no line feed, is read at the end of the body |
| Transport.Accumulator.AccumulatePayload | apps/harness-service/src/omp-model-transport.ts:261-284 | accepting a payload updates blocks, tool index, deltas, reasoning, stop reason and usage as the payload means, and refuses what it must |
| Transport.Accumulator.AccumulateMessage | apps/harness-service/src/omp-model-transport.ts:285-313 | a whole message sets the reasoning, adds its text and opens its calls under fallback indices that count the open tools |
| Transport.Accumulator.AccumulateDelta | apps/harness-service/src/omp-model-transport.ts:314-362 | a delta extends reasoning, text and the tool of its stream index, whose identity may not change |
| TransportMeaning.ResponseMeans | apps/harness-service/src/omp-model-transport.ts:261-335 | for every accepted list of payloads: the last finish reason reported decides the stop reason, stop, length or toolUse by its string; the last usage reported gives input from prompt_tokens and output from completion_tokens; the reasoning is what whole messages set and deltas add; and which error is given without a finish reason or content |
| TransportMeaning.PayloadsMean | apps/harness-service/src/omp-model-transport.ts:314-319 | of the three reasoning members of a delta the first that is a string is added, and a whole message replaces what was there |
| TransportMeaning.AllReportsRead | apps/harness-service/src/omp-model-transport.ts:428-443 | nothing is accepted with another finish reason, or with usage that is no object of token counts |
| TransportMeaning.ReportRefusals | apps/harness-service/src/omp-model-transport.ts:428-443 | how such reports are refused |
| TransportMeaning.StreamIndexMeaning | apps/harness-service/src/omp-model-transport.ts:326-329 | a fragment belongs to the index it names if that is a safe non-negative integer, and else to its place in the list |
| TransportMeaning.FinishKeepsDeltas | apps/harness-service/src/omp-model-transport.ts:410-418 | finishing leaves every delta alone but the fragments of arguments that could not be used |
| TransportReplay.OpenToolReplays | apps/harness-service/src/omp-model-transport.ts:377-392 | opening a tool keeps the deltas so far replaying, index by index, to exactly the blocks so far, and the streamed reasoning as it was |
| TransportReplay.AppendTextReplays | apps/harness-service/src/omp-model-transport.ts:364-375 | appending text, to the last block or as a new one, keeps the deltas replaying to exactly the blocks, and the reasoning as it was |
| Transport.ParseStreamingResponse | apps/harness-service/src/omp-model-transport.ts:205-224 | the observer sees every text and reasoning delta once and in order, and the response is the finished accumulator |
| TransportReplay.FinishReplays | apps/harness-service/src/omp-model-transport.ts:394-426 | the deltas of a finished response replay, index by index, to its content: text equal, arguments parsing to the block's, malformed ones as one envelope |
| TransportReplay.DeltasReplay | packages/omp-loop-kernel/runtime/worker.ts:1023-1078 | every response built from accepted payloads passes the worker's delta check if and only if no reasoning was streamed or each whole message with reasoning restates it |
| TransportReplay.StreamsAgree | apps/harness-service/src/omp-model-transport.ts:314-335 | without whole messages that carry reasoning that condition always holds |
| TransportReplay.OverwrittenReasoningFails | apps/harness-service/src/omp-model-transport.ts:291-294 | a concrete accepted sequence whose response the worker refuses |
| TransportRefinement.StreamingRefinesOneShot | apps/harness-service/src/omp-model-transport.ts:261-406 | any fragmentation with text before tools, calls opened in order and fragments interleaved arbitrarily finishes like the one whole message: same content, reasoning, stop reason or error |
| TransportRefinement.FittingAccumulates | apps/harness-service/src/omp-model-transport.ts:314-392 | every fitting list of fragments is accepted and accumulates exactly its outline |
| GoalDecision.CountPlan | apps/harness-service/src/workbench-goal.ts:67-82 | the counters over phases and tasks count completed, open and blocked items by meaning |
| GoalDecision.DecisionMeaning | apps/harness-service/src/workbench-goal.ts:84-119 | one equivalence per outcome over Goal and evidence: failed, paused, put up for review, budget spent, another Run, or wait |
| GoalDecision.DecisionReason | apps/harness-service/src/workbench-goal.ts:84-119 | the reason given for each outcome |
| GoalDecision.ProgressMeaning | apps/harness-service/src/workbench-goal.ts:67-82 | no progress exactly without items; nothing open exactly when all is done or abandoned; only blocked items open exactly when open and blocked counts agree |
| GoalStatuses.StatusChanges | apps/harness-service/src/product-facade.ts:1186-1272 | in every behaviour a Goal comes to each status only by the user action or on the stored Run's outcome that stands for it, shows the reason for it, and changes in nothing else |
| GoalStatuses.ControlsExactly | apps/harness-service/src/product-facade.ts:1219-1262 | which user actions each status admits; every Goal but a completed or stopped one can be stopped |
| GoalStatuses.NewGoalExactly | apps/harness-service/src/product-facade.ts:1134-1139 | a session is given a new Goal exactly if it has none, or one from another source that neither runs, is paused nor awaits review |
| GoalRecords.OperationOrder | apps/harness-service/src/product-facade.ts:1041-1050 | an operation begins only when none is under way, throws only before it admits, and resuming goes on only after a Run that is over |
| GoalRecords.SubmissionStores | apps/harness-service/src/product-facade.ts:1052-1085 | a submission stores one pending Run of the next index, its session's in owner, channel, surface and project, its Goal's in files and permission |
| GoalRecords.PatchShowsProgress | apps/harness-service/src/product-facade.ts:1186-1217 | a decision that changes the Goal leaves it showing how many plan items are done, of how many |
| GoalRecords.WaitShowsProgress | apps/harness-service/src/product-facade.ts:1193-1203 | so does waiting, which writes nothing else and nothing at all if that is shown already |
| GoalRecords.FinalStatuses | packages/event-store/src/lifecycle.ts:12-17 | the statuses a Goal's Run ends with for good are those of the events after which the store takes none |
| GoalLock.OneHolderInTurn | apps/harness-service/src/product-facade.ts:1041-1050 | no two operations of a session run at once and they run in the order they were called, also across dropped map entries |
| GoalLock.OldestCanProceed | apps/harness-service/src/product-facade.ts:1041-1050 | the lock never wedges: the oldest unfinished operation of a session runs or can start |
| GoalLock.GoesOn | apps/harness-service/src/product-facade.ts:1041-1050 | an operation whose predecessor is over can start, a running one can settle, a settled one can be cleaned up |
| GoalLock.MapDrains | apps/harness-service/src/product-facade.ts:1046-1048 | once every operation has settled the lock map is empty |
| GoalInvariant.StepKeeps | apps/harness-service/src/product-facade.ts:1052-1272 | no step of the lock holder or of anybody else, no failing persist and no crash breaks the Goal invariant |
| GoalInvariant.SubmitStep | apps/harness-service/src/product-facade.ts:1052-1085 | submitting stores or finds the one Run of the next index before the Goal references it |
| GoalInvariant.LinkStep | apps/harness-service/src/product-facade.ts:1086-1095 | linking adds the Run as the next reference, within the budget, with every earlier Run settled |
| GoalRuns.GoalProtocolSafety | apps/harness-service/src/product-facade.ts:1052-1272 | in every reachable world the i-th reference is the one stored Run with that source and Goal id, at most max_runs <= 8 of them, each before the last ended or refused |
| GoalRuns.BudgetBoundsRuns | apps/harness-service/src/product-facade.ts:1052-1104 | over all crashes and retries no more Runs than max_runs <= 8 ever exist for a Goal |
| GoalRuns.CompletedByTheUser | apps/harness-service/src/product-facade.ts:1186-1243 | completed is entered only by the user from awaiting_review, which is entered only on evidence of a completed latest Run with nothing open |
| GoalEvidence.ReviewedPlan | apps/harness-service/src/product-facade.ts:1158-1184 | when a Goal comes to await review, its latest Run has completed, the last plan among that Run's stored events has nothing open, and neither has the plan inherited through all Runs, refused ones included, if no earlier Run was left suspended |
| GoalEvidence.PendingExactly | apps/harness-service/src/product-facade.ts:1083-1103 | in every behaviour the admission of a Goal's Run is pending exactly when it was opened, by storing or admitting the Run, and since then neither ended nor lost in a crash |
| GoalEvidence.RetryAdmitsExactly | apps/harness-service/src/product-facade.ts:1095-1101 | a retry that links a stored Run admits it exactly when the event store does not know it, it was not refused, and no admission of it was left open |
| GoalRuns.FinalGoalsStay | apps/harness-service/src/product-facade.ts:1219-1272 | a completed or stopped Goal never changes again |
| GoalRuns.BudgetShrinks | apps/harness-service/src/product-facade.ts:1186-1217 | without the user resuming it, each Run a Goal is given takes exactly one from its budget |
| GoalRuns.CrashedSubmitIsFoundAgain | apps/harness-service/src/product-facade.ts:1083-1095 | a Run stored but not referenced at a crash is found and linked by the retry exactly if it asks for the same |
| GoalRuns.GoalGetsItsRun | apps/harness-service/src/product-facade.ts:1130-1156 | from every well-formed store a session without a Goal has a behaviour that gives it one, and the Goal its first Run |
| SessionState.FoundSource | apps/harness-service/src/workbench-session.ts:150-153 | in a well-formed state the search by session and source event finds the one such Run |
| SessionState.IdentityMeaning | apps/harness-service/src/workbench-session.ts:346-386 | a retry asks for the same exactly if it differs from the stored Run at most in ids, provenance, times, admission, trigger and how the read-only mode is written; a migrated Run is the same exactly if it differs at most in the last two |
| SessionStore.LookupExactly | apps/harness-service/src/workbench-session.ts:148-172 | asking for a Run answers with the one stored for its source, or else under its id, if that asks for the same, with a conflict if not, and creates one only where there is neither |
| SessionState.TouchMeaning | apps/harness-service/src/workbench-session.ts:161-165 | a new Run brings its own session, and no other, up to its creation, and never back |
| SessionStore.WorkbenchSessionStore.CreateOrGet | apps/harness-service/src/workbench-session.ts:142-177 | state, answer and pending admissions after creating or finding a Run, whether or not the persist succeeds |
| SessionStore.WorkbenchSessionStore.ReplaceSession | apps/harness-service/src/workbench-session.ts:108-122 | a session is replaced by what the mutation returns, or nothing changes when it throws, changes the id or is not persisted |
| SessionStore.WorkbenchSessionStore.Migrate | apps/harness-service/src/workbench-session.ts:264-272 | a migration adds exactly its delta and reports its size; a conflict or failing persist changes nothing |
| SessionStore.WorkbenchSessionStore.PreviewMigration | apps/harness-service/src/workbench-session.ts:274-278 | a preview announces exactly what applying would add |
| SessionStore.WorkbenchSessionStore.ComputeDelta | apps/harness-service/src/workbench-session.ts:388-423 | the loops over the indexes compute the migration delta or its first conflict |
| SessionStore.FailureChangesNothing | apps/harness-service/src/workbench-session.ts:147-176 | a call that is not persisted changes no state, and no pending admission unless it was creating a Run whose id already had one |
| SessionStore.CancelledAdmission | apps/harness-service/src/workbench-session.ts:147-176 | from an empty store: an admission that was begun is gone after creating its Run was not persisted |
| SessionStore.Call | apps/harness-service/src/workbench-session.ts:95-278 | calling a method of the store is performing its operation, so what holds of histories holds of the object |
| SessionStore.HistoriesKeep | apps/harness-service/src/workbench-session.ts:95-228 | any sequence of calls with persist failing anywhere keeps session ids, run ids and (session, source) pairs unique and every Run stored |
| SessionStore.RetryReturnsTheRun | apps/harness-service/src/workbench-session.ts:142-177 | whatever happened since, asking again for a source event returns the original Run for the same identity and a conflict for another |
| SessionStore.MigrationKeeps | apps/harness-service/src/workbench-session.ts:388-423 | an applied migration keeps all ids unique and every Run stored |
| SessionStore.SessionConflictExactly | apps/harness-service/src/workbench-session.ts:363-403 | a migrated session that is stored already is a conflict exactly when it differs in more than its recency and Goal |
| SessionStore.RunConflictExactly | apps/harness-service/src/workbench-session.ts:374-410 | and a migrated Run exactly when it differs in more than its trigger and the writing of its mode |
| MigrationApply.SecondApplyAddsNothing | apps/harness-service/src/workbench-session.ts:264-278 | applying a migration again finds no conflict and adds nothing |
| MigrationApply.SourceKeysExact | apps/harness-service/src/workbench-session.ts:395-418 | for all Runs of two sessions a shared source key means the same source event of the same session, if and only if neither session id followed by NUL begins the other followed by NUL |
| MigrationApply.KeysCollideExactly | apps/harness-service/src/workbench-session.ts:395-418 | two different session ids can share a source key, with some source events, exactly under that condition |
| MigrationApply.SourceKeysCollide | apps/harness-service/src/workbench-session.ts:395-418 | with a NUL two different source events share one key |
| MigrationPlanning.PlanProductV1Migration | apps/harness-service/src/workbench-migration.ts:29-137 | the planner's loops compute the plan, or the first project conflict |
| MigrationPlanning.EveryRecordBecomesOneRun | apps/harness-service/src/workbench-migration.ts:34-137 | the planned Runs are, up to order, exactly one per admitted record |
| MigrationPlanning.PlannedRunMeaning | apps/harness-service/src/workbench-migration.ts:34-128 | every planned Run is that of one of the owner's records, member by member with its defaults |
| MigrationPlanning.TakesPart | apps/harness-service/src/workbench-migration.ts:34-57 | a record takes part exactly if it is the owner's and so is the project it names, if any |
| MigrationPlanning.NamesTwoProjects | apps/harness-service/src/workbench-migration.ts:154-166 | a record names two projects exactly if its context and its crew channel differ |
| MigrationPlanning.SessionSurface | apps/harness-service/src/workbench-migration.ts:88-107 | a session shows the surface of its earliest record |
| MigrationPlanning.EveryRunHasOneSession | apps/harness-service/src/workbench-migration.ts:76-128 | planned session ids differ, and every planned Run is at home in exactly one session of its owner, channel and project |
| MigrationPlanning.SessionIsOneConversation | apps/harness-service/src/workbench-migration.ts:76-88 | Runs of one planned session share channel, conversation and where that came from |
| MigrationPlanning.PlanConflicts | apps/harness-service/src/workbench-migration.ts:91-95 | a plan is refused exactly when an owned record names two projects, or two admitted records with the same session key name different ones |
| MigrationPlanning.SessionSpansItsRecords | apps/harness-service/src/workbench-migration.ts:97-107 | a planned session runs from the first creation to the last update of its records |
| EventStore.AppendKeeps | packages/event-store/src/index.ts:111-168 | both ways of appending keep streams numbered without gaps, ids finding their event, and nothing after a final event |
| EventStore.AppendAgain | packages/event-store/src/index.ts:139-156 | an idempotent append that succeeded is recognised when repeated and changes nothing |
| EventStore.AppendRefusals | packages/event-store/src/index.ts:111-137 | each refusal of an append by what is wrong with the event, the first fault deciding |
| EventStore.IdempotentRefusals | packages/event-store/src/index.ts:139-168 | an idempotent append minds neither number nor time |
| EventStore.CommitRefusals | packages/event-store/src/index.ts:319-362 | a commit needs the very event it is made for and the version its state was computed from |
| Projection.ProjectNext | packages/event-store/src/projection-runner.ts:14-44 | a call alone commits the fold step for exactly the next event, or finds none |
| Projection.Drain | packages/event-store/src/harness-state.ts:86-94 | draining alone terminates with the projection at the fold over the whole stream |
| Projection.CallsAreBounded | packages/event-store/src/harness-state.ts:86-94 | under any interleaving the calls of one runner that found an event, conflicts included, never outnumber the events, so its draining ends |
| Projection.EndMeansProgress | packages/event-store/src/projection-runner.ts:27-41 | a call that ends in a conflict was overtaken: the cursor is past the snapshot it loaded |
| Projection.AttemptOutcome | packages/event-store/src/index.ts:319-362 | a commit from any earlier snapshot is recognised as done, applied exactly when up to date, or refused |
| Projection.ProjectionRefinesFold | packages/event-store/src/projection-runner.ts:14-44 | under any interleaving of runners and appends the stored projection is the fold over exactly the events up to its cursor |
| RunStatus.GetStatus | packages/event-store/src/run-manager.ts:89-119 | the scan with its early return computes the status of the stream, or nothing for an unclaimed Run or where the table lookup leaves no status |
| RunStatus.GetMeaning | packages/event-store/src/run-manager.ts:89-119 | the status is what the first settling event says, or else the last event that says anything, and queued exactly if none does |
| RunStatus.ProjectHarnessState | packages/event-store/src/harness-state.ts:68-94 | the harness state returned is the fold of the stream from the command's seed, and none exactly when an event's type names an inherited function |
| RunStatus.FoldMeaning | packages/event-store/src/harness-state.ts:43-66 | the folded state stands at its last event and shows the lineage last named, or the seed's |
| RunStatus.SeedMeaning | packages/event-store/src/harness-state.ts:68-85 | a Run claimed with a parent starts with the lineage of its command, any other with none |
| RunStatus.TablesAgree | packages/event-store/src/lifecycle.ts:3-23 | the two readers' tables say the same of every event type |
| RunStatus.InheritedMeaning | packages/event-store/src/lifecycle.ts:19-23 | a type outside the vocabulary says something exactly where its name is inherited |
| RunStatus.ReadersAgree | packages/event-store/src/run-manager.ts:89-119 | the folded status is the scanned one exactly when the events after the first final one leave it alone |
| RunStatus.StoreReadersAgree | packages/event-store/src/harness-state.ts:41-66 | on every stream a store can hold, both readers report the same status, or both none, exactly when no event's type names an inherited function |
| RunStatus.ReconcileSettles | packages/event-store/src/run-manager.ts:121-159 | with anything appended between any two awaits: a Run seen running is recorded as failed exactly if nothing came between listing and appending and it has no final event; else recovery yields exactly if somebody else settled or suspended it, and throws the sequence conflict otherwise |
| RunStatus.SuspensionOverwritten | packages/event-store/src/run-manager.ts:121-159 | a suspended Run is overwritten by run.failed exactly when its suspension came after its status was read and before its events were listed, and nothing after |
| EvalWrapper.WithContractEval | apps/harness-service/src/runtime.ts:180-278 | the wrapped start leaves and returns what the emissions, the held event and the verdict determine |
| EvalWrapper.WrapperAdds | apps/harness-service/src/runtime.ts:186-273 | it adds the non-terminal events, then the verdict, then at most one terminal event, numbered on |
| EvalWrapper.ClosingEvents | apps/harness-service/src/runtime.ts:222-272 | for every kernel on an open stream, member by member: the verdict says whether the evidence passed, and the event after it is the held one, kept or turned into the contract's failure, or the kernel's failure |
| EvalWrapper.WrappedKernel | apps/harness-service/src/runtime.ts:186-274 | for a kernel that returns its terminal event's status, that event is kept or becomes run.failed, and the status returned is what the stream reads as |
| EvalWrapper.StatusAgrees | apps/harness-service/src/runtime.ts:186-274 | for every kernel, also one whose append is refused: the start is refused exactly on a finished stream, and otherwise the exact condition under which the returned status is what the stream reads as |
| EvalContract.CompletedExactly | apps/harness-service/src/runtime.ts:186-274 | with the options the wrapper uses, the stream reads as completed exactly when the last terminal event held back is a completion and the evidence satisfies the contract, whatever the kernel emits and however it ends |
| EvalContract.CompletedHasStarted | apps/harness-service/src/runtime.ts:217-220 | no Run is left completed without a run.started event in its stream, and then all its events share one scope, parse, and the terminal event's id is new |
| EvalContract.TypeNames | apps/harness-service/src/runtime.ts:304-313 | the events the wrapper holds back are exactly those that end a Run to the contract |
| EvalContract.LateThrowDisagrees | apps/harness-service/src/runtime.ts:205-220 | a kernel that starts, completes and then throws is reported failed while its stream passes the contract and reads completed |
| EvalContract.LateAppendDisagrees | apps/harness-service/src/runtime.ts:189-210 | so is one that goes on after completing and returns completed: its next append is refused, because the held event left the stream one short |
| Utf8.DecodeEncode | apps/harness-service/src/workbench-files.ts:678-686 | what is encoded as UTF-8 decodes to the same text |
| Utf8.EncodeDecode | apps/harness-service/src/workbench-files.ts:684-685 | a fatal decoder accepts exactly the encodings of texts (section 4 of RFC 3629) |
| PagedRead.IncompleteTrailingSequenceStart | apps/harness-service/src/workbench-files.ts:688-704 | the backward loop finds the last leading byte and whether its sequence is cut |
| PagedRead.CutIsFound | apps/harness-service/src/workbench-files.ts:678-704 | bytes of a valid text cut anywhere: exactly the cut character is found, and nothing at a boundary |
| PagedRead.ReadRegisteredFile | apps/harness-service/src/workbench-files.ts:147-184 | one page with all its refusals: offset out of range, offset inside a character, not UTF-8 |
| PagedRead.PageIsItsRange | apps/harness-service/src/workbench-files.ts:160-184 | for any file, a returned page is exactly the bytes of its range and at most limit code points |
| PagedRead.PageIsNext | apps/harness-service/src/workbench-files.ts:147-184 | at a boundary of a valid file a page holds the next code points, as many as asked for and delivered whole |
| PagedRead.FullReadSuffices | apps/harness-service/src/workbench-files.ts:25-26 | 65536 bytes cannot run short of 16384 code points |
| PagedRead.PagesConcatenate | apps/harness-service/src/workbench-files.ts:147-184 | following next_offset joins the text without loss, repetition or split character, to its end exactly when no next offset is named |
| PagedRead.FullPagesAreExact | apps/harness-service/src/workbench-files.ts:147-184 | without short reads every page holds exactly min(limit, remaining) code points |
| PagedRead.PagedReadingTerminates | apps/harness-service/src/workbench-files.ts:147-184 | without short reads the reader has the whole text after at most one page per code point |
| PagedRead.PageMovesOn | apps/harness-service/src/workbench-files.ts:160-184 | a page advances exactly when the next code point was delivered whole |
| CanonicalJson.StableJsonIsCanonical | packages/event-store/src/codec.ts:65-73 | two values have the same canonical text exactly when they are the same JSON value up to member order |
| CanonicalJson.PrefixSelectsItsScope | packages/event-store/src/codec.ts:75-81 | a scoped key starts with a scoped prefix exactly when scope and kind are equal, whatever characters they hold |
| CanonicalJson.ScopedKeyInjective | packages/event-store/src/codec.ts:75-77 | different scopes, kinds or ids never share a key |
| DuplicateKeys.AssertNoDuplicateJsonKeys | apps/harness-service/src/jev-decision.ts:562-618 | the closures over one advancing index accept and refuse as the scanner's recursive specification does |
| DuplicateKeys.Scanner.ParseMembers | apps/harness-service/src/jev-decision.ts:575-592 | the member loop with its set of names stops at the closing brace or the first error |
| DuplicateKeyTrees.DuplicatesAreFoundExactly | apps/harness-service/src/jev-decision.ts:562-618 | every value tree printed with any white space and escapes is consumed exactly, and accepted if and only if no object at any depth names a member twice |
| DuplicateKeyTrees.LiteralUnescapes | apps/harness-service/src/jev-decision.ts:605-614 | the escapes of a string literal decode to its name (section 7 of RFC 8259) |
| JsonStrings.WrittenReadsBack | packages/event-store/src/codec.ts:65-73 | what the canonical printer writes for a string a JSON reader reads back (section 7 of RFC 8259) |
| JsonStrings.EscapesOnly | packages/event-store/src/codec.ts:65-73 | only the quote, the backslash and control characters are escaped |
| JsonStrings.HexMeaning | apps/harness-service/src/jev-decision.ts:605-614 | four hexadecimal digits of either case stand for their number |
| JsonStrings.SpaceIsSpace | apps/harness-service/src/jev-decision.ts:562-574 | the scanner skips what `trim` takes for white space |
| JsonStrings.SortsByUnits | packages/event-store/src/codec.ts:69-71 | members are sorted by UTF-16 code units |
| ApprovalSafety.StepKeeps | apps/harness-service/src/review-approval.ts:91-356 | every step of calls, handlers, timeouts, restarts, failing reads and appends that fail before or after writing keeps the protocol's invariant |
| ApprovalSafety.CallOutcomes | apps/harness-service/src/review-approval.ts:303-346 | how a call ends: with the decision its first read saw, or thrown with its waiter rejected |
| ApprovalSafety.HandlerOutcomes | apps/harness-service/src/review-approval.ts:271-296 | how a handler ends: its read failed, there was nothing left to decide, its append rejected, or it has resolved |
| ApprovalRuns.SettledExactly | apps/harness-service/src/review-approval.ts:303-356 | in every behaviour a call past its second read that was not rejected has its decision exactly when its waiter was not taken out by another call's timer, and that read saw a decision or a handler whose append did not reject has handed one on |
| ApprovalRuns.NoLostDecision | apps/harness-service/src/review-approval.ts:303-356 | a call waits on past its second read with its decision logged only if its waiter was taken out, the append rejected after writing, or the handler has yet to resolve |
| ApprovalRuns.DroppedExactly | apps/harness-service/src/review-approval.ts:327-330 | a waiter is taken out exactly when the timer of a call whose second read failed fires while it waits under the same request id |
| ApprovalRuns.OrphanTimerLosesDecision | apps/harness-service/src/review-approval.ts:327-346 | from the empty log: after a failing second read and a repeated call, a decision logged and handed on reaches nobody |
| ApprovalRuns.TornDecisionIsLost | apps/harness-service/src/review-approval.ts:91-104 | from the empty log: a decision whose append rejects after writing stands in the log while its waiter stays pending with no handler left |
| ApprovalRuns.OnlyLoggedDecisions | apps/harness-service/src/review-approval.ts:280-296 | nobody is released but with a logged decision for what was asked |
| ApprovalRuns.AskedOnce | apps/harness-service/src/review-approval.ts:222-356 | the log holds at most one request per fingerprint |
| ApprovalRuns.TwoDecisionsExactly | apps/harness-service/src/review-approval.ts:271-296 | in every behaviour the log holds two decisions for a request exactly when two of its handlers both read the log before either wrote |
| ApprovalRuns.DecisionsMayContradict | apps/harness-service/src/review-approval.ts:271-296 | from the empty log: two contradicting decisions are logged, the waiter is released with the first and later readers find the second |
| ContractEval.EvaluateContract | packages/eval/src/index.ts:227-301 | the loops push the failed rules in order and keep the first reason |
| ContractEval.PassedMeansSatisfied | packages/eval/src/index.ts:227-301 | a contract passes exactly on evidence that satisfies every rule |
| ContractEval.ValidMeaning | packages/eval/src/index.ts:184-221 | evidence is valid exactly if it is one Run's events and artifacts in one scope, every event once by id and by place in its stream |
| ContractEval.ReasonMeaning | packages/eval/src/index.ts:227-301 | the reason given is the first rule the evidence fails |
| ContractEval.CheckedInOrder | packages/eval/src/index.ts:173-182 | the checked ids are those of the events by time, then stream, then number, then id |
| ContractEval.OrderIndependent | packages/eval/src/index.ts:173-182 | every permutation of the events gives the same verdict, rules in the same order and checked ids, if and only if no two events with different ids are equal to the comparator |
| ContractEval.TiedIdsShow | packages/eval/src/index.ts:173-182 | valid, passing evidence whose stream ids and ids a collation ties is checked in the order it was recorded in |
| StableSort.SortForgetsExactly | packages/eval/src/index.ts:180-182 | all permutations sort to one result if and only if no two different elements tie |
| StableSort.TiesShow | packages/eval/src/index.ts:180-182 | a stable sort shows two tied elements in the order it was given them |
| QualityEval.ScoreWithin | packages/eval/src/index.ts:330-342 | the weighted score lies between any bounds of the criterion scores |
| QualityEval.PassedMeaning | packages/eval/src/index.ts:330-370 | a rubric passes exactly from its passing score on, and names exactly the criteria below it |
| QualityEval.RubricRefusals | packages/eval/src/index.ts:303-321 | why a rubric is refused, the first fault deciding |
| QualityEval.NoFailedCriterionPasses | packages/eval/src/index.ts:330-370 | no failed criterion implies passed, and all failed implies not passed |
| CapabilityIds.AssignCapabilityIds | apps/harness-service/src/workbench-mcp.ts:306-322 | every tool gets the first free candidate of its base, so all ids differ |
| CapabilityIds.FindFree | apps/harness-service/src/workbench-mcp.ts:317-318 | the suffix search ends with the first candidate not taken |
| CapabilityIds.BaseMeaning | apps/harness-service/src/workbench-mcp.ts:306-326 | a tool's base id is its server and then its name, each by its words joined with underscores, cut to sixty characters with a digest |
| CapabilityIds.WireRoundTrip | apps/harness-service/src/product-facade.ts:2403-2405 | a name comes back from its wire form exactly when no underscore stands before an underscore or a dot |
| CapabilityIds.CapabilityIdSurvives | apps/harness-service/src/workbench-mcp.ts:306-326 | every id not shortened survives its wire alias, suffixed or not, and a shortened one exactly when not cut behind an underscore |
| CapabilityIds.ProviderToolNameAliases | apps/harness-service/src/omp-model-transport.ts:67-80 | aliases are refused exactly when two different names share a wire name |
| CapabilityIds.AliasRoundTrip | apps/harness-service/src/omp-model-transport.ts:82-88 | through its aliases every tool name comes back |
| ProcessTree.DescendantClosure | apps/harness-service/src/workbench-sandbox.ts:490-504 | for every process table the search ends with exactly the seeds and everything reachable from them |
| CappedSink.Sink.Push | apps/harness-service/src/workbench-sandbox.ts:588-606 | the sink holds the first maxBytes bytes of everything pushed and says exactly when something was dropped or pushed at the cap |
| CappedSink.Sink.Contents | apps/harness-service/src/workbench-sandbox.ts:607-609 | what is decoded are those bytes |

## Left out

- Liveness after a crash: a Goal with no Run, or whose last Run is pending and was never admitted, only waits.
- GoalInvariant.StepKeeps: the prompt of a Run is arbitrary, other sessions are one kind of step, and an admission is marked only while it is pending and not yet failed; the continuation prompt's text and plan parsing are not modelled.
- GoalEvidence.ReviewedPlan: a Run's plan is the last one its events hold, a refused Run gets no more events, and reading a Run that had neither ended nor been refused may find any plan; how a plan is parsed from a todo result is not modelled.
- GoalDecision: final text is carried but not used by the decision, as in the code.
- SessionStore.WorkbenchSessionStore.CreateOrGet: the write chain is modelled as operations one at a time, each told what its persist does; loading and validating the sidecar, listing sessions and run scopes are not part of this model.
- Transport.Accumulator.AccumulatePayload: blocks are identified by position where the code shares references; fractional tool indices, abort signals and HTTP errors are not modelled.
- Sse.ReadServerSentEvents: a chunk is its decoded text and its byte count; the decoder itself, and lone surrogates, are not modelled.
- EvalWrapper.WithContractEval: of the verdict's payload only whether it passed is modelled; the kernel is the stream's only writer, so an append by anybody else between reading the events and adding the verdict, which makes the start reject and loses the held event, is not modelled; a refused append ends the kernel, the sink can be read, and ids are assumed fresh.
- Projection.ProjectionRefinesFold: the reducer's states are JSON values, the one exception being the harness state's (RunStatus.ProjectHarnessState); the seed is fixed, as it is once a Run is claimed; two stores of one database and SQLite are not modelled.
- EventStore.AppendKeeps: event types are the Run vocabulary or another name; commands, schedules, notifications and leases are not part of this model.
- ContractEval.OrderIndependent: timestamps are parsed; for events whose timestamp does not parse the comparator is not an order and the order of their checked ids is not modelled.
- QualityEval.ScoreWithin: over the reals, without floating-point rounding; the cache key is not modelled.
- ApprovalRuns.SettledExactly: a line is written whole or not at all, so a line cut by a crash is not modelled; the chain that runs one append after the other is not either, so the model has more interleavings than the code; a rejection nobody handles may end the process or not, as its host decides; other requests than approvals and decisions are plumbing.
- MigrationPlanning.PlanProductV1Migration: the digest and byte count of the source records are not modelled.
- PagedRead.ReadRegisteredFile: the file does not change during a read; path containment, hard links and the refusal off macOS are operating-system behaviour.
- CapabilityIds.AssignCapabilityIds: the 60-character bound is not claimed for suffixed ids, which may exceed it.
- CanonicalJson.StableJsonIsCanonical: values with their own toJSON, and lone surrogates in strings, are not modelled; a number is the numeral it prints as, and one JSON cannot express is null.
- DuplicateKeyTrees.DuplicatesAreFoundExactly: which other texts the scanner lets through as scalars is left to the JSON parser that runs after it.
- HTTP servers, routing, configuration, React UI, the SQLite store, the OMP worker's protocol, the Tool Gateway, profiles, sandbox policy and credential filters: plumbing, or contracts the properties above do not need.
- `statusFromEvents` is not an equivalent of the run manager's status on resumed Runs and is not modelled.
- Host memory context: its compare-and-swap would repeat the projection property.
