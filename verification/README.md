# Pactline protocols in Dafny

Pactline is a task platform in which people and agents share rows of one database.
Its correctness rests on small concurrent protocols over those rows. This project
models them and proves what every run of each protocol keeps.

Each database statement, or each transaction that locks its row, is one atomic
guarded step on maps and sequences. Workers, requests, relays, consumers and crashes
interleave without bound: a run is any sequence of steps, and the theorems quantify
over all of them. Stores whose methods change rows are classes; every method is proved
equal to a specification step, and the theorems are about those steps. What a step
does is also stated apart from its definition, in the columns it reads and writes and
with the source's constants written out. Loops in the
source are loops here, with their invariants. Clocks, provider answers, fresh ids and
rows locked by other transactions are parameters. Time is in nanoseconds, except in the
rate limiter, which uses exact reals.

| file | component |
|---|---|
| `Common.dfy` | optional values, results, instants, trimming |
| `AgentRuns.dfy`, `AgentRunProperties.dfy`, `AgentRunEffects.dfy`, `ClarificationBinding.dfy`, `AgentStorage.dfy` | agent runs under leases, clarification rounds and their outbox |
| `ToolLedger.dfy` | the write-once ledger of tool calls |
| `Idempotency.dfy`, `StoredResponses.dfy` | idempotency records, captured and replayed answers, request fingerprints |
| `CreateTask.dfy` | both together: one created Task per agent run |
| `TaskDomain.dfy`, `TaskWorkflow.dfy`, `TaskWorkflowStorage.dfy` | lifecycle, Claims, Issues and checks of a Task, and the transactions that pair them |
| `TaskWorkflowProperties.dfy`, `TaskEvidence.dfy`, `TaskCommandEffects.dfy` | pairing, review cycles, cycle tags, acceptance evidence, versions, who ended a Claim and who recorded a check |
| `Broker.dfy`, `EventPipeline.dfy`, `EventPipelineProperties.dfy`, `EventStorage.dfy` | outbox, relays, broker topology, consumers |
| `Invitations.dfy`, `InvitationEffects.dfy`, `Sessions.dfy` | invitations and authorizations, rolling sessions |
| `RateLimit.dfy` | the token bucket limiter |
| `AccessToken.dfy` | the personal access token format |
| `AuditPaging.dfy` | keyset pagination of the access audit |
| `Comments.dfy`, `CommentProperties.dfy`, `CommentEffects.dfy` | threaded comments and notification events |

`dafny verify dfyconfig.toml` checks the whole project.

## What turned out false, and exactly when

- A stored run row keeps the `Run.Validate` shape if and only if no step is given
  malformed arguments that the store does not check (`ShapeStep`); a blank worker id is
  such an argument and is reached (`BlankWorkerBreaksShape`).
- A clarification reference can be moved away from the current round's message. Without
  the run being commanded it moves if and only if it names an undelivered clarification
  of that run (`ReferenceMovesIff`), a step leaves the binding right if and only if it
  misnames nothing (`BindingStep`), and a provider id that reads as an older placeholder
  does it in a run from the empty tables (`PlaceholderLikeProviderIdRebinds`).
- Pruning of the limiter changes no decision if and only if every recreated bucket would
  have been full anyway (`PruningIsInvisibleIff`). That holds on every clock that steps
  back by no more than 442.5 s (`PruningIsInvisible`) and can fail beyond
  (`ClockRegressionExposesPruning`).
- The limiter's bound needs a limit on how far the clock steps back, which widens the
  window (`AdmissionBound`); without one it fails (`UnboundedJitterExceedsTheBound`).
- The idempotency guarantees need a handler to finish before its record expires.
  `LateFinishIff` says exactly when a finish at any other time touches somebody else's
  record or makes a stored answer false, and `LateFinishAnswersAnotherRequest` reaches it.
- A withdrawn invitation token stays dead only as long as it is not installed again;
  `TokenRotatedBackIsLive` shows that rotating back revives it.
- A live ticket creates its user if and only if nobody else has the profile's email
  (`LiveTicketCreatesUser`).
- Following audit cursors lists everything unless a page ends on a row whose cursor the
  handler refuses to decode (`FollowingCursorsListsEverything`, both directions).
- A token survives formatting and parsing exactly when its secret has 32 bytes
  (`TokenRoundTrip`).

The store and the in-memory `Run` methods differ in three places, and the model follows
the store: `ClaimRun` also takes over expired running runs; the store refuses renewal at
the exact expiry instant, which `Run.RenewLease` allows; `FinishRun` asks for no attached
Task, which `Run.Succeed` does.

## Assumptions

- Each statement or locking transaction is atomic, hashes are injective and fresh ids are new.
- Method, route, query and content type hold no zero byte, which Go's HTTP layer sees to;
  that is what the fingerprint's injectivity rests on (`ZeroByteConfusesFields`).
- The broker keeps what it has confirmed.

## Model

| member | source | states |
|---|---|---|
| `AgentRunProperties.WritesAreFenced` | internal/store/agent_store.go:250-349 | in every interleaving from the empty tables, a lease-guarded write takes effect only for the worker of the latest claim; for any other worker it changes neither table |
| `AgentRunProperties.OwnerRun` | internal/store/agent_store.go:250-321 | the owner of a running row is the worker of the latest successful claim, tracked over any history |
| `AgentRunProperties.LeaseExcludesOthers` | internal/store/agent_store.go:250-321 | until a lease expires nothing other workers do changes the run row |
| `AgentRunProperties.TerminalIsForever` | internal/store/agent_store.go:710-759 | a terminal row never changes again, so a run turns terminal at most once |
| `AgentRunProperties.AttachedTaskIsWriteOnce` | internal/store/agent_store.go:530-566 | an attached Task stays, and every later attempt by anyone answers with that same pair |
| `AgentRunProperties.NoTaskHasTwoRuns` | internal/store/agent_store.go:530-566 | no Task is ever attached to two runs |
| `AgentRunProperties.DeliveredIsForever` | internal/store/agent_store.go:790-899 | a delivered outbox message never changes again |
| `AgentRunProperties.OneRunPerTrigger` | internal/store/agent_store.go:22-64 | no two runs of a tenant share a provider event or a trigger message, in every run |
| `AgentRunProperties.ShapeStep` | internal/agent/domain.go:179-236 | from valid rows a step leaves every row valid if and only if its arguments are not malformed |
| `AgentRunProperties.RowsStayValid` | internal/agent/domain.go:179-236 | every reachable row has a lease iff running, a completion time iff terminal, at most 3 rounds and 100 context messages |
| `AgentRunProperties.BlankWorkerBreaksShape` | internal/store/agent_store.go:250-295 | from the empty tables a claim by a blank worker id leaves a row that is not valid |
| `ClarificationBinding.BoundReferenceIsCurrentRounds` | internal/store/agent_store.go:568-617 | while a run waits, a bound reference is the provider id of the outbox message the current round created, in every run that misnames nothing |
| `ClarificationBinding.BindingStep` | internal/store/agent_store.go:830-877 | a step from a bound state leaves the run bound iff neither the provider nor a late handover names another undelivered clarification |
| `ClarificationBinding.PlainProvidersNeverMisname` | internal/store/agent_store.go:830-877 | provider ids that do not begin like a placeholder misname nothing in any run |
| `ClarificationBinding.ReferenceMovesIff` | internal/store/agent_store.go:830-877 | in every reachable state, some course of steps that does not command the waiting run moves its reference iff the reference names an undelivered clarification of it |
| `ClarificationBinding.LateDeliveryNeverRebinds` | internal/store/agent_store.go:830-877 | a reference that names none is never moved, however late deliveries are |
| `ClarificationBinding.DeliveryMovesIff` | internal/store/agent_store.go:830-877 | one delivery moves a run's reference iff the run waits at the placeholder of the clarification delivered |
| `ClarificationBinding.DeliveriesAreLeased` | internal/store/agent_store.go:790-828 | in every run a message under delivery has a lease |
| `ClarificationBinding.PlaceholderLikeProviderIdRebinds` | internal/store/agent_store.go:568-657 | from the empty tables: a run bound to its second round's message is moved to the first round's by a late delivery, because the provider's id read as that placeholder |
| `AgentRuns.PendingRefInjective` | internal/store/agent_store.go:568-617 | two messages never share a pending reference |
| `AgentRunEffects.AbandonedRunsComeBack` | internal/store/agent_store.go:250-295 | in every state reachable from the empty tables a running row has an owner and a lease end, anyone's claim from that end on takes the run over, and none before it does |
| `AgentRunEffects.ClaimTakesFreeRuns` | internal/store/agent_store.go:250-295 | a named worker takes a run queued and due, or running past its lease's end, with one more attempt and a lease of its own, and no other |
| `AgentRunEffects.RunningRunsAreLeased` | internal/store/agent_store.go:250-321 | every run of steps keeps a running row leased |
| `AgentRunEffects.RowCountsItsHistory` | internal/store/agent_store.go:250-349 | attempts, clarification rounds and context messages of a row are what its claims, questions and additions come to |
| `AgentRunEffects.StatusWasGiven` | internal/store/agent_store.go:710-759 | in every run a terminal row has the status and instant of a finish or cancellation that some step commanded |
| `AgentRunEffects.RenewalExtends` | internal/store/agent_store.go:297-321 | the holder of an unexpired lease moves its end, nobody else does, and nothing else changes |
| `AgentRunEffects.ContextAdds` | internal/store/agent_store.go:323-349 | the holder adds a count up to 100 in all |
| `AgentRunEffects.AttachmentWritesBoth` | internal/store/agent_store.go:530-566 | the holder of a run without a Task writes id and number together, if no other run has either |
| `AgentRunEffects.RetryGivesBack` | internal/store/agent_store.go:761-781 | the holder's run is queued for the given instant and unleased |
| `AgentRunEffects.EnqueueInserts` | internal/store/agent_store.go:1059-1081 | a message is stored unleased unless its key or id is known, its state is not an initial one or its run is missing |
| `AgentRunEffects.OutboxClaimLeases` | internal/store/agent_store.go:790-828 | a message due, or under a delivery past its lease, is leased with one more attempt |
| `AgentRunEffects.DeliveryIsSettledByItsHolder` | internal/store/agent_store.go:830-899 | only the lease holder marks a message delivered, with the provider's id, or failed, until the given instant |
| `AgentRunEffects.WaitingAsks` | internal/store/agent_store.go:568-617 | the holder's run waits, one round further up to three, for 24 hours, with its question stored |
| `AgentRunEffects.ResumeQueues` | internal/store/agent_store.go:619-657 | the initiating user's reply to the shown reference, in time, queues the run at once |
| `AgentRunEffects.FinishStoresStatus` | internal/store/agent_store.go:710-759 | the holder's run ends with the terminal status given, with the notice stored or nothing changed |
| `AgentRunEffects.ExpiredWaitIsCancelled` | internal/store/agent_store.go:934-987 | a wait past its end is cancelled with its notice, and no other |
| `AgentRunEffects.CreationInserts` | internal/store/agent_store.go:22-64 | a new run is queued, due at once, with nothing counted |
| `AgentStorage.FirstClaimable` | internal/store/agent_store.go:250-295 | finds the first claimable unlocked run in claim order, or none exists |
| `AgentStorage.SoonestDeliverable` | internal/store/agent_store.go:790-828 | finds the soonest deliverable unlocked message by availability, creation and id, or none exists |
| `AgentStorage.FirstOfMeans` | internal/store/agent_store.go:250-295 | the row chosen is free, unlocked, and no later in availability, creation and id than any other such row |
| `AgentStorage.SoonestOfMeans` | internal/store/agent_store.go:790-828 | the same for the message chosen for delivery |
| `AgentStorage.FindRunByProviderIdentity` | internal/store/agent_store.go:989-1001 | finds the earliest run of an event or trigger message, or none exists |
| `AgentStorage.AgentStore.CreateRun` | internal/store/agent_store.go:22-64 | inserts a valid run with a new id, event and trigger message; otherwise answers with the earliest run of that event or message |
| `AgentStorage.AgentStore.ClaimRun` | internal/store/agent_store.go:250-295 | claims the first free run in claim order, and answers none iff no unlocked row is queued and due or running past its lease |
| `AgentStorage.AgentStore.RenewRunLease` | internal/store/agent_store.go:297-321 | extends the owner's unexpired lease, otherwise the lease is lost and nothing changes |
| `AgentStorage.AgentStore.AddContextMessages` | internal/store/agent_store.go:323-349 | adds to the owner's context count up to 100 |
| `AgentStorage.AgentStore.AttachTask` | internal/store/agent_store.go:530-566 | attaches once and answers with the attached pair and whether this call attached it |
| `AgentStorage.AgentStore.InsertOutbox` | internal/store/agent_store.go:1059-1081 | inserts a message unless its key exists, under the table's constraints |
| `AgentStorage.AgentStore.MarkRunWaiting` | internal/store/agent_store.go:568-617 | starts a clarification round with its message, at most three times |
| `AgentStorage.AgentStore.ResumeWaitingRun` | internal/store/agent_store.go:619-657 | resumes for the initiating user and the bound reference only |
| `AgentStorage.AgentStore.FinishRun` | internal/store/agent_store.go:710-759 | makes the owner's run terminal, with its notice |
| `AgentStorage.AgentStore.RetryRun` | internal/store/agent_store.go:761-781 | gives the owner's run back for a later attempt |
| `AgentStorage.AgentStore.CancelExpiredClarification` | internal/store/agent_store.go:934-987 | cancels a waiting run whose wait is over, once |
| `AgentStorage.AgentStore.ClaimOutbox` | internal/store/agent_store.go:790-828 | leases exactly the soonest deliverable message, and answers none iff no unlocked message is due or past its delivery lease |
| `AgentStorage.AgentStore.MarkOutboxDelivered` | internal/store/agent_store.go:830-877 | the lease holder marks delivery and binds the pending reference it names |
| `AgentStorage.AgentStore.MarkOutboxFailed` | internal/store/agent_store.go:879-899 | the lease holder puts the message back |
| `ToolLedger.SuccessesAgree` | internal/agent/tool_ledger.go:27-102 | all successful invocations of a call have the same tool, arguments and JSON, however many workers executed it |
| `ToolLedger.SettledIsForever` | internal/store/agent_store.go:509-528 | a completed or failed call never changes again |
| `ToolLedger.NothingExecutesAfterSettling` | internal/agent/tool_ledger.go:43-71 | a later invocation never executes; it succeeds iff the call completed with the same tool and arguments, with the recorded result |
| `ToolLedger.EvidenceIsIdempotent` | internal/agent/tool_ledger.go:104-120 | adding the evidence id a second time is accepted and changes nothing |
| `ToolLedger.EvidenceKeepsTheResult` | internal/agent/tool_ledger.go:104-120 | an object keeps every field of the tool's result and gains the call id, a string or null is unchanged, anything else is refused |
| `ToolLedger.AnswersComeFromTools` | internal/agent/tool_ledger.go:31-102 | in every run a successful invocation, executed or replayed, answers with all of what a tool returned for that call |
| `ToolLedger.RecordsComeFromOutputs` | internal/store/agent_store.go:417-528 | every recorded result is what a tool returned for that call, with its evidence id |
| `ToolLedger.CallBegins` | internal/agent/tool_ledger.go:31-71 | what an invocation is told at once, and when it executes, by the row's tool, arguments and state |
| `ToolLedger.OutcomeIsSettled` | internal/agent/tool_ledger.go:73-98 | what each outcome of a tool leaves in the row and answers |
| `ToolLedger.Ledger.ClaimToolCall` | internal/store/agent_store.go:417-481 | inserts an executing row, or answers replay, running or conflict |
| `ToolLedger.Ledger.SettleToolCall` | internal/store/agent_store.go:509-528 | only an executing row is completed or failed |
| `ToolLedger.Ledger.Enter` | internal/agent/tool_ledger.go:31-71 | the middleware before the tool: an answer, or go on and execute |
| `ToolLedger.Ledger.Leave` | internal/agent/tool_ledger.go:73-98 | the middleware after the tool: settles the row and answers |
| `Idempotency.HoldersNeverOverlap` | internal/store/idempotency_store.go:20-144 | in every run of timely handlers two requests that hold one key have disjoint retention periods, so never at once |
| `Idempotency.ReplaysAreGenuine` | internal/api/idempotency.go:93-160 | every replay is the answer of a request that executed with the same key and fingerprint |
| `Idempotency.LiveRecordDecides` | internal/api/idempotency.go:102-160 | while a record lives a newcomer never runs, and is shown the stored answer iff the holder finished and the fingerprints are equal |
| `Idempotency.ArrivalDecides` | internal/store/idempotency_store.go:20-103 | a request runs, replays or is refused by the record's expiry, fingerprint and state, and a new record lives for 24 hours |
| `Idempotency.HandlersSettle` | internal/api/idempotency.go:102-160 | an answer below 500 is stored for the claim, one from 500 on frees the key |
| `Idempotency.FailureFreesTheKey` | internal/api/idempotency.go:137-142 | in every timely run, after a server error or a panic the next request with the key runs |
| `Idempotency.CleanupDeletesExpired` | internal/store/access_audit_store.go:55-65 | cleaning up deletes exactly the records that expired before the instant |
| `Idempotency.AcquiredAfterExpiry` | internal/store/idempotency_store.go:20-103 | a key is acquired only after the expiry of everyone who held it |
| `Idempotency.LateFinishIff` | internal/store/idempotency_store.go:105-144 | after any timely run, a finish at any time touches another's record iff the key's claim is not its own, and keeps stored answers genuine iff that claim has its fingerprint or the answer was computed for it; both only past its own expiry |
| `Idempotency.LateFinishAnswersAnotherRequest` | internal/store/idempotency_store.go:105-130 | such a finish is reached: a handler finishing late completes another request's claim, and a third sees an answer nobody computed for it |
| `Idempotency.IdempotencyStore.Claim` | internal/store/idempotency_store.go:20-103 | acquires an absent or expired key, else replay, in progress or mismatch |
| `Idempotency.IdempotencyStore.Complete` | internal/store/idempotency_store.go:105-130 | stores the answer of a claimed key |
| `Idempotency.IdempotencyStore.Release` | internal/store/idempotency_store.go:132-144 | frees a claimed key and leaves a completed one |
| `Idempotency.IdempotencyStore.DeleteIdempotencyBefore` | internal/store/access_audit_store.go:55-65 | deletes exactly the records expired before an instant |
| `StoredResponses.ReplaysCarryExecutions` | internal/api/idempotency.go:93-160 | in every timely run whose handlers answer through the recorder, a replay writes the status, body and kept headers of a request that executed with the same key and fingerprint |
| `StoredResponses.ReplayCarriesTheExecution` | internal/api/idempotency.go:215-229 | storing and replaying keeps status, body and whitelisted headers, and adds nothing but the replaying request's id and the replay mark |
| `StoredResponses.FingerprintIsInjective` | internal/api/idempotency.go:200-213 | fields without zero bytes and the body can be read back from what is hashed |
| `StoredResponses.ZeroByteConfusesFields` | internal/api/idempotency.go:200-213 | a zero byte in a field makes two different requests hash the same bytes |
| `StoredResponses.FingerprintInput` | internal/api/idempotency.go:200-213 | the loop writes each field and a zero byte, then the body |
| `StoredResponses.CapturedResponse.WriteHeader` | internal/api/idempotency.go:269-273 | the first status stays |
| `StoredResponses.CapturedResponse.Write` | internal/api/idempotency.go:275-280 | appends to the body and defaults the status |
| `StoredResponses.CapturedResponse.StoredResponse` | internal/api/idempotency.go:289-302 | keeps status, body and whitelisted headers with the request's own id |
| `CreateTask.OneTaskPerRun` | internal/agent/tools/tools.go:778-804 | across workers, crashes and reclaims, while the record lives, at most one creation completes, every answer is that one, and the run's attached Task is the one in it |
| `CreateTask.AnswerIsAttached` | internal/agent/tools/tools.go:778-804 | the worker that holds the run attaches the Task of its answer if none is attached |
| `CreateTask.RunsHaveTheirOwnKeys` | internal/agent/domain.go:454-456 | records are shared iff user, run and run text are the same |
| `TaskWorkflowProperties.StaysPaired` | internal/store/task_workflow_store.go:118-1258 | in every run, working iff exactly one active Claim, on the phase's stage; needs_resolution iff exactly one open Issue, opened from the phase; cancelled Tasks have neither |
| `TaskWorkflowProperties.GuardsAgree` | internal/domain/task_stage_claim.go:149-222 | for the Claim a Task is worked under, the lifecycle guard takes an outcome iff the Claim does |
| `TaskWorkflowProperties.ClaimCommandsSucceedIff` | internal/store/task_workflow_store.go:362-597 | a Claim command succeeds iff text is given, the Task and Claim versions match, the actor owns the active Claim, the phase is the one it needs, and for a completion exactly the active code changes are delivered, for a resolution the Issue type is known; so none half succeeds |
| `TaskWorkflowProperties.OwnedClaimMeans` | internal/store/task_workflow_store.go:599-644 | a reference is taken iff both versions match and the actor owns the active Claim it names, else refused as stale, conflicting or forbidden, in that order |
| `TaskCommandEffects.ClaimsEndByTheirOwner` | internal/store/task_workflow_store.go:599-644 | in every run of a Task, a Claim released, completed, reviewed, accepted or stopped for a resolution was ended so by a command of its own owner |
| `TaskCommandEffects.AcceptanceWasEarned` | internal/store/task_workflow_store.go:956-1109 | when acceptance succeeds, every active criterion was recorded as passed or waived, at its present revision, by a successful step of the run |
| `TaskCommandEffects.ChecksWereRecorded` | internal/store/task_workflow_store.go:956-1039 | every check of every run has the criterion, revision and outcome that some successful step gave |
| `TaskCommandEffects.CheckIsRecordedAsGiven` | internal/store/task_workflow_store.go:956-1039 | the owner's check is recorded with the outcome given, for the current revision of an active criterion, with evidence |
| `TaskCommandEffects.PlainCheckNamesNoClaim` | internal/store/acceptance_store.go:329-395 | a check outside a Claim is recorded as given and names no Claim |
| `TaskCommandEffects.ReleaseFrees` | internal/store/task_workflow_store.go:362-380 | the owner's Claim ends as released and the Task is available |
| `TaskCommandEffects.SubmissionIsTagged` | internal/store/task_workflow_store.go:382-430 | the owner of an execution Claim adds one item with the coming cycle |
| `TaskCommandEffects.CompletionOpensReview` | internal/store/task_workflow_store.go:448-509 | the Claim ends as completed and the Task is available for review in the next cycle |
| `TaskCommandEffects.ChangeRequestReopens` | internal/store/task_workflow_store.go:511-529 | the review Claim ends and the Task is available in progress, in the same cycle |
| `TaskCommandEffects.ResolutionRequestBlocks` | internal/store/task_workflow_store.go:785-871 | the Claim ends and the Task waits for the Issue opened with it |
| `TaskCommandEffects.ResolvingFrees` | internal/store/task_workflow_store.go:873-954 | the named active Issue is resolved and the Task available |
| `TaskCommandEffects.AcceptanceFinishes` | internal/store/task_workflow_store.go:1041-1109 | the review Claim ends as accepted and the Task is done |
| `TaskCommandEffects.CancellingEndsAll` | internal/store/task_workflow_store.go:1117-1221 | the Claim ends or the Issue is resolved, and the Task is cancelled |
| `TaskCommandEffects.ClaimingStartsWork` | internal/store/task_workflow_store.go:208-265 | a claim on an available Task makes its owner work on the stage of the phase |
| `TaskCommandEffects.ExpiryFrees` | internal/store/task_workflow_store.go:302-341 | exactly a due Claim expires and frees the Task |
| `TaskCommandEffects.ReadinessMoves` | internal/store/task_workflow_store.go:118-159 | backlog and ready turn into each other at the expected version only |
| `TaskCommandEffects.ProgressIsTagged` | internal/store/task_claim_commands.go:170-235 | the owner of the active Claim adds progress with its cycle |
| `TaskCommandEffects.ArchivingWaits` | internal/store/task_store.go:1012-1075 | a Task worked on or blocked is not archived; otherwise the flag is stored |
| `TaskCommandEffects.CriteriaAreKept` | internal/store/acceptance_store.go:411-471 | a criterion with checks is archived, one without is removed |
| `TaskCommandEffects.RewordingMovesRevision` | internal/store/acceptance_store.go:246-291 | an edit stores the wording and moves the revision iff it differs |
| `TaskWorkflow.DeliveryAcceptedIff` | internal/store/task_workflow_store.go:657-696 | a delivery is accepted iff it is of exactly the active code changes, each once and validly |
| `TaskWorkflowProperties.TaskCommandsSucceedIff` | internal/store/task_workflow_store.go:873-1221 | cancelling succeeds iff the version matches and the Task is not terminal; resolving iff it names the active Issue and both versions |
| `TaskWorkflowProperties.DueClaimsAreTakenAway` | internal/store/task_claim_commands.go:17-44 | a Claim past its deadline is expired before a command on it runs, the command is refused and the Task is available |
| `TaskWorkflowProperties.TerminalTasksStay` | internal/domain/task_lifecycle.go:215-225 | a Task done or cancelled keeps its lifecycle, Claims and Issues in every run |
| `TaskWorkflowProperties.ClaimLastsSevenDays` | internal/domain/task_stage_claim.go:90-116 | a granted Claim falls due seven days later and not before |
| `TaskWorkflowProperties.ArchivedTasksRest` | internal/store/task_store.go:1037-1044 | in every run nobody works on an archived Task and no Issue blocks it |
| `TaskWorkflowProperties.ExpiryPairs` | internal/store/task_workflow_store.go:267-300 | expiry never fails and ends exactly the due Claim |
| `TaskWorkflowProperties.ReviewCyclesCount` | internal/domain/task_lifecycle.go:116-225 | the review cycle is the number of completed executions; one more than the change requests iff in review or done |
| `TaskWorkflowProperties.StepKeepsInv` | internal/domain/task_lifecycle.go:116-225 | every command keeps the pairing, the counts and the history of Claims |
| `TaskEvidence.CycleTagsHold` | internal/store/task_claim_commands.go:170-235 | cycle tags are at least 1, never decrease, agree within a Claim, and a completion item carries the cycle it opened |
| `TaskEvidence.TagsNameCycles` | internal/store/task_claim_commands.go:230-235 | a Claim's tag is at least 1 and equals the cycle its completed execution produces |
| `TaskEvidence.AcceptedOnCurrentEvidence` | internal/store/task_workflow_store.go:1041-1109 | in every run of a Task from its creation, acceptance succeeds iff every active criterion has a passing check of its current revision under a review Claim made after the latest completion, and nothing else is unfinished |
| `TaskEvidence.ChecksStayFit` | internal/store/task_workflow_store.go:956-1039 | in every run a check carries the purpose of its Claim's stage and the number of completions before that Claim |
| `TaskEvidence.EveryRunFits` | internal/store/task_workflow_store.go:118-1258 | pairing, cycle tags, checks and the rest of an archived Task hold of every Task from its creation on |
| `TaskEvidence.CountsIffCurrent` | internal/domain/acceptance.go:127-164 | in every run of a Task exactly such checks count |
| `TaskEvidence.StaleChecksNeverCount` | internal/domain/acceptance.go:149-153 | execution checks, failed ones, those of earlier cycles and of edited criteria never count again, whatever follows |
| `TaskEvidence.EditsAndCompletionsMakeStale` | internal/domain/acceptance.go:62-69 | rewording a criterion or completing another execution makes every earlier check stale |
| `TaskEvidence.ReadyIff` | internal/store/task_workflow_store.go:1418-1460 | the readiness counts are complete iff every active criterion is satisfied and no child or dependency is unfinished |
| `TaskEvidence.OneCommandPerVersion` | internal/store/task_workflow_store.go:1223-1258 | of two commands prepared against one Task version, once one has moved the Task the other is refused for ever |
| `TaskDomain.FinishedOnce` | internal/domain/task_stage_claim.go:118-182 | finishing keeps a Claim valid and no Claim finishes twice |
| `TaskDomain.TaskLifecycle.RequireWorkingStage` | internal/domain/task_lifecycle.go:227-246 | refuses unless working, and on another stage than the phase's |
| `TaskDomain.TaskLifecycle.MarkReady` | internal/domain/task_lifecycle.go:116-128 | backlog to ready unless archived or blocked, else unchanged |
| `TaskDomain.TaskLifecycle.WithdrawReadiness` | internal/domain/task_lifecycle.go:130-136 | ready back to backlog, else unchanged |
| `TaskDomain.TaskLifecycle.Claim` | internal/domain/task_lifecycle.go:138-158 | grants the stage of the phase when claimable, else unchanged |
| `TaskDomain.TaskLifecycle.Release` | internal/domain/task_lifecycle.go:160-166 | available again on the matching stage |
| `TaskDomain.TaskLifecycle.RequestResolution` | internal/domain/task_lifecycle.go:168-174 | needs resolution on the matching stage |
| `TaskDomain.TaskLifecycle.ResolveIssue` | internal/domain/task_lifecycle.go:176-182 | available again after an Issue |
| `TaskDomain.TaskLifecycle.CompleteExecution` | internal/domain/task_lifecycle.go:184-192 | in review, available, next cycle |
| `TaskDomain.TaskLifecycle.RequestChanges` | internal/domain/task_lifecycle.go:194-201 | back in progress, same cycle |
| `TaskDomain.TaskLifecycle.Accept` | internal/domain/task_lifecycle.go:203-213 | done when readiness is complete |
| `TaskDomain.TaskLifecycle.Cancel` | internal/domain/task_lifecycle.go:215-225 | cancelled from any valid state that is not terminal |
| `TaskDomain.TaskStageClaim.Complete` | internal/domain/task_stage_claim.go:149-182 | an active Claim takes the outcomes of its stage, with the matching status |
| `TaskDomain.IssueThread.Resolve` | internal/domain/thread.go:116-130 | an open Issue resolves once |
| `TaskDomain.AcceptanceCriterion.Edit` | internal/domain/acceptance.go:62-69 | the revision moves iff the wording changes |
| `TaskWorkflow.OwnedClaim` | internal/store/task_workflow_store.go:617-644 | what a command may act on is the active Claim the caller named; `TaskWorkflowProperties.OwnedClaimMeans` says exactly when |
| `TaskWorkflowStorage.TaskWorkflowStore.MarkReady` | internal/store/task_workflow_store.go:118-142 | the tables afterwards are the step's, or untouched with its refusal |
| `TaskWorkflowStorage.TaskWorkflowStore.WithdrawReadiness` | internal/store/task_workflow_store.go:144-159 | the same for withdrawing readiness |
| `TaskWorkflowStorage.TaskWorkflowStore.Claim` | internal/store/task_workflow_store.go:208-265 | expires a due Claim, then grants a new one in the same transaction |
| `TaskWorkflowStorage.TaskWorkflowStore.ExpireDueWorkflowClaim` | internal/store/task_workflow_store.go:267-300 | the rows with the due Claim ended and the Task freed, uncommitted |
| `TaskWorkflowStorage.TaskWorkflowStore.ExpireDueClaim` | internal/store/task_workflow_store.go:302-341 | commits that expiry and reports whether there was one |
| `TaskWorkflowStorage.TaskWorkflowStore.ClaimCommandTarget` | internal/store/task_claim_commands.go:17-44 | answers with an active Claim before its deadline, else expires it or refuses, with the error |
| `TaskWorkflowStorage.TaskWorkflowStore.LockOwnedClaim` | internal/store/task_workflow_store.go:617-644 | version, Claim and owner checks in the source's order |
| `TaskWorkflowStorage.TaskWorkflowStore.CommitFinish` | internal/store/task_workflow_store.go:574-583 | the Claim ends and the Task moves together or not at all |
| `TaskWorkflowStorage.TaskWorkflowStore.ReleaseClaim` | internal/store/task_workflow_store.go:362-380 | the release step |
| `TaskWorkflowStorage.TaskWorkflowStore.RequestChanges` | internal/store/task_workflow_store.go:511-529 | the change request step |
| `TaskWorkflowStorage.TaskWorkflowStore.RecordWorkSubmission` | internal/store/task_workflow_store.go:382-430 | appends an item tagged with the coming cycle |
| `TaskWorkflowStorage.TaskWorkflowStore.CheckDelivery` | internal/store/task_workflow_store.go:679-696 | the loops refuse a delivery as the specification, with its error |
| `TaskWorkflowStorage.TaskWorkflowStore.CompleteExecution` | internal/store/task_workflow_store.go:448-509 | the completion step, with the delivery check and an item tagged with the cycle opened |
| `TaskWorkflowStorage.TaskWorkflowStore.RequestResolution` | internal/store/task_workflow_store.go:785-871 | opens an Issue, ends the Claim and blocks the Task together |
| `TaskWorkflowStorage.TaskWorkflowStore.ResolveIssue` | internal/store/task_workflow_store.go:873-954 | resolves the active Issue and frees the Task together |
| `TaskWorkflowStorage.TaskWorkflowStore.RecordAcceptanceCheck` | internal/store/task_workflow_store.go:956-1039 | records the check as given, with the purpose of the Claim's stage and the current cycle |
| `TaskWorkflowStorage.TaskWorkflowStore.AcceptTask` | internal/store/task_workflow_store.go:1041-1109 | the acceptance step |
| `TaskWorkflowStorage.TaskWorkflowStore.CancelTask` | internal/store/task_workflow_store.go:1117-1221 | ends the Claim or resolves the Issue, and cancels, together |
| `TaskWorkflowStorage.TaskWorkflowStore.RecordClaimProgress` | internal/store/task_claim_commands.go:170-228 | appends progress with the Claim's cycle tag, or the first refusal in the source's order |
| `TaskWorkflowStorage.TaskWorkflowStore.SetArchived` | internal/store/task_store.go:1012-1075 | archives unless worked on or blocked, and moves the version |
| `TaskWorkflowStorage.TaskWorkflowStore.UpdateCriterion` | internal/store/acceptance_store.go:246-291 | stores the edited criterion if still valid |
| `Broker.Topology` | internal/messaging/rabbitmq.go:126-173 | for every routing key: at most one queue receives it; for exactly the keys of the Lark queue what it rejects goes on to the retry queue alone and from there to the Lark queue alone; what the noop queue rejects goes to the dead queue, which sends nothing on |
| `EventPipelineProperties.NoEventIsLost` | internal/messaging/rabbitmq.go:175-376 | in every run from the start, with any relays, crashes and redeliveries: published rows were confirmed, confirmed events reached every queue they route to, and every copy is queued, held, or acknowledged once recorded or buried |
| `EventPipelineProperties.UnpublishedRowsComeBack` | internal/store/outbox_store.go:34-109 | in every run from the start an unpublished row is claimable from 256 s after its last claim or failure mark |
| `EventPipelineProperties.RunKeepsInv` | internal/application/outbox_relay.go:41-65 | the outbox and copy invariants hold over every run and no copy disappears |
| `EventPipelineProperties.RejectedMessageWaits` | internal/messaging/rabbitmq.go:264-311 | a message the Lark consumer rejects is moved to the retry queue with one more rejection |
| `EventPipelineProperties.WaitingMessageReturns` | internal/messaging/rabbitmq.go:155-165 | no step moves a waiting message anywhere but back to the Lark queue after 30 s |
| `EventPipelineProperties.ExhaustedMessageIsBuried` | internal/messaging/rabbitmq.go:281-297 | a fifth failure, or one not worth repeating, leaves a dead copy before the original is acknowledged |
| `EventPipelineProperties.RetryableFailureWaits` | internal/messaging/rabbitmq.go:281-297 | a failure worth repeating with fewer than four rejections before it is sent to wait, never buried |
| `EventPipelineProperties.CopiesAreDelivered` | internal/messaging/rabbitmq.go:210-311 | a queued copy is handed to its own consumer, one given back is queued again, one settled is acknowledged, and no other copy changes |
| `EventPipelineProperties.ConsumptionIsRecorded` | internal/messaging/rabbitmq.go:210-311 | what a consumer settles it has recorded for the event |
| `EventPipelineProperties.OutboxIsFilledAndClaimed` | internal/store/outbox_store.go:34-79 | a new row is pending and due, a claimed one is publishing for 30 s with one more attempt |
| `EventPipelineProperties.DeadLetterKeepsCopies` | internal/messaging/rabbitmq.go:353-376 | a dead-lettered original is acknowledged only after its dead copy is confirmed |
| `EventPipeline.RetryDelayBound` | internal/store/outbox_store.go:93-97 | a failed row waits between 1 and 256 seconds; the five minute cap is never reached |
| `EventPipeline.RetryDelayDoubles` | internal/store/outbox_store.go:93-97 | the delay doubles from one second with each attempt up to the eighth and stays at 256 s |
| `EventStorage.Oldest` | internal/store/outbox_store.go:43-48 | the oldest candidate by creation time and id |
| `EventStorage.SelectBatch` | internal/store/outbox_store.go:43-48 | the oldest eligible unlocked rows in order, up to the limit, 50 when out of range |
| `EventStorage.BatchesAreClaimable` | internal/store/outbox_store.go:43-48 | what the query selects is a batch the claim step accepts |
| `EventStorage.OutboxStore.ClaimBatch` | internal/store/outbox_store.go:34-79 | exactly the batch becomes publishing for 30 s with one more attempt |
| `EventStorage.OutboxStore.MarkPublished` | internal/store/outbox_store.go:81-91 | the row becomes published whatever its status, not found otherwise |
| `EventStorage.OutboxStore.MarkFailed` | internal/store/outbox_store.go:93-109 | the row becomes pending again after the doubling delay |
| `EventStorage.OutboxStore.WasConsumed` | internal/store/outbox_store.go:120-132 | whether the consumer recorded the event |
| `EventStorage.OutboxStore.MarkConsumed` | internal/store/outbox_store.go:134-145 | records once and tells the first |
| `EventStorage.MarkBatch` | internal/application/outbox_relay.go:46-63 | each claimed row ends published iff its publish was confirmed, else pending after the delay of its attempt; no other row changes |
| `EventStorage.PublishPending` | internal/application/outbox_relay.go:41-65 | one relay round, in columns: exactly the oldest eligible batch is touched, a row is published iff the broker confirmed it, else pending again later |
| `EventStorage.RoundIsARun` | internal/application/outbox_relay.go:41-65 | what a round leaves in the outbox is what the pipeline's own claim, publish and mark steps leave, so what holds of every run holds of relays |
| `EventStorage.MarkedRoundLeaves` | internal/application/outbox_relay.go:46-63 | the marks of a claimed batch leave the rows of a round |
| `EventStorage.DeliveryAttempt` | internal/messaging/rabbitmq.go:335-351 | the largest rejection count of the Lark queue, zero without one |
| `EventStorage.HandleLarkDelivery` | internal/messaging/rabbitmq.go:255-308 | acknowledges iff decoded, looked up, and seen before or handled and recorded; buries iff undecodable, not worth repeating or tried five times, else rejects |
| `Invitations.WithdrawnTokenCreatesNoUser` | internal/identity/service.go:502-590 | no authorization begun with a token later rotated, revoked or expired creates a user, wherever the withdrawal falls |
| `Invitations.ExpiredTokenCreatesNoUser` | internal/store/identity_store.go:239-265 | once the clock has passed an invitation's expiry no ticket of its token creates a user, though the sweep never runs |
| `Invitations.LiveTicketCreatesUser` | internal/store/identity_store.go:239-317 | a saved ticket creates its user iff it is still live and nobody else has the profile's email |
| `Invitations.TokenRotatedBackIsLive` | internal/store/identity_store.go:197-226 | rotating a token away and back revives it |
| `Invitations.InvitationAcceptedAtMostOnce` | internal/store/identity_store.go:239-317 | an invitation creates at most one user, its target |
| `Invitations.StateConsumedAtMostOnce` | internal/store/identity_store.go:47-74 | a consumed state is never consumed again |
| `Invitations.DeadTicketRun` | internal/store/identity_store.go:1233-1242 | a dead ticket stays dead and creates nobody over any run that does not reinstall it |
| `InvitationEffects.BegunBeforeWithdrawalIsUseless` | internal/store/identity_store.go:1233-1242 | an authorization begun before a rotation or revocation is never consumed after it, in any run |
| `InvitationEffects.RotationReplacesToken` | internal/store/identity_store.go:197-226 | a standing invitation gets the new token and the new expiry, and exactly its unused authorizations are used up |
| `InvitationEffects.RevocationWithdraws` | internal/store/identity_store.go:176-195 | a standing invitation is revoked, and exactly its unused authorizations are used up |
| `InvitationEffects.InvitedUsersWereAccepted` | internal/store/identity_store.go:239-317 | in every run an invited user was created by an acceptance for the target while the invitation stood with that token |
| `InvitationEffects.CreationOffers` | internal/store/identity_store.go:76-95 | one pending invitation a target and one a token, for seven days |
| `InvitationEffects.SweepExpires` | internal/store/identity_store.go:228-237 | exactly the pending invitations past their expiry turn expired |
| `InvitationEffects.SavingKeepsWhatWasRead` | internal/identity/service.go:502-528 | the token read is saved under a new state for ten minutes |
| `InvitationEffects.ConsumingHandsOverTicket` | internal/store/identity_store.go:47-74 | an unused, unexpired state is used once and hands over its own ticket |
| `InvitationEffects.AcceptanceCreates` | internal/store/identity_store.go:239-317 | a user is created iff the invitation stands with the ticket's token for that account and account and email are free |
| `InvitationEffects.RegistrationAdds` | internal/store/identity_store.go:319-372 | a user without an invitation is added iff account and email are free |
| `InvitationEffects.ReadingTakesToken` | internal/store/identity_store.go:161-174 | a standing invitation is read with its current token |
| `Invitations.IdentityStore.CreateInvitation` | internal/store/identity_store.go:76-95 | inserts under the table's constraints |
| `Invitations.IdentityStore.GetInvitationByTokenHash` | internal/store/identity_store.go:161-174 | finds the open invitation of a hash, or none is open |
| `Invitations.IdentityStore.RotateInvitation` | internal/store/identity_store.go:197-226 | new hash and expiry, earlier authorizations invalidated |
| `Invitations.IdentityStore.RevokeInvitation` | internal/store/identity_store.go:176-195 | revoked, authorizations invalidated |
| `Invitations.IdentityStore.InvalidateInvitationAuthorizations` | internal/store/identity_store.go:1233-1242 | exactly the unconsumed authorizations of the invitation become consumed |
| `Invitations.IdentityStore.ExpireInvitations` | internal/store/identity_store.go:228-237 | exactly the overdue open invitations expire |
| `Invitations.IdentityStore.CreateAuthorizationTransaction` | internal/store/identity_store.go:29-45 | saves a state once |
| `Invitations.IdentityStore.ConsumeAuthorizationState` | internal/store/identity_store.go:47-74 | consumes an unexpired, unconsumed state and returns its ticket |
| `Invitations.IdentityStore.AcceptInvitation` | internal/store/identity_store.go:239-317 | accepts for the target and current hash only, with account and email unique, creating the user |
| `Invitations.IdentityStore.RegisterAccessRequest` | internal/store/identity_store.go:319-372 | creates a user without an invitation under the same uniqueness |
| `Sessions.SessionWindow` | internal/identity/service.go:710-769 | a session last authenticated at t passes before min(t + 24 h - 5 min, absolute expiry), fails from min(t + 24 h, absolute expiry), and its idle expiry never passes the absolute one |
| `Sessions.LastSeenNeverMovesBack` | internal/store/identity_store.go:781-809 | between any two moments of any run last-seen and idle expiry have not moved back |
| `Sessions.AuthenticationIsNoted` | internal/identity/service.go:710-769 | a session neither revoked nor out of time is authenticated at once, or owes a touch once five minutes have passed since it was last seen |
| `Sessions.TouchRollsForward` | internal/store/identity_store.go:781-809 | a touch five minutes on sets last-seen and an idle expiry 24 hours later, capped by the absolute one, and any other leaves the session |
| `Sessions.RevocationIsFinal` | internal/store/identity_store.go:866-878 | a revoked session is never usable again, in any run |
| `Sessions.SessionStore.ResolveSession` | internal/store/identity_store.go:737-779 | answers iff present with that secret, user active, not revoked and in time, with the first refusal in order otherwise |
| `Sessions.SessionStore.TouchSession` | internal/store/identity_store.go:781-809 | rolls the row when due, keeping the later of concurrent touches |
| `RateLimit.AdmissionBound` | internal/api/rate_limit.go:44-80 | in any window one credential gets at most 30 + 2·(window + J) admissions in every trace whose clock steps back by at most J seconds, J up to 442.5 |
| `RateLimit.UnboundedJitterExceedsTheBound` | internal/api/rate_limit.go:53-59 | without a limit on J, 58 requests stamped with one instant can be admitted |
| `RateLimit.LevelsStayInRange` | internal/api/rate_limit.go:44-80 | every bucket level stays between 0 and 30 |
| `RateLimit.SpacedRequestsAreAdmitted` | internal/api/rate_limit.go:44-80 | a credential that keeps half a second between requests is never refused, whatever others send, on every clock that steps back by at most 442.5 s |
| `RateLimit.ResetAfterIsExact` | internal/api/rate_limit.go:61-80 | left alone, an admitted bucket is full, and a refused one has a token, from the stated time on and not before |
| `RateLimit.DecisionMeans` | internal/api/rate_limit.go:44-80 | refused iff no whole token is left; the whole tokens left are told; other buckets stay |
| `RateLimit.PruningIsInvisibleIff` | internal/api/rate_limit.go:44-95 | on any clock the decisions are those of a limiter that never prunes iff every recreated bucket would have been full anyway |
| `RateLimit.RecreatedDecidesAsKeptIff` | internal/api/rate_limit.go:47-52 | a recreated bucket decides as the kept one iff the kept one has refilled to 30 |
| `RateLimit.PruningIsInvisible` | internal/api/rate_limit.go:44-95 | that is so on every clock that steps back by at most 442.5 s |
| `RateLimit.ClockRegressionExposesPruning` | internal/api/rate_limit.go:88-95 | a clock stepping back by 1000 s changes a decision |
| `RateLimit.TokenBucketLimiter.Allow` | internal/api/rate_limit.go:44-80 | prunes, refills and spends as the specification |
| `RateLimit.TokenBucketLimiter.PruneLocked` | internal/api/rate_limit.go:88-95 | the loop deletes exactly the idle buckets |
| `AccessToken.TokenRoundTrip` | internal/access/service.go:145-177 | parsing a formatted token returns its id and secret iff the secret has 32 bytes |
| `AccessToken.SameTokenIffSameButSpareBits` | internal/access/service.go:151-177 | two accepted strings parse equal iff they agree apart from the unused bits ending each part |
| `AccessToken.AcceptsExactly` | internal/access/service.go:151-177 | a string is accepted iff it is the prefix, 22 digits, an underscore and 43 digits of the URL-safe alphabet |
| `AccessToken.AlphabetInOrder` | internal/access/service.go:145-149 | the digits are the URL-safe alphabet in its order, and exactly it is read |
| `AccessToken.EncodingRoundTrip` | internal/access/service.go:145-149 | unpadded base64url decodes to what was encoded, for any length |
| `AccessToken.AcceptedPart` | internal/access/service.go:156-175 | an accepted part holds no line break although the decoder skips them |
| `AuditPaging.FollowingCursorsListsEverything` | internal/api/admin_access_handler.go:300-329 | following cursors yields the whole filtered listing in order for every page size, and fails iff a page ends on a cursor the handler refuses |
| `AuditPaging.NextPage` | internal/api/admin_access_handler.go:300-329 | a page is the next rows, and its cursor leaves exactly the rest |
| `AuditPaging.ListingIsSorted` | internal/store/access_audit_store.go:91-144 | the listing is the matching rows in strictly descending (time, id) order |
| `AuditPaging.ListAccessAudit` | internal/store/access_audit_store.go:83-186 | the query is filter, strict cursor, order and limit |
| `AuditPaging.FilterMeans` | internal/store/access_audit_store.go:91-144 | a row matches iff it meets each condition that is set, bounds included; important rows are all but successful reads |
| `AuditPaging.QueryMeans` | internal/store/access_audit_store.go:83-186 | the query returns the first rows, 50 by default, of exactly the matching rows strictly before the cursor |
| `AuditPaging.OrderMeans` | internal/store/access_audit_store.go:140-150 | later rows are older, or as old with a smaller id |
| `AuditPaging.LastPage` | internal/api/admin_access_handler.go:300-329 | a page has no next cursor iff what is left fits, and then holds all of it |
| `CommentProperties.OneEventPerNewMention` | internal/store/comment_store.go:200-273 | over any history a person's mention events for a comment number the versions newly mentioning them; the author has none |
| `CommentProperties.RepliesAreAnnouncedOnce` | internal/store/comment_store.go:389-411 | the author answered is told of a reply exactly once, as a reply or as a mention, and nobody else gets a reply event |
| `CommentProperties.ThreadRootIsTopOfChain` | internal/store/comment_store.go:116-139 | a comment's thread root is the end of its one reply chain, all on its own Task |
| `CommentEffects.CreationSucceedsIff` | internal/store/comment_store.go:83-139 | creation succeeds iff body, mentions, members, Task, version and reply target are right |
| `CommentEffects.CreationInserts` | internal/store/comment_store.go:83-174 | the comment is version one, roots its thread or joins the answered one, and moves the Task's version |
| `CommentEffects.CreationNotifies` | internal/store/comment_store.go:389-411 | exactly the mentioned but the author hear of it, and the answered author if not mentioned |
| `CommentEffects.EditSucceedsIff` | internal/store/comment_store.go:200-240 | only the author edits a comment that is there, at the version expected |
| `CommentEffects.EditRewrites` | internal/store/comment_store.go:200-273 | an edit moves the version and the mentions and keeps author, Task and thread |
| `CommentEffects.EditNotifies` | internal/store/comment_store.go:200-273 | exactly the newly mentioned but the author hear of an edit |
| `CommentEffects.DeletionBlanks` | internal/store/comment_store.go:291-340 | only the author deletes, the row stays in its thread and nobody is notified |
| `CommentEffects.ChangeRefusals` | internal/store/comment_store.go:200-240 | not found before forbidden before a stale version, with the current version told |
| `Comments.UniqueUserIDs` | internal/store/comment_store.go:434-446 | accepts iff no id is nil or repeated, and returns the same ids sorted |
| `Comments.AddedIDs` | internal/store/comment_store.go:448-460 | the ids of one list missing from another, in order |
| `Comments.CommentStore.InsertCommentEvents` | internal/store/comment_store.go:389-411 | adds the events of one version, each key once |
| `Comments.CommentStore.CreateComment` | internal/store/comment_store.go:83-174 | the create step, with every refusal |
| `Comments.CommentStore.UpdateComment` | internal/store/comment_store.go:214-273 | the edit step, announcing only newly added mentions |
| `Comments.CommentStore.DeleteComment` | internal/store/comment_store.go:291-340 | the soft delete step, which drops the mentions |

## Left out

- SQL text, isolation levels, JSON encoding, logging, audit rows and error messages: each statement or locking transaction is one atomic step, and refusals keep their kind only.
- Hashing and random ids: hashes are compared as the values they stand for, fresh ids are parameters.
- Float rounding in the limiter: levels are exact reals.
- Unicode white space in trimming: only the ASCII white space of `strings.TrimSpace` is modelled.
- Run inputs, checkpoints and the cleanup of old runs: they do not touch the lease protocol.
- The in-memory transitions of `Run` that the store does not call: the store's own guards are modelled instead.
- AgentStorage.AgentStore.CreateRun: validates ids, user, tenant, event and trigger message; the conversation, subject, model, prompt version and command kind of a run are not modelled, because no step reads them.
- The broker client: a publish succeeds only on a confirmed, routed message; queue order is not modelled, and a routing key is the sequence of its words.
- Event and message payloads, provider calls and the JSON of deliveries: whether a delivery decodes and what the provider answers are inputs.
- "A published row stays published": with several relays a late failure mark reopens it, so only at-least-once is claimed.
- EventStorage.PublishPending: a round not cut short by a crash; crashes between its steps are steps of the pipeline.
- Criterion positions, creation and removal of criteria, and checks recorded outside a Claim: modelled as steps of a run, without store methods of their own.
- Thread messages and delivery payloads of a Task; which code changes are active, and whether a snapshot of one is valid, are inputs; other Tasks enter only as counts of unfinished children and dependencies.
- The legacy agent-only Claim of internal/domain/task_claim.go, superseded by stage Claims.
- Provider revalidation, impersonation and logins without an invitation: they refuse more and change no time bound.
- The byte encoding of audit cursors, header names that are not canonical, HTTP routing and key validation.
- Milestones, projects, labels, memberships, artifacts, the CLI and the web front end: field checks and row edits that would only add easy members.
