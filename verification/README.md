# Workflow, audit and agent core: a verified model

This project models the stateful core of the service in Dafny and proves what its parts
promise, for all inputs, runs and schedules. `dafny verify dfyconfig.toml` checks it.

**The workflow language.** `Workflow` holds step trees; `Parse` classifies decoded steps,
`Validate` bounds them. `Machine` is a small-step semantics of the engine: one move is one
lock-protected access to the shared scope, one context check, one tool call or one piece of
bookkeeping, and the moves of parallel branches interleave freely; maps are visited in any
order. `Confluence` gives step lists a sequential meaning and shows that every schedule of
non-interfering branches ends there; `AssignOrder` says which assignments do not depend on
map order. `Termination` shows that every schedule ends, and by returning. `StepCap`,
`ErrorAttribution` and `Visits` hold what every schedule keeps, `ToolSteps` what a dry run
calls and what the records of steps hold. `Engine` is the engine as
methods over a mutable `RunState`; each method is proved to be one way of driving the
machine (`Driving`), so the theorems about runs apply to it. `Graph` is the graph builder
with its specification; `GraphShape` and `GraphWalks` say what the graph looks like and that
its walks are the runs, `GraphLabels` and `GraphTurns` that runs turn where its edges say;
`Outcomes` constructs the run of a given walk, and `OutcomesExact` says which walks have one.

**The design editor.** `Text` and `Design` model the compiler from visual designs to steps
and the reader back, `DesignCompiler` the loops they are written with; `DesignMeaning` says
what a design compiles to; `DesignRoundTrip`, `DesignConditions` and `DesignSteps` say
exactly when the round trip succeeds.

**The audit chain.** `AuditBytes` is the canonical encoding and `AuditCanonical` says when
it determines an entry. `AuditChain` is the verifier, `AuditDetects` what it detects, and
`AuditAppend` the writers: many at once as a state machine with transactions and the
advisory lock, and one as a method that is a run of it, wherever its transaction fails;
`AuditStored` is which entry each row stores.

**Concurrent protocols.** `Sandbox` is one sandbox with a Create and any number of
Destroys, `SandboxLeaks` says which of its runs leak, `SandboxRows` what a Destroy can do to
a row, `SandboxDriver` is the driver and the repository as classes. `Reflection` is the job
queue with any number of workers, `ReflectionRetries` what its rows tell of the past,
`ReflectionWorker` the repository and the worker.
`Triggers` is the trigger table, `Cron` the claims over it; `Query` is `ORDER BY … LIMIT`.
`Publish` and `Lifecycle` are the life of workflows over rows, bus and triggers,
`RowHistory` is what a row says of the calls made, and `PublishService` the registry, bus and
service classes.

**Agent and webhooks.** `Streaming` and `StreamingAgrees` are the stream conversion, the
chunk accumulator and the conversion of a whole answer. `Conversation`, `SessionReplay` and
`SessionService` are the agent loop, the session log and what the log replays to;
`AgentTools` is what each tool call is answered with, `AgentReplies` what the provider's stop
reason makes the agent do.
`RateLimiter` is the webhook rate limiter.

## What does not hold as documented

- The canonical audit encoding relies on the record separator 0x1E never occurring in valid
  UTF-8. It is valid UTF-8: `AuditCanonical.SeparatorCollision` gives two entries with equal
  bytes, and `AmbiguousExactlyWithSeparator` shows the encoding is ambiguous for exactly the
  entries with that byte in one of four text fields.
- An appended row is verified over its metadata as JSONB gives it back. Metadata that does
  not survive that makes a log nobody touched fail verification:
  `AuditAppend.AppendKeepsOneChain` says exactly when, `AuditAppend.RoundedMetadataBreaks`
  gives such a log (an integer that no double holds).
- `entry_hash` does not cover the row id, so logs with equal tips agree in everything but ids
  (`AuditAppend.IdsAreNotChained`). A hash cannot be injective on all inputs: the theorems
  assume only that no two of the messages at hand collide and none hashes to zero.
- A sandbox can leak: a failed read of the container id is logged and taken for "no
  container". `SandboxLeaks.LeaksExactly` says which runs leak: those in which Create recorded
  its container, a write of `destroying` was applied, answered or not, and no Destroy read
  the id. `Sandbox.LeakFreeExactly` gives the faults that must not happen.
- Bindings of one assignment are visited in map order. That order shows exactly when some
  binding reads the variable another one sets (`AssignOrder.HiddenExactly`).
- The design editor keeps the conditions `DesignConditions.ConditionRoundTrips` describes and
  no others: an expression that is no path, number or keyword is read as text and comes back
  in quotes.
- A cron trigger can fire twice for one instant when a sync writes a next run it computed
  before a claim (`Cron.StaleSyncFiresTwice`): exactly when that instant is not after the
  claim and the one after the claim has not come yet (`Cron.HarmExactly`,
  `Cron.SpacingExactly`).
- A row whose time zone the claiming replica cannot load stays due and takes a place in
  every tick. A due trigger may wait for ever exactly when as many such rows as the limit
  are ahead of it (`Cron.StarvesExactly`), and replicas with different time zone databases
  get there (`Cron.StarvationIsReached`).
- The bus is keyed by slug alone, and unpublishing unregisters whatever has the name:
  publishing and unpublishing break the agreement of rows and bus exactly when another
  published workflow or a built-in tool has the name or the published schema does not
  compile (`Lifecycle.GuardExactly`, `Lifecycle.ConsistentExactly`).
- The stream conversion gives every tool call index 0 and passes the fragments of its input
  on as they are: streaming and non-streaming answers agree exactly for at most one tool
  call whose fragments spell the marshalled input (`StreamingAgrees.StreamAgreesExactly`).
  They do not for a tool without input (`StreamingAgrees.EmptyInputDisagrees`).
- A stored assistant message whose calls are not all answered by stored rows makes the log
  replay ill-formed: after a finish reason other than `tool_calls`, a callback that fails
  once the message is stored, or a tool result that is not stored.
  `SessionReplay.LogStaysWellFormedExactly` gives the exact condition.

## Model

| member | source | states |
|---|---|---|
| Parse.Classify | internal/workflow/parse.go:29-45 | the loop classifies every step or refuses the list |
| Parse.ClassifyOne | internal/workflow/parse.go:51-99 | exactly one discriminating field decides the kind; timeouts, waits and on_error must parse |
| Parse.ClassifyChildren | internal/workflow/parse.go:101-122 | children of if, foreach and parallel are classified too |
| Parse.RenderAllClassifies | internal/workflow/parse.go:29-122 | every populated tree is the classification of its own text |
| Parse.AcceptedIsPopulated | internal/workflow/parse.go:51-80 | whatever is accepted has its kind's field at every depth |
| Parse.AcceptedMeans | internal/workflow/parse.go:29-122 | a list is accepted as these steps exactly when each has one kind and every field is what the text says, at every depth; without on_error a tool step fails |
| Validate.Validator.ValidateSteps | internal/workflow/validate.go:51-69 | accepts exactly well-formed steps whose ids are new, and adds those ids to the ones seen |
| Validate.Validator.ValidateStep | internal/workflow/validate.go:71-141 | the rules of each kind, with the shared set of ids threaded through |
| Validate.Validator.ValidateBranches | internal/workflow/validate.go:124-131 | branches are non-empty, one level deeper, with ids unique across all of them |
| Validate.FreshMeansDistinct | internal/workflow/validate.go:60-63 | ids accepted one by one are pairwise different |
| Validate.WellFormedExactly | internal/workflow/validate.go:51-141 | a tree is well-formed exactly when every step in it, at any depth, keeps the rules for its id, its kind and its depth |
| Validate.WidthBounded | internal/workflow/validate.go:51-138 | a valid tree's width is at most fanout to the power of the depth left |
| Validate.CountBounded | internal/workflow/engine.go:519-524 | on a valid tree every schedule counts at most MaxSteps plus MaxParallelFanout to the power MaxNestingDepth |
| Machine.NeverStuck | internal/workflow/engine.go:322-331 | a goroutine that has not returned can always move: a run stops only by returning |
| Machine.WaitEnds | internal/workflow/engine.go:333-342 | a wait can run its time, and can be cut short exactly when its context has ended |
| Termination.EveryScheduleEnds | internal/workflow/engine.go:106-342 | every schedule makes finitely many moves, whatever lists the iterations turn out to run over |
| Termination.StuckHasReturned | internal/workflow/engine.go:106-342 | no schedule deadlocks: a run without a move left has returned |
| ToolSteps.DryRunCallsNoMutatingTool | internal/workflow/engine.go:213-256 | over every schedule a dry run is the same whatever mutating tools would do: they are never called |
| ToolSteps.LiveRunCallsEveryTool | internal/workflow/engine.go:213-256 | outside a dry run it makes no difference which tools are mutating |
| ToolSteps.RecordsAreAnswers | internal/workflow/engine.go:213-267 | in every run each record holds what its tool answered for the resolved arguments, the dry-run envelope, or why the step failed; a run that has returned has one for every tool step entered, and only steps that go on have errors after a success |
| Confluence.ParallelRefinesSequential | internal/workflow/engine.go:269-331 | when no branch writes what another reads or writes, and no binding of an assignment reads the target of another binding, every schedule that finishes without failure leaves the scope and counter of the branches run in order, whatever order maps are visited in |
| Confluence.SequentialDecidesParallel | internal/workflow/engine.go:322-331 | for the same trees, when the sequential run succeeds within the cap and the caller stays, no schedule fails and each finishes in its state |
| Confluence.BranchMove | internal/workflow/engine.go:424-524 | a move of one branch commutes with all the work of the branches before it |
| Confluence.MoveKeepsRest | internal/workflow/engine.go:106-331 | in such a tree no move that does not fail changes what the rest of the run comes to |
| AssignOrder.HiddenExactly | internal/workflow/engine.go:269-278 | whatever its templates compute, all completed runs of an assignment agree exactly when no binding can read the target of another one |
| AssignOrder.AccumulatorIsSafe | internal/workflow/engine.go:269-278 | a single binding may read its own old value |
| StepCap.StepCapHolds | internal/workflow/engine.go:118-123 | at every moment the dispatches of leaf steps, counted where they happen, are min(count, MaxSteps), the count is at most MaxSteps plus the tree's width, and a run that returns without error never passed the cap |
| ErrorAttribution.ErrorIsAStepsOwn | internal/workflow/engine.go:322-331 | through nested groups, while the caller's context lasts a failed run reports an error a step raised itself, and on_error never hides the cap |
| ErrorAttribution.StatusWithActiveCaller | internal/workflow/engine.go:77-103 | with an active caller the status is ok, failed or max_steps; it is max_steps exactly when the error is the cap, only once the count passed it, and never ok then |
| ErrorAttribution.MaxStepsExactly | internal/workflow/engine.go:77-123 | without parallel steps the status is max_steps exactly when the count passed the cap, even if the caller left |
| ErrorAttribution.StatusExactly | internal/workflow/engine.go:79-103 | each status exactly when: the cap before how the caller ended, ok only when the outputs resolve |
| Engine.RunState.SetVar | internal/workflow/engine.go:497-501 | one variable of the scope changes, nothing else |
| Engine.RunState.SetStepResult | internal/workflow/engine.go:503-507 | one step record of the scope changes, nothing else |
| Engine.RunState.IncSteps | internal/workflow/engine.go:519-524 | counts, and says whether the count was still below the cap |
| Engine.Engine.RunSteps | internal/workflow/engine.go:106-116 | drives the machine's step list to its end, with its error |
| Engine.Engine.RunStep | internal/workflow/engine.go:118-177 | counts leaf steps, then drives the step to its end |
| Engine.Engine.ResolveArgs | internal/workflow/engine.go:432-445 | resolves arguments in any order to the machine's call, or to its recorded error |
| Engine.Engine.InvokeTool | internal/workflow/engine.go:219-255 | drives the call of a tool step to its end: the tool or, in a dry run, the envelope of a mutating one; the result or error is recorded |
| Engine.Engine.RunTool | internal/workflow/engine.go:213-256 | drives a tool step to its end |
| Engine.Engine.RecordStepErr | internal/workflow/engine.go:261-267 | records the error and stops it under on_error continue |
| Engine.Engine.RunAssign | internal/workflow/engine.go:269-278 | drives an assignment to its end, bindings in any order |
| Workflow.FalsyExactly | internal/workflow/expr/expr.go:296-326 | six values count as no: null, false, zero, and empty text, list and map |
| Engine.Engine.RunIf | internal/workflow/engine.go:283-292 | drives the branch the condition chooses |
| Engine.Engine.RunForeach | internal/workflow/engine.go:297-316 | drives the iterations over a list, or fails on anything else |
| Engine.Engine.RunParallel | internal/workflow/engine.go:322-331 | drives an error group to the error it reports, one branch after another |
| Engine.Engine.RunWait | internal/workflow/engine.go:333-342 | drives a wait to its end |
| Engine.Engine.ResolveOutputs | internal/workflow/engine.go:482-495 | all outputs resolved in one scope, or none |
| Engine.Engine.Execute | internal/workflow/engine.go:62-104 | the result is that of one of the machine's runs: its status, step count and outputs |
| Engine.ExecutionIsBounded | internal/workflow/engine.go:62-104 | an execution under an active caller ends ok, failed or max_steps with a bounded count |
| Driving.DriveIsRun | internal/workflow/engine.go:106-331 | what the engine's methods do is a run of the machine |
| Visits.CompletedRunVisits | internal/workflow/engine.go:106-116 | the ids a completed run enters are a visit order of the tree |
| Graph.GraphBuilder.RunSteps | internal/workflow/graph.go:151-157 | appends the nodes and edges of a list, threading its exits |
| Graph.GraphBuilder.RunStep | internal/workflow/graph.go:159-165 | one node, an edge from each predecessor, then what is inside |
| Graph.GraphBuilder.ControlExits | internal/workflow/graph.go:167-220 | what is inside a step: the exits of if, foreach and parallel, their branches hung on labelled edges |
| Graph.GraphBuilder.RunBranchSteps | internal/workflow/graph.go:182-197 | the first node of a branch hangs on its control step by a typed edge |
| Graph.GraphFromDoc | internal/workflow/graph.go:69-142 | the whole graph, with start, triggers and end |
| GraphShape.GraphShapeHolds | internal/workflow/graph.go:69-220 | for a valid document each step is exactly one node, the node list is a topological order, every node is reached from the start and reaches the end |
| GraphWalks.WalksAreVisits | internal/workflow/graph.go:69-220 | the walks from start to end are exactly the visit orders, entered at the start or one trigger |
| GraphWalks.GraphAndRunAgree | internal/workflow/engine.go:106-116 | a completed run with one iteration per list walks the graph |
| GraphWalks.EveryWalkIsAnOutcome | internal/workflow/graph.go:167-220 | every walk is the visit order for some outcome of the conditions, and conversely |
| GraphLabels.EdgesSayWhere | internal/workflow/graph.go:69-228 | for a valid document an edge out of a step carries then, else or branch i exactly when it begins that branch, every branch is begun by its edge, and every step is drawn in its region |
| GraphTurns.RunsTurnAsLabelled | internal/workflow/graph.go:199-207 | the walk of a completed run leaves an if step along the then edge exactly when its condition came out true, along the else edge exactly when it came out false and there is one |
| Outcomes.OutcomeHappens | internal/workflow/engine.go:106-316 | an outcome of the conditions in which no text answers both ways, or with distinct ids not between two writes of the scope, is visited by a completed run |
| Outcomes.EveryOutcomeHappens | internal/workflow/engine.go:106-316 | so when condition texts differ, every outcome of the conditions is |
| Outcomes.EveryWalkHappens | internal/workflow/graph.go:69-220 | so every walk of the graph from start to end is the walk of a run |
| OutcomesExact.RunIsOutcome | internal/workflow/engine.go:283-316 | a completed run over one-element lists visits the order of the conditions that came out true in it |
| OutcomesExact.OutcomeIsConsistent | internal/workflow/engine.go:106-316 | every completed run over one-element lists visits the order of an outcome in which no text answers both ways between two writes |
| OutcomesExact.VisitHappensExactly | internal/workflow/engine.go:106-316 | a visit order happens exactly when it is that of such an outcome |
| OutcomesExact.WalkHappensExactly | internal/workflow/graph.go:69-220 | a walk of a valid document's graph is that of a run exactly when it is that of such an outcome |
| AuditBytes.WriteCanonical | internal/audit/hash.go:47-75 | the buffer written field by field is the canonical encoding |
| AuditBytes.IsZeroHash | internal/audit/hash.go:25-35 | true of the 32-byte zero hash alone |
| AuditBytes.TimeInjective | internal/audit/hash.go:54 | the RFC 3339 text determines the instant |
| AuditBytes.UuidInjective | internal/audit/hash.go:83-88 | the UUID text, or its absence, determines the UUID |
| AuditBytes.TimeReads | internal/audit/hash.go:54 | an instant reads back from its text, digit group by digit group, with the fraction cut of its zeros |
| AuditBytes.UuidReads | internal/audit/hash.go:83-88 | a UUID reads back from 36 characters in groups of 8, 4, 4, 4 and 12 |
| AuditCanonical.CanonicalInjective | internal/audit/hash.go:47-99 | an entry without separators in its text fields is determined by its bytes, and so is its predecessor, against entries of any kind |
| AuditCanonical.LayoutReadsOff | internal/audit/hash.go:37-75 | the documented layout: the predecessor, or zeros for anything but 32 bytes, then the ten fields in order, read off an entry without separators |
| AuditCanonical.AmbiguousExactlyWithSeparator | internal/audit/hash.go:16-18 | another entry has the same bytes exactly when a text field contains the separator |
| AuditCanonical.SeparatorCollision | internal/audit/hash.go:16-18 | two different entries with equal bytes |
| AuditChain.Walk | internal/audit/verify.go:65-124 | the loop's verdict: pre-chain rows skipped, first row that does not fit, reason, counts |
| AuditChain.Verify | internal/audit/verify.go:53-124 | the verdict on the rows from an id on, full or suffix |
| AuditChain.OkMeans | internal/audit/verify.go:82-124 | OK means exactly that every row past the pre-chain ones links and hashes |
| AuditChain.VerdictSays | internal/audit/verify.go:65-124 | everything a verdict reports: the rows before the chain, the rows that carry their hashes, and the first that does not with what was expected and found |
| AuditChain.FromIs | internal/audit/verify.go:53-64 | the rows from an id on are those with that id or a greater one |
| AuditChain.HashesDistinct | internal/audit/verify.go:100-124 | all hashes of a verified chain differ and none is zero |
| AuditDetects.ChangedEntry | internal/audit/verify.go:107-114 | a changed row whose hash changes breaks the walk at exactly that row |
| AuditDetects.ChangeIsLocated | internal/audit/verify.go:107-114 | any change of the fields of a row without separators does |
| AuditDetects.ChangedPrev | internal/audit/verify.go:99-105 | a changed predecessor column breaks it at exactly that row |
| AuditDetects.ChangedHash | internal/audit/verify.go:107-114 | a changed hash column does too, unless the first chain row comes to look pre-chain |
| AuditDetects.ZeroedFirstHash | internal/audit/verify.go:82-92 | then the walk breaks at the next row, or is OK without one |
| AuditDetects.Deleted | internal/audit/verify.go:99-105 | a deleted chain row breaks it at the next one |
| AuditDetects.DeletedLast | internal/audit/verify.go:116-124 | deleting the last row goes unnoticed |
| AuditDetects.SuffixVerifies | internal/audit/verify.go:45-52 | a table that verifies has every suffix verify |
| AuditDetects.EqualTipsEqualLogs | internal/audit/verify.go:99-118 | two verified logs with equal last hashes are equal row for row, ids aside |
| AuditAppend.AuditRepo.Append | internal/audit/repo.go:28-74 | a run of the writers' state machine: one row chained to the last when the transaction lands, none when it fails, an id spent once the insert was made |
| AuditAppend.AppendKeepsOneChain | internal/audit/repo.go:28-74 | after any interleaving of writers and aborts the log has one row per commit, and full verification is OK exactly when all metadata survives storage, else names the first row whose does not |
| AuditStored.CommitsStoreTheirEntries | internal/audit/repo.go:28-74 | with every commit, in order, the log grows by a row that stores the committing writer's entry column by column, the time filled in and cut to the microsecond, metadata that cannot be encoded left out |
| AuditAppend.LossyMetadataBreaks | internal/audit/hash.go:90-99 | one commit of metadata that is read back differently fails verification at its row |
| AuditAppend.RoundedMetadataBreaks | internal/audit/hash.go:90-99 | an integer beyond the doubles is such metadata |
| AuditAppend.IdsAreNotChained | internal/audit/repo.go:55-74 | an aborted insert gives two verified logs with equal last hashes and different ids |
| Sandbox.LiveIsStored | internal/sandbox/docker_driver.go:279-377 | under any faults a live container is stored in a row that is not failed once no call is in flight |
| SandboxLeaks.LeaksExactly | internal/sandbox/docker_driver.go:124-174 | a run at rest has leaked exactly when Create's compare-and-set took the row, a write of destroying was applied, and no read of the container id succeeded; the row then still has the container |
| SandboxLeaks.RunHolds | internal/sandbox/docker_driver.go:279-377 | in every run, at rest or not, the row, the container and the calls in flight are as these three facts say |
| Sandbox.LeakFreeExactly | internal/sandbox/docker_driver.go:124-174 | no run leaks a container exactly when ids can be read and applied writes are answered |
| Sandbox.BlindLeaks | internal/sandbox/docker_driver.go:337-341 | a failed read of the container id leaks the container behind a destroyed row |
| Sandbox.UnansweredLeaks | internal/sandbox/docker_driver.go:333-335 | so does a write of destroying that is applied but reported failed, behind a destroying row |
| Sandbox.OnlyHolderUnlocks | internal/sandbox/docker_driver.go:272-313 | in every run, lock values drawn fresh and leases running out, a stored lock leaves only by its lease or by the release of the call that stored it |
| Sandbox.OneDestroyAtATime | internal/sandbox/docker_driver.go:293-321 | while no lease runs out one Destroy at a time is past the lock |
| SandboxRows.OtherTenantsChangeNothing | internal/sandbox/docker_driver.go:322-345 | in every run a Destroy of another tenant changes neither the row nor a container |
| SandboxRows.DestroyedIsFinal | internal/sandbox/docker_driver.go:329-331 | while no lease runs out a destroyed row and the containers stay as they are once Create has returned |
| SandboxDriver.SessionRepo.SetContainerID | internal/sandbox/sessionrepo.go:47-59 | compare-and-set from pending |
| SandboxDriver.SessionRepo.UpdateStatus | internal/sandbox/sessionrepo.go:63-83 | the status changes whatever it was |
| SandboxDriver.SessionRepo.GetContainerID | internal/sandbox/sessionrepo.go:115-130 | the stored id, scoped to the tenant |
| SandboxDriver.DockerDriver.Create | internal/sandbox/docker_driver.go:124-174 | succeeds with a running row and a live container, or leaves no container |
| SandboxDriver.DockerDriver.Destroy | internal/sandbox/docker_driver.go:279-377 | a run of the protocol that destroys row and container, or reports why not |
| Query.Select | internal/reflection/job_repo.go:76-80 | the first rows by key: sorted, distinct, as many as the limit, none left out that comes earlier |
| Reflection.QueueIsSafe | internal/reflection/job_repo.go:51-172 | one job a session, one worker at a time on a job, no more reflections than the maximum, pending jobs have attempts left |
| Reflection.TerminalIsFinal | internal/reflection/job_repo.go:99-172 | completed and failed jobs never change again |
| ReflectionRetries.RowsTellThePast | internal/reflection/job_repo.go:51-172 | in every run a row holds the session it was made for and one attempt per failure stored, completed exactly after a success, failed exactly when the attempts are used up, due at once at first and later after the backoff |
| ReflectionRetries.DelayDoubles | internal/reflection/job_repo.go:128-160 | the backoff is the base, or a minute, doubled by each failure up to the eleventh, at most an hour |
| ReflectionWorker.JobRepo.Enqueue | internal/reflection/job_repo.go:51-69 | a job for a new session, nothing for a known one |
| ReflectionWorker.JobRepo.ListDue | internal/reflection/job_repo.go:72-96 | the longest due jobs within the limit |
| ReflectionWorker.JobRepo.MarkProcessing | internal/reflection/job_repo.go:99-110 | claims a pending job and nothing else |
| ReflectionWorker.JobRepo.MarkFailed | internal/reflection/job_repo.go:127-172 | a retry with capped exponential backoff, or terminal failure |
| ReflectionWorker.Worker.Enqueue | internal/reflection/worker.go:96-123 | accepted exactly when stored, room in the channel or not |
| ReflectionWorker.Worker.TryPush | internal/reflection/worker.go:125-137 | appends unless stopping or full |
| ReflectionWorker.Worker.PollDue | internal/reflection/worker.go:172-192 | queues due jobs in order until the channel is full |
| ReflectionWorker.Worker.Handle | internal/reflection/worker.go:208-233 | what one handled entry does to the table: nothing unless the job was pending |
| ReflectionWorker.Worker.Shutdown | internal/reflection/worker.go:235-244 | drains the queue, handling each entry in order |
| Triggers.TriggerRepo.UpsertTrigger | internal/workflow/trigger_repo.go:115-170 | writes the document's trigger, enabled, keeping a stored token |
| Triggers.TriggerRepo.SyncTriggersFromDoc | internal/workflow/trigger_sync.go:14-48 | upserts all, then disables those removed; an invalid cron stops the rest |
| Triggers.TriggerRepo.DisableAllForWorkflow | internal/workflow/trigger_repo.go:53-62 | disables the workflow's triggers and no others |
| Triggers.TriggerRepo.RotateWebhookToken | internal/workflow/trigger_repo.go:342-358 | replaces the token of a webhook trigger and nothing else |
| Triggers.TriggerRepo.ClaimDueCron | internal/workflow/trigger_repo.go:207-270 | claims the first due rows, advances the valid ones, leaves the invalid ones due |
| Cron.ClaimTakesDueRows | internal/workflow/trigger_repo.go:207-270 | a claim takes enabled cron rows of published workflows whose time has come; computable ones move to the next instant, the others are marked and stay due, nothing else changes |
| Cron.HarmExactly | internal/workflow/trigger_sync.go:27-33 | from a sound state a sync makes a doubled fire possible exactly when its instant is not after the last claim and the next after that claim is still to come |
| Cron.SpacingExactly | internal/workflow/trigger_repo.go:207-270 | a run has no such sync exactly when, wherever it is left, it cannot go on without one to two claims with no scheduled instant between; across schedulers, replicas and republishing |
| Cron.StaleSyncFiresTwice | internal/workflow/trigger_sync.go:27-33 | a run that fires twice for one instant |
| Cron.ClaimedInTime | internal/workflow/trigger_repo.go:219-228 | with k due rows ahead, b of them not computable, a trigger waits at most (k-b)/(limit-b) ticks |
| Cron.StarvesExactly | internal/workflow/trigger_repo.go:219-254 | a due trigger may wait for ever exactly when as many rows as the limit ahead of it or tied are not computable |
| Cron.InvalidRowsStarve | internal/workflow/trigger_repo.go:245-254 | when they are due strictly before it, no order of ties helps and no number of ticks picks it |
| Cron.StarvationIsReached | internal/workflow/trigger_sync.go:51-62 | for every limit a run reaches that state: rows synced by a replica that knows a time zone, claimed by one that does not |
| Publish.SyncedIs | internal/workflow/trigger_sync.go:14-48 | after a sync exactly the document's triggers are enabled and match it, other workflows untouched |
| RowHistory.SyncedRow | internal/workflow/trigger_repo.go:115-170 | what a sync writes for each trigger: a webhook keeps its token or gets the new one, a cron trigger runs next at the first instant after the sync |
| PublishService.Registry.Register | internal/toolbus/registry.go:20-29 | refuses a duplicate, adds the tool otherwise |
| PublishService.Registry.Unregister | internal/toolbus/registry.go:35-43 | removes the tool, and says whether it was there |
| PublishService.Bus.Register | internal/toolbus/bus.go:71-81 | registry first, then the schema; a schema that fails leaves the tool |
| PublishService.Bus.Unregister | internal/toolbus/bus.go:86-92 | tool and schema go together |
| PublishService.Service.RegisterTool | internal/workflow/service.go:497-514 | swaps the tool of that name for the new one |
| PublishService.Service.Create | internal/workflow/service.go:111-122 | an unpublished row, or nothing when refused |
| PublishService.Service.Update | internal/workflow/service.go:138-161 | a new version, unpublished, off the bus, triggers disabled |
| PublishService.Service.Delete | internal/workflow/service.go:165-179 | row, tool and triggers gone |
| PublishService.Service.Publish | internal/workflow/service.go:184-201 | tool on the bus, row published, triggers synced |
| PublishService.Service.Unpublish | internal/workflow/service.go:206-223 | off the bus, row unpublished, triggers disabled |
| PublishService.Service.RepublishAll | internal/workflow/service.go:436-455 | after a reboot every published workflow's tool is registered again |
| Lifecycle.GuardExactly | internal/workflow/service.go:184-223 | one call keeps rows, bus, schemas and triggers in agreement exactly when it is no publish of a schema that does not compile and no publish or unpublish of a name a built-in tool or another published workflow has |
| Lifecycle.ConsistentExactly | internal/workflow/service.go:138-223 | from boot on they agree after every call of a sequence exactly when every call is such |
| Lifecycle.OwnSlugsSuffice | internal/workflow/service.go:111-161 | so they do when created and updated workflows have slugs of their own, unlike built-in names, and schemas that compile |
| RowHistory.RowsTellTheirCalls | internal/workflow/service.go:111-223 | from boot on a row's version counts the documents stored since it was created, its document is the last of them, and it is published exactly when publishing came last; no other workflow's calls matter |
| RowHistory.PublishedIsServed | internal/workflow/service.go:184-201 | after guarded calls the tool under a published workflow's name is its tenant's own, with its schema, and its enabled triggers are the last document's |
| Lifecycle.SharedSlugBreaks | internal/workflow/service.go:497-514 | two tenants with one slug: a published row loses its tool |
| Lifecycle.ClashBreaks | internal/workflow/service.go:206-213 | a slug named like a built-in tool removes that tool |
| Lifecycle.BadSchemaBreaks | internal/toolbus/bus.go:71-81 | a schema that does not compile leaves a tool without schema |
| Lifecycle.TokenChangesByRotationOnly | internal/workflow/trigger_repo.go:150-160 | a webhook token changes by rotation only while its row lives |
| Streaming.StreamAccum.Apply | internal/agent/stream_accum.go:15-45 | merges one chunk and returns the text it added |
| Streaming.EachIndexAccumulatesItsOwn | internal/agent/stream_accum.go:24-40 | however indices interleave each tool call accumulates its own fragments in order |
| Streaming.ClaudeStream.HandleEvent | internal/modelgw/claude_stream.go:105-208 | the converter's state and the chunks of one event |
| Streaming.Receive | internal/modelgw/claude_stream.go:51-103 | a whole stream converted and accumulated as it comes |
| Streaming.PingsIgnored | internal/modelgw/claude_stream.go:105-112 | events of no interest change nothing |
| StreamingAgrees.FromAnthropicResp | internal/modelgw/claude_translate.go:161-188 | texts joined, tool calls listed with their input marshalled, and the finish reason that says why the provider stopped |
| StreamingAgrees.StreamMeans | internal/modelgw/claude_stream.go:105-208 | for any fragments the stream comes to the text they spell, the calls they spell merged into one, and the mapped stop reason |
| StreamingAgrees.StreamAgreesExactly | internal/modelgw/claude_translate.go:161-202 | streaming and non-streaming agree exactly with at most one tool call whose fragments spell the marshalled input |
| StreamingAgrees.EmptyInputDisagrees | internal/modelgw/claude_translate.go:168 | they do not for a tool whose empty input has no fragments |
| AgentReplies.ReceivedSays | internal/modelgw/claude_stream.go:182-204 | whatever events arrive the message finishes tool_calls exactly for tool_use, length exactly for max_tokens and stop otherwise, by the reason given last before the last end of message |
| AgentReplies.ReasonDecides | internal/agent/engine.go:235-274 | the agent answers the calls of a message exactly when the provider stopped for its tools with at least one call; otherwise the message ends the run |
| AgentReplies.StreamedCallsAnswered | internal/modelgw/claude_stream.go:105-208 | so for a stream exactly with stop reason tool_use and a tool block |
| AgentReplies.WholeCallsAnswered | internal/modelgw/claude_translate.go:161-202 | and for an answer converted whole |
| Conversation.SentIsWellFormed | internal/agent/engine.go:199-279 | whatever the model, the tools and the callbacks do, every list sent pairs tool calls with results, same ids and order |
| AgentTools.OnlyAllowedToolsRun | internal/agent/engine.go:285-335 | nothing a tool outside the allowlist would do, or any tool for arguments that are empty or no JSON, can be seen in a run |
| AgentTools.EachCallIsAnswered | internal/agent/engine.go:256-357 | between two requests of a run every call is answered and reported: not JSON, not allowed, the tool's truncated output, or its error |
| AgentTools.RequestsWithinLimit | internal/agent/engine.go:208-279 | a run makes at most as many requests as it has steps, all of them when it ends at the limit |
| Conversation.SessionLog.Yield | internal/session/service.go:283-298 | stores the row of an event under the next number, and reports the callback |
| SessionReplay.SendsWellFormed | internal/session/service.go:255-303 | the same for a message sent over a replayed log |
| SessionReplay.StaysConsecutive | internal/session/repo.go:181-189 | rows stay numbered consecutively, and are only appended |
| SessionReplay.StoredReplaysConversation | internal/session/service.go:348-432 | when callbacks succeed stored rows are consecutive and replay to the conversation up to error text, tool name and one error row |
| SessionReplay.LogStaysWellFormedExactly | internal/agent/engine.go:235-357 | whatever the callbacks do, the log stays well-formed exactly when every stored message with calls asks for tools, its callback succeeds and all its results are stored |
| SessionReplay.AbortLeavesCallsOpen | internal/agent/engine.go:238-357 | a callback failing once the calls are stored leaves them unanswered, and so does a lost result while the run goes on |
| SessionService.AgentEngine.RunToolCall | internal/agent/engine.go:285-357 | one result message for one call, error or not, and its two events |
| SessionService.AgentEngine.Run | internal/agent/engine.go:199-279 | the loop sends, yields and ends as the specification of a run says |
| SessionService.SendMessage | internal/session/service.go:211-303 | refuses empty content and archived sessions; otherwise the user's row and the rows of the run |
| SessionService.RequestsOfAMessage | internal/agent/engine.go:115-209 | a message costs at most as many requests as the caller asks for, else the profile, else 16 |
| SessionService.HistoryToChatMessages | internal/session/service.go:348-367 | the replay of the rows |
| RateLimiter.TokenRateLimiter.Allow | internal/workflow/trigger_webhook_handler.go:164-179 | admits and counts per token and window |
| RateLimiter.WindowBound | internal/workflow/trigger_webhook_handler.go:164-179 | a window admits at most the limit |
| RateLimiter.MinuteBound | internal/workflow/trigger_webhook_handler.go:164-179 | no closed minute admits more than twice the limit less one |
| RateLimiter.BoundIsMet | internal/workflow/trigger_webhook_handler.go:164-179 | and that many can be admitted |
| DesignCompiler.CompileList | internal/workflow/design_compile.go:94-114 | the loop over steps with the set of ids seen |
| DesignCompiler.CompileOne | internal/workflow/design_compile.go:116-165 | one step of each kind, or a refusal |
| DesignMeaning.CompiledExactly | internal/workflow/design_compile.go:94-266 | a design is accepted as these steps exactly when ids are given and differ within a list and each step is what its kind says: the tool and the last argument of each name, the last assignment of each variable, the comparison between its operands and both branches |
| DesignCompiler.ReadList | internal/workflow/design_decompile.go:50-63 | reads back every step that can be read, skipping the others |
| DesignCompiler.ReadOne | internal/workflow/design_decompile.go:65-113 | reads back one step, map entries in any order |
| DesignRoundTrip.ArgRoundTripsExactly | internal/workflow/design_compile.go:167-185 | an argument survives exactly when it is not text around a `${` |
| DesignConditions.ConditionRoundTrips | internal/workflow/design_decompile.go:128-175 | a comparison is read back and compiles to the same text exactly when that text, cut at the operator looked for first, has sides that survive, one space from it |
| DesignConditions.LeftExactly | internal/workflow/design_decompile.go:156-170 | a left side survives exactly when it is a path, a number or keyword, or quoted text that does not unquote or quotes again to itself |
| DesignConditions.RightExactly | internal/workflow/design_decompile.go:144-155 | a right side likewise, but quoted text must unquote |
| DesignConditions.SidesDecide | internal/workflow/design_compile.go:187-249 | without operator characters in the sides, exactly when both sides survive |
| DesignConditions.GoodConditionRoundTrips | internal/workflow/design_compile.go:222-249 | paths and plain literals always do |
| DesignConditions.FindsOp | internal/workflow/design_decompile.go:130-139 | the first operator found is the comparison's own |
| DesignSteps.DesignRoundTripsExactly | internal/workflow/design_compile.go:94-266 | without floating-point arguments: compile, classify, read back and compile again gives the same steps exactly when every argument and condition, at every depth, survives |
| DesignSteps.DesignRoundTrips | internal/workflow/design_compile.go:94-266 | with such arguments and conditions it always does |
| DesignSteps.StepsClassified | internal/workflow/parse.go:51-80 | parsing takes the compiled steps exactly when every assignment names a variable |

## Left out

- The expression evaluator is a function whose value depends on the locations a template can
  read; tools are functions of their arguments. Argument trees are flattened to their leaves.
- Goroutines: Dafny has none. `Machine` models them as interleaved moves of a process tree.
- Engine.Engine.RunParallel: runs branches in order and is proved to be one schedule of the
  machine; the theorems about runs cover the others.
- Step events, tracing, metrics and audit calls beside the modelled operations.
- Wall-clock timeouts, other than as a caller's context that ends at some moment or a call
  cut short; the default for MaxSteps and for step timeouts.
- Texts of errors where only their presence matters; regular expressions for slugs and
  trigger ids; document checks of names and outputs.
- Parse.Classify: works on values; the source writes `Kind` and durations into the steps.
- Parse.ClassifyOne: checks a tool step's timeout and drops it, as no run uses it here.
- Engine.Engine.ResolveArgs: takes the argument tree as the map of its leaves.
- Engine.Engine.InvokeTool: has no step timeouts and no outputs that are not JSON.
- Engine.Engine.RunTool: likewise.
- Engine.Engine.Execute: takes one schedule and a caller that stays or has left from the
  start; `Machine` covers the others.
- Graph.GraphFromDoc: has no labels and details of nodes, and no summary of inputs and outputs.
- SandboxDriver.DockerDriver.Destroy: leaves out snapshots and says only whether it succeeded.
- SessionService.AgentEngine.Run: counts a failing callback for a text delta as the model's
  failure.
- SessionService.SendMessage: leaves out titles and memory, and takes the user's row as stored.
- Concurrent calls of one sandbox's Create: each Create makes its own row, so one suffices.
- Crashes of processes in the sandbox and queue protocols, and the Kubernetes driver, which
  repeats the Docker protocol; snapshots and restores.
- A Docker call that fails is taken to have had no effect, and removing a container to work.
- A retry base so large that doubling it overflows a duration.
- The in-memory mode of the reflection worker without a store, and expiry of proposals.
- Cron.ClaimedInTime: the table changes by the scheduler's own ticks only while the trigger
  waits.
- Partial failures of storage in the middle of a service call; runs, listings and invocations
  of workflows; the idempotency map of webhooks.
- A negative tool-call index in a stream, on which the accumulator would index out of range.
- Floating-point literals in designs, known by their text only; inputs and outputs of a
  design, which are copied field by field; YAML and JSON text, taken as the identity.
- DesignConditions.ConditionRoundTrips: takes from the library only that no float text is a
  path, a token or quoted, and that unquoting shortens a text and quoting the result again
  makes it no longer than it was.
- OutcomesExact.VisitHappensExactly: takes documents in which no assignment binds the text of
  a condition; otherwise a text that has just answered no has to be written as one of the few
  values that count as no, and it depends on these whether the scope changes.
- Memory search, skills, connectors, orchestrator rules, quotas, HTTP and login.
