# A verified model of the evaluation orchestrator

The orchestrator keeps evaluation jobs, tickets and results in PostgreSQL and uses the ticket table as its
queue. Many runners claim tickets under leases, evaluate outside any transaction, and settle result, ticket and
job together, while recovery sweeps, cancellation and retry-failed calls change the same rows. Before a ticket is
evaluated its payload is narrowed to the spans its metric names, and mapping paths are resolved on what is left.
This project models both parts in Dafny and proves what they keep.

## How it is built

The queue:

- `Lifecycle`, `Tables`: statuses, the transition table, and the three tables as maps from primary key to row.
- `QueueSpec`: the effect of every statement and service call on the tables, as functions. A call that raises
  returns only its error, because its transaction rolls back.
- `RowEffects`: what each of these leaves in the rows, column by column, with statuses read off the rows.
- `Repositories`, `Services`: the repositories and services as objects and methods that update the tables in
  place, statement by statement, each proved equal to its function of `QueueSpec` and to leave the rows `RowEffects`
  describes.
- `Protocol`: the system of all runners. A world is the tables, a clock and the executions in flight with the copy
  of the ticket each worker remembers from its claim. An action is one committed transaction or one local step.
  Interleaving, crashes, deadlocks, skipped locks, evaluator outcomes and lease expiry are unrestricted choices.
- `Invariants`, `Preservation`, `Reachability`: one invariant of the tables and its proof for every action and so
  for every run.
- `Outcomes`: how an execution begins and ends, and which status and result its ticket is given.
- `Progress`, `Fencing`, `Cancellation`, `AttemptBudget`, `Claims`, `ClaimBound`, `RunBound`, `Witnesses`: what follows
  for whole runs. `Totals` has the sums these count with. `Guarantees` states the main results of runs from empty
  tables; the lemmas they rest on are in the other modules, for any world with the invariant.
- `LockOrder`: concurrent transactions as holders and waiters of row locks.

Payloads and jobs:

- `Json`, `Paths`, `Spans`, `Resolver`: documents, the path walker, span extraction, ordering and lookup, the
  resolution of a whole input mapping, and the guard that decides whether a metric applies.
- `PathLaws`, `SpanLaws`: what walking a path and finding a span mean, by trails of values and by positions.
- `Scoping`, `MetricScope`: narrowing a payload to a metric's spans, and what the narrowing keeps. `NamedTraces` has the
  small traces that show what it loses.
- `SpanTree`: validation of the parent links of a trace.
- `WorkflowOrder`, `OrderScope`: the check that agents ran in the configured order, and when narrowing changes its
  verdict.
- `JobPlan`, `JobCreation`: what job creation computes, its frozen snapshot, and idempotent replay. `CreationLaws` has
  the columns of every ticket and the parts of the answer.

How a value prints and what time a string denotes are parameters (`Json.Host`). `Json.Faithful` says that a value
that counts as true prints as something; only the workflow-order results and the guard's method need it.

## What the proofs found

- **Attempt limit.** Fencing looks at the worker id, not at the claim. A worker that claims a ticket again while its
  earlier execution of it is still in flight can let the earlier one grant a retry from its old attempt number, and
  the attempt count then exceeds the maximum (`Witnesses.AttemptsCanExceedTheMaximum`). A run stays within the limit
  all along exactly when no step of it grants a retry on a row that has no attempt left
  (`Guarantees.RetryIsWithinBudgetIff`). Runs in which no worker claims what it is still executing contain no such step
  (`AttemptBudget.CarefulRunsNeverOverRetry`).
- **Stuck ticket.** Two such retries in turn leave a RETRY ticket with `attempt_count = max_attempts + 1` in a job that
  nobody cancelled (`Witnesses.StuckRetryIsReachable`). The table check `attempt_count <= max_attempts + 1` then aborts
  every claim whose scan reaches it, so the ticket can be given to nobody, and the rest of each such batch is starved
  with it (`Claims.OverdrawnStarvesTheBatch`). A pending ticket of an uncancelled job can be given out exactly when it
  is available and has at most `max_attempts` attempts (`Claims.NothingIsStranded`). A stuck one stays as it is exactly
  until its job is cancelled (`Guarantees.StuckTicketWaitsForCancel`). When no worker claims what it is still executing,
  every available ticket can be given out (`Claims.NothingIsStrandedWhenCareful`).
- **Stranded retry.** The transient-retry path does not read the cancellation flag. A ticket comes to wait in RETRY in
  a cancelled job exactly when its owner takes that path after the request (`Guarantees.RetryIsStrandedIff`). It is
  cancelled later exactly when the job is cancelled again, and its job does not finish before
  (`Guarantees.RetryOutlivesCancellation`).
- **Order of the upsert.** docs/architecture.md says results are upserted only after the ownership check. The code
  upserts first and relies on the rollback. The model follows the code; the outcome is the same
  (`Guarantees.OnlyTheOwnerSettles`).
- **Narrowing.** A path that selects a span by identity is safe exactly when the identity has no outer spaces
  (`Scoping.SafeExactlyWhenStripped`). `spans` and `spans.*` are safe exactly when every span is wanted
  (`Scoping.WholeListPreservedIff`, `Scoping.WildcardPreservedIff`). In a trace whose spans are all different, a
  position, written `spans.<i>`, `spans.order:<n>` or `order:<n>`, is safe exactly when every span up to it is wanted or
  the trace is shorter (`Scoping.PositionPreservedIff`, `Scoping.BarePositionPreservedIff`). A path to the raw list of
  spans, such as `payload.trace_context`, is safe exactly when every item of it is a wanted span, and a path that turns
  away from that list always is (`Scoping.DocumentPreservedIff`, `Scoping.ScopingPreservesDocument`). Below the raw
  list positions and wildcards behave as under `spans` (`Scoping.RawPositionPreservedIff`,
  `Scoping.RawWildcardPreservedIff`). A path such as `spans.order:1` is itself taken for a span name, so a metric with
  no other path finds no span (`MetricScope.PositionIsTakenForAName`).
- **Workflow order.** The scope strips the expected names, the evaluator compares them as written. So the subsequence
  verdict of a metric survives narrowing exactly when its expected names have no outer spaces, or one of them is empty
  and nothing passes, or the metric names nothing and nothing is narrowed (`OrderScope.OwnOrderSafeIff`, which also
  has the mode that ignores missing names). A metric that expects `" a "` passes on a whole trace and fails on the
  narrowed one (`OrderScope.SpacedNameIsLost`). The strict verdict survives only when nothing is narrowed or the list
  is empty or has an empty name (`OrderScope.StrictSafeIff`): with the names in the scope it is weaker on a narrowed
  trace, because a span out of place may have been dropped (`WorkflowOrder.StrictOnFullIff`).
- **Wildcards.** Walking a path in two parts agrees with walking it at once on every document exactly when the first
  part has no wildcard or the second part is empty (`Paths.ComposesExactlyWhen`).
- **Requested attempt limit.** The `max_attempts` of a creation request reaches no ticket, because every frozen
  metric already carries a limit (`JobCreation.RequestedLimitHasNoEffect`).

## Model

| member | source | states |
|---|---|---|
| `Guarantees.OnlyTheOwnerSettles` | src/evalorch/services/evaluation_service.py:266-337 | In every reachable world a settlement commits exactly when its worker owns the RUNNING ticket; otherwise no table changes, although the result is upserted before the check; if it commits, no other ticket, no result of another ticket and no other job changes |
| `Guarantees.OnlyTheOwnerExtends` | src/evalorch/repositories/ticket_repository.py:289-311 | A heartbeat by anyone but the owner changes no table |
| `Outcomes.VerdictDecides` | src/evalorch/services/evaluation_service.py:488-526 | In a job nobody cancelled the owner's PASSED and FAILED verdicts both end the ticket DONE, NOT_APPLICABLE ends it as such, and ERROR sends it to RETRY while the remembered attempt allows and then to FAILED; unless retried it has a result with that verdict and attempt |
| `Outcomes.CancellationOverridesVerdict` | src/evalorch/services/evaluation_service.py:276-293 | In a cancelled job the owner's verdict is dropped: the ticket ends CANCELLED and no result is written |
| `Outcomes.FailureDecides` | src/evalorch/services/evaluation_service.py:554-649 | A failure the owner handles goes to RETRY for a transient error with a remembered attempt left; any other ends CANCELLED in a cancelled job and else FAILED, with a FAILED result for missing context and an ERROR result for the rest |
| `Outcomes.SeenCancellationDecides` | src/evalorch/services/evaluation_service.py:525-545 | A cancellation seen when the job was loaded ends the ticket CANCELLED without a result |
| `Outcomes.LoadingSeesTheRequest` | src/evalorch/services/evaluation_service.py:401-410 | In every world with the invariant loading goes on to evaluate exactly when nobody asked to cancel the job, and otherwise to settle the cancellation |
| `Outcomes.VerdictEndsExecution` | src/evalorch/services/evaluation_service.py:547-551 | A settled or stale verdict ends its execution, and only one refused as an illegal move is handled as a transient failure |
| `Outcomes.ClaimStartsExecutions` | src/evalorch/services/evaluation_service.py:395-399 | Each claimed ticket starts one execution, which remembers worker, job, maximum and the attempt number the claim gave |
| `Outcomes.RetryCallActs` | src/evalorch/services/job_service.py:336-362 | A retry-failed call acts exactly on a job that is there, not cancelled and has a FAILED ticket, and otherwise changes nothing |
| `Outcomes.CancelCallActs` | src/evalorch/services/job_service.py:305-333 | A cancel call acts exactly on a job that is there and has not ended in another way, and otherwise changes nothing |
| `Outcomes.SweepActs` | src/evalorch/services/recovery_service.py:60-82 | A sweep settles each row it found by request and attempts; the rows are expired leases, and no row is settled twice |
| `Guarantees.ClaimsEndOnce` | src/evalorch/repositories/ticket_repository.py:194-217 | In every run each claim of a ticket has been ended exactly once, except one that is still RUNNING |
| `Guarantees.FinishedStaysFinished` | src/evalorch/models/enums.py:90-93 | From every reachable world on, a DONE, NOT_APPLICABLE or CANCELLED ticket and its result stay the same rows |
| `Guarantees.ResultsKeepTheirIds` | src/evalorch/repositories/result_repository.py:41-84 | From every reachable world on, no result is lost and a ticket's result keeps its id |
| `Guarantees.CancellationIsSafe` | src/evalorch/services/evaluation_service.py:276-293 | From a cancellation request on, tickets of the job move only RUNNING to RETRY or CANCELLED and RETRY to CANCELLED, and no result of the job is added or changed |
| `Guarantees.RetryIsStrandedIff` | src/evalorch/services/evaluation_service.py:602-619 | In every reachable world a step leaves a ticket newly waiting in RETRY in a cancelled job exactly when its owner settles a transient error with a remembered attempt left after the request |
| `Guarantees.RetryOutlivesCancellation` | src/evalorch/services/job_service.py:323-325 | Such a ticket is CANCELLED later exactly when the job was cancelled again, is still RETRY exactly when it was not, and until then its row and its unfinished job stay |
| `Guarantees.AttemptsKeepToTheMaximum` | src/evalorch/repositories/ticket_repository.py:155-161 | When no worker claims what it is still executing, attempt_count is at most max_attempts, and less while READY or RETRY, in every reachable world |
| `Guarantees.CarefulClaimsSucceed` | src/evalorch/db/models.py:158-161 | In such runs the table check never aborts a claim |
| `Guarantees.RetryIsWithinBudgetIff` | src/evalorch/services/evaluation_service.py:488-509 | A run from empty tables keeps every ticket within its budget in every world along it exactly when no step grants a retry on a row without an attempt left |
| `Guarantees.StuckTicketWaitsForCancel` | src/evalorch/db/models.py:158-161 | A pending ticket of an uncancelled job above its maximum can be given to nobody and keeps its row exactly until its job is cancelled |
| `Reachability.EveryActionFollowsTheTable` | src/evalorch/models/enums.py:76-94 | Every action, the bulk updates that bypass the guard included, moves each ticket only along the transition table, keeps its fixed columns, loses no row and withdraws no cancellation |
| `Lifecycle.SourcesAre` | src/evalorch/models/enums.py:76-94 | The table read by target: from where a ticket may come to each status |
| `Outcomes.WaitingNeverFails` | src/evalorch/models/enums.py:85-89 | The table lets a RETRY ticket become FAILED, but in worlds with the invariant no action makes that move |
| `Reachability.StepKeepsInv` | src/evalorch/services/ticket_service.py:55-100 | Every action keeps the invariant of tables and executions: row shape, agreement of ticket and result, cancellation facts, exact job progress |
| `Reachability.ReachableInv` | src/evalorch/services/evaluation_service.py:395-551 | The invariant holds in every world that any interleaving of actions reaches from empty tables |
| `Preservation.SettleCommitsIffOwner` | src/evalorch/repositories/ticket_repository.py:194-217 | A settlement commits exactly when a non-empty worker owns the RUNNING ticket and the target is allowed, and then moves that row and recomputes the job |
| `RowEffects.SettleEffects` | src/evalorch/repositories/ticket_repository.py:219-287 | A committed settlement ends the lease; RETRY frees the ticket after its delay, any other status ends it now; the result is the given one, kept on RETRY and CANCELLED; the job shows its tickets and no other row changes |
| `RowEffects.RefusalIs` | src/evalorch/repositories/ticket_repository.py:190-217 | A settlement is refused as stale or as illegal exactly by status and owner of the row, each reason on its own |
| `Preservation.UpsertWritesOneRow` | src/evalorch/repositories/result_repository.py:41-84 | An upsert writes exactly one row of the ticket, its own when there is one, and rows stay unique per ticket |
| `Preservation.PersistKeeps` | src/evalorch/services/evaluation_service.py:255-337 | One settlement transaction with any verdict keeps the whole invariant when it commits |
| `RowEffects.PersistEffects` | src/evalorch/services/evaluation_service.py:266-337 | A settlement that commits leaves, in a cancelled job, a CANCELLED ticket and no result, and else the target status, with the result row for a final target; every other row stays and the job shows its tickets |
| `RowEffects.FailureEffects` | src/evalorch/services/evaluation_service.py:554-649 | Which branch a failure takes and what it leaves in the rows |
| `RowEffects.UpsertRecords` | src/evalorch/repositories/result_repository.py:41-84 | The row of the ticket carries verdict and attempt, a new one also the job, and no other row changes |
| `Preservation.RecoverKeeps` | src/evalorch/services/recovery_service.py:60-82 | A recovery sweep over any subset of expired rows keeps the whole invariant |
| `RowEffects.RecoverEffects` | src/evalorch/repositories/ticket_repository.py:345-429 | Expired tickets end CANCELLED in a cancelled job, else FAILED without an attempt left, else wait in RETRY until the jitter is over; abandoned ones end CANCELLED; no other ticket or result changes and exactly their jobs are recomputed |
| `RowEffects.SweepsLookAt` | src/evalorch/repositories/ticket_repository.py:353-361 | The sweeps look at exactly the RUNNING tickets whose lease ended before now, the second one in cancelled jobs |
| `Preservation.CancelJobKeeps` | src/evalorch/services/job_service.py:305-333 | A cancel call keeps the whole invariant |
| `RowEffects.CancelEffects` | src/evalorch/services/job_service.py:305-333 | READY and RETRY tickets of the job are CANCELLED now, every other ticket stays, the first request time stands, and the job shows its rows |
| `RowEffects.CancelRefusals` | src/evalorch/services/job_service.py:312-321 | The call is refused exactly without the job or when it ended in another way than cancelled |
| `Preservation.RetryFailedKeeps` | src/evalorch/services/job_service.py:336-362 | A retry-failed call keeps the whole invariant |
| `RowEffects.RetryFailedEffects` | src/evalorch/services/job_service.py:336-362 | Each FAILED ticket of the job is READY again with no attempt used, available now, without worker, lease, end or result; every other ticket, all results and other jobs stay |
| `RowEffects.RetryFailedRefusals` | src/evalorch/services/job_service.py:344-361 | The call is refused exactly without the job, after a cancellation request, or when no ticket of the job is FAILED |
| `Preservation.ClaimKeeps` | src/evalorch/services/ticket_service.py:32-52 | A claim keeps the whole invariant whatever ticket and job locks it skips |
| `RowEffects.ReconcileEffects` | src/evalorch/services/recovery_service.py:90-96 | Exactly the jobs with an unfinished ticket come to show their rows |
| `RowEffects.InsertedTickets` | src/evalorch/services/job_service.py:213-262 | A new job has one READY ticket per entry, available at once, without attempt, worker, lease, end or result, and no other row changes |
| `RowEffects.InsertedJob` | src/evalorch/services/job_service.py:242-263 | The new job is READY with nothing counted but its total, not started, ended or cancelled, and no other job changes |
| `RowEffects.HeartbeatEffects` | src/evalorch/repositories/ticket_repository.py:289-311 | The lease of the owner's RUNNING ticket ends that much after now, and nothing else changes |
| `Invariants.CountsAddUp` | src/evalorch/repositories/job_repository.py:201-231 | The seven status counts of a job add up to its number of tickets |
| `Invariants.RecomputedAgrees` | src/evalorch/repositories/job_repository.py:201-261 | Recomputing makes counters, status and completion time agree with the ticket rows, status read off the rows without counting |
| `RowEffects.RecomputedShows` | src/evalorch/repositories/job_repository.py:201-261 | Whatever the columns said before, the job shows READY until a ticket was claimed or ended, RUNNING until all have ended, then the outcome of the rows; the total never falls, start and completion keep their first time, and an open job has no completion |
| `Progress.ProgressMatchesRows` | src/evalorch/repositories/job_repository.py:201-261 | In every reachable world the counters equal the counts over the rows, the status is terminal and completed_at set exactly when all tickets are terminal, and the terminal status is the outcome of the rows |
| `Progress.CancelledOnlyOnRequest` | src/evalorch/repositories/job_repository.py:220-231 | A cancelled ticket exists only after a request, and a finished job is CANCELLED exactly when cancellation was requested |
| `Progress.RowsFitTheirStatus` | src/evalorch/repositories/ticket_repository.py:229-287 | In every reachable world a ticket's lease, worker, completion time and result fit its status, its result names it and has a verdict its status allows, and it has at most one result |
| `Claims.NothingIsStranded` | src/evalorch/repositories/ticket_repository.py:135-150 | In every reachable world an unfinished ticket of an uncancelled job can be reclaimed exactly once its lease ran out while RUNNING, and otherwise taken by some possible claim exactly when it is available and has at most max_attempts attempts |
| `Claims.NothingIsStrandedWhenCareful` | src/evalorch/repositories/ticket_repository.py:135-150 | When no worker claims what it is still executing, a pending ticket of an uncancelled job can be taken exactly once it is available |
| `Claims.OverdrawnStarvesTheBatch` | runner/runner.py:196-200 | One scanned row above its maximum makes the claim take nothing and change nothing |
| `Claims.WideClaimTakesEligible` | src/evalorch/repositories/ticket_repository.py:121-172 | A claim with nothing locked and room for all takes an eligible ticket exactly when no eligible ticket is above its maximum |
| `Claims.WideClaimTakesAllWhenCareful` | src/evalorch/repositories/ticket_repository.py:121-172 | When no worker claims what it is still executing, such a claim takes exactly the eligible tickets |
| `Claims.RecoveryFrees` | src/evalorch/repositories/ticket_repository.py:345-402 | Recovery of an expired lease is possible and gives RETRY without a worker, or FAILED when attempts are used up |
| `Claims.ClaimTakesTheBest` | src/evalorch/repositories/ticket_repository.py:135-150 | A claim scans min(limit, unlocked eligible) distinct tickets, none outranked by an unlocked one left behind, and takes exactly these, or none when one of them is above its maximum |
| `Claims.ClaimGoesByPriorityAndAge` | src/evalorch/repositories/ticket_repository.py:145 | Between a taken ticket and a claimable unlocked one left behind, the taken one has the higher priority, or the same and is not younger |
| `Claims.ClaimTakesTheClaimable` | src/evalorch/repositories/ticket_repository.py:135-150 | A claim takes only unlocked READY or RETRY tickets that are available, of a job nobody cancelled and of the asked job, and leaves such a ticket behind only at its limit or when the batch is aborted |
| `Claims.ClaimChangesOnlyTaken` | src/evalorch/repositories/ticket_repository.py:153-172 | Each taken ticket gains one attempt, the worker and the lease; every other row stays as it was |
| `Fencing.RunningChangesOnlyByClaims` | src/evalorch/repositories/ticket_repository.py:153-172 | A ticket becomes RUNNING only by a claim, stops only by a settlement or sweep, and each does so exactly once |
| `Cancellation.CancelledSettlement` | src/evalorch/services/evaluation_service.py:602-619 | A committed settlement in a cancelled job writes no result and ends in CANCELLED, except in RETRY exactly when it handles a transient error with a remembered attempt left |
| `Witnesses.RetryInCancelledJobIsReachable` | src/evalorch/services/evaluation_service.py:602-619 | A run from empty tables that leaves a RETRY ticket in a cancelled job |
| `AttemptBudget.AttemptsCountClaims` | src/evalorch/repositories/ticket_repository.py:155-161 | Outside retry-failed, attempt_count grows exactly when the ticket is claimed, and finished tickets stay finished |
| `Fencing.RetryIffGranted` | src/evalorch/services/evaluation_service.py:488-509 | A committed settlement ends in RETRY exactly when it took the branch of an evaluator error outside a cancelled job, or of a transient error, with a remembered attempt left |
| `AttemptBudget.RetryKeepsTheBoundIff` | src/evalorch/services/evaluation_service.py:602-619 | From within budget, one step keeps every ticket within budget exactly when it grants no retry on a row without an attempt left |
| `AttemptBudget.CarefulRunsNeverOverRetry` | src/evalorch/services/evaluation_service.py:602-619 | Runs in which no worker claims what it is still executing contain no such retry |
| `Witnesses.AttemptsCanExceedTheMaximum` | src/evalorch/repositories/ticket_repository.py:203-206 | A run in which a worker claims its own unfinished ticket again ends with more attempts than the maximum |
| `Witnesses.StuckRetryIsReachable` | src/evalorch/db/models.py:158-161 | A run that leaves a RETRY ticket above its maximum, eligible by the query but impossible to claim, in an uncancelled job |
| `ClaimBound.MoveCostsFuel` | src/evalorch/repositories/ticket_repository.py:353-371 | Twice the attempts left, plus one while RUNNING, falls whenever a step moves a ticket, and a claim uses up one attempt |
| `ClaimBound.MovesAreBounded` | src/evalorch/repositories/ticket_repository.py:174-287 | Without resets and new jobs a run moves tickets at most as often as the measure it starts with |
| `ClaimBound.ClaimsAreBounded` | src/evalorch/repositories/ticket_repository.py:330-343 | From empty tables, a run with k retry-failed calls in which no worker claims what it is still executing claims at most (k + 1) times the sum of all max_attempts |
| `RunBound.AllClaimsAreBounded` | src/evalorch/db/models.py:158-161 | From empty tables, any run with k retry-failed calls, reclaiming workers included, claims at most (k + 1) times the sum of all max_attempts plus one per ticket |
| `RunBound.AllMovesAreBounded` | src/evalorch/db/models.py:158-161 | Without resets and new jobs any run from a world with the invariant moves tickets at most as often as the attempts the table check still admits allow |
| `LockOrder.StepKeepsDiscipline` | src/evalorch/services/ticket_service.py:71-95 | Every lock held or awaited respects job row before tickets, one ticket only, or skip locked |
| `LockOrder.NoWaitChainIsLong` | src/evalorch/repositories/ticket_repository.py:135-150 | A chain of waiting transactions has at most two links |
| `LockOrder.NoDeadlock` | src/evalorch/services/evaluation_service.py:223-224 | In any run of any number of such transactions the waits-for relation has no circle |
| `Repositories.OrderRows` | src/evalorch/repositories/ticket_repository.py:140-147 | The listing has each candidate once and none before one that sorts ahead of it |
| `Repositories.TicketRepository.Claim` | src/evalorch/repositories/ticket_repository.py:121-172 | Claims the first claimable unlocked tickets by priority and then age, at most the limit, each with one attempt more, worker and lease; every other row stays; or changes nothing because one in the scan is above its maximum |
| `Repositories.TicketRepository.Transition` | src/evalorch/repositories/ticket_repository.py:174-287 | The guarded move of one ticket, column by column; which error exactly when, and nothing changed on error |
| `Repositories.TicketRepository.ExtendLease` | src/evalorch/repositories/ticket_repository.py:289-311 | Succeeds exactly for the owner of a RUNNING ticket, and then changes the lease of that row and nothing else |
| `Repositories.TicketRepository.CancelUnclaimed` | src/evalorch/repositories/ticket_repository.py:313-328 | Cancels exactly the READY and RETRY tickets of the job and counts them; no other row changes |
| `Repositories.TicketRepository.ResetFailed` | src/evalorch/repositories/ticket_repository.py:330-343 | Each FAILED ticket of the job starts afresh with no attempt used, and no other row changes |
| `Repositories.TicketRepository.RecoverExpiredLeases` | src/evalorch/repositories/ticket_repository.py:345-402 | Reclaims the unlocked expired leases that ended first, at most the limit; each row goes to CANCELLED, FAILED or RETRY by request and attempts, and nothing else changes |
| `Repositories.TicketRepository.CancelRunningForCancelledJobs` | src/evalorch/repositories/ticket_repository.py:404-429 | Cancels the unlocked expired leases of cancelled jobs that ended first, at most the limit, and nothing else |
| `Repositories.JobRepository.RecomputeProgress` | src/evalorch/repositories/job_repository.py:201-261 | Rewrites the progress columns of one job and nothing else, to what its rows show; they then agree with its rows when it has tickets, its total counts them, and cancelled ones stand only after a request |
| `Repositories.JobRepository.MarkRunningIfPending` | src/evalorch/repositories/job_repository.py:137-163 | Shows the unlocked CREATED and READY jobs as RUNNING with their first start, and no other |
| `Repositories.JobRepository.RequestCancellation` | src/evalorch/repositories/job_repository.py:165-176 | Sets the request time once and keeps an earlier one |
| `Repositories.ResultRepository.Upsert` | src/evalorch/repositories/result_repository.py:41-84 | Inserts, or overwrites the row of the ticket under its old id |
| `Repositories.TakeUnlockedTakes` | src/evalorch/repositories/ticket_repository.py:353-361 | A locking scan takes min(limit, unlocked) distinct rows, none sorting after an unlocked one left behind |
| `Repositories.ScanTakesInOrder` | src/evalorch/repositories/ticket_repository.py:135-150 | In columns: at most the limit, each once, all claimable and unlocked, by priority and then age, and none left behind below the limit |
| `Repositories.SweepTakesInOrder` | src/evalorch/repositories/ticket_repository.py:353-361 | In columns: at most the limit, each once, all expired and unlocked, by the end of the lease, and none left behind below the limit |
| `Services.ClaimTickets` | src/evalorch/services/ticket_service.py:32-52 | Claims in order and shows the jobs of the taken tickets as started, or changes nothing when the claim is aborted |
| `Services.SettleTicket` | src/evalorch/services/ticket_service.py:55-100 | Moves the ticket and refreshes its job, or changes nothing |
| `Services.HeartbeatTicket` | src/evalorch/services/ticket_service.py:103-121 | Extends a lease exactly for the owner |
| `Services.PersistOnce` | src/evalorch/services/evaluation_service.py:255-347 | Cancellation wins; otherwise the result row with its verdict and the ticket change together; a refusal or deadlock after the upsert changes nothing |
| `Services.Persist` | src/evalorch/services/evaluation_service.py:210-252 | While other sessions commit between the attempts, the deadlock loop stops at the first clean attempt and commits at most once: the tables end as one settlement makes of what that attempt finds, or as the last attempt found them when all deadlock |
| `Services.HandleFailure` | src/evalorch/services/evaluation_service.py:554-649 | A failure is retried directly or recorded, according to its class and the remembered attempt, on the tables its deciding attempt finds; only the recording is repeated on deadlock, and every outcome other than settled leaves the tables as found |
| `Services.CancelJob` | src/evalorch/services/job_service.py:305-333 | Request, bulk cancel and recompute in one step, with its two refusals; the waiting tickets are CANCELLED and the job shows its rows |
| `Services.RetryFailedTickets` | src/evalorch/services/job_service.py:336-362 | Succeeds exactly on a job that is there, not cancelled and has a FAILED ticket; all of these start afresh and the job shows its rows |
| `Services.CountRecovered` | src/evalorch/services/recovery_service.py:46-57 | The report counts every recovered row once, under the status it was given |
| `Services.RecoverAbandonedTickets` | src/evalorch/services/recovery_service.py:60-82 | Both sweeps take the oldest unlocked leases up to the limit and settle each row by request and attempts, and every touched job is recomputed |
| `Services.ReconcileActiveJobs` | src/evalorch/services/recovery_service.py:90-96 | Recomputes every job with an unfinished ticket |
| `Services.RecomputeComposes` | src/evalorch/services/recovery_service.py:76-78 | Recomputing jobs one after another is recomputing them together, so the order does not matter |
| `Paths.Traverse` | src/evalorch/services/context_resolver.py:267-314 | The walking loop terminates and computes the recursive meaning of the path on every document |
| `Paths.WalkComposes` | src/evalorch/services/context_resolver.py:267-314 | A prefix without wildcards may be walked first and the rest from where it arrives |
| `Paths.ComposesExactlyWhen` | src/evalorch/services/context_resolver.py:273-288 | Walking in two parts agrees on every document exactly when the first part has no wildcard or the second is empty |
| `Paths.WildcardFailsIff` | src/evalorch/services/context_resolver.py:273-287 | A wildcard over a list fails exactly when there is a rest to walk, the list is non-empty and all its items fail |
| `Paths.CollectAll` | src/evalorch/services/context_resolver.py:279-287 | When every item resolves, a wildcard gives one value per item in order |
| `Paths.KeyOverObjects` | src/evalorch/services/context_resolver.py:297-304 | A key over a list of objects gives that key of each, null where it is absent |
| `PathLaws.WalkFollowsTrail` | src/evalorch/services/context_resolver.py:289-313 | Without wildcards a path gives a value exactly when a trail of values leads to it, field by field, item by position, or key over the objects of a list, and otherwise a missing path |
| `PathLaws.CollectsWhatResolves` | src/evalorch/services/context_resolver.py:279-287 | A wildcard gives the values of exactly the items that resolve further on, in order |
| `PathLaws.WildcardGives` | src/evalorch/services/context_resolver.py:273-288 | A wildcard needs a list, gives the list itself at the end of a path, and fails when nothing in a non-empty list resolves |
| `PathLaws.SectionResolves` | src/evalorch/services/context_resolver.py:363-371 | A section is walked from its value, and a null or absent one is a missing path |
| `PathLaws.RootsResolve` | src/evalorch/services/context_resolver.py:325-342 | `payload` is the document itself and `spans` alone the ordered list of spans; no token at all is an unsupported mapping |
| `PathLaws.DigitsReadBack` | src/evalorch/services/context_resolver.py:289-294 | Reading the decimal digits of a number gives the number |
| `Spans.OrderSortsAndPermutes` | src/evalorch/services/context_resolver.py:182-190 | Ordering sorts by start time, unreadable starts last, and neither loses nor invents a span |
| `Spans.OrderIsStable` | src/evalorch/services/context_resolver.py:182-190 | Spans that share a start time keep their original order |
| `Spans.SortedAndStableIsUnique` | src/evalorch/services/context_resolver.py:185-190 | The sorted stable arrangement is unique, so sorting on (start, index) gives this one |
| `Spans.FilterOrder` | src/evalorch/services/context_resolver.py:166-190 | Filtering commutes with ordering |
| `SpanLaws.RawSpansStandAt` | src/evalorch/services/context_resolver.py:166-179 | The list of spans stands under three objects and nowhere else |
| `SpanLaws.ObjectsAreItems` | src/evalorch/services/context_resolver.py:178 | The spans are the items that are objects with a field, in order |
| `SpanLaws.ExtractedByTime` | src/evalorch/services/context_resolver.py:182-190 | Of two extracted spans the first started no later, and none with a readable start comes behind one without |
| `SpanLaws.PrefixFinds` | src/evalorch/services/context_resolver.py:221-229 | A prefixed token finds the span that alone has the value at that key, and is ambiguous when two positions have it |
| `SpanLaws.NumberFinds` | src/evalorch/services/context_resolver.py:230-238 | `order:` and a number find the span at that place, counted from one |
| `SpanLaws.BareTokenFinds` | src/evalorch/services/context_resolver.py:240-248 | Any other token finds the only span of that name, or when none has it the only span of that id; two ids find nothing |
| `SpanLaws.SpanPathResolves` | src/evalorch/services/context_resolver.py:348-361 | A path that starts at a span walks on from the span its token finds, or says missing or ambiguous |
| `Resolver.ResolveInputMapping` | src/evalorch/services/context_resolver.py:403-508 | The mapping loop: a key is missing for each failing entry that is required and has no default, the errors are the failing entries with their codes, both in order, and each key has the value of the last entry that resolves or falls back to a default |
| `Resolver.MissingIff` | src/evalorch/services/context_resolver.py:499-506 | A key is missing exactly when some entry of it fails, is required and has no default that counts |
| `Resolver.EntryValueIs` | src/evalorch/services/context_resolver.py:468-480 | An entry fails without a path, with the error of its path, or on a null or a type it does not accept, null first; a boolean is no number |
| `Resolver.CheckGuard` | src/evalorch/services/evaluation_service.py:154-184 | The guard holds exactly when every compared path has its expected value and every required name is printed by some identity of some extracted span |
| `Resolver.ComparisonDecides` | src/evalorch/services/evaluation_service.py:163-168 | One comparison more keeps the answer exactly when its path resolves to the expected value |
| `NamedTraces.GuardOnNames` | src/evalorch/services/evaluation_service.py:170-183 | On a trace of named spans the guard holds exactly when every required name is one of them |
| `Scoping.ScopeIsFilter` | src/evalorch/services/context_resolver.py:133-179 | The spans of a narrowed payload are the wanted spans of the full one in the same order |
| `Scoping.FindAmongWanted` | src/evalorch/services/context_resolver.py:214-248 | Looking a wanted identity up among the kept spans gives the same span, absence or ambiguity |
| `Scoping.ScopingPreservesPath` | src/evalorch/services/context_resolver.py:317-388 | A path that selects a span by a wanted identity has the same value or error code on the narrowed payload |
| `Scoping.ScopingPreservesDocument` | src/evalorch/services/context_resolver.py:330-371 | Paths into the document that turn away before the list of spans, registry, metadata and correlation among them, are not affected |
| `Scoping.DocumentPreservedIff` | src/evalorch/services/context_resolver.py:330-371 | A path to the raw list of spans or to what holds it is unaffected exactly when every raw item is a wanted span |
| `Scoping.RawListSeesTheWanted` | src/evalorch/services/context_resolver.py:133-163 | A path that goes on below the raw list walks on from its wanted spans in order |
| `Scoping.RawPositionPreservedIff` | src/evalorch/services/context_resolver.py:289-296 | In a raw list of different items, a position below it is unaffected exactly when every item up to it is a wanted span or the list has no such position, and then whatever tokens follow |
| `Scoping.RawWildcardPreservedIff` | src/evalorch/services/context_resolver.py:273-288 | A wildcard over the raw list is unaffected, whatever tokens follow, exactly when every item is a wanted span |
| `Scoping.WholeListPreservedIff` | src/evalorch/services/context_resolver.py:337-342 | The path `spans` is unaffected exactly when every span is wanted |
| `Scoping.FilterKeepsPosition` | src/evalorch/services/context_resolver.py:230-238 | Filtering different spans leaves a position in place exactly when it keeps everything up to it |
| `Scoping.PositionPreservedIff` | src/evalorch/services/context_resolver.py:343-361 | In a trace of different spans, a path by position under spans, a plain index or an order number, is unaffected exactly when every span up to that position is wanted or the trace has no such position, and then whatever tokens follow |
| `Scoping.BarePositionPreservedIff` | src/evalorch/services/context_resolver.py:373-388 | So is a path that starts with an order number itself |
| `Scoping.WildcardSeesTheWanted` | src/evalorch/services/context_resolver.py:344-347 | A wildcard under spans runs over the wanted spans of the full trace in order |
| `Scoping.WildcardPreservedIff` | src/evalorch/services/context_resolver.py:344-347 | It is unaffected, whatever tokens follow, exactly when every span is wanted |
| `Scoping.SafeExactlyWhenStripped` | src/evalorch/services/evaluation_service.py:86-151 | An identity path is unaffected under every scope naming the stripped identity exactly when stripping does not change the identity |
| `MetricScope.MetricSpanNames` | src/evalorch/services/evaluation_service.py:106-151 | The names are distinct, non-empty and exactly the stripped names the metric mentions in lists, paths and parameters |
| `MetricScope.ScopeOfListedNames` | src/evalorch/services/evaluation_service.py:113-118 | A metric without paths and parameters sees its span names, or without any the spans its guard requires |
| `Scoping.SelectorNamesItsValue` | src/evalorch/services/evaluation_service.py:86-103 | A prefixed selector names its value, at the head of a path and under spans |
| `Scoping.BareTokenNamesItself` | src/evalorch/services/evaluation_service.py:86-103 | Any other token names itself, but sections and order numbers at the head and positions and wildcards under spans name nothing |
| `MetricScope.CleanNames` | src/evalorch/services/evaluation_service.py:144-151 | Keeps exactly the stripped non-empty names, each once |
| `Json.StripTakesOuterSpaces` | src/evalorch/services/evaluation_service.py:144-151 | Stripping takes spaces off both ends and nothing else |
| `Json.FalseValuesAre` | src/evalorch/services/context_resolver.py:206-211 | Exactly null, false, zero and what is empty count as no value |
| `MetricScope.CollectTokens` | src/evalorch/services/evaluation_service.py:132-135 | Exactly the non-empty span tokens of the paths |
| `MetricScope.OwnPathsKeepTheirMeaning` | src/evalorch/services/evaluation_service.py:86-151 | Every own path of a metric that selects by a trimmed identity or a section resolves the same on the narrowed payload |
| `MetricScope.MappedInputUnchanged` | src/evalorch/services/evaluation_service.py:443-450 | When every mapped path selects by a trimmed identity or turns away from the spans, the whole evaluator input, with errors and missing keys, is the same as on the full payload |
| `MetricScope.GuardUnchanged` | src/evalorch/services/evaluation_service.py:154-184 | The applies_when guard decides the same when the paths it compares are safe in that sense and its required spans are in the scope, whatever the mapping |
| `MetricScope.ConfiguredGuardUnchanged` | src/evalorch/services/profile_resolution.py:184-185 | The guard of every configured metric decides the same: it compares no path, and its required spans are its trimmed span names |
| `MetricScope.RequirementSafeIff` | src/evalorch/services/evaluation_service.py:170-183 | The required-spans part of a guard decides the same on every payload exactly when the scope has the required names as written, or one is empty and never met |
| `MetricScope.PositionIsTakenForAName` | src/evalorch/services/evaluation_service.py:96-101 | A metric whose only path is a position under spans resolves to a missing span on every trace without a span of that name |
| `SpanTree.ValidateSpanTree` | src/evalorch/services/payload_validation.py:128-189 | Accepts exactly when forms are right, stripped ids are unique and every span reaches a root; which error means what |
| `SpanTree.BuildIndex` | src/evalorch/services/payload_validation.py:130-165 | The first loop succeeds exactly on right forms and unique ids and then holds every span under its stripped id |
| `SpanTree.WalkToRoot` | src/evalorch/services/payload_validation.py:170-189 | One walk terminates and succeeds exactly when the span reaches a root |
| `SpanTree.ForestIffAcyclic` | src/evalorch/services/payload_validation.py:170-189 | All walks succeed exactly when every parent is present and no span is its own ancestor |
| `SpanTree.WalksAreShort` | src/evalorch/services/payload_validation.py:170-189 | A successful walk follows fewer links than there are spans |
| `SpanTree.ForestHasRoot` | src/evalorch/services/payload_validation.py:167-168 | The explicit root check follows from the walks |
| `WorkflowOrder.Evaluate` | src/evalorch/evaluators/deterministic/workflow_order.py:60-126 | Subsequence passes exactly when the expected list embeds in the observed one, the missing test adding nothing; with ignore_missing the same for the present names; strict passes exactly on a prefix, whatever ignore_missing says; mode names are read in lower case |
| `WorkflowOrder.InOrder` | src/evalorch/evaluators/deterministic/workflow_order.py:94-102 | The cursor loop succeeds exactly when some order-preserving placement exists |
| `WorkflowOrder.ScanIffEmbeds` | src/evalorch/evaluators/deterministic/workflow_order.py:94-102 | Greedy choice is complete |
| `WorkflowOrder.SpanIdentities` | src/evalorch/evaluators/deterministic/workflow_order.py:13-22 | The observed list has each span's first identity that has a value |
| `WorkflowOrder.PresentAreCarried` | src/evalorch/evaluators/deterministic/workflow_order.py:86-87 | The present names are the expected ones that some span carries, in the expected order |
| `WorkflowOrder.LabelIsFirst` | src/evalorch/evaluators/deterministic/workflow_order.py:13-22 | A span is listed under name, else agent_id, else agent_type, else span_id, whichever first has a value |
| `WorkflowOrder.ModesAreNamed` | src/evalorch/evaluators/deterministic/workflow_order.py:77-79 | Exactly two modes have a name, in any case |
| `WorkflowOrder.ScoreIs` | src/evalorch/evaluators/deterministic/workflow_order.py:106 | A passed verdict has the full score, any other the share of the present names |
| `Json.LowerIs` | src/evalorch/evaluators/deterministic/workflow_order.py:77 | Capital letters become the corresponding small ones, other characters stay |
| `WorkflowOrder.ScopingKeepsTheOrderVerdict` | src/evalorch/services/evaluation_service.py:137-142 | The subsequence verdict is the same on a trace narrowed to a scope that has the expected names as written, or when one of them is empty |
| `WorkflowOrder.ScopingKeepsTheVerdictOnPresent` | src/evalorch/evaluators/deterministic/workflow_order.py:86-105 | With every expected name that is not empty in the scope, the present names and the verdict that ignores missing ones are the same |
| `WorkflowOrder.StrictOnFullIff` | src/evalorch/evaluators/deterministic/workflow_order.py:90-92 | The strict verdict is the same while the leading spans are all wanted; with the expected names in the scope it passes on the full trace exactly when it passes on the narrowed one and the leading spans are all wanted |
| `WorkflowOrder.StrictCanPassOnlyWhenNarrowed` | src/evalorch/evaluators/deterministic/workflow_order.py:90-92 | A trace on which narrowing turns a strict failure into a pass |
| `OrderScope.SubsequenceSafeIff` | src/evalorch/evaluators/deterministic/workflow_order.py:94-105 | The subsequence verdict is the same on every narrowed payload exactly when the scope has the expected names as written, or one of them is empty |
| `OrderScope.IgnoringSafeIff` | src/evalorch/evaluators/deterministic/workflow_order.py:82-105 | The verdict that ignores missing names is the same on every narrowed payload exactly when the scope has every expected name that is not empty |
| `OrderScope.StrictSafeIff` | src/evalorch/evaluators/deterministic/workflow_order.py:90-92 | The strict verdict is the same on every narrowed payload exactly when nothing is narrowed, or the expected list is empty or has an empty name |
| `OrderScope.OwnOrderSafeIff` | src/evalorch/services/evaluation_service.py:137-151 | Under the scope a metric gets, the verdict that ignores missing names survives on every payload exactly when the expected names are trimmed or nothing is narrowed, and the subsequence verdict exactly then or when an expected name is empty |
| `OrderScope.SpacedNameIsLost` | src/evalorch/services/evaluation_service.py:137-151 | A metric that expects a name with outer spaces passes in either mode on a trace of that name and fails in either on the narrowed trace |
| `JobCreation.MetricsForAgent` | src/evalorch/services/profile_resolution.py:193-254 | Succeeds exactly on a configuration that names the agent and has usable, distinctly named, enabled metrics, and freezes those in order |
| `JobCreation.Prepare` | src/evalorch/services/job_service.py:168-182 | Succeeds exactly when every payload is acceptable, and gives each the frozen metrics of its agent |
| `JobCreation.PreparedIsSound` | src/evalorch/services/job_service.py:168-182 | All payloads of a job have one agent, and their metrics have distinct records |
| `JobCreation.BuildTickets` | src/evalorch/services/job_service.py:184-237 | The loops build the ticket list, the snapshot and the metric ids of the prepared payloads |
| `JobCreation.PlanJob` | src/evalorch/services/job_service.py:168-262 | Succeeds exactly on a non-empty acceptable folder; the job has payloads times enabled metrics tickets and replays to what is returned |
| `JobCreation.ReplayJob` | src/evalorch/services/job_service.py:84-119 | Rebuilds the answer from the stored totals and the snapshot alone |
| `JobCreation.JobStore.CreateJob` | src/evalorch/services/job_service.py:122-294 | A repeated key gives the counts, metric ids, dataset and profiles of the first answer whatever the folder holds now, a different request is refused, an unusable key is refused by its reason, a first request succeeds exactly on an acceptable folder, a failure stores nothing, and a new job stores its tickets, totals and snapshot |
| `JobCreation.RequestedLimitHasNoEffect` | src/evalorch/services/job_service.py:235 | The attempt limit of the request changes no ticket |
| `CreationLaws.TicketsEvaluateEveryPair` | src/evalorch/services/job_service.py:191-237 | Payload by payload and enabled metric by enabled metric, in order, there is the ticket with the file, agent, check, version, priority and attempt limit of the pair; the requested priority replaces the configured one |
| `CreationLaws.AnswerFollowsConfiguration` | src/evalorch/services/job_service.py:264-292 | The answer names the one configured agent, counts all tickets for it, and lists the enabled metrics once in the configured order |
| `CreationLaws.EnabledAreOn` | src/evalorch/services/profile_resolution.py:212-217 | Only metrics that are switched off are left out |
| `JobPlan.ReplayRebuildsCreation` | src/evalorch/services/job_service.py:84-119 | Ticket count, payload count, metric ids, agent ids and counts per agent from the snapshot equal those from the ticket list |
| `JobPlan.TicketsShareNoWork` | src/evalorch/db/models.py:165-171 | No two tickets of a job share payload file and metric record, so the unique index never refuses an insert |
| `JobPlan.OneTicketPerPair` | src/evalorch/services/job_service.py:191-237 | There is one ticket per payload and metric |
| `JobPlan.SnapshotIdsAreUnique` | src/evalorch/services/job_service.py:94-101 | The metric ids read back agent by agent, in the order the snapshot was written, are those of the tickets, each once in the same order; a job has one agent, so the stored object has one key |
| `JobPlan.SnapshotAgentsAreUnique` | src/evalorch/services/job_service.py:94-96 | The snapshot is written with the agents by first occurrence and one entry per payload; a job has one agent, so the stored object has one key |

## Left out

- execute_ticket as one method: it is not one transaction, so its steps are the separate actions of `Protocol`, with other workers in between; `Services` has the transactions.
- Protocol.Apply: job creation inserts READY tickets with any positive attempt limits; `JobCreation` does not share its rows.
- Columns that decide nothing: error text, input snapshots, claimed_at, updated_at, started_at of tickets, scores and evidence of results.
- The waits-for relation of sweeps over several jobs (recovery, reconcile): they take job locks in no fixed order, and the deadlock loop of the settlement is what covers them.
- Shared locks that foreign keys take, and PostgreSQL's own visibility rules: transactions are atomic and roll back when they raise.
- Resolver.ResolveInputMapping: does not model the audit trail (location, selector, available spans).
- Resolver.Resolve: paths are token lists; splitting a path string at dots and brackets is not modelled.
- Resolver.Applies: values are compared as documents, so an integer never equals a float of the same value.
- Spans.OrderPosition: reads plain digits only; signs, spaces and underscores after `order:` are not read.
- Json.IsDigits, Json.Strip and Json.Lower: digits, spaces and letters are the ASCII ones.
- Spans.Start: parsing of timestamps is a parameter; the source drops a timezone offset instead of converting it.
- WorkflowOrder.Evaluate: takes the mapped spans as a list; the object form of that value, the fallback to the configured order and the rounding of the score are not modelled.
- SpanTree.Row: the form of ids, times and other fields of a span is a yes or no per span.
- JobCreation.JobStore.CreateJob: the warnings and the status counts of the answer are not modelled; a replay has no warnings and the status counts of its time. Request hashes and version-5 identifiers (section 4.3 of RFC 4122) are taken as injective, other identifiers as fresh, and two callers racing with one key are left to the unique index.
- JobPlan.Snapshot: keeps the agents in the order they were written; the JSONB column may store the keys of an object in another order, which does not matter because a job has one agent (`JobCreation.PreparedIsSound`).
- JobCreation.Definition: validation of a single metric definition is a yes or no per metric.
- Exception classification, retry backoff with its jitter, and evaluator outcomes are free choices of the actions.
- `required_fields`, `tool_calls` and `span_exists`: membership tests that would only add easy members.
- Routes, authentication, logging, metrics, language-model providers, prompt rendering, file access and migrations.
