/**
 What each call leaves in the rows, column by column and status by status. The columns are stated one at a time, and
 statuses are read off the rows instead of being counted.
 */
module RowEffects {
  import opened Options
  import opened Lifecycle
  import opened Tables
  import opened QueueSpec
  import opened Invariants
  import opened Preservation

  /** The columns a ticket keeps for life. */
  predicate SameTicket(row: Ticket, next: Ticket) {
    && next.jobId == row.jobId && next.priority == row.priority
    && next.createdAt == row.createdAt && next.maxAttempts == row.maxAttempts
  }

  // ---------------------------------------------------------------- job progress

  predicate Has(tickets: map<Id, Ticket>, j: Id, s: TicketStatus) {
    exists t :: t in tickets && tickets[t].jobId == j && tickets[t].status == s
  }

  lemma HasIsCounted(tickets: map<Id, Ticket>, j: Id, s: TicketStatus)
    ensures Has(tickets, j, s) <==> |TicketsWith(tickets, j, s)| > 0
  {
    CountIsZero(tickets, j, s);
  }

  predicate IsOpen(tickets: map<Id, Ticket>, j: Id) {
    Has(tickets, j, Ready) || Has(tickets, j, Running) || Has(tickets, j, Retry)
  }

  predicate HasEnded(tickets: map<Id, Ticket>, j: Id) {
    Has(tickets, j, Done) || Has(tickets, j, Failed) || Has(tickets, j, Cancelled) || Has(tickets, j, NotApplicable)
  }

  /** Cancelled tickets decide the outcome after a request, or when nothing was evaluated or failed. */
  predicate EndsCancelled(job: Job, tickets: map<Id, Ticket>, j: Id) {
    Has(tickets, j, Cancelled)
    && (job.cancelRequestedAt.Some? || (!Has(tickets, j, Done) && !Has(tickets, j, Failed)))
  }

  /** The status a job shows: READY until a ticket was claimed or ended, RUNNING until all have, then the outcome. */
  predicate ShowsStatus(job: Job, tickets: map<Id, Ticket>, j: Id, status: JobStatus) {
    match status
    case JobReady => IsOpen(tickets, j) && !Has(tickets, j, Running) && !HasEnded(tickets, j)
    case JobRunning => IsOpen(tickets, j) && (Has(tickets, j, Running) || HasEnded(tickets, j))
    case JobCancelled => !IsOpen(tickets, j) && EndsCancelled(job, tickets, j)
    case JobCompleted => !IsOpen(tickets, j) && !EndsCancelled(job, tickets, j) && !Has(tickets, j, Failed)
    case JobPartialFailed =>
      && !IsOpen(tickets, j) && !EndsCancelled(job, tickets, j) && Has(tickets, j, Failed)
      && (Has(tickets, j, Done) || Has(tickets, j, NotApplicable))
    case JobFailed =>
      && !IsOpen(tickets, j) && !EndsCancelled(job, tickets, j) && Has(tickets, j, Failed)
      && !Has(tickets, j, Done) && !Has(tickets, j, NotApplicable)
    case JobCreated => false
  }

  /** The total never falls; start and completion keep their first time, and an open job has no completion. */
  ghost predicate ShowsProgress(job: Job, tickets: map<Id, Ticket>, j: Id, now: int, next: Job) {
    && (if IsOpen(tickets, j) || HasEnded(tickets, j) then ShowsStatus(job, tickets, j, next.status)
        else next.status == job.status)
    && job.totalTickets <= next.totalTickets && |TicketsOf(tickets, j)| <= next.totalTickets
    && (next.totalTickets == job.totalTickets || next.totalTickets == |TicketsOf(tickets, j)|)
    && next.completed == |TicketsWith(tickets, j, Done)| && next.failed == |TicketsWith(tickets, j, Failed)|
    && next.cancelled == |TicketsWith(tickets, j, Cancelled)|
    && next.notApplicable == |TicketsWith(tickets, j, NotApplicable)|
    && ShowsTimes(job, tickets, j, now, next)
  }

  predicate ShowsTimes(job: Job, tickets: map<Id, Ticket>, j: Id, now: int, next: Job) {
    && next.cancelRequestedAt == job.cancelRequestedAt
    && (job.startedAt.Some? ==> next.startedAt == job.startedAt)
    && (job.startedAt.None? ==>
          next.startedAt == (if next.status == JobCreated || next.status == JobReady then None else Some(now)))
    && (IsOpen(tickets, j) || !HasEnded(tickets, j) ==> next.completedAt.None?)
    && (!IsOpen(tickets, j) && HasEnded(tickets, j) && job.completedAt.Some? ==> next.completedAt == job.completedAt)
    && (!IsOpen(tickets, j) && HasEnded(tickets, j) && job.completedAt.None? ==> next.completedAt == Some(now))
  }

  /** Recomputing a job from its counts shows the progress of its rows, whatever its columns said before. */
  lemma RecomputedShows(job: Job, tickets: map<Id, Ticket>, j: Id, now: int)
    ensures ShowsProgress(job, tickets, j, now, RecomputedJob(job, tickets, j, now))
  {
    CountsAddUp(tickets, j);
    forall s: TicketStatus
      ensures Has(tickets, j, s) <==> |TicketsWith(tickets, j, s)| > 0
    {
      HasIsCounted(tickets, j, s);
    }
  }

  /** Job `j` shows the progress of the tickets, the others keep their rows. */
  ghost predicate OnlyShows(jobs: map<Id, Job>, next: Db, js: set<Id>, now: int) {
    && next.jobs.Keys == jobs.Keys
    && (forall j :: j in jobs && j !in js ==> next.jobs[j] == jobs[j])
    && (forall j :: j in jobs && j in js ==> ShowsProgress(jobs[j], next.tickets, j, now, next.jobs[j]))
  }

  lemma RecomputeShows(db: Db, js: set<Id>, now: int)
    ensures var next := RecomputeAll(db, js, now);
            OnlyShows(db.jobs, next, js, now) && next.tickets == db.tickets && next.results == db.results
  {
    forall j | j in db.jobs && j in js
      ensures ShowsProgress(db.jobs[j], db.tickets, j, now, RecomputeAll(db, js, now).jobs[j])
    {
      RecomputedShows(db.jobs[j], db.tickets, j, now);
    }
  }

  // ---------------------------------------------------------------- claimed rows

  /** RUNNING for this worker until the lease ends, one attempt more. */
  predicate WasClaimed(row: Ticket, next: Ticket, worker: Worker, lease: nat, now: int) {
    && SameTicket(row, next) && next.status == Running && next.workerId == Some(worker)
    && next.attemptCount == row.attemptCount + 1 && next.leaseExpiresAt == Some(now + lease)
    && next.availableAt == row.availableAt && next.completedAt == row.completedAt && next.resultId == row.resultId
  }

  /** A job of a claimed ticket is shown as RUNNING if it was only created or ready, and keeps its first start. */
  ghost predicate ShowsStarted(job: Job, next: Job, now: int) {
    && (job.status == JobCreated || job.status == JobReady ==>
          next.status == JobRunning && next.startedAt == Some(if job.startedAt.Some? then job.startedAt.value else now))
    && (job.status != JobCreated && job.status != JobReady ==>
          next.status == job.status && next.startedAt == job.startedAt)
    && next.totalTickets == job.totalTickets && next.completed == job.completed && next.failed == job.failed
    && next.cancelled == job.cancelled && next.notApplicable == job.notApplicable
    && next.completedAt == job.completedAt && next.cancelRequestedAt == job.cancelRequestedAt
  }

  lemma MarkedRunning(jobs: map<Id, Job>, js: set<Id>, now: int)
    ensures MarkRunning(jobs, js, now).Keys == jobs.Keys
    ensures forall j :: j in jobs && j !in js ==> MarkRunning(jobs, js, now)[j] == jobs[j]
    ensures forall j :: j in jobs && j in js ==> ShowsStarted(jobs[j], MarkRunning(jobs, js, now)[j], now)
  {
  }

  // ---------------------------------------------------------------- settled rows

  /** The lease is over; RETRY frees the ticket for later, any other status ends it now. */
  predicate WasSettled(row: Ticket, next: Ticket, target: TicketStatus, result: Option<Id>, delay: nat, now: int) {
    && SameTicket(row, next) && next.status == target && next.leaseExpiresAt.None?
    && next.attemptCount == row.attemptCount
    && (if target == Retry then next.workerId.None? && next.availableAt == now + delay
                                && next.completedAt == row.completedAt
        else next.workerId == row.workerId && next.availableAt == row.availableAt && next.completedAt == Some(now))
    && (if target == Retry || target == Cancelled || (result.None? && target != Done)
        then next.resultId == row.resultId else next.resultId == result)
  }

  lemma SettledRow(row: Ticket, target: TicketStatus, result: Option<Id>, delay: nat, now: int)
    requires Allowed(Running, target)
    ensures WasSettled(row, SettledTicket(row, target, result, delay, now), target, result, delay, now)
  {
  }

  /** The ticket is not RUNNING for this worker. */
  predicate IsForeign(row: Ticket, worker: Worker) {
    row.status != Running || row.workerId != Some(worker)
  }

  /** Why a settlement is refused, each reason on its own. */
  lemma RefusalIs(db: Db, t: Id, target: TicketStatus, worker: Worker)
    ensures var why := SettleRefusal(db, t, target, worker);
            && (why == Some(TicketNotFound) <==> t !in db.tickets)
            && (why == Some(NoWorker) <==> t in db.tickets && worker == "")
            && (why == Some(StaleWorker) <==>
                t in db.tickets && worker != "" && IsForeign(db.tickets[t], worker)
                && (Allowed(db.tickets[t].status, target)
                    || (db.tickets[t].workerId.Some? && db.tickets[t].workerId.value != worker)))
            && (why == Some(IllegalTransition) <==>
                t in db.tickets && worker != "" && !Allowed(db.tickets[t].status, target)
                && (db.tickets[t].workerId.None? || db.tickets[t].workerId.value == worker))
  {
  }

  /** A settlement that commits settles its ticket, shows the progress of its job and leaves all other rows. */
  ghost predicate OnlySettles(db: Db, next: Db, t: Id, j: Id, target: TicketStatus, result: Option<Id>, delay: nat,
                              now: int) {
    && next.tickets.Keys == db.tickets.Keys && t in db.tickets
    && WasSettled(db.tickets[t], next.tickets[t], target, result, delay, now)
    && (forall u :: u in db.tickets && u != t ==> next.tickets[u] == db.tickets[u])
    && OnlyShows(db.jobs, next, {j}, now)
  }

  lemma SettleEffects(db: Db, t: Id, target: TicketStatus, result: Option<Id>, delay: nat, j: Id, worker: Worker,
                      now: int)
    ensures var r := Settle(db, t, target, result, delay, j, worker, now);
            r.Ok? ==> OnlySettles(db, r.value, t, j, target, result, delay, now) && r.value.results == db.results
  {
    SettleCommitsIffOwner(db, t, target, result, delay, j, worker, now);
    if Settle(db, t, target, result, delay, j, worker, now).Ok? {
      SettledRow(db.tickets[t], target, result, delay, now);
      RecomputeShows(MovedTicket(db, t, target, result, delay, now), {j}, now);
    }
  }

  // ---------------------------------------------------------------- persisted results

  /** The ticket's result row carries the verdict and the attempt; a new one has the job too, and no other changes. */
  ghost predicate Records(results: map<Id, EvalResult>, next: map<Id, EvalResult>, c: ClaimCopy, verdict: Verdict,
                          id: Id) {
    && id in next && next.Keys == results.Keys + {id}
    && next[id].ticketId == c.ticketId && next[id].verdict == verdict && next[id].attemptCount == c.attemptCount
    && next[id].jobId == (if id in results then results[id].jobId else c.jobId)
    && (id in results <==> exists r :: r in results && results[r].ticketId == c.ticketId)
    && (id in results ==> results[id].ticketId == c.ticketId)
    && (forall r :: r in results && r != id ==> next[r] == results[r])
  }

  lemma UpsertRecords(results: map<Id, EvalResult>, c: ClaimCopy, verdict: Verdict, newId: Id)
    requires newId !in results
    ensures var next := Upsert(results, EvalResult(c.jobId, c.ticketId, verdict, c.attemptCount), newId);
            Records(results, next, c, verdict, UpsertId(results, c.ticketId, newId))
  {
    UpsertIdNames(results, c.ticketId, newId);
    if r :| r in results && results[r].ticketId == c.ticketId {
      assert r in ResultsFor(results, c.ticketId);
    }
  }

  /** In a cancelled job the ticket is CANCELLED without a result; else a final target comes with its result. */
  ghost predicate Persists(db: Db, next: Db, c: ClaimCopy, verdict: Verdict, target: TicketStatus, delay: nat,
                           now: int) {
    if CancelRequested(db, c.jobId) then
      OnlySettles(db, next, c.ticketId, c.jobId, Cancelled, None, 0, now) && next.results == db.results
    else if target == Done || target == Failed || target == NotApplicable then
      exists id :: Records(db.results, next.results, c, verdict, id)
                   && OnlySettles(db, next, c.ticketId, c.jobId, target, Some(id), delay, now)
    else OnlySettles(db, next, c.ticketId, c.jobId, target, None, delay, now) && next.results == db.results
  }

  lemma PersistEffects(db: Db, c: ClaimCopy, verdict: Verdict, target: TicketStatus, delay: nat, newId: Id,
                       worker: Worker, now: int)
    requires newId !in db.results && target != Cancelled
    ensures var r := PersistOnce(db, c, verdict, target, delay, newId, worker, now);
            r.Ok? ==> if c.ticketId in db.tickets then Persists(db, r.value, c, verdict, target, delay, now)
                      else r.value == db
  {
    var row := EvalResult(c.jobId, c.ticketId, verdict, c.attemptCount);
    var written := db.(results := Upsert(db.results, row, newId));
    var id := UpsertId(db.results, c.ticketId, newId);
    UpsertRecords(db.results, c, verdict, newId);
    SettleEffects(db, c.ticketId, Cancelled, None, 0, c.jobId, worker, now);
    SettleEffects(db, c.ticketId, target, None, delay, c.jobId, worker, now);
    SettleEffects(written, c.ticketId, target, Some(id), delay, c.jobId, worker, now);
  }

  /** Which branch a failure takes: RETRY for a transient error with an attempt left, else FAILED with a result. */
  ghost predicate Handles(db: Db, next: Db, c: ClaimCopy, cls: ErrorClass, delay: nat, now: int) {
    match cls
    case MissingContext => Persists(db, next, c, VerdictFailed, Failed, 0, now)
    case Permanent => Persists(db, next, c, VerdictError, Failed, 0, now)
    case Transient =>
      if c.attemptCount < c.maxAttempts
      then OnlySettles(db, next, c.ticketId, c.jobId, Retry, None, delay, now) && next.results == db.results
      else Persists(db, next, c, VerdictError, Failed, 0, now)
  }

  lemma FailureEffects(db: Db, c: ClaimCopy, cls: ErrorClass, delay: nat, newId: Id, worker: Worker, now: int)
    requires newId !in db.results
    ensures var r := HandleFailure(db, c, cls, delay, newId, worker, now);
            r.Ok? ==> if c.ticketId in db.tickets then Handles(db, r.value, c, cls, delay, now) else r.value == db
  {
    PersistEffects(db, c, if cls == MissingContext then VerdictFailed else VerdictError, Failed, 0, newId, worker, now);
    SettleEffects(db, c.ticketId, Retry, None, delay, c.jobId, worker, now);
  }

  // ---------------------------------------------------------------- swept and cancelled rows

  /** CANCELLED in a cancelled job, else FAILED without an attempt left, else RETRY after the jitter. */
  predicate WasRecovered(row: Ticket, next: Ticket, requested: bool, jitter: nat, now: int) {
    && SameTicket(row, next) && next.workerId.None? && next.leaseExpiresAt.None?
    && next.attemptCount == row.attemptCount && next.resultId == row.resultId
    && (next.status == Cancelled <==> requested)
    && (next.status == Failed <==> !requested && row.attemptCount >= row.maxAttempts)
    && (next.status == Retry <==> !requested && row.attemptCount < row.maxAttempts)
    && (if next.status == Retry then next.availableAt == now + jitter && next.completedAt == row.completedAt
        else next.availableAt == now && next.completedAt == Some(now))
  }

  /** CANCELLED now; the worker, the attempts and the result of the row stay. */
  predicate WasCancelled(row: Ticket, next: Ticket, now: int) {
    && SameTicket(row, next) && next.status == Cancelled && next.completedAt == Some(now)
    && next.leaseExpiresAt.None? && next.workerId == row.workerId && next.attemptCount == row.attemptCount
    && next.availableAt == row.availableAt && next.resultId == row.resultId
  }

  predicate IsExpired(db: Db, t: Id, now: int) {
    && t in db.tickets && db.tickets[t].jobId in db.jobs && db.tickets[t].status == Running
    && db.tickets[t].leaseExpiresAt.Some? && db.tickets[t].leaseExpiresAt.value < now
  }

  /** The sweeps look at RUNNING tickets whose lease ended before now, the second at those of cancelled jobs. */
  lemma SweepsLookAt(db: Db, now: int)
    ensures forall t :: t in ExpiredTickets(db, now) <==> IsExpired(db, t, now)
    ensures forall t :: t in ExpiredCancelledTickets(db, now) <==>
              IsExpired(db, t, now) && db.jobs[db.tickets[t].jobId].cancelRequestedAt.Some?
  {
  }

  /** Expired rows are recovered, abandoned ones cancelled, other tickets and all results stay. */
  ghost predicate SweptRows(db: Db, next: Db, expired: set<Id>, abandoned: set<Id>, jitter: map<Id, nat>, now: int) {
    && next.results == db.results && next.tickets.Keys == db.tickets.Keys
    && (forall t :: t in db.tickets && t in expired && t !in abandoned ==>
          WasRecovered(db.tickets[t], next.tickets[t], CancelRequested(db, db.tickets[t].jobId),
                       if t in jitter then jitter[t] else 0, now))
    && (forall t :: t in db.tickets && t !in expired && t in abandoned ==>
          WasCancelled(db.tickets[t], next.tickets[t], now))
    && (forall t :: t in db.tickets && t !in expired && t !in abandoned ==> next.tickets[t] == db.tickets[t])
  }

  function Swept(db: Db, expired: set<Id>, abandoned: set<Id>, jitter: map<Id, nat>, now: int): Db {
    CancelRows(RecoverExpired(db, expired, jitter, now), abandoned, now)
  }

  lemma SweepEffects(db: Db, expired: set<Id>, abandoned: set<Id>, jitter: map<Id, nat>, now: int)
    ensures SweptRows(db, Swept(db, expired, abandoned, jitter, now), expired, abandoned, jitter, now)
  {
  }

  lemma RecoverExpiredEffects(db: Db, picked: set<Id>, jitter: map<Id, nat>, now: int)
    ensures SweptRows(db, RecoverExpired(db, picked, jitter, now), picked, {}, jitter, now)
  {
  }

  lemma CancelSweptEffects(db: Db, picked: set<Id>, now: int)
    ensures SweptRows(db, CancelRows(db, picked, now), {}, picked, map[], now)
  {
  }

  lemma RecoverEffects(db: Db, expired: set<Id>, abandoned: set<Id>, jitter: map<Id, nat>, now: int)
    ensures var next := Recover(db, expired, abandoned, jitter, now);
            SweptRows(db, next, expired, abandoned, jitter, now)
            && OnlyShows(db.jobs, next, JobsOf(db.tickets, expired + abandoned), now)
    ensures forall j :: j in JobsOf(db.tickets, expired + abandoned) <==>
              exists t :: t in db.tickets && (t in expired || t in abandoned) && db.tickets[t].jobId == j
  {
    SweepEffects(db, expired, abandoned, jitter, now);
    RecomputeShows(Swept(db, expired, abandoned, jitter, now), JobsOf(db.tickets, expired + abandoned), now);
  }

  // ---------------------------------------------------------------- operator calls

  /** A job can be cancelled until it ended in another way, and again once it is cancelled. */
  lemma CancelRefusals(db: Db, j: Id, now: int)
    ensures CancelJob(db, j, now) == Err(JobNotFound) <==> j !in db.jobs
    ensures CancelJob(db, j, now) == Err(Conflict) <==>
            j in db.jobs && (db.jobs[j].status == JobCompleted || db.jobs[j].status == JobFailed
                             || db.jobs[j].status == JobPartialFailed)
  {
  }

  /** READY and RETRY tickets of the job are CANCELLED, every other ticket and all results stay. */
  ghost predicate CancelsWaiting(db: Db, next: Db, j: Id, now: int) {
    && next.results == db.results && next.tickets.Keys == db.tickets.Keys
    && forall t :: t in db.tickets ==>
         if db.tickets[t].jobId == j && (db.tickets[t].status == Ready || db.tickets[t].status == Retry)
         then WasCancelled(db.tickets[t], next.tickets[t], now)
         else next.tickets[t] == db.tickets[t]
  }

  /** The first request time stands. */
  function Requested(job: Job, now: int): Job {
    match job.cancelRequestedAt
    case Some(_) => job
    case None => job.(cancelRequestedAt := Some(now))
  }

  function AskedToCancel(db: Db, j: Id, now: int): Db
    requires j in db.jobs
  {
    var requested := db.(jobs := RequestCancellation(db.jobs, j, now));
    CancelRows(requested, UnclaimedTickets(requested, j), now)
  }

  lemma CancelUnclaimedEffects(db: Db, j: Id, now: int)
    ensures CancelsWaiting(db, CancelRows(db, UnclaimedTickets(db, j), now), j, now)
  {
  }

  lemma CancelRowsEffects(db: Db, j: Id, now: int)
    requires j in db.jobs
    ensures CancelsWaiting(db, AskedToCancel(db, j, now), j, now)
    ensures AskedToCancel(db, j, now).jobs == db.jobs[j := Requested(db.jobs[j], now)]
  {
  }

  lemma CancelEffects(db: Db, j: Id, now: int)
    requires CancelJob(db, j, now).Ok?
    ensures var next := CancelJob(db, j, now).value;
            && CancelsWaiting(db, next, j, now)
            && OnlyShows(db.jobs[j := Requested(db.jobs[j], now)], next, {j}, now)
  {
    CancelRowsEffects(db, j, now);
    RecomputeShows(AskedToCancel(db, j, now), {j}, now);
  }

  /** As new: READY at once, no attempt used, no worker, no lease, no end and no result. */
  predicate StartsAfresh(row: Ticket, next: Ticket, now: int) {
    && SameTicket(row, next) && next.status == Ready && next.attemptCount == 0 && next.availableAt == now
    && next.workerId.None? && next.leaseExpiresAt.None? && next.completedAt.None? && next.resultId.None?
  }

  /** FAILED tickets of the job start afresh, every other ticket and all results stay. */
  ghost predicate ResetsFailed(db: Db, next: Db, j: Id, now: int) {
    && next.results == db.results && next.tickets.Keys == db.tickets.Keys
    && forall t :: t in db.tickets ==>
         if db.tickets[t].jobId == j && db.tickets[t].status == Failed
         then StartsAfresh(db.tickets[t], next.tickets[t], now)
         else next.tickets[t] == db.tickets[t]
  }

  lemma ResetEffects(db: Db, j: Id, now: int)
    ensures ResetsFailed(db, ResetFailed(db, j, now), j, now) && ResetFailed(db, j, now).jobs == db.jobs
  {
  }

  lemma RetryFailedRefusals(db: Db, j: Id, now: int)
    ensures RetryFailed(db, j, now) == Err(JobNotFound) <==> j !in db.jobs
    ensures RetryFailed(db, j, now) == Err(Conflict) <==>
            j in db.jobs && (CancelRequested(db, j) || !Has(db.tickets, j, Failed))
  {
    HasIsCounted(db.tickets, j, Failed);
    assert |TicketsWith(db.tickets, j, Failed)| > 0 <==> TicketsWith(db.tickets, j, Failed) != {};
  }

  lemma RetryFailedEffects(db: Db, j: Id, now: int)
    requires RetryFailed(db, j, now).Ok?
    ensures var next := RetryFailed(db, j, now).value;
            ResetsFailed(db, next, j, now) && OnlyShows(db.jobs, next, {j}, now)
  {
    ResetEffects(db, j, now);
    RecomputeShows(ResetFailed(db, j, now), {j}, now);
  }

  /** Only jobs with an unfinished ticket are recomputed, and no other table changes. */
  lemma ReconcileEffects(db: Db, now: int)
    ensures var next := Reconcile(db, now);
            && next.tickets == db.tickets && next.results == db.results && next.jobs.Keys == db.jobs.Keys
            && forall j :: j in db.jobs ==>
                 if IsOpen(db.tickets, j) then ShowsProgress(db.jobs[j], db.tickets, j, now, next.jobs[j])
                 else next.jobs[j] == db.jobs[j]
  {
    RecomputeShows(db, ActiveJobs(db), now);
    forall j | j in db.jobs
      ensures j in ActiveJobs(db) <==> IsOpen(db.tickets, j)
    {
      ActiveIsOpen(db, j);
    }
  }

  lemma ActiveIsOpen(db: Db, j: Id)
    ensures j in ActiveJobs(db) <==> IsOpen(db.tickets, j)
  {
    if j in ActiveJobs(db) {
      var t :| t in db.tickets && !IsTerminal(db.tickets[t].status) && db.tickets[t].jobId == j;
      assert db.tickets[t].status == Ready || db.tickets[t].status == Running || db.tickets[t].status == Retry;
    }
  }

  /** The lease of the owner's RUNNING ticket ends that much after now; nobody else changes anything. */
  lemma HeartbeatEffects(db: Db, t: Id, worker: Worker, lease: nat, now: int)
    ensures var next := ExtendLease(db, t, worker, lease, now);
            && next.jobs == db.jobs && next.results == db.results && next.tickets.Keys == db.tickets.Keys
            && (forall u :: u in db.tickets && u != t ==> next.tickets[u] == db.tickets[u])
            && (t in db.tickets ==>
                  if IsForeign(db.tickets[t], worker) then next.tickets[t] == db.tickets[t]
                  else next.tickets[t] == db.tickets[t].(leaseExpiresAt := Some(now + lease)))
  {
  }

  /** A new job is READY with nothing counted but its total, and no other job changes. */
  lemma InsertedJob(db: Db, j: Id, specs: map<Id, TicketSpec>, now: int)
    requires j !in db.jobs
    ensures var jobs := InsertJob(db, j, specs, now).jobs;
            && jobs.Keys == db.jobs.Keys + {j} && (forall k :: k in db.jobs ==> jobs[k] == db.jobs[k])
            && jobs[j].status == JobReady && jobs[j].totalTickets == |specs|
            && jobs[j].completed == 0 && jobs[j].failed == 0 && jobs[j].cancelled == 0 && jobs[j].notApplicable == 0
            && jobs[j].startedAt.None? && jobs[j].completedAt.None? && jobs[j].cancelRequestedAt.None?
  {
  }

  /** It has one READY ticket per entry, available at once and without an attempt, and no other row changes. */
  lemma InsertedTickets(db: Db, j: Id, specs: map<Id, TicketSpec>, now: int)
    requires specs.Keys !! db.tickets.Keys
    ensures var next := InsertJob(db, j, specs, now);
            && next.results == db.results && next.tickets.Keys == db.tickets.Keys + specs.Keys
            && (forall t :: t in db.tickets ==> next.tickets[t] == db.tickets[t])
            && (forall t :: t in specs ==> IsNew(next.tickets[t], j, specs[t], now))
  {
    var added := NewTickets(j, specs, now);
    assert forall t :: t in specs ==> IsNew(added[t], j, specs[t], now);
    assert added.Keys == specs.Keys;
  }

  predicate IsNew(t: Ticket, j: Id, spec: TicketSpec, now: int) {
    && t.jobId == j && t.status == Ready && t.priority == spec.priority && t.maxAttempts == spec.maxAttempts
    && t.createdAt == now && t.availableAt == now && t.attemptCount == 0
    && t.workerId.None? && t.leaseExpiresAt.None? && t.completedAt.None? && t.resultId.None?
  }
}
