/**
 The effect of each transaction on the tables, one function per statement or service call.
 A call that raises is rolled back, so it returns only its error and no tables.
 */
module QueueSpec {
  import opened Options
  import opened Lifecycle
  import opened Tables

  datatype SettleError = TicketNotFound | NoWorker | IllegalTransition | StaleWorker

  datatype ApiError = JobNotFound | Conflict

  // ---------------------------------------------------------------- job progress

  function DerivedStatus(job: Job, tickets: map<Id, Ticket>, j: Id): JobStatus {
    var done := |TicketsWith(tickets, j, Done)|;
    var failed := |TicketsWith(tickets, j, Failed)|;
    var cancelled := |TicketsWith(tickets, j, Cancelled)|;
    var notApplicable := |TicketsWith(tickets, j, NotApplicable)|;
    var running := |TicketsWith(tickets, j, Running)|;
    var pending := |TicketsWith(tickets, j, Ready)| + |TicketsWith(tickets, j, Retry)|;
    var terminal := done + failed + cancelled + notApplicable;
    var total := terminal + running + pending;
    if total == 0 then job.status
    else if terminal < total then
      if running > 0 || terminal > 0 then JobRunning else JobReady
    else if cancelled > 0 && (job.cancelRequestedAt.Some? || done + failed == 0) then JobCancelled
    else if failed == 0 then JobCompleted
    else if done + notApplicable > 0 then JobPartialFailed
    else JobFailed
  }

  function RecomputedJob(job: Job, tickets: map<Id, Ticket>, j: Id, now: int): Job {
    var done := |TicketsWith(tickets, j, Done)|;
    var failed := |TicketsWith(tickets, j, Failed)|;
    var cancelled := |TicketsWith(tickets, j, Cancelled)|;
    var notApplicable := |TicketsWith(tickets, j, NotApplicable)|;
    var terminal := done + failed + cancelled + notApplicable;
    var total := terminal + |TicketsWith(tickets, j, Running)|
                 + |TicketsWith(tickets, j, Ready)| + |TicketsWith(tickets, j, Retry)|;
    var status := DerivedStatus(job, tickets, j);
    job.(status := status,
         totalTickets := if job.totalTickets < total then total else job.totalTickets,
         completed := done,
         failed := failed,
         cancelled := cancelled,
         notApplicable := notApplicable,
         startedAt := if status == JobReady || status == JobCreated || job.startedAt.Some?
                      then job.startedAt else Some(now),
         completedAt := if total > 0 && terminal >= total
                        then (if job.completedAt.Some? then job.completedAt else Some(now))
                        else None)
  }

  function RecomputeAll(db: Db, js: set<Id>, now: int): Db {
    db.(jobs := map j | j in db.jobs ::
                  if j in js then RecomputedJob(db.jobs[j], db.tickets, j, now) else db.jobs[j])
  }

  // ---------------------------------------------------------------- claiming

  predicate Eligible(db: Db, t: Id, now: int, filter: Option<Id>) {
    && t in db.tickets
    && IsPending(db.tickets[t].status)
    && db.tickets[t].availableAt <= now
    && db.tickets[t].jobId in db.jobs
    && db.jobs[db.tickets[t].jobId].cancelRequestedAt.None?
    && !IsTerminalJob(db.jobs[db.tickets[t].jobId].status)
    && (filter.Some? ==> db.tickets[t].jobId == filter.value)
  }

  function EligibleTickets(db: Db, now: int, filter: Option<Id>): set<Id> {
    set t | t in db.tickets && Eligible(db, t, now, filter)
  }

  /** Sort order of the claim query: higher priority first, then older. */
  predicate Outranks(a: Ticket, b: Ticket) {
    a.priority > b.priority || (a.priority == b.priority && a.createdAt < b.createdAt)
  }

  /** Sort order of the recovery query: the lease that ran out first. */
  predicate LeaseBefore(a: Ticket, b: Ticket) {
    match (a.leaseExpiresAt, b.leaseExpiresAt)
    case (Some(x), Some(y)) => x < y
    case _ => false
  }

  /** `rows` lists `candidates` once each, none before one that sorts strictly ahead of it. */
  ghost predicate IsOrdered(tickets: map<Id, Ticket>, candidates: set<Id>, rows: seq<Id>,
                            before: (Ticket, Ticket) -> bool) {
    && candidates <= tickets.Keys
    && (forall t :: t in rows <==> t in candidates)
    && (forall i, k :: 0 <= i < k < |rows| ==> rows[i] != rows[k])
    && (forall i, k :: 0 <= i < k < |rows| && rows[k] in tickets && rows[i] in tickets ==>
          !before(tickets[rows[k]], tickets[rows[i]]))
  }

  /** Walk the ordered rows, skip the locked ones, stop at the limit. */
  function TakeUnlocked(rows: seq<Id>, locked: set<Id>, limit: nat): seq<Id> {
    if rows == [] || limit == 0 then []
    else if rows[0] in locked then TakeUnlocked(rows[1..], locked, limit)
    else [rows[0]] + TakeUnlocked(rows[1..], locked, limit - 1)
  }

  function ClaimedTicket(t: Ticket, worker: Worker, lease: nat, now: int): Ticket {
    t.(status := Running,
       workerId := Some(worker),
       leaseExpiresAt := Some(now + lease),
       attemptCount := t.attemptCount + 1)
  }

  function ClaimRows(tickets: map<Id, Ticket>, taken: set<Id>, worker: Worker, lease: nat, now: int): map<Id, Ticket> {
    map t | t in tickets :: if t in taken then ClaimedTicket(tickets[t], worker, lease, now) else tickets[t]
  }

  /** The table check `attempt_count <= max_attempts + 1` aborts a claim that would break it. */
  predicate ClaimAborts(tickets: map<Id, Ticket>, taken: set<Id>) {
    exists t :: t in taken && t in tickets && tickets[t].attemptCount > tickets[t].maxAttempts
  }

  function MarkRunning(jobs: map<Id, Job>, js: set<Id>, now: int): map<Id, Job> {
    map j | j in jobs ::
      if j in js && (jobs[j].status == JobCreated || jobs[j].status == JobReady)
      then jobs[j].(status := JobRunning,
                    startedAt := if jobs[j].startedAt.Some? then jobs[j].startedAt else Some(now))
      else jobs[j]
  }

  function JobsOf(tickets: map<Id, Ticket>, picked: set<Id>): set<Id> {
    set t | t in picked && t in tickets :: tickets[t].jobId
  }

  function Claim(db: Db, taken: set<Id>, lockedJobs: set<Id>, worker: Worker, lease: nat, now: int): Db {
    Db(MarkRunning(db.jobs, JobsOf(db.tickets, taken) - lockedJobs, now),
       ClaimRows(db.tickets, taken, worker, lease, now),
       db.results)
  }

  // ---------------------------------------------------------------- settling

  function SettledTicket(t: Ticket, target: TicketStatus, result: Option<Id>, delay: nat, now: int): Ticket
    requires Allowed(Running, target)
  {
    match target
    case Done =>
      t.(status := Done, resultId := result, completedAt := Some(now), leaseExpiresAt := None)
    case Retry =>
      t.(status := Retry, availableAt := now + delay, workerId := None, leaseExpiresAt := None)
    case Cancelled =>
      t.(status := Cancelled, completedAt := Some(now), leaseExpiresAt := None)
    case _ =>
      t.(status := target, completedAt := Some(now), leaseExpiresAt := None,
         resultId := if result.Some? then result else t.resultId)
  }

  predicate Owns(db: Db, t: Id, worker: Worker) {
    t in db.tickets && db.tickets[t].status == Running && db.tickets[t].workerId == Some(worker)
  }

  /** Why a settlement is refused; a foreign owner is reported before an illegal move. */
  function SettleRefusal(db: Db, t: Id, target: TicketStatus, worker: Worker): Option<SettleError> {
    if t !in db.tickets then Some(TicketNotFound)
    else if worker == "" then Some(NoWorker)
    else
      var row := db.tickets[t];
      var foreign := row.workerId.Some? && row.workerId != Some(worker);
      if Owns(db, t, worker) then
        (if Allowed(row.status, target) then None else Some(IllegalTransition))
      else if !foreign && !Allowed(row.status, target) then Some(IllegalTransition)
      else Some(StaleWorker)
  }

  function Transition(db: Db, t: Id, target: TicketStatus, result: Option<Id>, delay: nat, worker: Worker,
                      now: int): Outcome<Db, SettleError> {
    match SettleRefusal(db, t, target, worker)
    case Some(e) => Err(e)
    case None => Ok(db.(tickets := db.tickets[t := SettledTicket(db.tickets[t], target, result, delay, now)]))
  }

  function Settle(db: Db, t: Id, target: TicketStatus, result: Option<Id>, delay: nat, j: Id, worker: Worker,
                  now: int): Outcome<Db, SettleError> {
    if worker == "" then Err(NoWorker)
    else match Transition(db, t, target, result, delay, worker, now)
      case Err(e) => Err(e)
      case Ok(moved) => Ok(RecomputeAll(moved, {j}, now))
  }

  // ---------------------------------------------------------------- results

  ghost function UpsertId(results: map<Id, EvalResult>, t: Id, newId: Id): Id {
    if exists r :: r in ResultsFor(results, t) then (var r :| r in ResultsFor(results, t); r) else newId
  }

  /** Insert, or on a conflict of `ticketId` overwrite the row that is there, keeping its id and job. */
  ghost function Upsert(results: map<Id, EvalResult>, row: EvalResult, newId: Id): map<Id, EvalResult> {
    var r := UpsertId(results, row.ticketId, newId);
    results[r := if r in results && results[r].ticketId == row.ticketId
                 then results[r].(verdict := row.verdict, attemptCount := row.attemptCount) else row]
  }

  /** What a worker remembers of a ticket it claimed. */
  datatype ClaimCopy = ClaimCopy(ticketId: Id, jobId: Id, attemptCount: nat, maxAttempts: nat)

  predicate RecordsResult(target: TicketStatus) {
    target == Done || target == NotApplicable || target == Failed
  }

  /** One settlement transaction: cancellation wins, else the result is written and the ticket moved. */
  ghost function PersistOnce(db: Db, c: ClaimCopy, verdict: Verdict, target: TicketStatus, delay: nat, newId: Id,
                             worker: Worker, now: int): Outcome<Db, SettleError> {
    if c.ticketId !in db.tickets then Ok(db)
    else if CancelRequested(db, c.jobId) && target != Cancelled then
      Settle(db, c.ticketId, Cancelled, None, 0, c.jobId, worker, now)
    else if RecordsResult(target) then
      var row := EvalResult(c.jobId, c.ticketId, verdict, c.attemptCount);
      Settle(db.(results := Upsert(db.results, row, newId)), c.ticketId, target,
             Some(UpsertId(db.results, c.ticketId, newId)), delay, c.jobId, worker, now)
    else Settle(db, c.ticketId, target, None, delay, c.jobId, worker, now)
  }

  /** The target of a verdict: an evaluator error is retried while the remembered attempt allows. */
  function VerdictTarget(c: ClaimCopy, verdict: Verdict): TicketStatus {
    match verdict
    case VerdictError => if c.attemptCount < c.maxAttempts then Retry else Failed
    case VerdictNotApplicable => NotApplicable
    case _ => Done
  }

  predicate GetsAnotherAttempt(c: ClaimCopy, cls: ErrorClass) {
    cls == Transient && c.attemptCount < c.maxAttempts
  }

  /** Failure handling: a transient error with attempts left is settled without reading cancellation. */
  ghost function HandleFailure(db: Db, c: ClaimCopy, cls: ErrorClass, delay: nat, newId: Id, worker: Worker,
                               now: int): Outcome<Db, SettleError> {
    if cls == MissingContext then PersistOnce(db, c, VerdictFailed, Failed, 0, newId, worker, now)
    else if GetsAnotherAttempt(c, cls) then
      if c.ticketId !in db.tickets then Ok(db)
      else Settle(db, c.ticketId, Retry, None, delay, c.jobId, worker, now)
    else PersistOnce(db, c, VerdictError, Failed, 0, newId, worker, now)
  }

  /** The worker saw the cancellation when it loaded the job. */
  function SettleCancelled(db: Db, c: ClaimCopy, worker: Worker, now: int): Outcome<Db, SettleError> {
    if c.ticketId !in db.tickets then Ok(db)
    else Settle(db, c.ticketId, Cancelled, None, 0, c.jobId, worker, now)
  }

  function ExtendLease(db: Db, t: Id, worker: Worker, lease: nat, now: int): Db {
    if Owns(db, t, worker) then
      db.(tickets := db.tickets[t := db.tickets[t].(leaseExpiresAt := Some(now + lease))])
    else db
  }

  // ---------------------------------------------------------------- sweeps and operator calls

  predicate LeaseExpired(t: Ticket, now: int) {
    t.status == Running && t.leaseExpiresAt.Some? && t.leaseExpiresAt.value < now
  }

  function ExpiredTickets(db: Db, now: int): set<Id> {
    set t | t in db.tickets && db.tickets[t].jobId in db.jobs && LeaseExpired(db.tickets[t], now)
  }

  function ExpiredCancelledTickets(db: Db, now: int): set<Id> {
    set t | t in db.tickets && CancelRequested(db, db.tickets[t].jobId) && LeaseExpired(db.tickets[t], now)
  }

  function RecoveredTicket(t: Ticket, cancelRequested: bool, jitter: nat, now: int): Ticket {
    var exhausted := t.attemptCount >= t.maxAttempts;
    t.(status := if cancelRequested then Cancelled else if exhausted then Failed else Retry,
       availableAt := if !cancelRequested && !exhausted then now + jitter else now,
       workerId := None,
       leaseExpiresAt := None,
       completedAt := if cancelRequested || exhausted then Some(now) else t.completedAt)
  }

  function RecoverExpired(db: Db, picked: set<Id>, jitter: map<Id, nat>, now: int): Db {
    db.(tickets := map t | t in db.tickets ::
          if t in picked
          then RecoveredTicket(db.tickets[t], CancelRequested(db, db.tickets[t].jobId),
                               if t in jitter then jitter[t] else 0, now)
          else db.tickets[t])
  }

  function CancelledTicket(t: Ticket, now: int): Ticket {
    t.(status := Cancelled, completedAt := Some(now), leaseExpiresAt := None)
  }

  function CancelRows(db: Db, picked: set<Id>, now: int): Db {
    db.(tickets := map t | t in db.tickets ::
          if t in picked then CancelledTicket(db.tickets[t], now) else db.tickets[t])
  }

  function Recover(db: Db, expired: set<Id>, abandoned: set<Id>, jitter: map<Id, nat>, now: int): Db {
    var swept := CancelRows(RecoverExpired(db, expired, jitter, now), abandoned, now);
    RecomputeAll(swept, JobsOf(db.tickets, expired + abandoned), now)
  }

  function UnclaimedTickets(db: Db, j: Id): set<Id> {
    TicketsWith(db.tickets, j, Ready) + TicketsWith(db.tickets, j, Retry)
  }

  function RequestCancellation(jobs: map<Id, Job>, j: Id, now: int): map<Id, Job>
    requires j in jobs
  {
    jobs[j := jobs[j].(cancelRequestedAt :=
                         if jobs[j].cancelRequestedAt.Some? then jobs[j].cancelRequestedAt else Some(now))]
  }

  function CancelJob(db: Db, j: Id, now: int): Outcome<Db, ApiError> {
    if j !in db.jobs then Err(JobNotFound)
    else if IsTerminalJob(db.jobs[j].status) && db.jobs[j].status != JobCancelled then Err(Conflict)
    else
      var requested := db.(jobs := RequestCancellation(db.jobs, j, now));
      Ok(RecomputeAll(CancelRows(requested, UnclaimedTickets(requested, j), now), {j}, now))
  }

  function ResetTicket(t: Ticket, now: int): Ticket {
    t.(status := Ready, attemptCount := 0, availableAt := now, workerId := None, completedAt := None,
       leaseExpiresAt := None, resultId := None)
  }

  function ResetFailed(db: Db, j: Id, now: int): Db {
    db.(tickets := map t | t in db.tickets ::
          if t in TicketsWith(db.tickets, j, Failed) then ResetTicket(db.tickets[t], now) else db.tickets[t])
  }

  function RetryFailed(db: Db, j: Id, now: int): Outcome<Db, ApiError> {
    if j !in db.jobs then Err(JobNotFound)
    else if db.jobs[j].cancelRequestedAt.Some? then Err(Conflict)
    else if TicketsWith(db.tickets, j, Failed) == {} then Err(Conflict)
    else Ok(RecomputeAll(ResetFailed(db, j, now), {j}, now))
  }

  function ActiveJobs(db: Db): set<Id> {
    set t | t in db.tickets && !IsTerminal(db.tickets[t].status) :: db.tickets[t].jobId
  }

  function Reconcile(db: Db, now: int): Db {
    RecomputeAll(db, ActiveJobs(db), now)
  }

  // ---------------------------------------------------------------- creation

  datatype TicketSpec = TicketSpec(priority: int, maxAttempts: nat)

  function NewTicket(j: Id, spec: TicketSpec, now: int): Ticket {
    Ticket(j, Ready, spec.priority, now, 0, spec.maxAttempts, now, None, None, None, None)
  }

  function NewTickets(j: Id, specs: map<Id, TicketSpec>, now: int): map<Id, Ticket> {
    map t | t in specs :: NewTicket(j, specs[t], now)
  }

  function InsertJob(db: Db, j: Id, specs: map<Id, TicketSpec>, now: int): Db {
    Db(db.jobs[j := Job(JobReady, |specs|, 0, 0, 0, 0, None, None, None)],
       db.tickets + NewTickets(j, specs, now),
       db.results)
  }
}
