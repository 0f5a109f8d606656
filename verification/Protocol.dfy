/**
 The queue as a transition system. A world is the tables, the clock and the executions that
 workers have in flight; an action is one committed transaction or one local step of a worker.
 Deadlocks, crashes, evaluator outcomes, skipped locks and lease expiry are choices of the action.
 */
module Protocol {
  import opened Options
  import opened Lifecycle
  import opened Tables
  import opened QueueSpec

  datatype Phase = Loading | Evaluating | Cancelling | Handling(cls: ErrorClass)

  datatype Execution = Execution(worker: Worker, copy: ClaimCopy, phase: Phase)

  datatype World = World(db: Db, now: int, execs: map<Id, Execution>)

  const INITIAL := World(Db(map[], map[], map[]), 0, map[])

  datatype Action =
    | CreateJob(j: Id, specs: map<Id, TicketSpec>)
    | Tick(elapsed: nat)
    | ClaimTickets(worker: Worker, filter: Option<Id>, rows: seq<Id>, locked: set<Id>, limit: nat,
                   lockedJobs: set<Id>, lease: nat, base: Id)
    | Heartbeat(beater: Worker, t: Id, extension: nat)
    | LoadState(e: Id)
    | PersistVerdict(e: Id, verdict: Verdict, delay: nat, newId: Id)
    | RaiseError(e: Id, cls: ErrorClass)
    | HandleError(e: Id, delay: nat, newId: Id)
    | SettleAsCancelled(e: Id)
    | Crash(e: Id)
    | RecoverLeases(expired: set<Id>, abandoned: set<Id>, jitter: map<Id, nat>)
    | RequestCancel(j: Id)
    | RequestRetry(j: Id)
    | ReconcileJobs

  ghost predicate Enabled(w: World, a: Action) {
    match a
    case CreateJob(j, specs) =>
      && j !in w.db.jobs && specs.Keys !! w.db.tickets.Keys && specs != map[]
      && (forall t :: t in specs ==> specs[t].maxAttempts >= 1)
    case Tick(_) => true
    case ClaimTickets(worker, filter, rows, locked, limit, lockedJobs, lease, base) =>
      && worker != ""
      && IsOrdered(w.db.tickets, EligibleTickets(w.db, w.now, filter), rows, Outranks)
      && (forall e :: e in w.execs ==> e < base)
    case Heartbeat(_, _, _) => true
    case LoadState(e) => e in w.execs && w.execs[e].phase == Loading
    case PersistVerdict(e, _, _, newId) =>
      e in w.execs && w.execs[e].phase == Evaluating && newId !in w.db.results
    case RaiseError(e, _) => e in w.execs && (w.execs[e].phase == Loading || w.execs[e].phase == Evaluating)
    case HandleError(e, _, newId) => e in w.execs && w.execs[e].phase.Handling? && newId !in w.db.results
    case SettleAsCancelled(e) => e in w.execs && w.execs[e].phase == Cancelling
    case Crash(e) => e in w.execs
    case RecoverLeases(expired, abandoned, jitter) =>
      && expired <= ExpiredTickets(w.db, w.now)
      && abandoned <= ExpiredCancelledTickets(RecoverExpired(w.db, expired, jitter, w.now), w.now)
    case RequestCancel(_) => true
    case RequestRetry(_) => true
    case ReconcileJobs => true
  }

  ghost function Taken(w: World, a: Action): seq<Id> {
    if a.ClaimTickets? then
      var taken := TakeUnlocked(a.rows, a.locked, a.limit);
      if ClaimAborts(w.db.tickets, Elements(taken)) then [] else taken
    else []
  }

  function Elements(s: seq<Id>): set<Id> {
    set x | x in s
  }

  /** The settlement an action attempts, if it attempts one. */
  ghost function Attempted(w: World, a: Action): Option<Outcome<Db, SettleError>>
    requires Enabled(w, a)
  {
    match a
    case PersistVerdict(e, verdict, delay, newId) =>
      var x := w.execs[e];
      Some(PersistOnce(w.db, x.copy, verdict, VerdictTarget(x.copy, verdict), delay, newId, x.worker, w.now))
    case HandleError(e, delay, newId) =>
      var x := w.execs[e];
      Some(HandleFailure(w.db, x.copy, x.phase.cls, delay, newId, x.worker, w.now))
    case SettleAsCancelled(e) =>
      var x := w.execs[e];
      Some(SettleCancelled(w.db, x.copy, x.worker, w.now))
    case _ => None
  }

  /** A refused settlement is rolled back: the tables stay as they were. */
  function Committed(db: Db, attempt: Outcome<Db, SettleError>): Db {
    match attempt
    case Ok(next) => next
    case Err(_) => db
  }

  ghost function Apply(w: World, a: Action): World
    requires Enabled(w, a)
  {
    match a
    case CreateJob(j, specs) => w.(db := InsertJob(w.db, j, specs, w.now))
    case Tick(elapsed) => w.(now := w.now + elapsed)
    case ClaimTickets(worker, filter, rows, locked, limit, lockedJobs, lease, base) =>
      var taken := Taken(w, a);
      var db := Claim(w.db, Elements(taken), lockedJobs, worker, lease, w.now);
      World(db, w.now, w.execs + NewExecutions(db.tickets, taken, worker, base))
    case Heartbeat(beater, t, extension) => w.(db := ExtendLease(w.db, t, beater, extension, w.now))
    case LoadState(e) =>
      var x := w.execs[e];
      var seen := CancelRequested(w.db, x.copy.jobId)
                  || (x.copy.jobId in w.db.jobs && w.db.jobs[x.copy.jobId].status == JobCancelled);
      var phase := if x.copy.jobId !in w.db.jobs then Handling(Permanent)
                   else if seen then Cancelling else Evaluating;
      w.(execs := w.execs[e := x.(phase := phase)])
    case PersistVerdict(e, verdict, delay, newId) =>
      var attempt := Attempted(w, a).value;
      World(Committed(w.db, attempt), w.now,
            if attempt.Ok? || attempt.error == StaleWorker then w.execs - {e}
            else
              var cls := if attempt.error == TicketNotFound then Permanent else Transient;
              w.execs[e := w.execs[e].(phase := Handling(cls))])
    case RaiseError(e, cls) => w.(execs := w.execs[e := w.execs[e].(phase := Handling(cls))])
    case HandleError(e, _, _) =>
      World(Committed(w.db, Attempted(w, a).value), w.now, w.execs - {e})
    case SettleAsCancelled(e) =>
      World(Committed(w.db, Attempted(w, a).value), w.now, w.execs - {e})
    case Crash(e) => w.(execs := w.execs - {e})
    case RecoverLeases(expired, abandoned, jitter) =>
      w.(db := Recover(w.db, expired, abandoned, jitter, w.now))
    case RequestCancel(j) =>
      var answer := CancelJob(w.db, j, w.now);
      if answer.Ok? then w.(db := answer.value) else w
    case RequestRetry(j) =>
      var answer := RetryFailed(w.db, j, w.now);
      if answer.Ok? then w.(db := answer.value) else w
    case ReconcileJobs => w.(db := Reconcile(w.db, w.now))
  }

  /** Claimed ticket number `e - base`, when there is one. */
  function BatchTicket(taken: seq<Id>, base: Id, e: Id): Option<Id> {
    if base <= e < base + |taken| then Some(taken[e - base]) else None
  }

  function NewExecution(tickets: map<Id, Ticket>, t: Id, worker: Worker): Execution
    requires t in tickets
  {
    Execution(worker, ClaimCopy(t, tickets[t].jobId, tickets[t].attemptCount, tickets[t].maxAttempts), Loading)
  }

  function NewExecutions(tickets: map<Id, Ticket>, taken: seq<Id>, worker: Worker, base: Id): map<Id, Execution> {
    map e: Id | base <= e < base + |taken| && BatchTicket(taken, base, e).Some?
                && BatchTicket(taken, base, e).value in tickets ::
      NewExecution(tickets, BatchTicket(taken, base, e).value, worker)
  }

  // ---------------------------------------------------------------- runs

  ghost predicate ValidRun(w: World, run: seq<Action>)
    decreases |run|
  {
    run == [] || (Enabled(w, run[0]) && ValidRun(Apply(w, run[0]), run[1..]))
  }

  ghost function After(w: World, run: seq<Action>): World
    requires ValidRun(w, run)
    decreases |run|
  {
    if run == [] then w else After(Apply(w, run[0]), run[1..])
  }
}
