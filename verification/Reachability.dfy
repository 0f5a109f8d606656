/** The invariant of worlds, kept by every action and so by every run. */
module Reachability {
  import opened Options
  import opened Lifecycle
  import opened Tables
  import opened QueueSpec
  import opened Invariants
  import opened Preservation
  import opened Protocol

  ghost predicate ExecutionsOk(w: World) {
    forall e :: e in w.execs ==> ExecutionOk(w.db, w.execs[e])
  }

  predicate ExecutionOk(db: Db, x: Execution) {
    && CopyFits(db, x.copy)
    && x.worker != ""
    && (x.phase == Cancelling ==> CancelRequested(db, x.copy.jobId))
  }

  ghost predicate WorldInv(w: World) {
    DbInv(w.db) && ExecutionsOk(w)
  }

  // ---------------------------------------------------------------- moves

  /** One step of a ticket: its fixed columns stay, its status stays or moves along the table. */
  predicate TicketStep(before: Ticket, after: Ticket) {
    && after.jobId == before.jobId && after.maxAttempts == before.maxAttempts
    && after.priority == before.priority && after.createdAt == before.createdAt
    && (after.status == before.status || Allowed(before.status, after.status))
  }

  ghost predicate DbStep(before: Db, after: Db) {
    && before.jobs.Keys <= after.jobs.Keys
    && (forall t :: t in before.tickets ==> t in after.tickets && TicketStep(before.tickets[t], after.tickets[t]))
    && (forall j :: CancelRequested(before, j) ==> CancelRequested(after, j))
  }

  lemma SettleMoves(db: Db, t: Id, target: TicketStatus, result: Option<Id>, delay: nat, j: Id, worker: Worker,
                    now: int)
    ensures var r := Settle(db, t, target, result, delay, j, worker, now);
            r.Ok? ==> DbStep(db, r.value)
  {
    SettleCommitsIffOwner(db, t, target, result, delay, j, worker, now);
  }

  lemma PersistMoves(db: Db, c: ClaimCopy, verdict: Verdict, target: TicketStatus, delay: nat, newId: Id,
                     worker: Worker, now: int)
    ensures var r := PersistOnce(db, c, verdict, target, delay, newId, worker, now);
            r.Ok? ==> DbStep(db, r.value)
  {
    var row := EvalResult(c.jobId, c.ticketId, verdict, c.attemptCount);
    SettleMoves(db, c.ticketId, Cancelled, None, 0, c.jobId, worker, now);
    SettleMoves(db, c.ticketId, target, None, delay, c.jobId, worker, now);
    SettleMoves(db.(results := Upsert(db.results, row, newId)), c.ticketId, target,
                Some(UpsertId(db.results, c.ticketId, newId)), delay, c.jobId, worker, now);
  }

  lemma AttemptMoves(w: World, a: Action)
    requires Enabled(w, a) && Attempted(w, a).Some?
    ensures DbStep(w.db, Committed(w.db, Attempted(w, a).value))
  {
    match a
    case PersistVerdict(e, verdict, delay, newId) =>
      var x := w.execs[e];
      PersistMoves(w.db, x.copy, verdict, VerdictTarget(x.copy, verdict), delay, newId, x.worker, w.now);
    case HandleError(e, delay, newId) =>
      var x := w.execs[e];
      PersistMoves(w.db, x.copy, VerdictFailed, Failed, 0, newId, x.worker, w.now);
      PersistMoves(w.db, x.copy, VerdictError, Failed, 0, newId, x.worker, w.now);
      SettleMoves(w.db, x.copy.ticketId, Retry, None, delay, x.copy.jobId, x.worker, w.now);
    case SettleAsCancelled(e) =>
      var x := w.execs[e];
      SettleMoves(w.db, x.copy.ticketId, Cancelled, None, 0, x.copy.jobId, x.worker, w.now);
  }

  /** Rows that a claim takes are eligible, whatever locks it skipped. */
  lemma TakenAreListed(rows: seq<Id>, locked: set<Id>, limit: nat)
    ensures forall t :: t in TakeUnlocked(rows, locked, limit) ==> t in rows && t !in locked
  {
  }

  lemma TakenAreEligible(w: World, a: Action)
    requires a.ClaimTickets? && Enabled(w, a)
    ensures forall t :: t in Elements(Taken(w, a)) ==> Eligible(w.db, t, w.now, a.filter)
    ensures !ClaimAborts(w.db.tickets, Elements(Taken(w, a)))
  {
    TakenAreListed(a.rows, a.locked, a.limit);
    forall t | t in Elements(Taken(w, a))
      ensures Eligible(w.db, t, w.now, a.filter)
    {
      assert t in EligibleTickets(w.db, w.now, a.filter);
    }
  }

  lemma ClaimMoves(db: Db, taken: set<Id>, lockedJobs: set<Id>, worker: Worker, lease: nat, now: int,
                   filter: Option<Id>)
    requires forall t :: t in taken ==> Eligible(db, t, now, filter)
    ensures DbStep(db, Claim(db, taken, lockedJobs, worker, lease, now))
  {
  }

  lemma RecoverMoves(db: Db, expired: set<Id>, abandoned: set<Id>, jitter: map<Id, nat>, now: int)
    requires expired <= ExpiredTickets(db, now)
    requires abandoned <= ExpiredCancelledTickets(RecoverExpired(db, expired, jitter, now), now)
    ensures DbStep(db, Recover(db, expired, abandoned, jitter, now))
  {
    forall t | t in db.tickets
      ensures t in Recover(db, expired, abandoned, jitter, now).tickets
      ensures TicketStep(db.tickets[t], Recover(db, expired, abandoned, jitter, now).tickets[t])
    {
      SweepMoves(db, expired, abandoned, jitter, now, t);
    }
  }

  lemma SweepMoves(db: Db, expired: set<Id>, abandoned: set<Id>, jitter: map<Id, nat>, now: int, t: Id)
    requires t in db.tickets && (t in expired ==> LeaseExpired(db.tickets[t], now))
    requires t in abandoned ==> t in ExpiredCancelledTickets(RecoverExpired(db, expired, jitter, now), now)
    ensures t in CancelRows(RecoverExpired(db, expired, jitter, now), abandoned, now).tickets
    ensures TicketStep(db.tickets[t], CancelRows(RecoverExpired(db, expired, jitter, now), abandoned, now).tickets[t])
  {
  }

  lemma CancelJobMoves(db: Db, j: Id, now: int)
    ensures CancelJob(db, j, now).Ok? ==> DbStep(db, CancelJob(db, j, now).value)
  {
    if CancelJob(db, j, now).Ok? {
      var requested := db.(jobs := RequestCancellation(db.jobs, j, now));
      CancelRowsMoves(db, requested, UnclaimedTickets(requested, j), now);
      RecomputeFrame(CancelRows(requested, UnclaimedTickets(requested, j), now), {j}, now);
    }
  }

  lemma CancelRowsMoves(db: Db, requested: Db, picked: set<Id>, now: int)
    requires requested.tickets == db.tickets && db.jobs.Keys == requested.jobs.Keys
    requires forall k :: CancelRequested(db, k) ==> CancelRequested(requested, k)
    requires forall t :: t in picked ==> t in db.tickets && IsPending(db.tickets[t].status)
    ensures DbStep(db, CancelRows(requested, picked, now))
    ensures CancelRows(requested, picked, now).jobs == requested.jobs
  {
  }

  lemma RetryFailedMoves(db: Db, j: Id, now: int)
    ensures RetryFailed(db, j, now).Ok? ==> DbStep(db, RetryFailed(db, j, now).value)
  {
  }

  lemma InsertMoves(db: Db, j: Id, specs: map<Id, TicketSpec>, now: int)
    requires j !in db.jobs && specs.Keys !! db.tickets.Keys
    ensures DbStep(db, InsertJob(db, j, specs, now))
  {
  }

  /** Every action, the bulk updates included, moves tickets only along the transition table. */
  lemma EveryActionFollowsTheTable(w: World, a: Action)
    requires Enabled(w, a)
    ensures DbStep(w.db, Apply(w, a).db)
  {
    match a
    case CreateJob(j, specs) => InsertMoves(w.db, j, specs, w.now);
    case ClaimTickets(worker, filter, rows, locked, limit, lockedJobs, lease, base) =>
      TakenAreEligible(w, a);
      ClaimMoves(w.db, Elements(Taken(w, a)), lockedJobs, worker, lease, w.now, filter);
    case PersistVerdict(_, _, _, _) => AttemptMoves(w, a);
    case HandleError(_, _, _) => AttemptMoves(w, a);
    case SettleAsCancelled(_) => AttemptMoves(w, a);
    case RecoverLeases(expired, abandoned, jitter) => RecoverMoves(w.db, expired, abandoned, jitter, w.now);
    case RequestCancel(j) => CancelJobMoves(w.db, j, w.now);
    case RequestRetry(j) => RetryFailedMoves(w.db, j, w.now);
    case _ =>
  }

  // ---------------------------------------------------------------- the invariant

  lemma CommittedKeeps(db: Db, r: Outcome<Db, SettleError>)
    requires DbInv(db) && (r.Ok? ==> DbInv(r.value))
    ensures DbInv(Committed(db, r))
  {
  }

  lemma TargetFitsVerdict(c: ClaimCopy, verdict: Verdict)
    ensures VerdictTarget(c, verdict) == Retry || VerdictFits(VerdictTarget(c, verdict), verdict)
  {
  }

  lemma VerdictKeeps(w: World, x: Execution, verdict: Verdict, delay: nat, newId: Id)
    requires DbInv(w.db) && ExecutionOk(w.db, x) && newId !in w.db.results
    ensures DbInv(Committed(w.db, PersistOnce(w.db, x.copy, verdict, VerdictTarget(x.copy, verdict), delay, newId,
                                              x.worker, w.now)))
  {
    var target := VerdictTarget(x.copy, verdict);
    var r := PersistOnce(w.db, x.copy, verdict, target, delay, newId, x.worker, w.now);
    TargetFitsVerdict(x.copy, verdict);
    PersistKeeps(w.db, x.copy, verdict, target, delay, newId, x.worker, w.now, r);
    CommittedKeeps(w.db, r);
  }

  lemma AttemptKeeps(w: World, a: Action)
    requires WorldInv(w) && Enabled(w, a) && Attempted(w, a).Some?
    ensures DbInv(Committed(w.db, Attempted(w, a).value))
  {
    match a
    case PersistVerdict(e, verdict, delay, newId) =>
      assert ExecutionOk(w.db, w.execs[e]);
      VerdictKeeps(w, w.execs[e], verdict, delay, newId);
    case HandleError(e, delay, newId) =>
      var x := w.execs[e];
      assert ExecutionOk(w.db, x);
      HandleFailureKeeps(w.db, x.copy, x.phase.cls, delay, newId, x.worker, w.now);
    case SettleAsCancelled(e) =>
      var x := w.execs[e];
      assert ExecutionOk(w.db, x);
      SettleCancelledKeeps(w.db, x.copy, x.worker, w.now, Attempted(w, a).value);
  }

  lemma TablesKeepInv(w: World, a: Action)
    requires WorldInv(w) && Enabled(w, a)
    ensures DbInv(Apply(w, a).db)
  {
    match a
    case CreateJob(j, specs) => InsertKeeps(w.db, j, specs, w.now);
    case ClaimTickets(worker, filter, rows, locked, limit, lockedJobs, lease, base) =>
      TakenAreEligible(w, a);
      ClaimKeeps(w.db, Elements(Taken(w, a)), lockedJobs, worker, lease, w.now, filter);
    case Heartbeat(beater, t, extension) => ExtendLeaseKeeps(w.db, t, beater, extension, w.now);
    case PersistVerdict(_, _, _, _) => AttemptKeeps(w, a);
    case HandleError(_, _, _) => AttemptKeeps(w, a);
    case SettleAsCancelled(_) => AttemptKeeps(w, a);
    case RecoverLeases(expired, abandoned, jitter) => RecoverKeeps(w.db, expired, abandoned, jitter, w.now);
    case RequestCancel(j) => CancelJobKeeps(w.db, j, w.now);
    case RequestRetry(j) => RetryFailedKeeps(w.db, j, w.now);
    case ReconcileJobs => ReconcileKeeps(w.db, w.now);
    case _ =>
  }

  /** A job shown as CANCELLED had its cancellation requested. */
  lemma CancelledStatusMeansRequested(db: Db, j: Id)
    requires CancelOk(db) && j in db.jobs && StatusAgrees(db.jobs[j], db.tickets, j)
    requires db.jobs[j].status == JobCancelled
    ensures CancelRequested(db, j)
  {
    var t :| t in db.tickets && db.tickets[t].jobId == j && db.tickets[t].status == Cancelled;
    assert CancelRequested(db, db.tickets[t].jobId);
  }

  lemma ExecutionSurvives(before: Db, after: Db, x: Execution)
    requires ExecutionOk(before, x) && DbStep(before, after)
    ensures ExecutionOk(after, x)
  {
  }

  /** An execution turns to settling a cancellation only after it read one. */
  lemma LoadSeesRequest(w: World, e: Id)
    requires WorldInv(w) && Enabled(w, LoadState(e))
    ensures ExecutionOk(w.db, Apply(w, LoadState(e)).execs[e])
  {
    var x := w.execs[e];
    assert ExecutionOk(w.db, x);
    if x.copy.jobId in w.db.jobs && w.db.jobs[x.copy.jobId].status == JobCancelled {
      assert JobAgrees(w.db.jobs[x.copy.jobId], w.db.tickets, x.copy.jobId);
      CancelledStatusMeansRequested(w.db, x.copy.jobId);
    }
  }

  lemma OldExecutionOk(w: World, a: Action, e: Id)
    requires Enabled(w, a) && e in w.execs && e in Apply(w, a).execs && a != LoadState(e)
    requires ExecutionOk(w.db, w.execs[e])
    ensures ExecutionOk(w.db, Apply(w, a).execs[e])
  {
  }

  lemma NewExecutionOk(w: World, a: Action, e: Id)
    requires Enabled(w, a) && e !in w.execs && e in Apply(w, a).execs
    ensures ExecutionOk(Apply(w, a).db, Apply(w, a).execs[e])
  {
    assert a.ClaimTickets?;
  }

  lemma ExecutionsKeepInv(w: World, a: Action)
    requires WorldInv(w) && Enabled(w, a)
    ensures ExecutionsOk(Apply(w, a))
  {
    EveryActionFollowsTheTable(w, a);
    var next := Apply(w, a);
    forall e | e in next.execs
      ensures ExecutionOk(next.db, next.execs[e])
    {
      if e in w.execs {
        assert ExecutionOk(w.db, w.execs[e]);
        if a == LoadState(e) {
          LoadSeesRequest(w, e);
        } else {
          OldExecutionOk(w, a, e);
        }
        ExecutionSurvives(w.db, next.db, next.execs[e]);
      } else {
        NewExecutionOk(w, a, e);
      }
    }
  }

  lemma StepKeepsInv(w: World, a: Action)
    requires WorldInv(w) && Enabled(w, a)
    ensures WorldInv(Apply(w, a))
  {
    TablesKeepInv(w, a);
    ExecutionsKeepInv(w, a);
  }

  /** Every world a run can reach satisfies the invariant. */
  lemma {:induction false} RunKeepsInv(w: World, run: seq<Action>)
    requires WorldInv(w) && ValidRun(w, run)
    ensures WorldInv(After(w, run))
    decreases |run|
  {
    if run != [] {
      StepKeepsInv(w, run[0]);
      RunKeepsInv(Apply(w, run[0]), run[1..]);
    }
  }

  lemma ReachableInv(run: seq<Action>)
    requires ValidRun(INITIAL, run)
    ensures WorldInv(After(INITIAL, run))
  {
    RunKeepsInv(INITIAL, run);
  }
}
