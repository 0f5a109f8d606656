/** What can still happen to a job once its cancellation has been requested. */
module Cancellation {
  import opened Options
  import opened Lifecycle
  import opened Tables
  import opened QueueSpec
  import opened Invariants
  import opened Preservation
  import opened Protocol
  import opened Reachability
  import opened Fencing

  /** The only moves left: RUNNING to RETRY or CANCELLED, and RETRY to CANCELLED. */
  predicate CancelPath(before: TicketStatus, after: TicketStatus) {
    || after == before
    || (before == Running && (after == Retry || after == Cancelled))
    || (before == Retry && after == Cancelled)
  }

  function ResultsOfJob(results: map<Id, EvalResult>, j: Id): map<Id, EvalResult> {
    map r | r in results && results[r].jobId == j :: results[r]
  }

  /** The tickets of job `j` moved along the cancel path and its results are the same rows. */
  ghost predicate WindsDown(before: Db, after: Db, j: Id) {
    && (forall t :: t in before.tickets && before.tickets[t].jobId == j ==>
          t in after.tickets && after.tickets[t].jobId == j
          && CancelPath(before.tickets[t].status, after.tickets[t].status))
    && ResultsOfJob(after.results, j) == ResultsOfJob(before.results, j)
    && (CancelRequested(before, j) ==> CancelRequested(after, j))
  }

  lemma WindDownComposes(a: Db, b: Db, c: Db, j: Id)
    requires WindsDown(a, b, j) && WindsDown(b, c, j)
    ensures WindsDown(a, c, j)
  {
  }

  // ---------------------------------------------------------------- settlements

  /** The execution handles a transient error and remembers an attempt left; this branch reads no cancellation. */
  predicate RetriesDirectly(a: Action, x: Execution) {
    a.HandleError? && x.phase.Handling? && GetsAnotherAttempt(x.copy, x.phase.cls)
  }

  /**
   A settlement in a cancelled job writes no result and ends in CANCELLED, except that a transient error
   with a remembered attempt left ends in RETRY.
   */
  lemma CancelledSettlement(w: World, a: Action)
    requires Enabled(w, a) && Settles(w, a) && Attempted(w, a).Some? && Attempted(w, a).value.Ok?
    requires ExecutionOk(w.db, Settler(w, a)) && CancelRequested(w.db, Settler(w, a).copy.jobId)
    ensures var t := Settler(w, a).copy.ticketId;
            var next := Attempted(w, a).value.value;
            && next.results == w.db.results && t in next.tickets
            && (next.tickets[t].status == Cancelled || next.tickets[t].status == Retry)
            && (next.tickets[t].status == Retry <==> RetriesDirectly(a, Settler(w, a)))
  {
    var x := Settler(w, a);
    match a
    case PersistVerdict(e, verdict, delay, newId) =>
      PersistTouchesOnly(w.db, x.copy, verdict, VerdictTarget(x.copy, verdict), delay, newId, x.worker, w.now);
    case HandleError(e, delay, newId) =>
      PersistTouchesOnly(w.db, x.copy, VerdictFailed, Failed, 0, newId, x.worker, w.now);
      PersistTouchesOnly(w.db, x.copy, VerdictError, Failed, 0, newId, x.worker, w.now);
      SettleTouchesOnly(w.db, w.db.results, x.copy.ticketId, Retry, None, delay, x.copy.jobId, x.worker, w.now);
      assert w.db.(results := w.db.results) == w.db;
    case SettleAsCancelled(e) =>
      SettleTouchesOnly(w.db, w.db.results, x.copy.ticketId, Cancelled, None, 0, x.copy.jobId, x.worker, w.now);
      assert w.db.(results := w.db.results) == w.db;
  }

  /** Ending the claim of another job's ticket leaves this job's tickets and results alone. */
  lemma OtherJobsClaim(before: Db, after: Db, t: Id, j: Id)
    requires EndsClaim(before, after, t) && t in before.tickets && before.tickets[t].jobId != j
    requires ResultsOk(before) && ResultsOk(after) && after.tickets[t].jobId == before.tickets[t].jobId
    requires CancelRequested(before, j) ==> CancelRequested(after, j)
    ensures WindsDown(before, after, j)
  {
    var old', new' := ResultsOfJob(before.results, j), ResultsOfJob(after.results, j);
    forall r | r in new'
      ensures r in old' && old'[r] == new'[r]
    {
      assert after.results[r].ticketId != t;
    }
    assert old'.Keys == new'.Keys;
  }

  /** Ending the claim of this job's own ticket, without a result, stays on the cancel path. */
  lemma OwnJobsClaim(before: Db, after: Db, t: Id, j: Id)
    requires EndsClaim(before, after, t) && after.results == before.results
    requires t in before.tickets && before.tickets[t].status == Running
             && after.tickets[t].jobId == before.tickets[t].jobId
    requires after.tickets[t].status == Cancelled || after.tickets[t].status == Retry
    requires CancelRequested(before, j) ==> CancelRequested(after, j)
    ensures WindsDown(before, after, j)
  {
  }

  lemma SettlementWindsDown(w: World, a: Action, j: Id)
    requires WorldInv(w) && Enabled(w, a) && Settles(w, a) && CancelRequested(w.db, j)
    ensures WindsDown(w.db, Apply(w, a).db, j)
  {
    var x := Settler(w, a);
    assert ExecutionOk(w.db, x);
    SettlementCommitsIffOwner(w, a);
    if OwnsItsTicket(w.db, x) {
      EveryActionFollowsTheTable(w, a);
      SettlementTouchesOnlyItsTicket(w, a);
      if x.copy.jobId == j {
        CancelledSettlement(w, a);
        OwnJobsClaim(w.db, Apply(w, a).db, x.copy.ticketId, j);
      } else {
        TablesKeepInv(w, a);
        OtherJobsClaim(w.db, Apply(w, a).db, x.copy.ticketId, j);
      }
    } else {
      OutsidersChangeNothing(w, a);
    }
  }

  // ---------------------------------------------------------------- every other action

  lemma ClaimWindsDown(w: World, a: Action, j: Id)
    requires a.ClaimTickets? && Enabled(w, a) && CancelRequested(w.db, j)
    ensures WindsDown(w.db, Apply(w, a).db, j)
  {
    TakenAreEligible(w, a);
  }

  lemma RecoverWindsDown(db: Db, expired: set<Id>, abandoned: set<Id>, jitter: map<Id, nat>, now: int, j: Id)
    requires expired <= ExpiredTickets(db, now) && CancelRequested(db, j)
    requires abandoned <= ExpiredCancelledTickets(RecoverExpired(db, expired, jitter, now), now)
    ensures WindsDown(db, Recover(db, expired, abandoned, jitter, now), j)
  {
    var next := Recover(db, expired, abandoned, jitter, now);
    forall t | t in db.tickets && db.tickets[t].jobId == j
      ensures t in next.tickets && next.tickets[t].jobId == j
      ensures CancelPath(db.tickets[t].status, next.tickets[t].status)
    {
      SweptPath(db, expired, abandoned, jitter, now, t);
    }
  }

  lemma SweptPath(db: Db, expired: set<Id>, abandoned: set<Id>, jitter: map<Id, nat>, now: int, t: Id)
    requires t in db.tickets && CancelRequested(db, db.tickets[t].jobId)
    requires t in expired ==> db.tickets[t].status == Running
    requires t in abandoned ==> t in ExpiredCancelledTickets(RecoverExpired(db, expired, jitter, now), now)
    ensures var next := Recover(db, expired, abandoned, jitter, now);
            && t in next.tickets && next.tickets[t].jobId == db.tickets[t].jobId
            && CancelPath(db.tickets[t].status, next.tickets[t].status)
  {
  }

  lemma OperatorsWindDown(db: Db, k: Id, now: int, j: Id)
    requires CancelOk(db) && CancelRequested(db, j)
    ensures CancelJob(db, k, now).Ok? ==> WindsDown(db, CancelJob(db, k, now).value, j)
    ensures RetryFailed(db, k, now).Ok? ==> WindsDown(db, RetryFailed(db, k, now).value, j)
  {
  }

  lemma StepWindsDown(w: World, a: Action, j: Id)
    requires WorldInv(w) && Enabled(w, a) && CancelRequested(w.db, j)
    ensures WindsDown(w.db, Apply(w, a).db, j)
  {
    if Settles(w, a) {
      SettlementWindsDown(w, a, j);
    } else {
      OtherActionWindsDown(w, a, j);
    }
  }

  lemma OtherActionWindsDown(w: World, a: Action, j: Id)
    requires CancelOk(w.db) && Enabled(w, a) && !Settles(w, a) && CancelRequested(w.db, j)
    ensures WindsDown(w.db, Apply(w, a).db, j)
  {
    match a
    case ClaimTickets(_, _, _, _, _, _, _, _) => ClaimWindsDown(w, a, j);
    case RecoverLeases(expired, abandoned, jitter) => RecoverWindsDown(w.db, expired, abandoned, jitter, w.now, j);
    case RequestCancel(k) => OperatorsWindDown(w.db, k, w.now, j);
    case RequestRetry(k) => OperatorsWindDown(w.db, k, w.now, j);
    case CreateJob(k, specs) => InsertWindsDown(w.db, k, specs, w.now, j);
    case _ =>
  }

  lemma InsertWindsDown(db: Db, k: Id, specs: map<Id, TicketSpec>, now: int, j: Id)
    requires k !in db.jobs && specs.Keys !! db.tickets.Keys && CancelRequested(db, j)
    ensures WindsDown(db, InsertJob(db, k, specs, now), j)
  {
    NewTicketsAreListed(db.tickets, k, specs, now);
    InsertKeepsRequests(db, k, specs, now, j);
  }

  /**
   After a cancellation request no ticket of the job enters RUNNING, READY, DONE, FAILED or
   NOT_APPLICABLE again and no result of the job is added or changed, whatever happens next.
   */
  lemma {:induction false} CancelledJobWindsDown(w: World, run: seq<Action>, j: Id)
    requires WorldInv(w) && ValidRun(w, run) && CancelRequested(w.db, j)
    ensures WindsDown(w.db, After(w, run).db, j)
    decreases |run|
  {
    if run != [] {
      var next := Apply(w, run[0]);
      StepWindsDown(w, run[0], j);
      StepKeepsInv(w, run[0]);
      CancelledJobWindsDown(next, run[1..], j);
      WindDownComposes(w.db, next.db, After(w, run).db, j);
    }
  }

  // ---------------------------------------------------------------- the ticket that stays behind

  predicate WaitsForCancel(db: Db, t: Id) {
    t in db.tickets && db.tickets[t].status == Retry && CancelRequested(db, db.tickets[t].jobId)
  }

  lemma SecondCancelTakesRetry(db: Db, t: Id, now: int)
    requires JobsAgree(db) && WaitsForCancel(db, t)
    ensures var r := CancelJob(db, db.tickets[t].jobId, now);
            r.Ok? && r.value.tickets[t].status == Cancelled
  {
    var j := db.tickets[t].jobId;
    assert JobAgrees(db.jobs[j], db.tickets, j);
    assert !AllTerminal(db.tickets, j);
  }

  /** A RETRY ticket of a cancelled job moves at a step exactly when the step cancels that job again. */
  lemma OnlyAnotherCancelMovesIt(w: World, a: Action, t: Id)
    requires WorldInv(w) && Enabled(w, a) && WaitsForCancel(w.db, t)
    ensures t in Apply(w, a).db.tickets
    ensures Apply(w, a).db.tickets[t] != w.db.tickets[t] <==> a == RequestCancel(w.db.tickets[t].jobId)
    ensures a == RequestCancel(w.db.tickets[t].jobId) ==> Apply(w, a).db.tickets[t].status == Cancelled
  {
    if Settles(w, a) {
      if OwnsItsTicket(w.db, Settler(w, a)) {
        SettlementTouchesOnlyItsTicket(w, a);
      } else {
        OutsidersChangeNothing(w, a);
      }
    } else if a == RequestCancel(w.db.tickets[t].jobId) {
      SecondCancelTakesRetry(w.db, t, w.now);
    } else {
      OthersLeaveWaiting(w, a, t);
    }
  }

  lemma OthersLeaveWaiting(w: World, a: Action, t: Id)
    requires Enabled(w, a) && !Settles(w, a) && WaitsForCancel(w.db, t) && a != RequestCancel(w.db.tickets[t].jobId)
    ensures t in Apply(w, a).db.tickets && Apply(w, a).db.tickets[t] == w.db.tickets[t]
  {
    match a
    case ClaimTickets(_, _, _, _, _, _, _, _) => TakenAreEligible(w, a);
    case RecoverLeases(expired, abandoned, jitter) => SweepEndsRunning(w.db, expired, abandoned, jitter, w.now, t);
    case _ =>
  }

  /** A ticket that is CANCELLED stays CANCELLED in every run. */
  lemma CancelledStaysCancelled(w: World, run: seq<Action>, t: Id)
    requires WorldInv(w) && ValidRun(w, run) && t in w.db.tickets && w.db.tickets[t].status == Cancelled
    ensures t in After(w, run).db.tickets && After(w, run).db.tickets[t] == w.db.tickets[t]
  {
    FinalTicketsAreFrozen(w, run, t);
  }

  /** The ticket is still in RETRY, untouched, exactly when the run did not cancel its job again. */
  lemma {:induction false} StrandedUntilCancelledAgain(w: World, run: seq<Action>, t: Id)
    requires WorldInv(w) && ValidRun(w, run) && WaitsForCancel(w.db, t)
    ensures var db := After(w, run).db;
            t in db.tickets
            && if RequestCancel(w.db.tickets[t].jobId) in run
               then db.tickets[t].status == Cancelled
               else db.tickets[t] == w.db.tickets[t]
    decreases |run|
  {
    if run != [] {
      var cancel := RequestCancel(w.db.tickets[t].jobId);
      OnlyAnotherCancelMovesIt(w, run[0], t);
      StepKeepsInv(w, run[0]);
      assert cancel in run <==> run[0] == cancel || cancel in run[1..];
      if run[0] == cancel {
        CancelledStaysCancelled(Apply(w, run[0]), run[1..], t);
      } else {
        StillWaits(w, run[0], t);
        StrandedUntilCancelledAgain(Apply(w, run[0]), run[1..], t);
      }
    }
  }

  lemma StillWaits(w: World, a: Action, t: Id)
    requires WorldInv(w) && Enabled(w, a) && WaitsForCancel(w.db, t) && a != RequestCancel(w.db.tickets[t].jobId)
    ensures WaitsForCancel(Apply(w, a).db, t) && Apply(w, a).db.tickets[t] == w.db.tickets[t]
  {
    OnlyAnotherCancelMovesIt(w, a, t);
    EveryActionFollowsTheTable(w, a);
  }

  /** A job with such a ticket is not finished. */
  lemma WaitingJobIsOpen(db: Db, t: Id)
    requires JobsAgree(db) && WaitsForCancel(db, t)
    ensures db.tickets[t].jobId in db.jobs && !IsTerminalJob(db.jobs[db.tickets[t].jobId].status)
  {
    assert JobAgrees(db.jobs[db.tickets[t].jobId], db.tickets, db.tickets[t].jobId);
  }

  /** A ticket starts to wait exactly when its owner retries it directly in a job that is already cancelled. */
  lemma StartsToWaitIff(w: World, a: Action, t: Id)
    requires WorldInv(w) && Enabled(w, a) && t in w.db.tickets && !WaitsForCancel(w.db, t)
    ensures WaitsForCancel(Apply(w, a).db, t) <==>
            CancelRequested(w.db, w.db.tickets[t].jobId) && Settles(w, a) && OwnsItsTicket(w.db, Settler(w, a))
            && Settler(w, a).copy.ticketId == t && RetriesDirectly(a, Settler(w, a))
  {
    if Settles(w, a) {
      if OwnsItsTicket(w.db, Settler(w, a)) {
        SettlementStartsToWait(w, a, t);
      } else {
        OutsidersChangeNothing(w, a);
      }
    } else {
      OthersStartNoWait(w, a, t);
    }
  }

  lemma SettleKeepsRequests(db: Db, results: map<Id, EvalResult>, t: Id, target: TicketStatus, result: Option<Id>,
                            delay: nat, j: Id, worker: Worker, now: int, k: Id)
    ensures var r := Settle(db.(results := results), t, target, result, delay, j, worker, now);
            r.Ok? ==> (CancelRequested(r.value, k) <==> CancelRequested(db, k))
  {
    SettleCommitsIffOwner(db.(results := results), t, target, result, delay, j, worker, now);
  }

  lemma PersistKeepsRequests(db: Db, c: ClaimCopy, verdict: Verdict, target: TicketStatus, delay: nat, newId: Id,
                             worker: Worker, now: int, k: Id)
    ensures var r := PersistOnce(db, c, verdict, target, delay, newId, worker, now);
            r.Ok? ==> (CancelRequested(r.value, k) <==> CancelRequested(db, k))
  {
    var row := EvalResult(c.jobId, c.ticketId, verdict, c.attemptCount);
    assert db.(results := db.results) == db;
    SettleKeepsRequests(db, db.results, c.ticketId, Cancelled, None, 0, c.jobId, worker, now, k);
    SettleKeepsRequests(db, db.results, c.ticketId, target, None, delay, c.jobId, worker, now, k);
    SettleKeepsRequests(db, Upsert(db.results, row, newId), c.ticketId, target,
                        Some(UpsertId(db.results, c.ticketId, newId)), delay, c.jobId, worker, now, k);
  }

  lemma SettlementKeepsRequests(w: World, a: Action, j: Id)
    requires Enabled(w, a) && Settles(w, a)
    ensures CancelRequested(Apply(w, a).db, j) <==> CancelRequested(w.db, j)
  {
    var x := Settler(w, a);
    var c := x.copy;
    assert w.db.(results := w.db.results) == w.db;
    match a
    case PersistVerdict(e, verdict, delay, newId) =>
      PersistKeepsRequests(w.db, c, verdict, VerdictTarget(c, verdict), delay, newId, x.worker, w.now, j);
    case HandleError(e, delay, newId) =>
      PersistKeepsRequests(w.db, c, VerdictFailed, Failed, 0, newId, x.worker, w.now, j);
      PersistKeepsRequests(w.db, c, VerdictError, Failed, 0, newId, x.worker, w.now, j);
      SettleKeepsRequests(w.db, w.db.results, c.ticketId, Retry, None, delay, c.jobId, x.worker, w.now, j);
    case SettleAsCancelled(e) =>
      SettleKeepsRequests(w.db, w.db.results, c.ticketId, Cancelled, None, 0, c.jobId, x.worker, w.now, j);
  }

  lemma SettlementStartsToWait(w: World, a: Action, t: Id)
    requires ExecutionsOk(w) && Enabled(w, a) && t in w.db.tickets && !WaitsForCancel(w.db, t)
    requires Settles(w, a) && OwnsItsTicket(w.db, Settler(w, a))
    ensures WaitsForCancel(Apply(w, a).db, t) <==>
            CancelRequested(w.db, w.db.tickets[t].jobId) && Settler(w, a).copy.ticketId == t
            && RetriesDirectly(a, Settler(w, a))
  {
    assert ExecutionOk(w.db, Settler(w, a));
    SettlementTouchesOnlyItsTicket(w, a);
    SettlementKeepsRequests(w, a, w.db.tickets[t].jobId);
    RetryIffGranted(w, a);
    EveryActionFollowsTheTable(w, a);
  }

  lemma OthersStartNoWait(w: World, a: Action, t: Id)
    requires CancelOk(w.db) && Enabled(w, a) && !Settles(w, a) && t in w.db.tickets && !WaitsForCancel(w.db, t)
    ensures !WaitsForCancel(Apply(w, a).db, t)
  {
    match a
    case ClaimTickets(_, _, _, _, _, _, _, _) => TakenAreEligible(w, a);
    case RecoverLeases(expired, abandoned, jitter) =>
      SweepStartsNoWait(w.db, expired, abandoned, jitter, w.now, t);
    case RequestCancel(j) => OperatorsStartNoWait(w.db, j, w.now, t);
    case RequestRetry(j) => OperatorsStartNoWait(w.db, j, w.now, t);
    case _ =>
  }

  lemma OperatorsStartNoWait(db: Db, j: Id, now: int, t: Id)
    requires t in db.tickets && !WaitsForCancel(db, t)
    ensures CancelJob(db, j, now).Ok? ==> !WaitsForCancel(CancelJob(db, j, now).value, t)
    ensures RetryFailed(db, j, now).Ok? ==> !WaitsForCancel(RetryFailed(db, j, now).value, t)
  {
  }

  lemma SweepStartsNoWait(db: Db, expired: set<Id>, abandoned: set<Id>, jitter: map<Id, nat>, now: int, t: Id)
    requires t in db.tickets && !WaitsForCancel(db, t)
    ensures !WaitsForCancel(Recover(db, expired, abandoned, jitter, now), t)
  {
  }
}
