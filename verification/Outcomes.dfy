/** How an execution begins and ends, and which status and result its ticket is given. */
module Outcomes {
  import opened Options
  import opened Lifecycle
  import opened Tables
  import opened QueueSpec
  import opened Invariants
  import opened RowEffects
  import opened Protocol
  import opened Reachability
  import opened Fencing

  // ---------------------------------------------------------------- settling a verdict

  /** The ticket was given this result: a row of its own with the verdict and the attempt the worker remembers. */
  predicate HasResult(db: Db, t: Id, verdict: Verdict, attempt: nat) {
    && t in db.tickets && db.tickets[t].resultId.Some? && db.tickets[t].resultId.value in db.results
    && var result := db.results[db.tickets[t].resultId.value];
       result.ticketId == t && result.verdict == verdict && result.attemptCount == attempt
  }

  /**
   The owner's verdict in a job nobody cancelled: PASSED and FAILED both end the ticket DONE, NOT_APPLICABLE ends it as
   such, and ERROR sends it to RETRY while the remembered attempt allows, after that to FAILED. Only a retry is without
   a result.
   */
  lemma VerdictDecides(w: World, a: Action)
    requires ExecutionsOk(w) && Enabled(w, a) && a.PersistVerdict? && OwnsItsTicket(w.db, w.execs[a.e])
    requires !CancelRequested(w.db, w.execs[a.e].copy.jobId)
    ensures var c := w.execs[a.e].copy;
            var next := Apply(w, a).db;
            && c.ticketId in next.tickets
            && var row := next.tickets[c.ticketId];
               && (row.status == Done <==> a.verdict == VerdictPassed || a.verdict == VerdictFailed)
               && (row.status == NotApplicable <==> a.verdict == VerdictNotApplicable)
               && (row.status == Retry <==> a.verdict == VerdictError && c.attemptCount < c.maxAttempts)
               && (row.status == Failed <==> a.verdict == VerdictError && c.attemptCount >= c.maxAttempts)
               && (row.status != Retry ==> HasResult(next, c.ticketId, a.verdict, c.attemptCount))
               && (row.status != Retry ==> row.completedAt == Some(w.now))
               && (row.status == Retry ==> next.results == w.db.results && row.availableAt == w.now + a.delay)
  {
    var x := w.execs[a.e];
    SettlementCommitsIffOwner(w, a);
    PersistEffects(w.db, x.copy, a.verdict, VerdictTarget(x.copy, a.verdict), a.delay, a.newId, x.worker, w.now);
  }

  /** In a cancelled job the verdict is dropped and the ticket ends CANCELLED. */
  lemma CancellationOverridesVerdict(w: World, a: Action)
    requires ExecutionsOk(w) && Enabled(w, a) && a.PersistVerdict? && OwnsItsTicket(w.db, w.execs[a.e])
    requires CancelRequested(w.db, w.execs[a.e].copy.jobId)
    ensures var t := w.execs[a.e].copy.ticketId;
            var next := Apply(w, a).db;
            && t in next.tickets && next.tickets[t].status == Cancelled && next.results == w.db.results
            && next.tickets[t].completedAt == Some(w.now)
            && t in w.db.tickets && next.tickets[t].resultId == w.db.tickets[t].resultId
  {
    var x := w.execs[a.e];
    SettlementCommitsIffOwner(w, a);
    PersistEffects(w.db, x.copy, a.verdict, VerdictTarget(x.copy, a.verdict), a.delay, a.newId, x.worker, w.now);
  }

  // ---------------------------------------------------------------- handling a failure

  /**
   A failure the owner handles: a transient error with a remembered attempt left goes to RETRY, whether cancelled or
   not; any other ends CANCELLED in a cancelled job and else FAILED, with a FAILED result for missing context and an
   ERROR result for the rest.
   */
  lemma FailureDecides(w: World, a: Action)
    requires ExecutionsOk(w) && Enabled(w, a) && a.HandleError? && OwnsItsTicket(w.db, w.execs[a.e])
    ensures var c := w.execs[a.e].copy;
            var cls := w.execs[a.e].phase.cls;
            var next := Apply(w, a).db;
            && c.ticketId in next.tickets
            && var row := next.tickets[c.ticketId];
               var cancelled := CancelRequested(w.db, c.jobId);
               && (row.status == Retry <==> cls == Transient && c.attemptCount < c.maxAttempts)
               && (row.status == Cancelled <==> row.status != Retry && cancelled)
               && (row.status == Failed <==> row.status != Retry && !cancelled)
               && (row.status == Failed && cls == MissingContext ==>
                     HasResult(next, c.ticketId, VerdictFailed, c.attemptCount))
               && (row.status == Failed && cls != MissingContext ==>
                     HasResult(next, c.ticketId, VerdictError, c.attemptCount))
               && (row.status != Failed ==> next.results == w.db.results)
               && (row.status == Retry ==> row.availableAt == w.now + a.delay && row.workerId.None?)
    ensures Apply(w, a).execs == w.execs - {a.e}
  {
    var x := w.execs[a.e];
    SettlementCommitsIffOwner(w, a);
    FailureEffects(w.db, x.copy, x.phase.cls, a.delay, a.newId, x.worker, w.now);
  }

  /** A cancellation seen when the job was loaded ends the ticket CANCELLED without a result. */
  lemma SeenCancellationDecides(w: World, a: Action)
    requires ExecutionsOk(w) && Enabled(w, a) && a.SettleAsCancelled? && OwnsItsTicket(w.db, w.execs[a.e])
    ensures var t := w.execs[a.e].copy.ticketId;
            var next := Apply(w, a).db;
            && t in next.tickets && next.tickets[t].status == Cancelled && next.results == w.db.results
            && next.tickets[t].completedAt == Some(w.now)
    ensures Apply(w, a).execs == w.execs - {a.e}
  {
    var x := w.execs[a.e];
    SettlementCommitsIffOwner(w, a);
    SettleEffects(w.db, x.copy.ticketId, Cancelled, None, 0, x.copy.jobId, x.worker, w.now);
  }

  // ---------------------------------------------------------------- executions

  /** Each claimed ticket starts one execution, which remembers the row as the claim left it. */
  lemma ClaimStartsExecutions(w: World, a: Action)
    requires a.ClaimTickets? && Enabled(w, a)
    ensures var next := Apply(w, a);
            && (forall e :: e in w.execs ==> e in next.execs && next.execs[e] == w.execs[e])
            && (forall e :: e in next.execs ==> e in w.execs || a.base <= e < a.base + |Taken(w, a)|)
            && forall i :: 0 <= i < |Taken(w, a)| && Taken(w, a)[i] in next.db.tickets ==>
                 a.base + i in next.execs && Remembers(next.db, next.execs[a.base + i], Taken(w, a)[i], a.worker)
  {
    var next := Apply(w, a);
    forall i | 0 <= i < |Taken(w, a)| && Taken(w, a)[i] in next.db.tickets
      ensures a.base + i in next.execs && Remembers(next.db, next.execs[a.base + i], Taken(w, a)[i], a.worker)
    {
      assert BatchTicket(Taken(w, a), a.base, a.base + i) == Some(Taken(w, a)[i]);
    }
  }

  predicate Remembers(db: Db, x: Execution, t: Id, worker: Worker) {
    && t in db.tickets && x.worker == worker && x.phase == Loading && x.copy.ticketId == t
    && x.copy.jobId == db.tickets[t].jobId && x.copy.attemptCount == db.tickets[t].attemptCount
    && x.copy.maxAttempts == db.tickets[t].maxAttempts
  }

  /** Loading goes on to evaluate exactly when nobody asked to cancel the job, and else to settle the cancellation. */
  lemma LoadingSeesTheRequest(w: World, a: Action)
    requires WorldInv(w) && Enabled(w, a) && a.LoadState?
    ensures var x := Apply(w, a).execs[a.e];
            && a.e in Apply(w, a).execs && x.worker == w.execs[a.e].worker && x.copy == w.execs[a.e].copy
            && (x.phase == Evaluating <==> !CancelRequested(w.db, x.copy.jobId))
            && (x.phase == Cancelling <==> CancelRequested(w.db, x.copy.jobId))
  {
    var x := w.execs[a.e];
    assert ExecutionOk(w.db, x);
    assert RowOk(w.db, x.copy.ticketId, w.db.tickets[x.copy.ticketId]);
    if w.db.jobs[x.copy.jobId].status == JobCancelled {
      CancelledStatusMeansRequested(w.db, x.copy.jobId);
    }
  }

  /** A verdict that is refused as illegal, and only that, is handled as a failure; otherwise the execution is over. */
  lemma VerdictEndsExecution(w: World, a: Action)
    requires ExecutionsOk(w) && Enabled(w, a) && a.PersistVerdict?
    ensures var x := w.execs[a.e];
            var illegal := !OwnsItsTicket(w.db, x)
                           && Attempted(w, a) == Some(Err(IllegalTransition));
            && (a.e !in Apply(w, a).execs <==> !illegal)
            && (illegal ==> Apply(w, a).execs[a.e] == x.(phase := Handling(Transient)))
            && (forall e :: e in w.execs && e != a.e ==> e in Apply(w, a).execs && Apply(w, a).execs[e] == w.execs[e])
  {
    var x := w.execs[a.e];
    assert ExecutionOk(w.db, x);
    SettlementCommitsIffOwner(w, a);
  }

  // ---------------------------------------------------------------- operator calls and sweeps

  lemma SettlementsLeaveWaiting(w: World, a: Action, t: Id)
    requires ExecutionsOk(w) && Enabled(w, a) && Settles(w, a)
    requires t in w.db.tickets && w.db.tickets[t].status == Retry
    ensures t in Apply(w, a).db.tickets && Apply(w, a).db.tickets[t] == w.db.tickets[t]
  {
    if OwnsItsTicket(w.db, Settler(w, a)) {
      SettlementTouchesOnlyItsTicket(w, a);
    } else {
      OutsidersChangeNothing(w, a);
    }
  }

  lemma SweepsLeaveWaiting(w: World, a: Action, t: Id)
    requires a.RecoverLeases? && Enabled(w, a) && t in w.db.tickets && w.db.tickets[t].status == Retry
    ensures t in Apply(w, a).db.tickets && Apply(w, a).db.tickets[t] == w.db.tickets[t]
  {
    SweepActs(w, a);
    assert !IsExpired(w.db, t, w.now);
  }

  /** A ticket that waits never fails: the table allows RETRY to FAILED, but no action makes that move. */
  lemma WaitingNeverFails(w: World, a: Action, t: Id)
    requires WorldInv(w) && Enabled(w, a) && t in w.db.tickets && w.db.tickets[t].status == Retry
    ensures t in Apply(w, a).db.tickets && Apply(w, a).db.tickets[t].status != Failed
  {
    if Settles(w, a) {
      SettlementsLeaveWaiting(w, a, t);
    } else if a.RecoverLeases? {
      SweepsLeaveWaiting(w, a, t);
    } else {
      OthersNeverFail(w, a, t);
    }
  }

  lemma OthersNeverFail(w: World, a: Action, t: Id)
    requires Enabled(w, a) && !Settles(w, a) && !a.RecoverLeases?
    requires t in w.db.tickets && w.db.tickets[t].status == Retry
    ensures t in Apply(w, a).db.tickets && Apply(w, a).db.tickets[t].status != Failed
  {
    if a.RequestCancel? {
      CancelCallActs(w, a);
    } else if a.RequestRetry? {
      RetryCallActs(w, a);
    }
  }

  /** A retry-failed call acts exactly on a job that is there, not cancelled and has a FAILED ticket. */
  lemma RetryCallActs(w: World, a: Action)
    requires a.RequestRetry? && Enabled(w, a)
    ensures Apply(w, a).execs == w.execs && Apply(w, a).now == w.now
    ensures if a.j in w.db.jobs && !CancelRequested(w.db, a.j) && Has(w.db.tickets, a.j, Failed)
            then ResetsFailed(w.db, Apply(w, a).db, a.j, w.now) && OnlyShows(w.db.jobs, Apply(w, a).db, {a.j}, w.now)
            else Apply(w, a).db == w.db
  {
    RetryFailedRefusals(w.db, a.j, w.now);
    if RetryFailed(w.db, a.j, w.now).Ok? {
      RetryFailedEffects(w.db, a.j, w.now);
    }
  }

  /** A cancel call acts exactly on a job that is there and has not ended in another way. */
  lemma CancelCallActs(w: World, a: Action)
    requires a.RequestCancel? && Enabled(w, a)
    ensures Apply(w, a).execs == w.execs && Apply(w, a).now == w.now
    ensures if a.j in w.db.jobs && w.db.jobs[a.j].status != JobCompleted && w.db.jobs[a.j].status != JobFailed
               && w.db.jobs[a.j].status != JobPartialFailed
            then CancelsWaiting(w.db, Apply(w, a).db, a.j, w.now)
                 && OnlyShows(w.db.jobs[a.j := Requested(w.db.jobs[a.j], w.now)], Apply(w, a).db, {a.j}, w.now)
            else Apply(w, a).db == w.db
  {
    CancelRefusals(w.db, a.j, w.now);
    if CancelJob(w.db, a.j, w.now).Ok? {
      CancelEffects(w.db, a.j, w.now);
    }
  }

  /** A sweep settles the rows it found by request and attempts, and only their jobs show it. */
  lemma SweepActs(w: World, a: Action)
    requires a.RecoverLeases? && Enabled(w, a)
    ensures Apply(w, a).execs == w.execs && Apply(w, a).now == w.now
    ensures SweptRows(w.db, Apply(w, a).db, a.expired, a.abandoned, a.jitter, w.now)
    ensures forall t :: t in a.expired || t in a.abandoned ==> IsExpired(w.db, t, w.now)
    ensures forall t :: t in a.abandoned ==> t !in a.expired && CancelRequested(w.db, w.db.tickets[t].jobId)
  {
    RecoverEffects(w.db, a.expired, a.abandoned, a.jitter, w.now);
    RecoverExpiredEffects(w.db, a.expired, a.jitter, w.now);
    SweepsLookAt(w.db, w.now);
    SweepsLookAt(RecoverExpired(w.db, a.expired, a.jitter, w.now), w.now);
  }
}
