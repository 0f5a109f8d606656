/**
 Attempts and the number of claims. Ownership is checked by worker name alone, so the bound needs
 workers that do not claim a ticket again while an execution of theirs for it is still in flight.
 */
module AttemptBudget {
  import opened Options
  import opened Lifecycle
  import opened Tables
  import opened QueueSpec
  import opened Invariants
  import opened Preservation
  import opened Protocol
  import opened Reachability
  import opened Fencing

  /** The action claims no ticket its worker is still executing. */
  ghost predicate Careful(w: World, a: Action) {
    a.ClaimTickets? ==>
      forall e :: e in w.execs && w.execs[e].worker == a.worker ==> w.execs[e].copy.ticketId !in Taken(w, a)
  }

  ghost predicate CarefulRun(w: World, run: seq<Action>)
    requires ValidRun(w, run)
    decreases |run|
  {
    run == [] || (Careful(w, run[0]) && CarefulRun(Apply(w, run[0]), run[1..]))
  }

  predicate WithinBudget(t: Ticket) {
    t.attemptCount <= t.maxAttempts && (IsPending(t.status) ==> t.attemptCount < t.maxAttempts)
  }

  /** The attempt an execution remembers is the current one while it owns its ticket. */
  predicate RemembersAttempt(db: Db, x: Execution) {
    OwnsItsTicket(db, x) ==> db.tickets[x.copy.ticketId].attemptCount == x.copy.attemptCount
  }

  ghost predicate BudgetInv(w: World) {
    && (forall t :: t in w.db.tickets ==> WithinBudget(w.db.tickets[t]))
    && (forall e :: e in w.execs ==> RemembersAttempt(w.db, w.execs[e]))
    && OneExecutionEach(w.execs)
  }

  ghost predicate OneExecutionEach(execs: map<Id, Execution>) {
    forall e, f :: e in execs && f in execs && e != f ==>
      execs[e].worker != execs[f].worker || execs[e].copy.ticketId != execs[f].copy.ticketId
  }

  // ---------------------------------------------------------------- attempts at a settlement

  lemma SettleKeepsAttempts(db: Db, results: map<Id, EvalResult>, t: Id, target: TicketStatus, result: Option<Id>,
                            delay: nat, j: Id, worker: Worker, now: int)
    ensures var r := Settle(db.(results := results), t, target, result, delay, j, worker, now);
            r.Ok? ==> t in r.value.tickets && t in db.tickets
                      && r.value.tickets[t].attemptCount == db.tickets[t].attemptCount
  {
    SettleCommitsIffOwner(db.(results := results), t, target, result, delay, j, worker, now);
  }

  lemma PersistKeepsAttempts(db: Db, c: ClaimCopy, verdict: Verdict, target: TicketStatus, delay: nat, newId: Id,
                             worker: Worker, now: int)
    requires c.ticketId in db.tickets
    ensures var r := PersistOnce(db, c, verdict, target, delay, newId, worker, now);
            r.Ok? ==> c.ticketId in r.value.tickets
                      && r.value.tickets[c.ticketId].attemptCount == db.tickets[c.ticketId].attemptCount
  {
    var row := EvalResult(c.jobId, c.ticketId, verdict, c.attemptCount);
    assert db.(results := db.results) == db;
    SettleKeepsAttempts(db, db.results, c.ticketId, Cancelled, None, 0, c.jobId, worker, now);
    SettleKeepsAttempts(db, db.results, c.ticketId, target, None, delay, c.jobId, worker, now);
    SettleKeepsAttempts(db, Upsert(db.results, row, newId), c.ticketId, target,
                        Some(UpsertId(db.results, c.ticketId, newId)), delay, c.jobId, worker, now);
  }

  /** A settlement leaves the attempt count alone, and chooses RETRY only with remembered attempts left. */
  lemma SettlementAttempts(w: World, a: Action)
    requires Enabled(w, a) && Settles(w, a) && Attempted(w, a).Some? && Attempted(w, a).value.Ok?
    requires ExecutionOk(w.db, Settler(w, a)) && NewIdIsNew(w, a)
    ensures var x := Settler(w, a);
            var t := x.copy.ticketId;
            var next := Attempted(w, a).value.value;
            && t in next.tickets && next.tickets[t].attemptCount == w.db.tickets[t].attemptCount
            && (next.tickets[t].status == Retry ==> x.copy.attemptCount < x.copy.maxAttempts)
  {
    var x := Settler(w, a);
    match a
    case PersistVerdict(e, verdict, delay, newId) =>
      var target := VerdictTarget(x.copy, verdict);
      PersistKeepsAttempts(w.db, x.copy, verdict, target, delay, newId, x.worker, w.now);
      PersistTouchesOnly(w.db, x.copy, verdict, target, delay, newId, x.worker, w.now);
    case HandleError(e, delay, newId) =>
      FailureAttempts(w.db, x.copy, x.phase.cls, delay, newId, x.worker, w.now);
    case SettleAsCancelled(e) =>
      assert w.db.(results := w.db.results) == w.db;
      SettleKeepsAttempts(w.db, w.db.results, x.copy.ticketId, Cancelled, None, 0, x.copy.jobId, x.worker, w.now);
      SettleTouchesOnly(w.db, w.db.results, x.copy.ticketId, Cancelled, None, 0, x.copy.jobId, x.worker, w.now);
  }

  predicate NewIdIsNew(w: World, a: Action) {
    match a
    case PersistVerdict(_, _, _, newId) => newId !in w.db.results
    case HandleError(_, _, newId) => newId !in w.db.results
    case _ => true
  }

  lemma FailureAttempts(db: Db, c: ClaimCopy, cls: ErrorClass, delay: nat, newId: Id, worker: Worker, now: int)
    requires c.ticketId in db.tickets && newId !in db.results
    ensures var r := HandleFailure(db, c, cls, delay, newId, worker, now);
            r.Ok? ==> c.ticketId in r.value.tickets
                      && r.value.tickets[c.ticketId].attemptCount == db.tickets[c.ticketId].attemptCount
                      && (r.value.tickets[c.ticketId].status == Retry ==> c.attemptCount < c.maxAttempts)
  {
    PersistKeepsAttempts(db, c, VerdictFailed, Failed, 0, newId, worker, now);
    PersistKeepsAttempts(db, c, VerdictError, Failed, 0, newId, worker, now);
    PersistTouchesOnly(db, c, VerdictFailed, Failed, 0, newId, worker, now);
    PersistTouchesOnly(db, c, VerdictError, Failed, 0, newId, worker, now);
    assert db.(results := db.results) == db;
    SettleKeepsAttempts(db, db.results, c.ticketId, Retry, None, delay, c.jobId, worker, now);
  }

  // ---------------------------------------------------------------- attempts at every step

  /**
   Outside an operator's reset, a ticket gains an attempt exactly when it is claimed and stays finished once
   finished.
   */
  lemma AttemptsCountClaims(w: World, a: Action, t: Id)
    requires ExecutionsOk(w) && Enabled(w, a) && t in w.db.tickets && !a.RequestRetry?
    ensures t in Apply(w, a).db.tickets
    ensures var row, next := w.db.tickets[t], Apply(w, a).db.tickets[t];
            && next.attemptCount == row.attemptCount + (if t in Taken(w, a) then 1 else 0)
            && (IsTerminal(row.status) ==> next.status == row.status)
  {
    if Settles(w, a) {
      SettlementCommitsIffOwner(w, a);
      if OwnsItsTicket(w.db, Settler(w, a)) {
        assert ExecutionOk(w.db, Settler(w, a));
        SettlementTouchesOnlyItsTicket(w, a);
        SettlementAttempts(w, a);
      } else {
        OutsidersChangeNothing(w, a);
      }
    } else {
      OtherAttempts(w, a, t);
    }
  }

  lemma OtherAttempts(w: World, a: Action, t: Id)
    requires Enabled(w, a) && !Settles(w, a) && t in w.db.tickets && !a.RequestRetry?
    ensures t in Apply(w, a).db.tickets
    ensures var row, next := w.db.tickets[t], Apply(w, a).db.tickets[t];
            && next.attemptCount == row.attemptCount + (if t in Taken(w, a) then 1 else 0)
            && (IsTerminal(row.status) ==> next.status == row.status)
  {
    match a
    case ClaimTickets(_, _, _, _, _, _, _, _) => TakenAreEligible(w, a);
    case RecoverLeases(expired, abandoned, jitter) => SweepEndsRunning(w.db, expired, abandoned, jitter, w.now, t);
    case _ =>
  }

  // ---------------------------------------------------------------- the bound

  lemma StepWithinBudget(w: World, a: Action, t: Id)
    requires WorldInv(w) && BudgetInv(w) && Enabled(w, a) && Careful(w, a) && t in Apply(w, a).db.tickets
    ensures WithinBudget(Apply(w, a).db.tickets[t])
  {
    if t in w.db.tickets {
      assert WithinBudget(w.db.tickets[t]);
      if Settles(w, a) {
        SettledWithinBudget(w, a, t);
      } else {
        OtherWithinBudget(w, a, t);
      }
    } else {
      NewWithinBudget(w, a, t);
    }
  }

  lemma NewWithinBudget(w: World, a: Action, t: Id)
    requires Enabled(w, a) && t !in w.db.tickets && t in Apply(w, a).db.tickets
    ensures WithinBudget(Apply(w, a).db.tickets[t])
  {
    if Settles(w, a) {
      assert Attempted(w, a).Some?;
      AttemptKeepsKeys(w, a);
    }
  }

  lemma AttemptKeepsKeys(w: World, a: Action)
    requires Enabled(w, a) && Settles(w, a) && Attempted(w, a).Some?
    ensures Apply(w, a).db.tickets.Keys == w.db.tickets.Keys
  {
  }

  lemma OtherWithinBudget(w: World, a: Action, t: Id)
    requires Enabled(w, a) && !Settles(w, a) && t in w.db.tickets && t in Apply(w, a).db.tickets
    requires WithinBudget(w.db.tickets[t]) && w.db.tickets[t].maxAttempts >= 1
    ensures WithinBudget(Apply(w, a).db.tickets[t])
  {
    match a
    case ClaimTickets(_, _, _, _, _, _, _, _) => TakenAreEligible(w, a);
    case RecoverLeases(expired, abandoned, jitter) =>
      SweepWithinBudget(w.db, expired, abandoned, jitter, w.now, t);
    case RequestCancel(j) => OperatorsWithinBudget(w.db, j, w.now, t);
    case RequestRetry(j) => OperatorsWithinBudget(w.db, j, w.now, t);
    case _ =>
  }

  lemma SweepWithinBudget(db: Db, expired: set<Id>, abandoned: set<Id>, jitter: map<Id, nat>, now: int, t: Id)
    requires t in db.tickets && WithinBudget(db.tickets[t])
    ensures t in Recover(db, expired, abandoned, jitter, now).tickets
    ensures WithinBudget(Recover(db, expired, abandoned, jitter, now).tickets[t])
  {
  }

  lemma OperatorsWithinBudget(db: Db, j: Id, now: int, t: Id)
    requires t in db.tickets && WithinBudget(db.tickets[t]) && db.tickets[t].maxAttempts >= 1
    ensures CancelJob(db, j, now).Ok? ==>
              t in CancelJob(db, j, now).value.tickets && WithinBudget(CancelJob(db, j, now).value.tickets[t])
    ensures RetryFailed(db, j, now).Ok? ==>
              t in RetryFailed(db, j, now).value.tickets && WithinBudget(RetryFailed(db, j, now).value.tickets[t])
  {
  }

  lemma SettledWithinBudget(w: World, a: Action, t: Id)
    requires ExecutionsOk(w) && Enabled(w, a) && Settles(w, a) && t in w.db.tickets && WithinBudget(w.db.tickets[t])
    requires RemembersAttempt(w.db, Settler(w, a))
    ensures t in Apply(w, a).db.tickets && WithinBudget(Apply(w, a).db.tickets[t])
  {
    SettlementCommitsIffOwner(w, a);
    if OwnsItsTicket(w.db, Settler(w, a)) {
      assert ExecutionOk(w.db, Settler(w, a));
      EveryActionFollowsTheTable(w, a);
      SettlementTouchesOnlyItsTicket(w, a);
      SettlementAttempts(w, a);
    } else {
      OutsidersChangeNothing(w, a);
    }
  }

  // ---------------------------------------------------------------- what executions remember

  /** A ticket that is RUNNING before and after a step keeps its worker. */
  lemma RunningKeepsItsWorker(w: World, a: Action, t: Id)
    requires ExecutionsOk(w) && Enabled(w, a) && IsRunning(w.db, t) && IsRunning(Apply(w, a).db, t)
    ensures Apply(w, a).db.tickets[t].workerId == w.db.tickets[t].workerId
  {
    if Settles(w, a) {
      if OwnsItsTicket(w.db, Settler(w, a)) {
        SettlementTouchesOnlyItsTicket(w, a);
      } else {
        OutsidersChangeNothing(w, a);
      }
    } else {
      OtherKeepsWorker(w, a, t);
    }
  }

  lemma OtherKeepsWorker(w: World, a: Action, t: Id)
    requires Enabled(w, a) && !Settles(w, a) && IsRunning(w.db, t) && IsRunning(Apply(w, a).db, t)
    ensures Apply(w, a).db.tickets[t].workerId == w.db.tickets[t].workerId
  {
    match a
    case ClaimTickets(_, _, _, _, _, _, _, _) => TakenAreEligible(w, a);
    case RecoverLeases(expired, abandoned, jitter) => SweepEndsRunning(w.db, expired, abandoned, jitter, w.now, t);
    case _ =>
  }

  /** An execution in flight keeps its worker and its copy; only a claim adds executions. */
  lemma ExecutionsMove(w: World, a: Action, e: Id)
    requires Enabled(w, a) && e in Apply(w, a).execs
    ensures e in w.execs ==> Apply(w, a).execs[e].worker == w.execs[e].worker
                             && Apply(w, a).execs[e].copy == w.execs[e].copy
    ensures e !in w.execs ==> a.ClaimTickets? && a.base <= e < a.base + |Taken(w, a)|
                              && Taken(w, a)[e - a.base] in Apply(w, a).db.tickets
                              && Apply(w, a).execs[e] ==
                                   NewExecution(Apply(w, a).db.tickets, Taken(w, a)[e - a.base], a.worker)
  {
  }

  lemma OldExecutionRemembers(w: World, a: Action, e: Id)
    requires ExecutionsOk(w) && Enabled(w, a) && Careful(w, a) && e in w.execs && e in Apply(w, a).execs
    requires RemembersAttempt(w.db, w.execs[e])
    ensures RemembersAttempt(Apply(w, a).db, Apply(w, a).execs[e])
  {
    var x, t := w.execs[e], w.execs[e].copy.ticketId;
    assert ExecutionOk(w.db, x);
    ExecutionsMove(w, a, e);
    if OwnsItsTicket(Apply(w, a).db, Apply(w, a).execs[e]) {
      RunningChangesOnlyByClaims(w, a, t);
      if Starts(w, a, t) {
        ClaimGivesItsWorker(w, a, t);
        assert false;
      }
      RunningKeepsItsWorker(w, a, t);
      if a.RequestRetry? {
        ResetLeavesRunning(w.db, a.j, w.now, t);
      } else {
        AttemptsCountClaims(w, a, t);
      }
    }
  }

  lemma ClaimGivesItsWorker(w: World, a: Action, t: Id)
    requires Enabled(w, a) && t in Taken(w, a) && t in w.db.tickets
    ensures t in Apply(w, a).db.tickets && Apply(w, a).db.tickets[t].workerId == Some(a.worker)
  {
  }

  lemma ResetLeavesRunning(db: Db, j: Id, now: int, t: Id)
    requires IsRunning(db, t)
    ensures RetryFailed(db, j, now).Ok? ==> t in RetryFailed(db, j, now).value.tickets
                                            && RetryFailed(db, j, now).value.tickets[t] == db.tickets[t]
  {
  }

  predicate Distinct(s: seq<Id>) {
    forall i, k :: 0 <= i < k < |s| ==> s[i] != s[k]
  }

  lemma TakenAreDistinct(rows: seq<Id>, locked: set<Id>, limit: nat)
    requires Distinct(rows)
    ensures Distinct(TakeUnlocked(rows, locked, limit))
  {
    if rows != [] && limit > 0 && rows[0] !in locked {
      TakenAreListed(rows[1..], locked, limit - 1);
      assert rows[0] !in rows[1..];
    }
  }

  lemma BatchIsDistinct(w: World, a: Action, i: nat, k: nat)
    requires a.ClaimTickets? && Enabled(w, a) && i < |Taken(w, a)| && k < |Taken(w, a)| && i != k
    ensures Taken(w, a)[i] != Taken(w, a)[k]
  {
    TakenAreDistinct(a.rows, a.locked, a.limit);
    assert Distinct(Taken(w, a));
  }

  lemma StepKeepsOneExecution(w: World, a: Action)
    requires OneExecutionEach(w.execs) && Enabled(w, a) && Careful(w, a)
    ensures OneExecutionEach(Apply(w, a).execs)
  {
    var next := Apply(w, a).execs;
    forall e, f | e in next && f in next && e != f
      ensures next[e].worker != next[f].worker || next[e].copy.ticketId != next[f].copy.ticketId
    {
      ExecutionsMove(w, a, e);
      ExecutionsMove(w, a, f);
      if e !in w.execs {
        assert Taken(w, a)[e - a.base] in Taken(w, a);
      }
      if f !in w.execs {
        assert Taken(w, a)[f - a.base] in Taken(w, a);
      }
      if e !in w.execs && f !in w.execs {
        BatchIsDistinct(w, a, e - a.base, f - a.base);
      }
    }
  }

  lemma StepKeepsBudget(w: World, a: Action)
    requires WorldInv(w) && BudgetInv(w) && Enabled(w, a) && Careful(w, a)
    ensures BudgetInv(Apply(w, a))
  {
    var next := Apply(w, a);
    forall t | t in next.db.tickets
      ensures WithinBudget(next.db.tickets[t])
    {
      StepWithinBudget(w, a, t);
    }
    forall e | e in next.execs
      ensures RemembersAttempt(next.db, next.execs[e])
    {
      if e in w.execs {
        OldExecutionRemembers(w, a, e);
      } else {
        ExecutionsMove(w, a, e);
      }
    }
    StepKeepsOneExecution(w, a);
  }

  /** In every careful run attempts stay within the maximum, strictly while waiting, and no claim is aborted. */
  lemma {:induction false} CarefulRunsStayWithinBudget(w: World, run: seq<Action>)
    requires WorldInv(w) && BudgetInv(w) && ValidRun(w, run) && CarefulRun(w, run)
    ensures BudgetInv(After(w, run))
    decreases |run|
  {
    if run != [] {
      StepKeepsBudget(w, run[0]);
      StepKeepsInv(w, run[0]);
      CarefulRunsStayWithinBudget(Apply(w, run[0]), run[1..]);
    }
  }

  /** Within the budget the table check never aborts a claim. */
  lemma NoClaimAborts(w: World, a: Action)
    requires BudgetInv(w) && a.ClaimTickets? && Enabled(w, a)
    ensures !ClaimAborts(w.db.tickets, Elements(TakeUnlocked(a.rows, a.locked, a.limit)))
  {
    forall t | t in Elements(TakeUnlocked(a.rows, a.locked, a.limit)) && t in w.db.tickets
      ensures w.db.tickets[t].attemptCount <= w.db.tickets[t].maxAttempts
    {
      assert WithinBudget(w.db.tickets[t]);
    }
  }

  // ---------------------------------------------------------------- exactly when the bound holds

  ghost predicate AllWithin(db: Db) {
    forall t :: t in db.tickets ==> WithinBudget(db.tickets[t])
  }

  /** The owner is granted a retry from what it remembers, although the row has no attempt left. */
  predicate OverRetries(w: World, a: Action) {
    && Settles(w, a) && OwnsItsTicket(w.db, Settler(w, a)) && GrantsRetry(w, a)
    && w.db.tickets[Settler(w, a).copy.ticketId].attemptCount >= w.db.tickets[Settler(w, a).copy.ticketId].maxAttempts
  }

  lemma StepKeepsMaximum(w: World, a: Action, t: Id)
    requires Enabled(w, a) && t in w.db.tickets
    ensures t in Apply(w, a).db.tickets && TicketStep(w.db.tickets[t], Apply(w, a).db.tickets[t])
  {
    EveryActionFollowsTheTable(w, a);
  }

  lemma SettledBudgetIff(w: World, a: Action)
    requires ExecutionsOk(w) && Enabled(w, a) && Settles(w, a) && OwnsItsTicket(w.db, Settler(w, a))
    requires WithinBudget(w.db.tickets[Settler(w, a).copy.ticketId])
    ensures var t := Settler(w, a).copy.ticketId;
            t in Apply(w, a).db.tickets && (WithinBudget(Apply(w, a).db.tickets[t]) <==> !OverRetries(w, a))
  {
    var t := Settler(w, a).copy.ticketId;
    AttemptsCountClaims(w, a, t);
    StepKeepsMaximum(w, a, t);
    RetryIffGranted(w, a);
  }

  /** When one claim ends, only the row of its ticket decides. */
  lemma OneRowDecides(before: Db, after: Db, t: Id)
    requires AllWithin(before) && EndsClaim(before, after, t)
    ensures AllWithin(after) <==> WithinBudget(after.tickets[t])
  {
    if WithinBudget(after.tickets[t]) {
      forall u | u in after.tickets
        ensures WithinBudget(after.tickets[u])
      {
        if u != t {
          assert after.tickets[u] == before.tickets[u];
        }
      }
    }
  }

  lemma OwnerStepBudgetIff(w: World, a: Action)
    requires ExecutionsOk(w) && AllWithin(w.db) && Enabled(w, a) && Settles(w, a) && OwnsItsTicket(w.db, Settler(w, a))
    ensures AllWithin(Apply(w, a).db) <==> !OverRetries(w, a)
  {
    var t := Settler(w, a).copy.ticketId;
    assert WithinBudget(w.db.tickets[t]);
    SettledBudgetIff(w, a);
    SettlementTouchesOnlyItsTicket(w, a);
    OneRowDecides(w.db, Apply(w, a).db, t);
  }

  lemma OtherStepsWithinBudget(w: World, a: Action)
    requires RowsOk(w.db) && AllWithin(w.db) && Enabled(w, a) && !Settles(w, a)
    ensures AllWithin(Apply(w, a).db)
  {
    forall t | t in Apply(w, a).db.tickets
      ensures WithinBudget(Apply(w, a).db.tickets[t])
    {
      OtherStepWithinBudget(w, a, t);
    }
  }

  /** A step keeps every ticket within its budget exactly when it grants no retry on a row without an attempt left. */
  lemma RetryKeepsTheBoundIff(w: World, a: Action)
    requires RowsOk(w.db) && ExecutionsOk(w) && AllWithin(w.db) && Enabled(w, a)
    ensures AllWithin(Apply(w, a).db) <==> !OverRetries(w, a)
  {
    if Settles(w, a) {
      if OwnsItsTicket(w.db, Settler(w, a)) {
        OwnerStepBudgetIff(w, a);
      } else {
        OutsidersChangeNothing(w, a);
      }
    } else {
      OtherStepsWithinBudget(w, a);
    }
  }

  lemma OtherStepWithinBudget(w: World, a: Action, t: Id)
    requires RowsOk(w.db) && AllWithin(w.db) && Enabled(w, a) && !Settles(w, a) && t in Apply(w, a).db.tickets
    ensures WithinBudget(Apply(w, a).db.tickets[t])
  {
    if t in w.db.tickets {
      assert RowOk(w.db, t, w.db.tickets[t]);
      OtherWithinBudget(w, a, t);
    } else {
      NewWithinBudget(w, a, t);
    }
  }

  /** Every world along the run, its first and last included, keeps every ticket within its budget. */
  ghost predicate AlwaysWithin(w: World, run: seq<Action>)
    requires ValidRun(w, run)
    decreases |run|
  {
    AllWithin(w.db) && (run == [] || AlwaysWithin(Apply(w, run[0]), run[1..]))
  }

  ghost predicate SomeOverRetry(w: World, run: seq<Action>)
    requires ValidRun(w, run)
    decreases |run|
  {
    run != [] && (OverRetries(w, run[0]) || SomeOverRetry(Apply(w, run[0]), run[1..]))
  }

  /** From within budget, a run stays within budget all along exactly when none of its steps is such a retry. */
  lemma {:induction false} RunStaysWithinBudgetIff(w: World, run: seq<Action>)
    requires WorldInv(w) && AllWithin(w.db) && ValidRun(w, run)
    ensures AlwaysWithin(w, run) <==> !SomeOverRetry(w, run)
    decreases |run|
  {
    if run != [] {
      RetryKeepsTheBoundIff(w, run[0]);
      StepKeepsInv(w, run[0]);
      if AllWithin(Apply(w, run[0]).db) {
        RunStaysWithinBudgetIff(Apply(w, run[0]), run[1..]);
      }
    }
  }

  /** Careful runs contain no such retry. */
  lemma {:induction false} CarefulRunsNeverOverRetry(w: World, run: seq<Action>)
    requires WorldInv(w) && BudgetInv(w) && ValidRun(w, run) && CarefulRun(w, run)
    ensures !SomeOverRetry(w, run)
    decreases |run|
  {
    if run != [] {
      StepKeepsBudget(w, run[0]);
      StepKeepsInv(w, run[0]);
      RetryKeepsTheBoundIff(w, run[0]);
      CarefulRunsNeverOverRetry(Apply(w, run[0]), run[1..]);
    }
  }
}
