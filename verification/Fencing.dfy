/** Ownership: who may change a claimed ticket, and how often a claim can end. */
module Fencing {
  import opened Options
  import opened Lifecycle
  import opened Tables
  import opened QueueSpec
  import opened Invariants
  import opened Preservation
  import opened Protocol
  import opened Reachability

  /** The worker and the ticket a settlement action speaks for. */
  predicate Settles(w: World, a: Action) {
    match a
    case PersistVerdict(e, _, _, _) => e in w.execs
    case HandleError(e, _, _) => e in w.execs
    case SettleAsCancelled(e) => e in w.execs
    case _ => false
  }

  function Settler(w: World, a: Action): Execution
    requires Settles(w, a)
  {
    match a
    case PersistVerdict(e, _, _, _) => w.execs[e]
    case HandleError(e, _, _) => w.execs[e]
    case SettleAsCancelled(e) => w.execs[e]
  }

  predicate OwnsItsTicket(db: Db, x: Execution) {
    Owns(db, x.copy.ticketId, x.worker)
  }

  lemma PersistCommitsIffOwner(db: Db, c: ClaimCopy, verdict: Verdict, target: TicketStatus, delay: nat, newId: Id,
                               worker: Worker, now: int)
    requires c.ticketId in db.tickets && worker != "" && Allowed(Running, target)
    ensures PersistOnce(db, c, verdict, target, delay, newId, worker, now).Ok? <==> Owns(db, c.ticketId, worker)
  {
    var row := EvalResult(c.jobId, c.ticketId, verdict, c.attemptCount);
    SettleCommitsIffOwner(db, c.ticketId, Cancelled, None, 0, c.jobId, worker, now);
    SettleCommitsIffOwner(db, c.ticketId, target, None, delay, c.jobId, worker, now);
    SettleCommitsIffOwner(db.(results := Upsert(db.results, row, newId)), c.ticketId, target,
                          Some(UpsertId(db.results, c.ticketId, newId)), delay, c.jobId, worker, now);
  }

  lemma HandleFailureCommitsIffOwner(db: Db, c: ClaimCopy, cls: ErrorClass, delay: nat, newId: Id, worker: Worker,
                                     now: int)
    requires c.ticketId in db.tickets && worker != ""
    ensures HandleFailure(db, c, cls, delay, newId, worker, now).Ok? <==> Owns(db, c.ticketId, worker)
  {
    PersistCommitsIffOwner(db, c, VerdictFailed, Failed, 0, newId, worker, now);
    PersistCommitsIffOwner(db, c, VerdictError, Failed, 0, newId, worker, now);
    SettleCommitsIffOwner(db, c.ticketId, Retry, None, delay, c.jobId, worker, now);
  }

  /** A settlement commits exactly when its worker owns the ticket as RUNNING at that moment. */
  lemma SettlementCommitsIffOwner(w: World, a: Action)
    requires ExecutionsOk(w) && Enabled(w, a) && Settles(w, a)
    ensures Attempted(w, a).Some?
    ensures Attempted(w, a).value.Ok? <==> OwnsItsTicket(w.db, Settler(w, a))
  {
    var x := Settler(w, a);
    assert ExecutionOk(w.db, x);
    match a
    case PersistVerdict(e, verdict, delay, newId) =>
      PersistCommitsIffOwner(w.db, x.copy, verdict, VerdictTarget(x.copy, verdict), delay, newId, x.worker, w.now);
    case HandleError(e, delay, newId) =>
      HandleFailureCommitsIffOwner(w.db, x.copy, x.phase.cls, delay, newId, x.worker, w.now);
    case SettleAsCancelled(e) =>
      SettleCommitsIffOwner(w.db, x.copy.ticketId, Cancelled, None, 0, x.copy.jobId, x.worker, w.now);
  }

  /** A settlement or heartbeat by anyone but the owner leaves all three tables as they were. */
  lemma OutsidersChangeNothing(w: World, a: Action)
    requires ExecutionsOk(w) && Enabled(w, a)
    requires (Settles(w, a) && !OwnsItsTicket(w.db, Settler(w, a)))
             || (a.Heartbeat? && !Owns(w.db, a.t, a.beater))
    ensures Apply(w, a).db == w.db
  {
    if Settles(w, a) {
      SettlementCommitsIffOwner(w, a);
    }
  }

  // ---------------------------------------------------------------- what a settlement touches

  /** Rows of other tickets stay, no row is lost, and a row never changes its ticket or job. */
  ghost predicate OnlyResultsOf(before: map<Id, EvalResult>, after: map<Id, EvalResult>, t: Id) {
    && before.Keys <= after.Keys
    && (forall r :: r in before ==> after[r].ticketId == before[r].ticketId && after[r].jobId == before[r].jobId)
    && (forall r :: r in before && before[r].ticketId != t ==> after[r] == before[r])
    && (forall r :: r in after && r !in before ==> after[r].ticketId == t)
  }

  lemma UpsertTouchesOnly(results: map<Id, EvalResult>, row: EvalResult, newId: Id)
    requires newId !in results
    ensures OnlyResultsOf(results, Upsert(results, row, newId), row.ticketId)
  {
    UpsertIdNames(results, row.ticketId, newId);
  }

  ghost predicate TouchesOnly(before: Db, after: Db, t: Id) {
    && before.tickets.Keys == after.tickets.Keys && before.jobs.Keys == after.jobs.Keys
    && (forall u :: u in before.tickets && u != t ==> after.tickets[u] == before.tickets[u])
    && OnlyResultsOf(before.results, after.results, t)
  }

  lemma SettleTouchesOnly(db: Db, results: map<Id, EvalResult>, t: Id, target: TicketStatus, result: Option<Id>,
                          delay: nat, j: Id, worker: Worker, now: int)
    requires OnlyResultsOf(db.results, results, t)
    ensures var r := Settle(db.(results := results), t, target, result, delay, j, worker, now);
            r.Ok? ==> TouchesOnly(db, r.value, t) && r.value.results == results
                      && r.value.tickets[t].status == target
  {
    SettleCommitsIffOwner(db.(results := results), t, target, result, delay, j, worker, now);
  }

  lemma PersistTouchesOnly(db: Db, c: ClaimCopy, verdict: Verdict, target: TicketStatus, delay: nat, newId: Id,
                           worker: Worker, now: int)
    requires newId !in db.results
    ensures var r := PersistOnce(db, c, verdict, target, delay, newId, worker, now);
            r.Ok? && c.ticketId in db.tickets ==>
              TouchesOnly(db, r.value, c.ticketId)
              && r.value.tickets[c.ticketId].status == (if CancelRequested(db, c.jobId) then Cancelled else target)
              && (CancelRequested(db, c.jobId) ==> r.value.results == db.results)
  {
    if c.ticketId in db.tickets {
      var row := EvalResult(c.jobId, c.ticketId, verdict, c.attemptCount);
      UpsertTouchesOnly(db.results, row, newId);
      SettleTouchesOnly(db, db.results, c.ticketId, Cancelled, None, 0, c.jobId, worker, now);
      SettleTouchesOnly(db, db.results, c.ticketId, target, None, delay, c.jobId, worker, now);
      SettleTouchesOnly(db, Upsert(db.results, row, newId), c.ticketId, target,
                        Some(UpsertId(db.results, c.ticketId, newId)), delay, c.jobId, worker, now);
      assert db.(results := db.results) == db;
    }
  }

  lemma HandleFailureTouchesOnly(db: Db, c: ClaimCopy, cls: ErrorClass, delay: nat, newId: Id, worker: Worker, now: int)
    requires newId !in db.results && c.ticketId in db.tickets
    ensures var r := HandleFailure(db, c, cls, delay, newId, worker, now);
            r.Ok? ==> EndsClaim(db, r.value, c.ticketId)
  {
    PersistTouchesOnly(db, c, VerdictFailed, Failed, 0, newId, worker, now);
    PersistTouchesOnly(db, c, VerdictError, Failed, 0, newId, worker, now);
    SettleTouchesOnly(db, db.results, c.ticketId, Retry, None, delay, c.jobId, worker, now);
    assert db.(results := db.results) == db;
  }

  /** Ticket `t` left RUNNING, and no other ticket and no result of another ticket changed. */
  ghost predicate EndsClaim(before: Db, after: Db, t: Id) {
    TouchesOnly(before, after, t) && t in after.tickets && after.tickets[t].status != Running
  }

  lemma CommitEndsClaim(w: World, a: Action)
    requires Enabled(w, a) && Settles(w, a) && Attempted(w, a).Some? && Attempted(w, a).value.Ok?
    requires Settler(w, a).copy.ticketId in w.db.tickets
    ensures EndsClaim(w.db, Attempted(w, a).value.value, Settler(w, a).copy.ticketId)
  {
    var x := Settler(w, a);
    match a
    case PersistVerdict(e, verdict, delay, newId) =>
      PersistTouchesOnly(w.db, x.copy, verdict, VerdictTarget(x.copy, verdict), delay, newId, x.worker, w.now);
    case HandleError(e, delay, newId) =>
      HandleFailureTouchesOnly(w.db, x.copy, x.phase.cls, delay, newId, x.worker, w.now);
    case SettleAsCancelled(e) =>
      SettleTouchesOnly(w.db, w.db.results, x.copy.ticketId, Cancelled, None, 0, x.copy.jobId, x.worker, w.now);
      assert w.db.(results := w.db.results) == w.db;
  }

  /** A committed settlement ends the claim of its own ticket and touches no other ticket or result. */
  lemma SettlementTouchesOnlyItsTicket(w: World, a: Action)
    requires ExecutionsOk(w) && Enabled(w, a) && Settles(w, a) && OwnsItsTicket(w.db, Settler(w, a))
    ensures EndsClaim(w.db, Apply(w, a).db, Settler(w, a).copy.ticketId)
  {
    SettlementCommitsIffOwner(w, a);
    CommitEndsClaim(w, a);
  }

  /** The action takes a branch that settles RETRY: a direct retry, or an evaluator error outside a cancelled job. */
  predicate GrantsRetry(w: World, a: Action)
    requires Settles(w, a)
  {
    match a
    case HandleError(e, _, _) =>
      w.execs[e].phase.Handling? && GetsAnotherAttempt(w.execs[e].copy, w.execs[e].phase.cls)
    case PersistVerdict(e, verdict, _, _) =>
      VerdictTarget(w.execs[e].copy, verdict) == Retry && !CancelRequested(w.db, w.execs[e].copy.jobId)
    case _ => false
  }

  lemma HandledStatus(db: Db, c: ClaimCopy, cls: ErrorClass, delay: nat, newId: Id, worker: Worker, now: int)
    requires newId !in db.results && c.ticketId in db.tickets
    ensures var r := HandleFailure(db, c, cls, delay, newId, worker, now);
            r.Ok? ==> c.ticketId in r.value.tickets
                      && (r.value.tickets[c.ticketId].status == Retry <==> GetsAnotherAttempt(c, cls))
  {
    PersistTouchesOnly(db, c, VerdictFailed, Failed, 0, newId, worker, now);
    PersistTouchesOnly(db, c, VerdictError, Failed, 0, newId, worker, now);
    SettleTouchesOnly(db, db.results, c.ticketId, Retry, None, delay, c.jobId, worker, now);
    assert db.(results := db.results) == db;
  }

  /** A committed settlement leaves its ticket in RETRY exactly when it took such a branch. */
  lemma RetryIffGranted(w: World, a: Action)
    requires ExecutionsOk(w) && Enabled(w, a) && Settles(w, a) && OwnsItsTicket(w.db, Settler(w, a))
    ensures var t := Settler(w, a).copy.ticketId;
            t in Apply(w, a).db.tickets && (Apply(w, a).db.tickets[t].status == Retry <==> GrantsRetry(w, a))
  {
    SettlementCommitsIffOwner(w, a);
    var x := Settler(w, a);
    match a
    case PersistVerdict(e, verdict, delay, newId) =>
      PersistTouchesOnly(w.db, x.copy, verdict, VerdictTarget(x.copy, verdict), delay, newId, x.worker, w.now);
    case HandleError(e, delay, newId) =>
      HandledStatus(w.db, x.copy, x.phase.cls, delay, newId, x.worker, w.now);
    case SettleAsCancelled(e) =>
      SettleTouchesOnly(w.db, w.db.results, x.copy.ticketId, Cancelled, None, 0, x.copy.jobId, x.worker, w.now);
      assert w.db.(results := w.db.results) == w.db;
  }

  lemma SettleTouchesOnlyJob(db: Db, results: map<Id, EvalResult>, t: Id, target: TicketStatus, result: Option<Id>,
                             delay: nat, j: Id, worker: Worker, now: int, k: Id)
    requires k in db.jobs && k != j
    ensures var r := Settle(db.(results := results), t, target, result, delay, j, worker, now);
            r.Ok? ==> k in r.value.jobs && r.value.jobs[k] == db.jobs[k]
  {
    SettleCommitsIffOwner(db.(results := results), t, target, result, delay, j, worker, now);
  }

  /** A settlement changes no job row but that of its ticket's job. */
  lemma SettlementTouchesOnlyItsJob(w: World, a: Action, k: Id)
    requires Enabled(w, a) && Settles(w, a) && Attempted(w, a).Some?
    requires k in w.db.jobs && k != Settler(w, a).copy.jobId
    ensures k in Apply(w, a).db.jobs && Apply(w, a).db.jobs[k] == w.db.jobs[k]
  {
    var x := Settler(w, a);
    var c := x.copy;
    assert w.db.(results := w.db.results) == w.db;
    SettleTouchesOnlyJob(w.db, w.db.results, c.ticketId, Cancelled, None, 0, c.jobId, x.worker, w.now, k);
    match a
    case PersistVerdict(e, verdict, delay, newId) =>
      PersistTouchesOnlyJob(w.db, c, verdict, VerdictTarget(c, verdict), delay, newId, x.worker, w.now, k);
    case HandleError(e, delay, newId) =>
      PersistTouchesOnlyJob(w.db, c, VerdictFailed, Failed, 0, newId, x.worker, w.now, k);
      PersistTouchesOnlyJob(w.db, c, VerdictError, Failed, 0, newId, x.worker, w.now, k);
      SettleTouchesOnlyJob(w.db, w.db.results, c.ticketId, Retry, None, delay, c.jobId, x.worker, w.now, k);
    case SettleAsCancelled(e) =>
  }

  lemma PersistTouchesOnlyJob(db: Db, c: ClaimCopy, verdict: Verdict, target: TicketStatus, delay: nat, newId: Id,
                              worker: Worker, now: int, k: Id)
    requires k in db.jobs && k != c.jobId
    ensures var r := PersistOnce(db, c, verdict, target, delay, newId, worker, now);
            r.Ok? ==> k in r.value.jobs && r.value.jobs[k] == db.jobs[k]
  {
    var row := EvalResult(c.jobId, c.ticketId, verdict, c.attemptCount);
    assert db.(results := db.results) == db;
    SettleTouchesOnlyJob(db, db.results, c.ticketId, Cancelled, None, 0, c.jobId, worker, now, k);
    SettleTouchesOnlyJob(db, db.results, c.ticketId, target, None, delay, c.jobId, worker, now, k);
    SettleTouchesOnlyJob(db, Upsert(db.results, row, newId), c.ticketId, target,
                         Some(UpsertId(db.results, c.ticketId, newId)), delay, c.jobId, worker, now, k);
  }

  // ---------------------------------------------------------------- claims and their ends

  /** The action claims ticket `t`. */
  ghost predicate Starts(w: World, a: Action, t: Id) {
    t in Taken(w, a)
  }

  /** The action reports an end of a claim of `t`: a committed settlement or a row of a recovery sweep. */
  ghost predicate Ends(w: World, a: Action, t: Id)
    requires Enabled(w, a)
  {
    match a
    case RecoverLeases(expired, abandoned, _) => t in expired || t in abandoned
    case _ => SettledBy(w, a) == Some(t)
  }

  /** The ticket whose settlement the action commits, if it commits one. */
  ghost function SettledBy(w: World, a: Action): Option<Id>
    requires Enabled(w, a)
  {
    if Settles(w, a) && Attempted(w, a).Some? && Attempted(w, a).value.Ok?
    then Some(Settler(w, a).copy.ticketId)
    else None
  }

  predicate IsRunning(db: Db, t: Id) {
    t in db.tickets && db.tickets[t].status == Running
  }

  lemma SweepEndsRunning(db: Db, expired: set<Id>, abandoned: set<Id>, jitter: map<Id, nat>, now: int, t: Id)
    requires expired <= ExpiredTickets(db, now)
    requires abandoned <= ExpiredCancelledTickets(RecoverExpired(db, expired, jitter, now), now)
    ensures t in expired || t in abandoned ==>
              IsRunning(db, t) && !IsRunning(Recover(db, expired, abandoned, jitter, now), t)
    ensures t !in expired && t !in abandoned ==>
              (IsRunning(Recover(db, expired, abandoned, jitter, now), t) <==> IsRunning(db, t))
  {
    var first := RecoverExpired(db, expired, jitter, now);
    if t in abandoned {
      assert t in ExpiredCancelledTickets(first, now);
    }
  }

  lemma OperatorsLeaveRunning(db: Db, j: Id, now: int, t: Id)
    ensures CancelJob(db, j, now).Ok? ==> (IsRunning(CancelJob(db, j, now).value, t) <==> IsRunning(db, t))
    ensures RetryFailed(db, j, now).Ok? ==> (IsRunning(RetryFailed(db, j, now).value, t) <==> IsRunning(db, t))
  {
  }

  /** A claim makes its ticket RUNNING, an end stops that, and nothing else does either. */
  lemma RunningChangesOnlyByClaims(w: World, a: Action, t: Id)
    requires ExecutionsOk(w) && Enabled(w, a)
    ensures Starts(w, a, t) ==> !IsRunning(w.db, t) && IsRunning(Apply(w, a).db, t) && !Ends(w, a, t)
    ensures Ends(w, a, t) ==> IsRunning(w.db, t) && !IsRunning(Apply(w, a).db, t)
    ensures !Starts(w, a, t) && !Ends(w, a, t) ==> (IsRunning(Apply(w, a).db, t) <==> IsRunning(w.db, t))
  {
    if Settles(w, a) {
      SettlementCommitsIffOwner(w, a);
      if OwnsItsTicket(w.db, Settler(w, a)) {
        SettlementTouchesOnlyItsTicket(w, a);
      } else {
        OutsidersChangeNothing(w, a);
      }
    } else {
      OtherActionsRunning(w, a, t);
    }
  }

  lemma OtherActionsRunning(w: World, a: Action, t: Id)
    requires Enabled(w, a) && !Settles(w, a)
    ensures Starts(w, a, t) ==> !IsRunning(w.db, t) && IsRunning(Apply(w, a).db, t) && !Ends(w, a, t)
    ensures Ends(w, a, t) ==> IsRunning(w.db, t) && !IsRunning(Apply(w, a).db, t)
    ensures !Starts(w, a, t) && !Ends(w, a, t) ==> (IsRunning(Apply(w, a).db, t) <==> IsRunning(w.db, t))
  {
    match a
    case ClaimTickets(_, _, _, _, _, _, _, _) =>
      TakenAreEligible(w, a);
      assert t in Elements(Taken(w, a)) <==> t in Taken(w, a);
    case RecoverLeases(expired, abandoned, jitter) => SweepEndsRunning(w.db, expired, abandoned, jitter, w.now, t);
    case RequestCancel(j) => OperatorsLeaveRunning(w.db, j, w.now, t);
    case RequestRetry(j) => OperatorsLeaveRunning(w.db, j, w.now, t);
    case _ =>
  }

  ghost function ClaimsOf(w: World, run: seq<Action>, t: Id): nat
    requires ValidRun(w, run)
    decreases |run|
  {
    if run == [] then 0
    else (if Starts(w, run[0], t) then 1 else 0) + ClaimsOf(Apply(w, run[0]), run[1..], t)
  }

  ghost function EndsOf(w: World, run: seq<Action>, t: Id): nat
    requires ValidRun(w, run)
    decreases |run|
  {
    if run == [] then 0
    else (if Ends(w, run[0], t) then 1 else 0) + EndsOf(Apply(w, run[0]), run[1..], t)
  }

  function RunningCount(db: Db, t: Id): nat {
    if IsRunning(db, t) then 1 else 0
  }

  /** Conservation: over any run, claims of a ticket and their ends differ only by whether it is RUNNING. */
  lemma {:induction false} ClaimsBalanceEnds(w: World, run: seq<Action>, t: Id)
    requires WorldInv(w) && ValidRun(w, run)
    ensures RunningCount(w.db, t) + ClaimsOf(w, run, t) == EndsOf(w, run, t) + RunningCount(After(w, run).db, t)
    decreases |run|
  {
    if run != [] {
      StepKeepsInv(w, run[0]);
      RunningChangesOnlyByClaims(w, run[0], t);
      ClaimsBalanceEnds(Apply(w, run[0]), run[1..], t);
    }
  }

  // ---------------------------------------------------------------- frozen rows

  /** DONE, NOT_APPLICABLE and CANCELLED are final. */
  predicate IsFinal(s: TicketStatus) {
    s == Done || s == NotApplicable || s == Cancelled
  }

  /** Results only grow, and a row keeps its ticket and its job. */
  ghost predicate ResultsGrow(before: map<Id, EvalResult>, after: map<Id, EvalResult>) {
    && before.Keys <= after.Keys
    && (forall r :: r in before ==> after[r].ticketId == before[r].ticketId && after[r].jobId == before[r].jobId)
  }

  /** The ticket's row and its results are the same in both tables. */
  ghost predicate SameTicketState(before: Db, after: Db, t: Id) {
    && t in before.tickets && t in after.tickets && after.tickets[t] == before.tickets[t]
    && ResultsFor(after.results, t) == ResultsFor(before.results, t)
    && (forall r :: r in ResultsFor(before.results, t) ==> after.results[r] == before.results[r])
  }

  lemma OtherActionsKeepResults(w: World, a: Action)
    requires Enabled(w, a) && !Settles(w, a)
    ensures Apply(w, a).db.results == w.db.results
  {
  }

  lemma StepGrowsResults(w: World, a: Action)
    requires ExecutionsOk(w) && Enabled(w, a)
    ensures ResultsGrow(w.db.results, Apply(w, a).db.results)
  {
    if Settles(w, a) {
      if OwnsItsTicket(w.db, Settler(w, a)) {
        SettlementTouchesOnlyItsTicket(w, a);
      } else {
        OutsidersChangeNothing(w, a);
      }
    } else {
      OtherActionsKeepResults(w, a);
    }
  }

  lemma OtherActionsKeepFinal(w: World, a: Action, t: Id)
    requires Enabled(w, a) && !Settles(w, a) && t in w.db.tickets && IsFinal(w.db.tickets[t].status)
    ensures t in Apply(w, a).db.tickets && Apply(w, a).db.tickets[t] == w.db.tickets[t]
  {
    match a
    case ClaimTickets(_, _, _, _, _, _, _, _) => TakenAreEligible(w, a);
    case RecoverLeases(expired, abandoned, jitter) => SweepEndsRunning(w.db, expired, abandoned, jitter, w.now, t);
    case _ =>
  }

  lemma OthersClaimKeepsFinal(before: Db, after: Db, t: Id, u: Id)
    requires EndsClaim(before, after, u) && u != t && t in before.tickets
    ensures SameTicketState(before, after, t)
  {
  }

  lemma StepKeepsFinal(w: World, a: Action, t: Id)
    requires ExecutionsOk(w) && Enabled(w, a) && t in w.db.tickets && IsFinal(w.db.tickets[t].status)
    ensures SameTicketState(w.db, Apply(w, a).db, t)
  {
    if Settles(w, a) {
      if OwnsItsTicket(w.db, Settler(w, a)) {
        SettlementTouchesOnlyItsTicket(w, a);
        OthersClaimKeepsFinal(w.db, Apply(w, a).db, t, Settler(w, a).copy.ticketId);
      } else {
        OutsidersChangeNothing(w, a);
      }
    } else {
      OtherActionsKeepResults(w, a);
      OtherActionsKeepFinal(w, a, t);
    }
  }

  /** Once a ticket is DONE, NOT_APPLICABLE or CANCELLED, its row and its result never change again. */
  lemma {:induction false} FinalTicketsAreFrozen(w: World, run: seq<Action>, t: Id)
    requires WorldInv(w) && ValidRun(w, run) && t in w.db.tickets && IsFinal(w.db.tickets[t].status)
    ensures SameTicketState(w.db, After(w, run).db, t)
    decreases |run|
  {
    if run != [] {
      StepKeepsInv(w, run[0]);
      StepKeepsFinal(w, run[0], t);
      FinalTicketsAreFrozen(Apply(w, run[0]), run[1..], t);
    }
  }

  /** The id of a ticket's result survives every later evaluation of that ticket. */
  lemma {:induction false} ResultIdsSurvive(w: World, run: seq<Action>)
    requires WorldInv(w) && ValidRun(w, run)
    ensures ResultsGrow(w.db.results, After(w, run).db.results)
    ensures forall t :: ResultsFor(w.db.results, t) != {} ==>
              ResultsFor(After(w, run).db.results, t) == ResultsFor(w.db.results, t)
    decreases |run|
  {
    if run != [] {
      StepKeepsInv(w, run[0]);
      StepGrowsResults(w, run[0]);
      ResultIdsSurvive(Apply(w, run[0]), run[1..]);
    }
    RunKeepsInv(w, run);
    forall t | ResultsFor(w.db.results, t) != {}
      ensures ResultsFor(After(w, run).db.results, t) == ResultsFor(w.db.results, t)
    {
      GrownResultsStayUnique(w.db.results, After(w, run).db.results, t);
    }
  }

  lemma GrownResultsStayUnique(before: map<Id, EvalResult>, after: map<Id, EvalResult>, t: Id)
    requires ResultsGrow(before, after) && UniquePerTicket(after) && ResultsFor(before, t) != {}
    ensures ResultsFor(after, t) == ResultsFor(before, t)
  {
    var r :| r in ResultsFor(before, t);
    assert after[r].ticketId == t;
  }
}
