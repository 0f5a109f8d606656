/** The main results about the queue, stated of runs from empty tables and so of every reachable world. */
module Guarantees {
  import opened Lifecycle
  import opened Tables
  import opened QueueSpec
  import opened Protocol
  import opened Reachability
  import opened Fencing
  import opened Cancellation
  import opened AttemptBudget
  import opened Claims

  /** The world that a run from empty tables reaches. */
  ghost function Reached(run: seq<Action>): World
    requires ValidRun(INITIAL, run)
  {
    After(INITIAL, run)
  }

  /** A settlement commits exactly when its worker owns the RUNNING ticket, and otherwise changes no table. */
  lemma OnlyTheOwnerSettles(run: seq<Action>, a: Action)
    requires ValidRun(INITIAL, run) && Enabled(Reached(run), a) && Settles(Reached(run), a)
    ensures var w := Reached(run);
            && Attempted(w, a).Some?
            && (Attempted(w, a).value.Ok? <==> OwnsItsTicket(w.db, Settler(w, a)))
            && (!OwnsItsTicket(w.db, Settler(w, a)) ==> Apply(w, a).db == w.db)
            && (OwnsItsTicket(w.db, Settler(w, a)) ==> EndsClaim(w.db, Apply(w, a).db, Settler(w, a).copy.ticketId))
            && (forall k :: k in w.db.jobs && k != Settler(w, a).copy.jobId ==>
                  k in Apply(w, a).db.jobs && Apply(w, a).db.jobs[k] == w.db.jobs[k])
  {
    var w := Reached(run);
    ReachableInv(run);
    SettlementCommitsIffOwner(w, a);
    forall k | k in w.db.jobs && k != Settler(w, a).copy.jobId
      ensures k in Apply(w, a).db.jobs && Apply(w, a).db.jobs[k] == w.db.jobs[k]
    {
      SettlementTouchesOnlyItsJob(w, a, k);
    }
    if OwnsItsTicket(w.db, Settler(w, a)) {
      SettlementTouchesOnlyItsTicket(w, a);
    } else {
      OutsidersChangeNothing(w, a);
    }
  }

  /** A heartbeat by anyone but the owner changes no table. */
  lemma OnlyTheOwnerExtends(run: seq<Action>, a: Action)
    requires ValidRun(INITIAL, run) && a.Heartbeat? && !Owns(Reached(run).db, a.t, a.beater)
    ensures Enabled(Reached(run), a) && Apply(Reached(run), a).db == Reached(run).db
  {
    ReachableInv(run);
    OutsidersChangeNothing(Reached(run), a);
  }

  /** Every claim of a ticket has ended exactly once, by a settlement or a sweep, except the one that is RUNNING now. */
  lemma ClaimsEndOnce(run: seq<Action>, t: Id)
    requires ValidRun(INITIAL, run)
    ensures ClaimsOf(INITIAL, run, t) == EndsOf(INITIAL, run, t) + RunningCount(Reached(run).db, t)
  {
    ReachableInv([]);
    ClaimsBalanceEnds(INITIAL, run, t);
  }

  /** A DONE, NOT_APPLICABLE or CANCELLED ticket and its result are the same rows in every later world. */
  lemma FinishedStaysFinished(past: seq<Action>, future: seq<Action>, t: Id)
    requires ValidRun(INITIAL, past) && ValidRun(Reached(past), future)
    requires t in Reached(past).db.tickets && IsFinal(Reached(past).db.tickets[t].status)
    ensures SameTicketState(Reached(past).db, After(Reached(past), future).db, t)
  {
    ReachableInv(past);
    FinalTicketsAreFrozen(Reached(past), future, t);
  }

  /** No result is ever lost, and a ticket that has one keeps its id through every later evaluation. */
  lemma ResultsKeepTheirIds(past: seq<Action>, future: seq<Action>, t: Id)
    requires ValidRun(INITIAL, past) && ValidRun(Reached(past), future)
    ensures ResultsGrow(Reached(past).db.results, After(Reached(past), future).db.results)
    ensures ResultsFor(Reached(past).db.results, t) != {} ==>
              ResultsFor(After(Reached(past), future).db.results, t) == ResultsFor(Reached(past).db.results, t)
  {
    ReachableInv(past);
    ResultIdsSurvive(Reached(past), future);
  }

  /** From a cancellation request on, tickets of the job only wind down and its results are untouched. */
  lemma CancellationIsSafe(past: seq<Action>, future: seq<Action>, j: Id)
    requires ValidRun(INITIAL, past) && ValidRun(Reached(past), future)
    requires CancelRequested(Reached(past).db, j)
    ensures WindsDown(Reached(past).db, After(Reached(past), future).db, j)
  {
    ReachableInv(past);
    CancelledJobWindsDown(Reached(past), future, j);
  }

  /**
   A RETRY ticket of a cancelled job is CANCELLED later exactly when the job was cancelled again; until then
   its row stays as it is and its job does not finish.
   */
  lemma RetryOutlivesCancellation(past: seq<Action>, future: seq<Action>, t: Id)
    requires ValidRun(INITIAL, past) && ValidRun(Reached(past), future) && WaitsForCancel(Reached(past).db, t)
    ensures var before, after := Reached(past).db, After(Reached(past), future).db;
            var cancel := RequestCancel(before.tickets[t].jobId);
            && t in after.tickets
            && (after.tickets[t].status == Retry <==> cancel !in future)
            && (after.tickets[t].status == Cancelled <==> cancel in future)
            && (cancel !in future ==>
                  after.tickets[t] == before.tickets[t] && after.tickets[t].jobId in after.jobs
                  && !IsTerminalJob(after.jobs[after.tickets[t].jobId].status))
  {
    ReachableInv(past);
    StrandedUntilCancelledAgain(Reached(past), future, t);
    RunKeepsInv(Reached(past), future);
    RunKeepsRequests(Reached(past), future, Reached(past).db.tickets[t].jobId);
    if RequestCancel(Reached(past).db.tickets[t].jobId) !in future {
      WaitingJobIsOpen(After(Reached(past), future).db, t);
    }
  }

  lemma {:induction false} RunKeepsRequests(w: World, run: seq<Action>, j: Id)
    requires ValidRun(w, run) && CancelRequested(w.db, j)
    ensures CancelRequested(After(w, run).db, j)
    decreases |run|
  {
    if run != [] {
      EveryActionFollowsTheTable(w, run[0]);
      RunKeepsRequests(Apply(w, run[0]), run[1..], j);
    }
  }

  /** A ticket comes to wait like this exactly when its owner retries it directly in a job already cancelled. */
  lemma RetryIsStrandedIff(run: seq<Action>, a: Action, t: Id)
    requires ValidRun(INITIAL, run) && Enabled(Reached(run), a) && t in Reached(run).db.tickets
    requires !WaitsForCancel(Reached(run).db, t)
    ensures var w := Reached(run);
            WaitsForCancel(Apply(w, a).db, t) <==>
            CancelRequested(w.db, w.db.tickets[t].jobId) && Settles(w, a) && OwnsItsTicket(w.db, Settler(w, a))
            && Settler(w, a).copy.ticketId == t && RetriesDirectly(a, Settler(w, a))
  {
    ReachableInv(run);
    StartsToWaitIff(Reached(run), a, t);
  }

  lemma StartIsWithinBudget()
    ensures BudgetInv(INITIAL) && WorldInv(INITIAL)
  {
    ReachableInv([]);
  }

  /** When no worker claims what it is still executing, attempts keep to the maximum and no claim is aborted. */
  lemma AttemptsKeepToTheMaximum(run: seq<Action>, t: Id)
    requires ValidRun(INITIAL, run) && CarefulRun(INITIAL, run) && t in Reached(run).db.tickets
    ensures var row := Reached(run).db.tickets[t];
            row.attemptCount <= row.maxAttempts && (IsPending(row.status) ==> row.attemptCount < row.maxAttempts)
  {
    StartIsWithinBudget();
    CarefulRunsStayWithinBudget(INITIAL, run);
    assert WithinBudget(Reached(run).db.tickets[t]);
  }

  lemma CarefulClaimsSucceed(run: seq<Action>, a: Action)
    requires ValidRun(INITIAL, run) && CarefulRun(INITIAL, run) && a.ClaimTickets? && Enabled(Reached(run), a)
    ensures Taken(Reached(run), a) == TakeUnlocked(a.rows, a.locked, a.limit)
  {
    StartIsWithinBudget();
    CarefulRunsStayWithinBudget(INITIAL, run);
    NoClaimAborts(Reached(run), a);
  }

  /** A run from empty tables stays within budget all along exactly when no step grants a retry on a used-up row. */
  lemma RetryIsWithinBudgetIff(run: seq<Action>)
    requires ValidRun(INITIAL, run)
    ensures AlwaysWithin(INITIAL, run) <==> !SomeOverRetry(INITIAL, run)
  {
    StartIsWithinBudget();
    RunStaysWithinBudgetIff(INITIAL, run);
  }

  /**
   A pending ticket of an uncancelled job with more attempts than its maximum can be given to nobody, and its row
   stays as it is, exactly until its job is cancelled.
   */
  lemma StuckTicketWaitsForCancel(past: seq<Action>, future: seq<Action>, t: Id)
    requires ValidRun(INITIAL, past) && ValidRun(Reached(past), future) && IsStuck(Reached(past).db, t)
    ensures var before, after := Reached(past).db, After(Reached(past), future);
            var cancel := RequestCancel(before.tickets[t].jobId);
            && t in after.db.tickets
            && (after.db.tickets[t].status == Cancelled <==> cancel in future)
            && (cancel !in future ==> after.db.tickets[t] == before.tickets[t] && !CanBeTaken(after, t))
  {
    ReachableInv(past);
    StuckUntilCancelled(Reached(past), future, t);
    CanBeTakenIff(After(Reached(past), future), t);
  }
}
