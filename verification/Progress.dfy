/** Job progress, results and liveness in every reachable world. */
module Progress {
  import opened Lifecycle
  import opened Tables
  import opened Invariants
  import opened Protocol
  import opened Reachability

  /** The cached counters, the terminal status and the completion time of a job are what its rows say. */
  lemma ProgressMatchesRows(run: seq<Action>, j: Id)
    requires ValidRun(INITIAL, run) && j in After(INITIAL, run).db.jobs
    ensures var db := After(INITIAL, run).db;
            var job := db.jobs[j];
            && job.totalTickets == |TicketsOf(db.tickets, j)| > 0
            && job.completed == |TicketsWith(db.tickets, j, Done)|
            && job.failed == |TicketsWith(db.tickets, j, Failed)|
            && job.cancelled == |TicketsWith(db.tickets, j, Cancelled)|
            && job.notApplicable == |TicketsWith(db.tickets, j, NotApplicable)|
            && (IsTerminalJob(job.status) <==> AllTerminal(db.tickets, j))
            && (job.completedAt.Some? <==> AllTerminal(db.tickets, j))
            && (AllTerminal(db.tickets, j) ==> job.status == OutcomeStatus(db.tickets, j))
  {
    ReachableInv(run);
    assert JobAgrees(After(INITIAL, run).db.jobs[j], After(INITIAL, run).db.tickets, j);
  }

  /** Cancelled tickets and the CANCELLED status exist only after a request, and a requested job ends no other way. */
  lemma CancelledOnlyOnRequest(run: seq<Action>, j: Id)
    requires ValidRun(INITIAL, run) && j in After(INITIAL, run).db.jobs
    ensures var db := After(INITIAL, run).db;
            && (TicketsWith(db.tickets, j, Cancelled) != {} ==> CancelRequested(db, j))
            && (IsTerminalJob(db.jobs[j].status) ==> (CancelRequested(db, j) <==> db.jobs[j].status == JobCancelled))
  {
    ReachableInv(run);
    var db := After(INITIAL, run).db;
    assert JobAgrees(db.jobs[j], db.tickets, j);
    RequestDecidesOutcome(db, j);
  }

  lemma RequestDecidesOutcome(db: Db, j: Id)
    requires CancelOk(db) && j in db.jobs && StatusAgrees(db.jobs[j], db.tickets, j)
    ensures TicketsWith(db.tickets, j, Cancelled) != {} ==> CancelRequested(db, j)
    ensures IsTerminalJob(db.jobs[j].status) ==> (CancelRequested(db, j) <==> db.jobs[j].status == JobCancelled)
  {
    CancelledNeedsRequest(db, j);
    if db.jobs[j].status == JobCancelled {
      CancelledStatusMeansRequested(db, j);
    }
    if CancelRequested(db, j) {
      assert HasUnevaluated(db.tickets, j);
    }
  }

  /** The columns of every ticket fit its status, and its result names it and fits its status. */
  lemma RowsFitTheirStatus(run: seq<Action>, t: Id)
    requires ValidRun(INITIAL, run) && t in After(INITIAL, run).db.tickets
    ensures var db := After(INITIAL, run).db;
            && RowShape(db.tickets[t]) && ResultAgrees(db.tickets[t], t, db.results)
            && |ResultsFor(db.results, t)| <= 1
            && (forall r :: r in db.results ==> db.results[r].ticketId in db.tickets)
  {
    ReachableInv(run);
    RowFacts(After(INITIAL, run).db, t);
  }

  lemma RowFacts(db: Db, t: Id)
    requires RowsOk(db) && ResultsOk(db) && t in db.tickets
    ensures RowShape(db.tickets[t]) && ResultAgrees(db.tickets[t], t, db.results)
    ensures |ResultsFor(db.results, t)| <= 1
    ensures forall r :: r in db.results ==> db.results[r].ticketId in db.tickets
  {
    assert RowOk(db, t, db.tickets[t]);
    if r :| r in ResultsFor(db.results, t) {
      assert ResultsFor(db.results, t) == {r};
    }
  }
}
