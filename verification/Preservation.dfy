/** Every transaction keeps the table invariant. */
module Preservation {
  import opened Options
  import opened Lifecycle
  import opened Tables
  import opened QueueSpec
  import opened Invariants

  /** The part of the invariant that does not speak of job progress. */
  ghost predicate RowInv(db: Db) {
    RowsOk(db) && ResultsOk(db) && CancelOk(db)
  }

  /** Same results and requests, no ticket lost; cancelled, ready and unevaluated tickets stay where they may be. */
  ghost predicate Carries(db: Db, next: Db) {
    && db.tickets.Keys <= next.tickets.Keys && next.results == db.results
    && (forall j :: CancelRequested(next, j) <==> CancelRequested(db, j))
    && (forall t :: t in db.tickets ==> next.tickets[t].jobId == db.tickets[t].jobId)
    && (forall t :: t in next.tickets ==> StatusMayStand(db, next.tickets[t]))
    && (forall t :: t in db.tickets && CancelRequested(db, db.tickets[t].jobId)
                    && IsUnevaluated(db.tickets[t].status) ==>
          IsUnevaluated(next.tickets[t].status))
  }

  predicate StatusMayStand(db: Db, t: Ticket) {
    && (t.status == Cancelled ==> CancelRequested(db, t.jobId))
    && (t.status == Ready ==> !CancelRequested(db, t.jobId))
  }

  /** Rows, results and cancellation facts carry over when every ticket moves to a row that fits. */
  lemma RowsCarryOver(db: Db, next: Db)
    requires ResultsOk(db) && CancelOk(db) && RowsOk(next) && Carries(db, next)
    ensures RowInv(next)
  {
    forall j | CancelRequested(next, j)
      ensures HasUnevaluated(next.tickets, j)
    {
      assert HasUnevaluated(db.tickets, j);
      var u :| u in db.tickets && db.tickets[u].jobId == j && IsUnevaluated(db.tickets[u].status);
      assert u in next.tickets && next.tickets[u].jobId == j;
    }
    forall t | t in next.tickets
      ensures StatusMayStand(db, next.tickets[t])
    {
    }
  }

  /** Job rows that differ from `job` at most in an open status and their start. */
  predicate SameProgress(job: Job, job': Job) {
    && job'.(status := job.status, startedAt := job.startedAt, cancelRequestedAt := job.cancelRequestedAt) == job
    && (job'.status == job.status || (!IsTerminalJob(job.status) && !IsTerminalJob(job'.status)))
  }

  /** Progress carries over when no ticket becomes, or stops being, terminal. */
  lemma JobsCarryOver(db: Db, next: Db, j: Id)
    requires j in db.jobs && JobAgrees(db.jobs[j], db.tickets, j)
    requires j in next.jobs && SameProgress(db.jobs[j], next.jobs[j])
    requires SameTerminals(db.tickets, next.tickets, j)
    ensures JobAgrees(next.jobs[j], next.tickets, j)
  {
    UntouchedJobAgrees(db.jobs[j], next.jobs[j], db.tickets, next.tickets, j);
  }

  // ---------------------------------------------------------------- creation and claim

  lemma InsertedRowsFit(db: Db, j: Id, specs: map<Id, TicketSpec>, now: int)
    requires RowsOk(db) && specs.Keys !! db.tickets.Keys
    requires forall t :: t in specs ==> specs[t].maxAttempts >= 1
    ensures RowsOk(InsertJob(db, j, specs, now))
  {
    var next := InsertJob(db, j, specs, now);
    forall t | t in next.tickets
      ensures RowOk(next, t, next.tickets[t])
    {
      if t in specs {
        assert next.tickets[t] == NewTicket(j, specs[t], now);
      } else {
        assert RowOk(db, t, db.tickets[t]);
      }
    }
  }

  lemma NewTicketsAreListed(tickets: map<Id, Ticket>, j: Id, specs: map<Id, TicketSpec>, now: int)
    requires specs.Keys !! tickets.Keys
    ensures var all := tickets + NewTickets(j, specs, now);
            && (forall t :: t in tickets ==> t in all && all[t] == tickets[t])
            && (forall t :: t in all && t !in tickets ==> all[t].status == Ready && all[t].jobId == j)
  {
  }

  lemma InsertKeepsRequests(db: Db, j: Id, specs: map<Id, TicketSpec>, now: int, k: Id)
    requires j !in db.jobs
    ensures CancelRequested(InsertJob(db, j, specs, now), k) <==> CancelRequested(db, k)
  {
  }

  lemma InsertedMayStand(db: Db, j: Id, specs: map<Id, TicketSpec>, now: int, t: Id)
    requires CancelOk(db) && j !in db.jobs && specs.Keys !! db.tickets.Keys && t in InsertJob(db, j, specs, now).tickets
    ensures StatusMayStand(db, InsertJob(db, j, specs, now).tickets[t])
  {
    NewTicketsAreListed(db.tickets, j, specs, now);
  }

  lemma InsertCarries(db: Db, j: Id, specs: map<Id, TicketSpec>, now: int)
    requires CancelOk(db) && j !in db.jobs && specs.Keys !! db.tickets.Keys
    ensures Carries(db, InsertJob(db, j, specs, now))
  {
    var next := InsertJob(db, j, specs, now);
    NewTicketsAreListed(db.tickets, j, specs, now);
    forall k
      ensures CancelRequested(next, k) <==> CancelRequested(db, k)
    {
      InsertKeepsRequests(db, j, specs, now, k);
    }
    forall t | t in next.tickets
      ensures StatusMayStand(db, next.tickets[t])
    {
      InsertedMayStand(db, j, specs, now, t);
    }
  }

  lemma InsertKeepsRows(db: Db, j: Id, specs: map<Id, TicketSpec>, now: int)
    requires RowInv(db) && j !in db.jobs && specs.Keys !! db.tickets.Keys
    requires forall t :: t in specs ==> specs[t].maxAttempts >= 1
    ensures RowInv(InsertJob(db, j, specs, now))
  {
    InsertedRowsFit(db, j, specs, now);
    InsertCarries(db, j, specs, now);
    RowsCarryOver(db, InsertJob(db, j, specs, now));
  }

  lemma NewTicketsAreReady(tickets: map<Id, Ticket>, j: Id, specs: map<Id, TicketSpec>, now: int)
    requires (forall t :: t in tickets ==> tickets[t].jobId != j) && specs.Keys !! tickets.Keys
    ensures var all := tickets + NewTickets(j, specs, now);
            && TicketsOf(all, j) == specs.Keys
            && forall t :: t in all && all[t].jobId == j ==> all[t].status == Ready
  {
    var all := tickets + NewTickets(j, specs, now);
    assert TicketsOf(all, j) == specs.Keys;
  }

  lemma FreshJobAgrees(job: Job, tickets: map<Id, Ticket>, j: Id)
    requires TicketsOf(tickets, j) != {} && job == Job(JobReady, |TicketsOf(tickets, j)|, 0, 0, 0, 0, None, None, None)
    requires forall t :: t in tickets && tickets[t].jobId == j ==> tickets[t].status == Ready
    ensures JobAgrees(job, tickets, j)
  {
    assert TicketsWith(tickets, j, Done) == {};
    assert TicketsWith(tickets, j, Failed) == {};
    assert TicketsWith(tickets, j, Cancelled) == {};
    assert TicketsWith(tickets, j, NotApplicable) == {};
    var t :| t in TicketsOf(tickets, j);
    assert !AllTerminal(tickets, j);
  }

  lemma InsertedJobAgrees(db: Db, j: Id, specs: map<Id, TicketSpec>, now: int)
    requires (forall t :: t in db.tickets ==> db.tickets[t].jobId != j) && specs.Keys !! db.tickets.Keys
             && specs != map[]
    ensures var next := InsertJob(db, j, specs, now);
            JobAgrees(next.jobs[j], next.tickets, j)
  {
    var next := InsertJob(db, j, specs, now);
    NewTicketsAreReady(db.tickets, j, specs, now);
    FreshJobAgrees(next.jobs[j], next.tickets, j);
  }

  lemma InsertLeavesOthers(db: Db, j: Id, specs: map<Id, TicketSpec>, now: int, k: Id)
    requires k in db.jobs && k != j && specs.Keys !! db.tickets.Keys
    ensures SameProgress(db.jobs[k], InsertJob(db, j, specs, now).jobs[k])
    ensures SameTerminals(db.tickets, InsertJob(db, j, specs, now).tickets, k)
  {
    NewTicketsOfOneJob(db.tickets, j, specs, now, k);
  }

  lemma NewTicketsOfOneJob(tickets: map<Id, Ticket>, j: Id, specs: map<Id, TicketSpec>, now: int, k: Id)
    requires k != j && specs.Keys !! tickets.Keys
    ensures SameTerminals(tickets, tickets + NewTickets(j, specs, now), k)
  {
  }

  lemma InsertKeeps(db: Db, j: Id, specs: map<Id, TicketSpec>, now: int)
    requires DbInv(db) && j !in db.jobs && specs.Keys !! db.tickets.Keys && specs != map[]
    requires forall t :: t in specs ==> specs[t].maxAttempts >= 1
    ensures DbInv(InsertJob(db, j, specs, now))
  {
    var next := InsertJob(db, j, specs, now);
    InsertKeepsRows(db, j, specs, now);
    forall t | t in db.tickets
      ensures db.tickets[t].jobId != j
    {
      assert RowOk(db, t, db.tickets[t]);
    }
    InsertedJobAgrees(db, j, specs, now);
    forall k | k in next.jobs && k != j
      ensures JobAgrees(next.jobs[k], next.tickets, k)
    {
      InsertLeavesOthers(db, j, specs, now, k);
      JobsCarryOver(db, next, k);
    }
  }

  lemma ClaimedRowsFit(db: Db, taken: set<Id>, lockedJobs: set<Id>, worker: Worker, lease: nat, now: int,
                       filter: Option<Id>)
    requires RowsOk(db) && worker != "" && !ClaimAborts(db.tickets, taken)
    requires forall t :: t in taken ==> Eligible(db, t, now, filter)
    ensures RowsOk(Claim(db, taken, lockedJobs, worker, lease, now))
  {
    var next := Claim(db, taken, lockedJobs, worker, lease, now);
    forall t | t in next.tickets
      ensures RowOk(next, t, next.tickets[t])
    {
      assert RowOk(db, t, db.tickets[t]);
      if t in taken {
        assert Eligible(db, t, now, filter) && db.tickets[t].attemptCount <= db.tickets[t].maxAttempts;
      }
    }
  }

  lemma ClaimCarries(db: Db, taken: set<Id>, lockedJobs: set<Id>, worker: Worker, lease: nat, now: int)
    requires CancelOk(db)
    ensures Carries(db, Claim(db, taken, lockedJobs, worker, lease, now))
  {
  }

  lemma ClaimKeepsRows(db: Db, taken: set<Id>, lockedJobs: set<Id>, worker: Worker, lease: nat, now: int,
                       filter: Option<Id>)
    requires RowInv(db) && worker != "" && !ClaimAborts(db.tickets, taken)
    requires forall t :: t in taken ==> Eligible(db, t, now, filter)
    ensures RowInv(Claim(db, taken, lockedJobs, worker, lease, now))
  {
    ClaimedRowsFit(db, taken, lockedJobs, worker, lease, now, filter);
    ClaimCarries(db, taken, lockedJobs, worker, lease, now);
    RowsCarryOver(db, Claim(db, taken, lockedJobs, worker, lease, now));
  }

  lemma ClaimKeeps(db: Db, taken: set<Id>, lockedJobs: set<Id>, worker: Worker, lease: nat, now: int,
                   filter: Option<Id>)
    requires DbInv(db) && worker != "" && !ClaimAborts(db.tickets, taken)
    requires forall t :: t in taken ==> Eligible(db, t, now, filter)
    ensures DbInv(Claim(db, taken, lockedJobs, worker, lease, now))
  {
    ClaimKeepsRows(db, taken, lockedJobs, worker, lease, now, filter);
    var next := Claim(db, taken, lockedJobs, worker, lease, now);
    forall j | j in next.jobs
      ensures JobAgrees(next.jobs[j], next.tickets, j)
    {
      ClaimMovesNoTerminal(db, taken, lockedJobs, worker, lease, now, filter, j);
      JobsCarryOver(db, next, j);
    }
  }

  lemma ClaimMovesNoTerminal(db: Db, taken: set<Id>, lockedJobs: set<Id>, worker: Worker, lease: nat, now: int,
                             filter: Option<Id>, j: Id)
    requires j in db.jobs && forall t :: t in taken ==> Eligible(db, t, now, filter)
    ensures SameProgress(db.jobs[j], Claim(db, taken, lockedJobs, worker, lease, now).jobs[j])
    ensures SameTerminals(db.tickets, Claim(db, taken, lockedJobs, worker, lease, now).tickets, j)
  {
  }

  // ---------------------------------------------------------------- settling

  /** A settlement of a ticket whose result row, if any, has been written. */
  ghost predicate SettleFits(db: Db, t: Id, target: TicketStatus, result: Option<Id>) {
    && t in db.tickets
    && (RecordsResult(target) <==> result.Some?)
    && (result.Some? ==> result.value in db.results && db.results[result.value].ticketId == t
                         && VerdictFits(target, db.results[result.value].verdict))
    && (target == Cancelled ==> CancelRequested(db, db.tickets[t].jobId))
    && (CancelRequested(db, db.tickets[t].jobId) ==> target == Cancelled || target == Retry)
  }

  lemma SettleKeepsRows(db: Db, t: Id, target: TicketStatus, result: Option<Id>, delay: nat, now: int)
    requires RowInv(db) && SettleFits(db, t, target, result)
    requires db.tickets[t].status == Running && Allowed(Running, target)
    ensures RowInv(db.(tickets := db.tickets[t := SettledTicket(db.tickets[t], target, result, delay, now)]))
  {
    var moved := db.(tickets := db.tickets[t := SettledTicket(db.tickets[t], target, result, delay, now)]);
    assert RowsOk(moved) by {
      forall u | u in moved.tickets
        ensures RowOk(moved, u, moved.tickets[u])
      {
        assert RowOk(db, u, db.tickets[u]);
      }
    }
    SettleCarries(db, t, target, result, delay, now);
    RowsCarryOver(db, moved);
  }

  lemma SettleCarries(db: Db, t: Id, target: TicketStatus, result: Option<Id>, delay: nat, now: int)
    requires CancelOk(db) && SettleFits(db, t, target, result)
    requires db.tickets[t].status == Running && Allowed(Running, target)
    ensures Carries(db, db.(tickets := db.tickets[t := SettledTicket(db.tickets[t], target, result, delay, now)]))
  {
  }

  lemma SettleTouchesItsJob(db: Db, t: Id, target: TicketStatus, result: Option<Id>, delay: nat, now: int)
    requires t in db.tickets && Allowed(Running, target)
    ensures var next := SettledTicket(db.tickets[t], target, result, delay, now);
            ReadyToRecompute(db, db.(tickets := db.tickets[t := next]), {db.tickets[t].jobId})
  {
  }

  function MovedTicket(db: Db, t: Id, target: TicketStatus, result: Option<Id>, delay: nat, now: int): Db
    requires t in db.tickets && Allowed(Running, target)
  {
    db.(tickets := db.tickets[t := SettledTicket(db.tickets[t], target, result, delay, now)])
  }

  /** A settlement commits exactly when its worker owns the RUNNING ticket and the move is allowed. */
  lemma SettleCommitsIffOwner(db: Db, t: Id, target: TicketStatus, result: Option<Id>, delay: nat, j: Id,
                              worker: Worker, now: int)
    ensures var r := Settle(db, t, target, result, delay, j, worker, now);
            && (r.Ok? <==> worker != "" && Owns(db, t, worker) && Allowed(Running, target))
            && (r.Ok? ==> r.value == RecomputeAll(MovedTicket(db, t, target, result, delay, now), {j}, now))
  {
  }

  lemma MoveThenRecompute(db: Db, t: Id, target: TicketStatus, result: Option<Id>, delay: nat, now: int)
    requires RowInv(db) && JobsAgree(db) && SettleFits(db, t, target, result)
    requires db.tickets[t].status == Running && Allowed(Running, target)
    ensures DbInv(RecomputeAll(MovedTicket(db, t, target, result, delay, now), {db.tickets[t].jobId}, now))
  {
    SettleKeepsRows(db, t, target, result, delay, now);
    SettleTouchesItsJob(db, t, target, result, delay, now);
    RecomputeRestores(db, MovedTicket(db, t, target, result, delay, now), {db.tickets[t].jobId}, now);
  }

  /** The upsert addresses the ticket's own row when there is one, and otherwise the new id. */
  lemma UpsertIdNames(results: map<Id, EvalResult>, t: Id, newId: Id)
    ensures var r := UpsertId(results, t, newId);
            if ResultsFor(results, t) == {} then r == newId else r in results && results[r].ticketId == t
  {
    if exists r :: r in ResultsFor(results, t) {
      assert UpsertId(results, t, newId) in ResultsFor(results, t);
    }
  }

  /** Upserting writes exactly one row of the ticket, and the rows stay unique per ticket. */
  lemma UpsertWritesOneRow(results: map<Id, EvalResult>, row: EvalResult, newId: Id)
    requires UniquePerTicket(results) && newId !in results
    requires forall r :: r in results && results[r].ticketId == row.ticketId ==> results[r].jobId == row.jobId
    ensures var r := UpsertId(results, row.ticketId, newId);
            Upsert(results, row, newId) == results[r := row] && UniquePerTicket(results[r := row])
            && (r in results ==> results[r].ticketId == row.ticketId)
  {
    UpsertIdNames(results, row.ticketId, newId);
    var r := UpsertId(results, row.ticketId, newId);
    forall q | q in results && results[q].ticketId == row.ticketId
      ensures q == r
    {
      assert q in ResultsFor(results, row.ticketId);
    }
  }

  /** After the upsert of an unfinished ticket's result the rows still fit together. */
  lemma UpsertKeepsRows(db: Db, t: Id, row: EvalResult, newId: Id)
    requires RowInv(db) && t in db.tickets && newId !in db.results && db.tickets[t].resultId.None?
    requires row.ticketId == t && row.jobId == db.tickets[t].jobId
    ensures var next := db.(results := Upsert(db.results, row, newId));
            RowInv(next) && UpsertId(db.results, t, newId) in next.results
            && next.results[UpsertId(db.results, t, newId)] == row
  {
    UpsertWritesOneRow(db.results, row, newId);
    var r := UpsertId(db.results, t, newId);
    var next := db.(results := db.results[r := row]);
    forall u | u in next.tickets
      ensures RowOk(next, u, next.tickets[u])
    {
      assert RowOk(db, u, db.tickets[u]);
    }
    assert forall j :: CancelRequested(next, j) <==> CancelRequested(db, j);
  }

  /** The remembered copy names a ticket of the tables and its job. */
  predicate CopyFits(db: Db, c: ClaimCopy) {
    && c.ticketId in db.tickets
    && c.jobId == db.tickets[c.ticketId].jobId
    && c.maxAttempts == db.tickets[c.ticketId].maxAttempts
  }

  lemma PersistResultKeeps(db: Db, c: ClaimCopy, verdict: Verdict, target: TicketStatus, delay: nat, newId: Id,
                           worker: Worker, now: int, r: Outcome<Db, SettleError>)
    requires DbInv(db) && CopyFits(db, c) && newId !in db.results
    requires VerdictFits(target, verdict) && !CancelRequested(db, c.jobId)
    requires r == PersistOnce(db, c, verdict, target, delay, newId, worker, now)
    ensures r.Ok? ==> DbInv(r.value)
  {
    assert RowOk(db, c.ticketId, db.tickets[c.ticketId]);
    var row := EvalResult(c.jobId, c.ticketId, verdict, c.attemptCount);
    var written := db.(results := Upsert(db.results, row, newId));
    var result := Some(UpsertId(db.results, c.ticketId, newId));
    SettleCommitsIffOwner(written, c.ticketId, target, result, delay, c.jobId, worker, now);
    if db.tickets[c.ticketId].status == Running && Allowed(Running, target) {
      UpsertKeepsRows(db, c.ticketId, row, newId);
      MoveThenRecompute(written, c.ticketId, target, result, delay, now);
    }
  }

  lemma PlainSettleFits(db: Db, c: ClaimCopy, target: TicketStatus)
    requires CopyFits(db, c)
    requires target == Retry || (target == Cancelled && CancelRequested(db, c.jobId))
    ensures SettleFits(db, c.ticketId, target, None) && Allowed(Running, target)
  {
  }

  /** A settlement without a result: back to RETRY, or CANCELLED in a job whose cancellation was requested. */
  lemma PlainSettleKeeps(db: Db, c: ClaimCopy, target: TicketStatus, delay: nat, worker: Worker, now: int,
                         r: Outcome<Db, SettleError>)
    requires RowInv(db) && JobsAgree(db) && CopyFits(db, c)
    requires target == Retry || (target == Cancelled && CancelRequested(db, c.jobId))
    requires r == Settle(db, c.ticketId, target, None, delay, c.jobId, worker, now)
    ensures r.Ok? ==> DbInv(r.value)
  {
    PlainSettleFits(db, c, target);
    SettleCommitsIffOwner(db, c.ticketId, target, None, delay, c.jobId, worker, now);
    if r.Ok? {
      assert r.value == RecomputeAll(MovedTicket(db, c.ticketId, target, None, delay, now), {c.jobId}, now);
      MoveThenRecompute(db, c.ticketId, target, None, delay, now);
    }
  }

  /** Without a result to write, a settlement transaction is a plain settlement. */
  lemma PersistIsSettle(db: Db, c: ClaimCopy, verdict: Verdict, target: TicketStatus, delay: nat, newId: Id,
                        worker: Worker, now: int)
    requires c.ticketId in db.tickets
    ensures CancelRequested(db, c.jobId) && target != Cancelled ==>
              PersistOnce(db, c, verdict, target, delay, newId, worker, now)
              == Settle(db, c.ticketId, Cancelled, None, 0, c.jobId, worker, now)
    ensures !CancelRequested(db, c.jobId) && !RecordsResult(target) ==>
              PersistOnce(db, c, verdict, target, delay, newId, worker, now)
              == Settle(db, c.ticketId, target, None, delay, c.jobId, worker, now)
  {
  }

  lemma PlainPersistKeeps(db: Db, c: ClaimCopy, verdict: Verdict, target: TicketStatus, delay: nat, newId: Id,
                          worker: Worker, now: int, r: Outcome<Db, SettleError>)
    requires RowInv(db) && JobsAgree(db) && CopyFits(db, c)
    requires target != Cancelled && (CancelRequested(db, c.jobId) || target == Retry)
    requires r == PersistOnce(db, c, verdict, target, delay, newId, worker, now)
    ensures r.Ok? ==> DbInv(r.value)
  {
    PersistIsSettle(db, c, verdict, target, delay, newId, worker, now);
    if CancelRequested(db, c.jobId) {
      PlainSettleKeeps(db, c, Cancelled, 0, worker, now, r);
    } else {
      PlainSettleKeeps(db, c, target, delay, worker, now, r);
    }
  }

  lemma PersistKeeps(db: Db, c: ClaimCopy, verdict: Verdict, target: TicketStatus, delay: nat, newId: Id,
                     worker: Worker, now: int, r: Outcome<Db, SettleError>)
    requires DbInv(db) && CopyFits(db, c) && newId !in db.results
    requires target == Retry || VerdictFits(target, verdict)
    requires r == PersistOnce(db, c, verdict, target, delay, newId, worker, now)
    ensures r.Ok? ==> DbInv(r.value)
  {
    if CancelRequested(db, c.jobId) || target == Retry {
      PlainPersistKeeps(db, c, verdict, target, delay, newId, worker, now, r);
    } else {
      PersistResultKeeps(db, c, verdict, target, delay, newId, worker, now, r);
    }
  }

  lemma RetriedFailureKeeps(db: Db, c: ClaimCopy, cls: ErrorClass, delay: nat, newId: Id, worker: Worker, now: int)
    requires RowInv(db) && JobsAgree(db) && CopyFits(db, c) && GetsAnotherAttempt(c, cls)
    ensures var r := HandleFailure(db, c, cls, delay, newId, worker, now);
            r.Ok? ==> DbInv(r.value)
  {
    var r := Settle(db, c.ticketId, Retry, None, delay, c.jobId, worker, now);
    assert HandleFailure(db, c, cls, delay, newId, worker, now) == r;
    PlainSettleKeeps(db, c, Retry, delay, worker, now, r);
  }

  lemma RecordedFailureKeeps(db: Db, c: ClaimCopy, cls: ErrorClass, delay: nat, newId: Id, worker: Worker, now: int)
    requires DbInv(db) && CopyFits(db, c) && newId !in db.results && !GetsAnotherAttempt(c, cls)
    ensures var r := HandleFailure(db, c, cls, delay, newId, worker, now);
            r.Ok? ==> DbInv(r.value)
  {
    var verdict := if cls == MissingContext then VerdictFailed else VerdictError;
    var r := PersistOnce(db, c, verdict, Failed, 0, newId, worker, now);
    assert HandleFailure(db, c, cls, delay, newId, worker, now) == r;
    assert VerdictFits(Failed, verdict);
    PersistKeeps(db, c, verdict, Failed, 0, newId, worker, now, r);
  }

  lemma HandleFailureKeeps(db: Db, c: ClaimCopy, cls: ErrorClass, delay: nat, newId: Id, worker: Worker, now: int)
    requires DbInv(db) && CopyFits(db, c) && newId !in db.results
    ensures var r := HandleFailure(db, c, cls, delay, newId, worker, now);
            r.Ok? ==> DbInv(r.value)
  {
    if GetsAnotherAttempt(c, cls) {
      RetriedFailureKeeps(db, c, cls, delay, newId, worker, now);
    } else {
      RecordedFailureKeeps(db, c, cls, delay, newId, worker, now);
    }
  }

  lemma SettleCancelledKeeps(db: Db, c: ClaimCopy, worker: Worker, now: int, r: Outcome<Db, SettleError>)
    requires DbInv(db) && CopyFits(db, c) && CancelRequested(db, c.jobId)
    requires r == SettleCancelled(db, c, worker, now)
    ensures r.Ok? ==> DbInv(r.value)
  {
    PlainSettleKeeps(db, c, Cancelled, 0, worker, now, r);
  }

  lemma ExtendLeaseKeepsRows(db: Db, t: Id, worker: Worker, lease: nat, now: int)
    requires RowInv(db)
    ensures RowInv(ExtendLease(db, t, worker, lease, now))
  {
    var next := ExtendLease(db, t, worker, lease, now);
    assert RowsOk(next) by {
      forall u | u in next.tickets
        ensures RowOk(next, u, next.tickets[u])
      {
        assert RowOk(db, u, db.tickets[u]);
      }
    }
    ExtendLeaseCarries(db, t, worker, lease, now);
    RowsCarryOver(db, next);
  }

  lemma ExtendLeaseCarries(db: Db, t: Id, worker: Worker, lease: nat, now: int)
    requires CancelOk(db)
    ensures Carries(db, ExtendLease(db, t, worker, lease, now))
  {
  }

  lemma ExtendLeaseKeeps(db: Db, t: Id, worker: Worker, lease: nat, now: int)
    requires DbInv(db)
    ensures DbInv(ExtendLease(db, t, worker, lease, now))
  {
    ExtendLeaseKeepsRows(db, t, worker, lease, now);
    HeartbeatKeepsJobs(db, t, worker, lease, now);
  }

  lemma HeartbeatKeepsJobs(db: Db, t: Id, worker: Worker, lease: nat, now: int)
    requires JobsAgree(db)
    ensures JobsAgree(ExtendLease(db, t, worker, lease, now))
  {
    var next := ExtendLease(db, t, worker, lease, now);
    forall j | j in next.jobs
      ensures JobAgrees(next.jobs[j], next.tickets, j)
    {
      HeartbeatMovesNothing(db, t, worker, lease, now, j);
      JobsCarryOver(db, next, j);
    }
  }

  lemma HeartbeatMovesNothing(db: Db, t: Id, worker: Worker, lease: nat, now: int, j: Id)
    ensures ExtendLease(db, t, worker, lease, now).jobs == db.jobs
    ensures SameTerminals(db.tickets, ExtendLease(db, t, worker, lease, now).tickets, j)
  {
  }

  // ---------------------------------------------------------------- sweeps and operator calls

  lemma RecoverExpiredKeepsRows(db: Db, picked: set<Id>, jitter: map<Id, nat>, now: int)
    requires RowInv(db)
    requires forall t :: t in picked ==> t in db.tickets && db.tickets[t].status == Running
    ensures RowInv(RecoverExpired(db, picked, jitter, now))
  {
    var next := RecoverExpired(db, picked, jitter, now);
    assert RowsOk(next) by {
      forall t | t in next.tickets
        ensures RowOk(next, t, next.tickets[t])
      {
        assert RowOk(db, t, db.tickets[t]);
      }
    }
    RecoverExpiredCarries(db, picked, jitter, now);
    RowsCarryOver(db, next);
  }

  lemma RecoverExpiredCarries(db: Db, picked: set<Id>, jitter: map<Id, nat>, now: int)
    requires CancelOk(db)
    requires forall t :: t in picked ==> t in db.tickets && db.tickets[t].status == Running
    ensures Carries(db, RecoverExpired(db, picked, jitter, now))
  {
  }

  lemma CancelRunningKeepsRows(db: Db, picked: set<Id>, now: int)
    requires RowInv(db)
    requires forall t :: t in picked ==>
               t in db.tickets && db.tickets[t].status == Running && CancelRequested(db, db.tickets[t].jobId)
    ensures RowInv(CancelRows(db, picked, now))
  {
    var next := CancelRows(db, picked, now);
    assert RowsOk(next) by {
      forall t | t in next.tickets
        ensures RowOk(next, t, next.tickets[t])
      {
        assert RowOk(db, t, db.tickets[t]);
      }
    }
    CancelRunningCarries(db, picked, now);
    RowsCarryOver(db, next);
  }

  lemma CancelRunningCarries(db: Db, picked: set<Id>, now: int)
    requires CancelOk(db)
    requires forall t :: t in picked ==>
               t in db.tickets && db.tickets[t].status == Running && CancelRequested(db, db.tickets[t].jobId)
    ensures Carries(db, CancelRows(db, picked, now))
  {
  }

  lemma RecoverKeeps(db: Db, expired: set<Id>, abandoned: set<Id>, jitter: map<Id, nat>, now: int)
    requires RowInv(db) && JobsAgree(db) && expired <= ExpiredTickets(db, now)
    requires abandoned <= ExpiredCancelledTickets(RecoverExpired(db, expired, jitter, now), now)
    ensures DbInv(Recover(db, expired, abandoned, jitter, now))
  {
    var first := RecoverExpired(db, expired, jitter, now);
    RecoverExpiredKeepsRows(db, expired, jitter, now);
    CancelRunningKeepsRows(first, abandoned, now);
    SweepTouchesItsJobs(db, expired, abandoned, jitter, now);
    RecomputeRestores(db, CancelRows(first, abandoned, now), JobsOf(db.tickets, expired + abandoned), now);
  }

  lemma SweepTouchesItsJobs(db: Db, expired: set<Id>, abandoned: set<Id>, jitter: map<Id, nat>, now: int)
    ensures var swept := CancelRows(RecoverExpired(db, expired, jitter, now), abandoned, now);
            ChangedOnly(db.tickets, swept.tickets, JobsOf(db.tickets, expired + abandoned))
  {
    forall t | t in db.tickets && t in expired + abandoned
      ensures db.tickets[t].jobId in JobsOf(db.tickets, expired + abandoned)
    {
    }
  }

  /** A job that may be cancelled has a ticket that is not finished by an evaluation. */
  lemma OpenJobHasOpenTicket(db: Db, j: Id)
    requires j in db.jobs && StatusAgrees(db.jobs[j], db.tickets, j)
    requires IsTerminalJob(db.jobs[j].status) ==> db.jobs[j].status == JobCancelled
    ensures exists t :: t in db.tickets && db.tickets[t].jobId == j
                        && (db.tickets[t].status == Ready || IsUnevaluated(db.tickets[t].status))
  {
    if AllTerminal(db.tickets, j) {
      var t :| t in db.tickets && db.tickets[t].jobId == j && db.tickets[t].status == Cancelled;
      assert IsUnevaluated(db.tickets[t].status);
    } else {
      var t :| t in db.tickets && db.tickets[t].jobId == j && !IsTerminal(db.tickets[t].status);
      assert db.tickets[t].status == Ready || IsUnevaluated(db.tickets[t].status);
    }
  }

  lemma CancelledRowsFit(db: Db, j: Id, now: int)
    requires RowsOk(db) && j in db.jobs
    ensures var requested := db.(jobs := RequestCancellation(db.jobs, j, now));
            RowsOk(CancelRows(requested, UnclaimedTickets(requested, j), now))
  {
    var requested := db.(jobs := RequestCancellation(db.jobs, j, now));
    var next := CancelRows(requested, UnclaimedTickets(requested, j), now);
    forall t | t in next.tickets
      ensures RowOk(next, t, next.tickets[t])
    {
      assert RowOk(db, t, db.tickets[t]);
    }
  }

  lemma CancelJobKeepsRows(db: Db, j: Id, now: int)
    requires RowInv(db) && j in db.jobs
    requires exists t :: t in db.tickets && db.tickets[t].jobId == j
                         && (db.tickets[t].status == Ready || IsUnevaluated(db.tickets[t].status))
    ensures var requested := db.(jobs := RequestCancellation(db.jobs, j, now));
            RowInv(CancelRows(requested, UnclaimedTickets(requested, j), now))
  {
    CancelledRowsFit(db, j, now);
    CancelJobKeepsRequests(db, j, now);
  }

  lemma CancelJobKeepsRequests(db: Db, j: Id, now: int)
    requires ResultsOk(db) && CancelOk(db) && j in db.jobs
    requires exists t :: t in db.tickets && db.tickets[t].jobId == j
                         && (db.tickets[t].status == Ready || IsUnevaluated(db.tickets[t].status))
    ensures var requested := db.(jobs := RequestCancellation(db.jobs, j, now));
            var next := CancelRows(requested, UnclaimedTickets(requested, j), now);
            ResultsOk(next) && CancelOk(next)
  {
    var requested := db.(jobs := RequestCancellation(db.jobs, j, now));
    var next := CancelRows(requested, UnclaimedTickets(requested, j), now);
    assert forall k :: CancelRequested(next, k) <==> CancelRequested(db, k) || k == j;
    forall k | CancelRequested(next, k)
      ensures HasUnevaluated(next.tickets, k)
    {
      if CancelRequested(db, k) {
        assert HasUnevaluated(db.tickets, k);
      }
      var t :| t in db.tickets && db.tickets[t].jobId == k
               && (IsUnevaluated(db.tickets[t].status) || (k == j && db.tickets[t].status == Ready));
      assert t in next.tickets && next.tickets[t].jobId == k && IsUnevaluated(next.tickets[t].status);
    }
  }

  lemma CancelTouchesItsJob(db: Db, j: Id, now: int)
    requires j in db.jobs
    ensures var requested := db.(jobs := RequestCancellation(db.jobs, j, now));
            ReadyToRecompute(db, CancelRows(requested, UnclaimedTickets(requested, j), now), {j})
  {
  }

  lemma CancelJobKeeps(db: Db, j: Id, now: int)
    requires RowInv(db) && JobsAgree(db)
    ensures CancelJob(db, j, now).Ok? ==> DbInv(CancelJob(db, j, now).value)
  {
    if CancelJob(db, j, now).Ok? {
      var requested := db.(jobs := RequestCancellation(db.jobs, j, now));
      OpenJobHasOpenTicket(db, j);
      CancelJobKeepsRows(db, j, now);
      CancelTouchesItsJob(db, j, now);
      RecomputeRestores(db, CancelRows(requested, UnclaimedTickets(requested, j), now), {j}, now);
    }
  }

  lemma ResetKeepsRows(db: Db, j: Id, now: int)
    requires RowInv(db) && !CancelRequested(db, j)
    ensures RowInv(ResetFailed(db, j, now))
  {
    var next := ResetFailed(db, j, now);
    assert RowsOk(next) by {
      forall t | t in next.tickets
        ensures RowOk(next, t, next.tickets[t])
      {
        assert RowOk(db, t, db.tickets[t]);
      }
    }
    ResetCarries(db, j, now);
    RowsCarryOver(db, next);
  }

  lemma ResetCarries(db: Db, j: Id, now: int)
    requires CancelOk(db) && !CancelRequested(db, j)
    ensures Carries(db, ResetFailed(db, j, now))
  {
  }

  lemma ResetTouchesItsJob(db: Db, j: Id, now: int)
    ensures ReadyToRecompute(db, ResetFailed(db, j, now), {j})
  {
  }

  lemma RetryFailedKeeps(db: Db, j: Id, now: int)
    requires RowInv(db) && JobsAgree(db)
    ensures RetryFailed(db, j, now).Ok? ==> DbInv(RetryFailed(db, j, now).value)
  {
    if RetryFailed(db, j, now).Ok? {
      ResetKeepsRows(db, j, now);
      ResetTouchesItsJob(db, j, now);
      RecomputeRestores(db, ResetFailed(db, j, now), {j}, now);
    }
  }

  lemma ReconcileKeeps(db: Db, now: int)
    requires RowInv(db) && JobsAgree(db)
    ensures DbInv(Reconcile(db, now))
  {
    RecomputeRestores(db, db, ActiveJobs(db), now);
  }
}
