/** What every reachable state of the tables satisfies, and the lemmas that recomputing progress rests on. */
module Invariants {
  import opened Lifecycle
  import opened Tables
  import opened QueueSpec

  /** The columns of one ticket fit its status. */
  predicate RowShape(t: Ticket) {
    && (t.leaseExpiresAt.Some? <==> t.status == Running)
    && (t.status == Running ==> t.workerId.Some? && t.workerId.value != "")
    && (IsPending(t.status) ==> t.workerId.None?)
    && (t.completedAt.Some? <==> IsTerminal(t.status))
    && (!IsTerminal(t.status) || t.status == Cancelled ==> t.resultId.None?)
    && t.maxAttempts >= 1
    && t.attemptCount <= t.maxAttempts + 1
  }

  /** Verdicts that a ticket of this status may carry. */
  predicate VerdictFits(status: TicketStatus, v: Verdict) {
    match status
    case Done => v == VerdictPassed || v == VerdictFailed
    case NotApplicable => v == VerdictNotApplicable
    case Failed => v == VerdictFailed || v == VerdictError
    case _ => false
  }

  predicate ResultAgrees(t: Ticket, id: Id, results: map<Id, EvalResult>) {
    && (t.status == Done || t.status == NotApplicable ==> t.resultId.Some?)
    && (t.resultId.Some? ==>
          t.resultId.value in results && results[t.resultId.value].ticketId == id
          && VerdictFits(t.status, results[t.resultId.value].verdict))
  }

  ghost predicate RowsOk(db: Db) {
    forall t :: t in db.tickets ==> RowOk(db, t, db.tickets[t])
  }

  predicate RowOk(db: Db, id: Id, t: Ticket) {
    t.jobId in db.jobs && RowShape(t) && ResultAgrees(t, id, db.results)
  }

  /** The unique index on `ticketId`, and the foreign keys of a result. */
  ghost predicate ResultsOk(db: Db) {
    && (forall r :: r in db.results ==>
          db.results[r].ticketId in db.tickets
          && db.results[r].jobId == db.tickets[db.results[r].ticketId].jobId)
    && UniquePerTicket(db.results)
  }

  ghost predicate UniquePerTicket(results: map<Id, EvalResult>) {
    forall r, q :: r in results && q in results && results[r].ticketId == results[q].ticketId ==> r == q
  }

  /**
   A cancelled ticket only in a cancelled job; such a job keeps no READY ticket and at least one not finished
   by an evaluation.
   */
  ghost predicate CancelOk(db: Db) {
    && (forall t :: t in db.tickets && db.tickets[t].status == Cancelled ==> CancelRequested(db, db.tickets[t].jobId))
    && (forall t :: t in db.tickets && db.tickets[t].status == Ready ==> !CancelRequested(db, db.tickets[t].jobId))
    && (forall j :: CancelRequested(db, j) ==> HasUnevaluated(db.tickets, j))
  }

  predicate IsUnevaluated(s: TicketStatus) {
    s == Running || s == Retry || s == Cancelled
  }

  predicate HasUnevaluated(tickets: map<Id, Ticket>, j: Id) {
    exists t :: t in tickets && tickets[t].jobId == j && IsUnevaluated(tickets[t].status)
  }

  predicate AllTerminal(tickets: map<Id, Ticket>, j: Id) {
    forall t :: t in tickets && tickets[t].jobId == j ==> IsTerminal(tickets[t].status)
  }

  /** The status a finished job should show, read off its tickets alone. */
  function OutcomeStatus(tickets: map<Id, Ticket>, j: Id): JobStatus {
    if exists t :: t in tickets && tickets[t].jobId == j && tickets[t].status == Cancelled then JobCancelled
    else if forall t :: t in tickets && tickets[t].jobId == j ==> tickets[t].status != Failed then JobCompleted
    else if exists t :: t in tickets && tickets[t].jobId == j && tickets[t].status != Failed then JobPartialFailed
    else JobFailed
  }

  /** The cached progress of a job equals what its ticket rows say. */
  ghost predicate JobAgrees(job: Job, tickets: map<Id, Ticket>, j: Id) {
    && TicketsOf(tickets, j) != {}
    && CountersAgree(job, tickets, j)
    && StatusAgrees(job, tickets, j)
  }

  predicate CountersAgree(job: Job, tickets: map<Id, Ticket>, j: Id) {
    && job.totalTickets == |TicketsOf(tickets, j)|
    && job.completed == |TicketsWith(tickets, j, Done)|
    && job.failed == |TicketsWith(tickets, j, Failed)|
    && job.cancelled == |TicketsWith(tickets, j, Cancelled)|
    && job.notApplicable == |TicketsWith(tickets, j, NotApplicable)|
  }

  predicate StatusAgrees(job: Job, tickets: map<Id, Ticket>, j: Id) {
    && (IsTerminalJob(job.status) <==> AllTerminal(tickets, j))
    && (job.completedAt.Some? <==> AllTerminal(tickets, j))
    && (AllTerminal(tickets, j) ==> job.status == OutcomeStatus(tickets, j))
  }

  ghost predicate JobsAgree(db: Db) {
    forall j :: j in db.jobs ==> JobAgrees(db.jobs[j], db.tickets, j)
  }

  ghost predicate DbInv(db: Db) {
    RowsOk(db) && ResultsOk(db) && CancelOk(db) && JobsAgree(db)
  }

  // ---------------------------------------------------------------- counting

  function TicketsIn(tickets: map<Id, Ticket>, j: Id, ss: set<TicketStatus>): set<Id> {
    set t | t in tickets && tickets[t].jobId == j && tickets[t].status in ss
  }

  lemma PeelStatus(tickets: map<Id, Ticket>, j: Id, rest: set<TicketStatus>, s: TicketStatus)
    requires s !in rest
    ensures |TicketsIn(tickets, j, {s} + rest)| == |TicketsWith(tickets, j, s)| + |TicketsIn(tickets, j, rest)|
  {
    var a, b := TicketsWith(tickets, j, s), TicketsIn(tickets, j, rest);
    assert TicketsIn(tickets, j, {s} + rest) == a + b && a !! b;
  }

  /** The seven status counts of a job add up to its number of tickets. */
  lemma CountsAddUp(tickets: map<Id, Ticket>, j: Id)
    ensures |TicketsOf(tickets, j)| ==
            |TicketsWith(tickets, j, Ready)| + |TicketsWith(tickets, j, Running)| + |TicketsWith(tickets, j, Retry)|
            + |TicketsWith(tickets, j, Done)| + |TicketsWith(tickets, j, Failed)|
            + |TicketsWith(tickets, j, Cancelled)| + |TicketsWith(tickets, j, NotApplicable)|
  {
    var afterReady := {Running, Retry, Done, Failed, Cancelled, NotApplicable};
    var afterRunning := {Retry, Done, Failed, Cancelled, NotApplicable};
    var afterRetry := {Done, Failed, Cancelled, NotApplicable};
    PeelStatus(tickets, j, afterReady, Ready);
    PeelStatus(tickets, j, afterRunning, Running);
    PeelStatus(tickets, j, afterRetry, Retry);
    PeelStatus(tickets, j, {Failed, Cancelled, NotApplicable}, Done);
    PeelStatus(tickets, j, {Cancelled, NotApplicable}, Failed);
    PeelStatus(tickets, j, {NotApplicable}, Cancelled);
    assert {Running} + afterRunning == afterReady && {Retry} + afterRetry == afterRunning;
    assert {Done} + {Failed, Cancelled, NotApplicable} == afterRetry;
    assert {Failed} + {Cancelled, NotApplicable} == {Failed, Cancelled, NotApplicable};
    assert {Cancelled} + {NotApplicable} == {Cancelled, NotApplicable};
    assert TicketsIn(tickets, j, {NotApplicable}) == TicketsWith(tickets, j, NotApplicable);
    assert TicketsIn(tickets, j, {Ready} + afterReady) == TicketsOf(tickets, j);
  }

  lemma CountIsZero(tickets: map<Id, Ticket>, j: Id, s: TicketStatus)
    ensures |TicketsWith(tickets, j, s)| == 0 <==>
            forall t :: t in tickets && tickets[t].jobId == j ==> tickets[t].status != s
  {
    if |TicketsWith(tickets, j, s)| == 0 {
      forall t | t in tickets && tickets[t].jobId == j
        ensures tickets[t].status != s
      {
        assert t !in TicketsWith(tickets, j, s);
      }
    } else {
      var t :| t in TicketsWith(tickets, j, s);
    }
  }

  /** Recomputing a job makes it agree, provided a cancelled ticket means a requested cancellation. */
  lemma RecomputedAgrees(job: Job, tickets: map<Id, Ticket>, j: Id, now: int)
    requires TicketsOf(tickets, j) != {}
    requires job.totalTickets == |TicketsOf(tickets, j)|
    requires job.cancelRequestedAt.None? ==> TicketsWith(tickets, j, Cancelled) == {}
    ensures JobAgrees(RecomputedJob(job, tickets, j, now), tickets, j)
  {
    CountsAddUp(tickets, j);
    forall s: TicketStatus
      ensures |TicketsWith(tickets, j, s)| == 0 <==>
              forall t :: t in tickets && tickets[t].jobId == j ==> tickets[t].status != s
    {
      CountIsZero(tickets, j, s);
    }
    var open := |TicketsWith(tickets, j, Ready)| + |TicketsWith(tickets, j, Running)|
                + |TicketsWith(tickets, j, Retry)|;
    assert open == 0 <==> AllTerminal(tickets, j);
    if AllTerminal(tickets, j) {
      var t :| t in TicketsOf(tickets, j);
      TerminalOutcome(job, tickets, j);
    }
  }

  lemma TerminalOutcome(job: Job, tickets: map<Id, Ticket>, j: Id)
    requires TicketsOf(tickets, j) != {} && AllTerminal(tickets, j)
    requires job.cancelRequestedAt.None? ==> TicketsWith(tickets, j, Cancelled) == {}
    ensures DerivedStatus(job, tickets, j) == OutcomeStatus(tickets, j)
  {
    CountsAddUp(tickets, j);
    forall s: TicketStatus
      ensures |TicketsWith(tickets, j, s)| == 0 <==>
              forall t :: t in tickets && tickets[t].jobId == j ==> tickets[t].status != s
    {
      CountIsZero(tickets, j, s);
    }
    if |TicketsWith(tickets, j, Cancelled)| > 0 {
      var t :| t in TicketsWith(tickets, j, Cancelled);
    }
  }

  // ---------------------------------------------------------------- framing

  /** Job `j` has the same tickets in both maps, and a ticket is terminal in one as it is in the other. */
  predicate SameTerminals(before: map<Id, Ticket>, after: map<Id, Ticket>, j: Id) {
    && (forall t :: t in before && before[t].jobId == j ==> t in after && after[t].jobId == j)
    && (forall t :: t in after && after[t].jobId == j ==> t in before && before[t].jobId == j)
    && (forall t :: t in before && t in after && before[t].jobId == j ==>
          SameTerminal(before[t].status, after[t].status))
  }

  predicate SameTerminal(a: TicketStatus, b: TicketStatus) {
    a == b || (!IsTerminal(a) && !IsTerminal(b))
  }

  lemma SameCounters(job: Job, before: map<Id, Ticket>, after: map<Id, Ticket>, j: Id)
    requires SameTerminals(before, after, j) && CountersAgree(job, before, j)
    ensures CountersAgree(job, after, j) && TicketsOf(before, j) == TicketsOf(after, j)
  {
    assert TicketsOf(before, j) == TicketsOf(after, j);
    assert TicketsWith(before, j, Done) == TicketsWith(after, j, Done);
    assert TicketsWith(before, j, Failed) == TicketsWith(after, j, Failed);
    assert TicketsWith(before, j, Cancelled) == TicketsWith(after, j, Cancelled);
    assert TicketsWith(before, j, NotApplicable) == TicketsWith(after, j, NotApplicable);
  }

  lemma SameStatus(job: Job, before: map<Id, Ticket>, after: map<Id, Ticket>, j: Id)
    requires SameTerminals(before, after, j) && StatusAgrees(job, before, j)
    ensures StatusAgrees(job, after, j)
  {
    if AllTerminal(before, j) {
      assert OutcomeStatus(before, j) == OutcomeStatus(after, j);
    }
  }

  /** A job row that differs only in an open status or its start keeps agreeing with unmoved terminals. */
  lemma UntouchedJobAgrees(job: Job, job': Job, before: map<Id, Ticket>, after: map<Id, Ticket>, j: Id)
    requires SameTerminals(before, after, j) && JobAgrees(job, before, j)
    requires job'.(status := job.status, startedAt := job.startedAt, cancelRequestedAt := job.cancelRequestedAt) == job
    requires job'.status == job.status || (!IsTerminalJob(job.status) && !IsTerminalJob(job'.status))
    ensures JobAgrees(job', after, j)
  {
    SameCounters(job', before, after, j);
    SameStatus(job', before, after, j);
  }

  /** Same tickets in the same jobs; outside `js` no status moved. */
  ghost predicate ChangedOnly(before: map<Id, Ticket>, after: map<Id, Ticket>, js: set<Id>) {
    && before.Keys == after.Keys
    && (forall t :: t in before ==> before[t].jobId == after[t].jobId)
    && (forall t :: t in before && before[t].jobId !in js ==> before[t].status == after[t].status)
  }

  /** Recompute keeps everything except the progress columns. */
  lemma RecomputeFrame(db: Db, js: set<Id>, now: int)
    ensures RecomputeAll(db, js, now).jobs.Keys == db.jobs.Keys
    ensures RecomputeAll(db, js, now).tickets == db.tickets && RecomputeAll(db, js, now).results == db.results
    ensures forall j :: CancelRequested(RecomputeAll(db, js, now), j) <==> CancelRequested(db, j)
  {
  }

  /** Only the jobs in `js` may lack agreement with their tickets. */
  ghost predicate ReadyToRecompute(db: Db, mid: Db, js: set<Id>) {
    && ChangedOnly(db.tickets, mid.tickets, js)
    && mid.jobs.Keys == db.jobs.Keys
    && (forall j :: j in db.jobs && j !in js ==> mid.jobs[j] == db.jobs[j])
    && (forall j :: j in db.jobs ==> mid.jobs[j].totalTickets == db.jobs[j].totalTickets)
  }

  lemma RecomputeKeepsRows(mid: Db, js: set<Id>, now: int)
    requires RowsOk(mid) && ResultsOk(mid) && CancelOk(mid)
    ensures RowsOk(RecomputeAll(mid, js, now))
    ensures ResultsOk(RecomputeAll(mid, js, now)) && CancelOk(RecomputeAll(mid, js, now))
  {
    RecomputeFrame(mid, js, now);
    forall t | t in mid.tickets
      ensures RowOk(RecomputeAll(mid, js, now), t, mid.tickets[t])
    {
      assert RowOk(mid, t, mid.tickets[t]);
    }
  }

  lemma RecomputeRestores(db: Db, mid: Db, js: set<Id>, now: int)
    requires JobsAgree(db) && RowsOk(mid) && ResultsOk(mid) && CancelOk(mid) && ReadyToRecompute(db, mid, js)
    ensures DbInv(RecomputeAll(mid, js, now))
  {
    RecomputeKeepsRows(mid, js, now);
    forall j | j in mid.jobs
      ensures JobAgrees(RecomputeAll(mid, js, now).jobs[j], mid.tickets, j)
    {
      CancelledNeedsRequest(mid, j);
      ChangedOnlyMeans(db.tickets, mid.tickets, js, j);
      RecomputeRestoresJob(db.jobs[j], mid.jobs[j], db.tickets, mid.tickets, js, now, j);
    }
  }

  lemma ChangedOnlyMeans(before: map<Id, Ticket>, after: map<Id, Ticket>, js: set<Id>, j: Id)
    requires ChangedOnly(before, after, js)
    ensures TicketsOf(before, j) == TicketsOf(after, j)
    ensures j !in js ==> SameTerminals(before, after, j)
  {
  }

  lemma RecomputeRestoresJob(job: Job, job': Job, before: map<Id, Ticket>, after: map<Id, Ticket>, js: set<Id>,
                             now: int, j: Id)
    requires JobAgrees(job, before, j) && TicketsOf(before, j) == TicketsOf(after, j)
    requires job'.totalTickets == job.totalTickets
    requires job'.cancelRequestedAt.None? ==> TicketsWith(after, j, Cancelled) == {}
    requires j !in js ==> job' == job && SameTerminals(before, after, j)
    ensures JobAgrees(if j in js then RecomputedJob(job', after, j, now) else job', after, j)
  {
    if j in js {
      RecomputedAgrees(job', after, j, now);
    } else {
      UntouchedJobAgrees(job, job', before, after, j);
    }
  }

  lemma CancelledNeedsRequest(db: Db, j: Id)
    requires CancelOk(db) && j in db.jobs
    ensures db.jobs[j].cancelRequestedAt.None? ==> TicketsWith(db.tickets, j, Cancelled) == {}
  {
    if t :| t in TicketsWith(db.tickets, j, Cancelled) {
      assert CancelRequested(db, db.tickets[t].jobId);
    }
  }
}
