/** The service calls: each is one transaction over the repositories, or a loop of them. */
module Services {
  import opened Options
  import opened Lifecycle
  import opened Tables
  import opened QueueSpec
  import opened Invariants
  import opened RowEffects
  import opened Repositories

  // ---------------------------------------------------------------- claiming and settling

  /** Claim tickets and show their jobs as started, leaving out job rows that others hold. */
  method ClaimTickets(db: Database, limit: nat, worker: Worker, lease: nat, filter: Option<Id>, locked: set<Id>,
                      lockedJobs: set<Id>, now: int)
    returns (claimed: Outcome<seq<Id>, ()>, ghost rows: seq<Id>)
    modifies db
    ensures IsOrdered(old(db.tickets), EligibleTickets(old(db.View()), now, filter), rows, Outranks)
    ensures var taken := TakeUnlocked(rows, locked, limit);
            if ClaimAborts(old(db.tickets), Protocol.Elements(taken))
            then claimed.Err? && db.View() == old(db.View())
            else claimed == Ok(taken)
                 && db.View() == Claim(old(db.View()), Protocol.Elements(taken), lockedJobs, worker, lease, now)
    ensures claimed.Ok? ==> ScansInOrder(old(db.View()), claimed.value, locked, limit, now, filter)
    ensures claimed.Ok? ==> StartsTickets(old(db.View()), db.View(), claimed.value, lockedJobs, worker, lease, now)
  {
    var tickets := new TicketRepository(db);
    ghost var before := db.View();
    claimed, rows := tickets.Claim(limit, worker, lease, filter, locked, now);
    if claimed.Err? {
      return;
    }
    var taken := Protocol.Elements(claimed.value);
    ClaimStarts(before, claimed.value, lockedJobs, worker, lease, now);
    if claimed.value != [] {
      var jobs := new JobRepository(db);
      ClaimKeepsJobIds(before.tickets, taken, worker, lease, now);
      jobs.MarkRunningIfPending(JobsOf(db.tickets, taken), lockedJobs, now);
    } else {
      assert taken == {} && JobsOf(before.tickets, taken) == {};
      assert MarkRunning(before.jobs, {}, now) == before.jobs;
    }
  }

  /** Taken tickets are claimed; jobs of theirs that nobody holds are shown as started; nothing else changes. */
  ghost predicate StartsTickets(db: Db, next: Db, taken: seq<Id>, lockedJobs: set<Id>, worker: Worker, lease: nat,
                                now: int) {
    && next.results == db.results && next.tickets.Keys == db.tickets.Keys && next.jobs.Keys == db.jobs.Keys
    && (forall t :: t in db.tickets && t in taken ==>
          WasClaimed(db.tickets[t], next.tickets[t], worker, lease, now))
    && (forall t :: t in db.tickets && t !in taken ==> next.tickets[t] == db.tickets[t])
    && (forall t :: t in taken && t in db.tickets && db.tickets[t].jobId in db.jobs
                    && db.tickets[t].jobId !in lockedJobs ==>
          ShowsStarted(db.jobs[db.tickets[t].jobId], next.jobs[db.tickets[t].jobId], now))
    && (forall j :: j in db.jobs && (j in lockedJobs || forall t :: t in taken && t in db.tickets ==>
                                                                  db.tickets[t].jobId != j) ==>
          next.jobs[j] == db.jobs[j])
  }

  lemma ClaimStarts(db: Db, taken: seq<Id>, lockedJobs: set<Id>, worker: Worker, lease: nat, now: int)
    ensures StartsTickets(db, Claim(db, Protocol.Elements(taken), lockedJobs, worker, lease, now), taken, lockedJobs,
                          worker, lease, now)
  {
    MarkedRunning(db.jobs, JobsOf(db.tickets, Protocol.Elements(taken)) - lockedJobs, now);
  }

  lemma ClaimKeepsJobIds(tickets: map<Id, Ticket>, taken: set<Id>, worker: Worker, lease: nat, now: int)
    ensures JobsOf(ClaimRows(tickets, taken, worker, lease, now), taken) == JobsOf(tickets, taken)
  {
    var next := ClaimRows(tickets, taken, worker, lease, now);
    forall j
      ensures j in JobsOf(next, taken) <==> j in JobsOf(tickets, taken)
    {
      if j in JobsOf(next, taken) {
        var t :| t in taken && t in next && next[t].jobId == j;
        assert t in tickets && tickets[t].jobId == j;
      }
      if j in JobsOf(tickets, taken) {
        var t :| t in taken && t in tickets && tickets[t].jobId == j;
        assert t in next && next[t].jobId == j;
      }
    }
  }

  /** Move a ticket and refresh its job; the caller rolls back when this is refused. */
  method SettleTicket(db: Database, t: Id, target: TicketStatus, result: Option<Id>, delay: nat, j: Id, worker: Worker,
                      now: int)
    returns (r: Outcome<(), SettleError>)
    modifies db
    ensures match Settle(old(db.View()), t, target, result, delay, j, worker, now)
            case Ok(next) => r.Ok? && db.View() == next
            case Err(e) => r == Err(e) && db.View() == old(db.View())
    ensures r.Ok? ==> OnlySettles(old(db.View()), db.View(), t, j, target, result, delay, now)
                      && db.results == old(db.results)
    ensures r == Err(NoWorker) <==> worker == ""
    ensures r == Err(TicketNotFound) <==> worker != "" && t !in old(db.tickets)
  {
    SettleEffects(db.View(), t, target, result, delay, j, worker, now);
    if worker == "" {
      return Err(NoWorker);
    }
    var tickets := new TicketRepository(db);
    var moved := tickets.Transition(t, target, result, delay, worker, now);
    if moved.Err? {
      return Err(moved.error);
    }
    var jobs := new JobRepository(db);
    jobs.RecomputeProgress(j, now);
    return Ok(());
  }

  method HeartbeatTicket(db: Database, t: Id, worker: Worker, lease: nat, now: int) returns (extended: Option<Ticket>)
    modifies db
    ensures db.View() == ExtendLease(old(db.View()), t, worker, lease, now)
    ensures extended.Some? <==> Owns(old(db.View()), t, worker)
  {
    var tickets := new TicketRepository(db);
    extended := tickets.ExtendLease(t, worker, lease, now);
  }

  // ---------------------------------------------------------------- persisting an evaluation

  datatype PersistError = Refused(why: SettleError) | Deadlock

  /**
   One settlement transaction. The result is written before the ownership of the ticket is checked,
   so a refusal or a deadlock rolls the write back.
   */
  method PersistOnce(db: Database, c: ClaimCopy, verdict: Verdict, target: TicketStatus, delay: nat, newId: Id,
                     worker: Worker, now: int, deadlock: bool)
    returns (r: Outcome<(), PersistError>)
    requires UniquePerTicket(db.results) && newId !in db.results
    modifies db
    ensures deadlock ==> r == Err(Deadlock) && db.View() == old(db.View())
    ensures !deadlock ==>
              match QueueSpec.PersistOnce(old(db.View()), c, verdict, target, delay, newId, worker, now)
              case Ok(next) => r.Ok? && db.View() == next
              case Err(e) => r == Err(Refused(e)) && db.View() == old(db.View())
    ensures r.Ok? && c.ticketId in old(db.tickets) && target != Cancelled ==>
              Persists(old(db.View()), db.View(), c, verdict, target, delay, now)
  {
    var saved := db.View();
    if target != Cancelled {
      PersistEffects(saved, c, verdict, target, delay, newId, worker, now);
    }
    var settled: Outcome<(), SettleError>;
    if c.ticketId !in db.tickets {
      settled := Ok(());
    } else if CancelRequested(db.View(), c.jobId) && target != Cancelled {
      settled := SettleTicket(db, c.ticketId, Cancelled, None, 0, c.jobId, worker, now);
    } else {
      var result: Option<Id> := None;
      if RecordsResult(target) {
        var results := new ResultRepository(db);
        var id := results.Upsert(EvalResult(c.jobId, c.ticketId, verdict, c.attemptCount), newId);
        result := Some(id);
      }
      settled := SettleTicket(db, c.ticketId, target, result, delay, c.jobId, worker, now);
    }
    if deadlock || settled.Err? {
      db.Restore(saved);
      return Err(if deadlock then Deadlock else Refused(settled.error));
    }
    return Ok(());
  }

  datatype PersistOutcome = Settled | Stale | Raised(error: PersistError)

  /** One attempt: the tables it finds after other sessions committed, its time, its fresh id, whether it deadlocks. */
  datatype Attempt = Attempt(found: Db, now: int, newId: Id, deadlock: bool)

  ghost predicate CanPersist(a: Attempt) {
    UniquePerTicket(a.found.results) && a.newId !in a.found.results
  }

  /** The first attempt that does not deadlock, or the number of attempts when all do. */
  function FirstClean(attempts: seq<Attempt>): nat {
    if attempts == [] || !attempts[0].deadlock then 0 else 1 + FirstClean(attempts[1..])
  }

  lemma {:induction false} FirstCleanIs(attempts: seq<Attempt>, i: nat)
    requires i <= |attempts| && forall k :: 0 <= k < i ==> attempts[k].deadlock
    requires i < |attempts| ==> !attempts[i].deadlock
    ensures FirstClean(attempts) == i
  {
    if i > 0 {
      assert forall k :: 0 <= k < i - 1 ==> attempts[1..][k] == attempts[k + 1];
      assert i < |attempts| ==> attempts[1..][i - 1] == attempts[i];
      FirstCleanIs(attempts[1..], i - 1);
    }
  }

  /**
   Retry a settlement on deadlock, while other sessions commit between the attempts. At most one attempt commits: the
   tables end as the first attempt without a deadlock makes of those it finds, or as the last attempt found them.
   */
  method Persist(db: Database, c: ClaimCopy, verdict: Verdict, target: TicketStatus, delay: nat, worker: Worker,
                 attempts: seq<Attempt>)
    returns (outcome: PersistOutcome, clean: nat)
    requires attempts != [] && forall i :: 0 <= i < |attempts| ==> CanPersist(attempts[i])
    modifies db
    ensures clean == FirstClean(attempts) <= |attempts|
    ensures clean == |attempts| ==> outcome == Raised(Deadlock) && db.View() == attempts[|attempts| - 1].found
    ensures clean < |attempts| ==>
              var a := attempts[clean];
              match QueueSpec.PersistOnce(a.found, c, verdict, target, delay, a.newId, worker, a.now)
              case Ok(next) => outcome == Settled && db.View() == next
              case Err(e) => outcome == (if e == StaleWorker then Stale else Raised(Refused(e)))
                             && db.View() == a.found
    ensures clean < |attempts| && outcome == Settled && c.ticketId in attempts[clean].found.tickets
            && target != Cancelled ==>
              Persists(attempts[clean].found, db.View(), c, verdict, target, delay, attempts[clean].now)
  {
    clean := 0;
    while clean < |attempts|
      invariant clean <= |attempts|
      invariant forall k :: 0 <= k < clean ==> attempts[k].deadlock
      invariant clean > 0 ==> db.View() == attempts[clean - 1].found
    {
      var a := attempts[clean];
      db.Restore(a.found);
      var r := PersistOnce(db, c, verdict, target, delay, a.newId, worker, a.now, a.deadlock);
      if r.Ok? {
        FirstCleanIs(attempts, clean);
        return Settled, clean;
      }
      if r.error == Refused(StaleWorker) {
        FirstCleanIs(attempts, clean);
        return Stale, clean;
      }
      if r.error != Deadlock {
        FirstCleanIs(attempts, clean);
        return Raised(r.error), clean;
      }
      clean := clean + 1;
    }
    FirstCleanIs(attempts, clean);
    outcome := Raised(Deadlock);
  }

  /** The attempt that decides: a direct retry has only the first one, and needs none once its ticket is gone. */
  function Deciding(c: ClaimCopy, cls: ErrorClass, attempts: seq<Attempt>): nat
    requires attempts != []
  {
    if !GetsAnotherAttempt(c, cls) then FirstClean(attempts)
    else if c.ticketId in attempts[0].found.tickets && attempts[0].deadlock then |attempts|
    else 0
  }

  /** Classify a failure: retry it directly, or record it; only the recording is repeated on deadlock. */
  method HandleFailure(db: Database, c: ClaimCopy, cls: ErrorClass, delay: nat, worker: Worker, attempts: seq<Attempt>)
    returns (outcome: PersistOutcome)
    requires attempts != [] && forall i :: 0 <= i < |attempts| ==> CanPersist(attempts[i])
    modifies db
    ensures Deciding(c, cls, attempts) >= |attempts| ==>
              outcome == Raised(Deadlock)
              && db.View() == attempts[if GetsAnotherAttempt(c, cls) then 0 else |attempts| - 1].found
    ensures Deciding(c, cls, attempts) < |attempts| ==>
              var a := attempts[Deciding(c, cls, attempts)];
              match QueueSpec.HandleFailure(a.found, c, cls, delay, a.newId, worker, a.now)
              case Ok(next) => outcome == Settled && db.View() == next
              case Err(e) => outcome == (if e == StaleWorker then Stale else Raised(Refused(e)))
                             && db.View() == a.found
    ensures Deciding(c, cls, attempts) < |attempts| && outcome == Settled ==>
              var a := attempts[Deciding(c, cls, attempts)];
              c.ticketId in a.found.tickets ==> Handles(a.found, db.View(), c, cls, delay, a.now)
  {
    if Deciding(c, cls, attempts) < |attempts| {
      var a := attempts[Deciding(c, cls, attempts)];
      FailureEffects(a.found, c, cls, delay, a.newId, worker, a.now);
    }
    if GetsAnotherAttempt(c, cls) {
      var a := attempts[0];
      db.Restore(a.found);
      if c.ticketId !in db.tickets {
        return Settled;
      }
      var settled := SettleTicket(db, c.ticketId, Retry, None, delay, c.jobId, worker, a.now);
      if a.deadlock {
        db.Restore(a.found);
        return Raised(Deadlock);
      }
      return if settled.Ok? then Settled
             else if settled.error == StaleWorker then Stale else Raised(Refused(settled.error));
    }
    var clean;
    var verdict := if cls == MissingContext then VerdictFailed else VerdictError;
    outcome, clean := Persist(db, c, verdict, Failed, 0, worker, attempts);
  }

  // ---------------------------------------------------------------- operator calls

  method CancelJob(db: Database, j: Id, now: int) returns (r: Outcome<nat, ApiError>)
    modifies db
    ensures match QueueSpec.CancelJob(old(db.View()), j, now)
            case Ok(next) => db.View() == next && r == Ok(|UnclaimedTickets(old(db.View()), j)|)
            case Err(e) => db.View() == old(db.View()) && r == Err(e)
    ensures r.Ok? ==> CancelsWaiting(old(db.View()), db.View(), j, now) && j in old(db.jobs)
                      && OnlyShows(old(db.jobs)[j := Requested(old(db.jobs)[j], now)], db.View(), {j}, now)
  {
    if QueueSpec.CancelJob(db.View(), j, now).Ok? {
      CancelEffects(db.View(), j, now);
    }
    if j !in db.jobs {
      return Err(JobNotFound);
    }
    var status := db.jobs[j].status;
    if status == JobCompleted || status == JobFailed || status == JobPartialFailed {
      return Err(Conflict);
    }
    var jobs := new JobRepository(db);
    var tickets := new TicketRepository(db);
    var found := jobs.RequestCancellation(j, now);
    var cancelled := tickets.CancelUnclaimed(j, now);
    jobs.RecomputeProgress(j, now);
    return Ok(cancelled);
  }

  method RetryFailedTickets(db: Database, j: Id, now: int) returns (r: Outcome<nat, ApiError>)
    modifies db
    ensures match RetryFailed(old(db.View()), j, now)
            case Ok(next) => db.View() == next && r == Ok(|TicketsWith(old(db.tickets), j, Failed)|)
            case Err(e) => db.View() == old(db.View()) && r == Err(e)
    ensures r.Ok? ==> ResetsFailed(old(db.View()), db.View(), j, now) && OnlyShows(old(db.jobs), db.View(), {j}, now)
    ensures r.Ok? <==> j in old(db.jobs) && old(db.jobs)[j].cancelRequestedAt.None? && Has(old(db.tickets), j, Failed)
  {
    RetryFailedRefusals(db.View(), j, now);
    if RetryFailed(db.View(), j, now).Ok? {
      RetryFailedEffects(db.View(), j, now);
    }
    if j !in db.jobs {
      return Err(JobNotFound);
    }
    if db.jobs[j].cancelRequestedAt.Some? {
      return Err(Conflict);
    }
    var saved := db.View();
    var tickets := new TicketRepository(db);
    var reset := tickets.ResetFailed(j, now);
    if reset == {} {
      db.Restore(saved);
      return Err(Conflict);
    }
    var jobs := new JobRepository(db);
    jobs.RecomputeProgress(j, now);
    return Ok(|reset|);
  }

  // ---------------------------------------------------------------- recovery

  datatype RecoveryReport = RecoveryReport(toRetry: nat, toFailed: nat, cancelled: nat)

  /** Recompute one job after another; the order does not matter because tickets stay as they are. */
  method RecomputeEach(db: Database, js: set<Id>, now: int)
    modifies db
    ensures db.View() == RecomputeAll(old(db.View()), js, now)
  {
    var jobs := new JobRepository(db);
    var todo := js;
    assert RecomputeAll(db.View(), {}, now).jobs == db.jobs;
    while todo != {}
      invariant todo <= js
      invariant db.View() == RecomputeAll(old(db.View()), js - todo, now)
      decreases |todo|
    {
      var j :| j in todo;
      RecomputeComposes(old(db.View()), js - todo, j, now);
      jobs.RecomputeProgress(j, now);
      assert js - (todo - {j}) == (js - todo) + {j};
      todo := todo - {j};
    }
    assert js - todo == js;
  }

  lemma RecomputeComposes(db: Db, done: set<Id>, j: Id, now: int)
    requires j !in done
    ensures RecomputeAll(RecomputeAll(db, done, now), {j}, now) == RecomputeAll(db, done + {j}, now)
  {
    var once := RecomputeAll(RecomputeAll(db, done, now), {j}, now);
    var both := RecomputeAll(db, done + {j}, now);
    assert once.jobs.Keys == both.jobs.Keys;
    forall k | k in once.jobs
      ensures once.jobs[k] == both.jobs[k]
    {
    }
    assert once.jobs == both.jobs;
  }

  /** Count the recovered rows by the status they were given. */
  method CountRecovered(tickets: map<Id, Ticket>, picked: seq<Id>) returns (report: RecoveryReport)
    requires forall t :: t in picked ==> t in tickets
    ensures report.toRetry + report.toFailed + report.cancelled == |picked|
    ensures report.cancelled == Matching(tickets, picked, Cancelled)
    ensures report.toFailed == Matching(tickets, picked, Failed)
  {
    report := RecoveryReport(0, 0, 0);
    for i := 0 to |picked|
      invariant report.toRetry + report.toFailed + report.cancelled == i
      invariant report.cancelled == Matching(tickets, picked[..i], Cancelled)
      invariant report.toFailed == Matching(tickets, picked[..i], Failed)
    {
      assert picked[..i + 1] == picked[..i] + [picked[i]];
      match tickets[picked[i]].status {
        case Cancelled => report := report.(cancelled := report.cancelled + 1);
        case Failed => report := report.(toFailed := report.toFailed + 1);
        case _ => report := report.(toRetry := report.toRetry + 1);
      }
    }
    assert picked[..|picked|] == picked;
  }

  /** How many of the listed rows have status `s`. */
  function Matching(tickets: map<Id, Ticket>, picked: seq<Id>, s: TicketStatus): nat {
    if picked == [] then 0
    else Matching(tickets, picked[..|picked| - 1], s)
         + if picked[|picked| - 1] in tickets && tickets[picked[|picked| - 1]].status == s then 1 else 0
  }

  /** The recovery sweep: expired leases, then what is left of cancelled jobs, then the touched jobs. */
  method RecoverAbandonedTickets(db: Database, limit: nat, locked: set<Id>, jitter: map<Id, nat>, now: int)
    returns (report: RecoveryReport, expired: seq<Id>, abandoned: seq<Id>)
    modifies db
    ensures Protocol.Elements(expired) <= ExpiredTickets(old(db.View()), now)
    ensures Protocol.Elements(abandoned) <=
            ExpiredCancelledTickets(RecoverExpired(old(db.View()), Protocol.Elements(expired), jitter, now), now)
    ensures db.View() == Recover(old(db.View()), Protocol.Elements(expired), Protocol.Elements(abandoned), jitter, now)
    ensures TakesFirst(old(db.tickets), ExpiredTickets(old(db.View()), now) - locked, expired, limit, LeaseBefore)
    ensures var recovered := RecoverExpired(old(db.View()), Protocol.Elements(expired), jitter, now);
            TakesFirst(recovered.tickets, ExpiredCancelledTickets(recovered, now) - locked, abandoned, limit,
                       LeaseBefore)
    ensures report.toRetry + report.toFailed + report.cancelled == |expired| + |abandoned|
    ensures SweepsInOrder(old(db.View()), expired, locked, limit, now, false)
    ensures SweptRows(old(db.View()), db.View(), Protocol.Elements(expired), Protocol.Elements(abandoned), jitter, now)
  {
    ghost var before := db.View();
    var tickets := new TicketRepository(db);
    expired := tickets.RecoverExpiredLeases(limit, locked, jitter, now);
    assert forall t :: t in expired ==> t in Protocol.Elements(expired);
    var first := CountRecovered(db.tickets, expired);
    abandoned := tickets.CancelRunningForCancelledJobs(limit, locked, now);
    assert forall t :: t in abandoned ==> t in Protocol.Elements(abandoned);
    var second := CountRecovered(db.tickets, abandoned);
    report := RecoveryReport(first.toRetry + second.toRetry, first.toFailed + second.toFailed,
                             first.cancelled + second.cancelled);
    var touched := Protocol.Elements(expired) + Protocol.Elements(abandoned);
    var affected := JobsOf(db.tickets, touched);
    SweepKeepsJobIds(old(db.View()), Protocol.Elements(expired), Protocol.Elements(abandoned), jitter, now);
    RecomputeEach(db, affected, now);
    RecoverEffects(before, Protocol.Elements(expired), Protocol.Elements(abandoned), jitter, now);
  }

  lemma SweepKeepsJobIds(db: Db, expired: set<Id>, abandoned: set<Id>, jitter: map<Id, nat>, now: int)
    ensures JobsOf(CancelRows(RecoverExpired(db, expired, jitter, now), abandoned, now).tickets, expired + abandoned)
            == JobsOf(db.tickets, expired + abandoned)
  {
    SameJobIds(db.tickets, CancelRows(RecoverExpired(db, expired, jitter, now), abandoned, now).tickets,
               expired + abandoned);
  }

  lemma SameJobIds(before: map<Id, Ticket>, after: map<Id, Ticket>, picked: set<Id>)
    requires before.Keys == after.Keys && forall t :: t in before ==> after[t].jobId == before[t].jobId
    ensures JobsOf(after, picked) == JobsOf(before, picked)
  {
    forall j
      ensures j in JobsOf(after, picked) <==> j in JobsOf(before, picked)
    {
      if j in JobsOf(after, picked) {
        var t :| t in picked && t in after && after[t].jobId == j;
        assert t in before && before[t].jobId == j;
      }
      if j in JobsOf(before, picked) {
        var t :| t in picked && t in before && before[t].jobId == j;
        assert t in after && after[t].jobId == j;
      }
    }
  }

  /** Recompute every job that still has an unfinished ticket. */
  method ReconcileActiveJobs(db: Database, now: int) returns (count: nat)
    modifies db
    ensures db.View() == Reconcile(old(db.View()), now) && count == |ActiveJobs(old(db.View()))|
    ensures db.tickets == old(db.tickets) && db.results == old(db.results)
    ensures forall j :: j in old(db.jobs) && IsOpen(old(db.tickets), j) ==>
              j in db.jobs && ShowsProgress(old(db.jobs)[j], db.tickets, j, now, db.jobs[j])
    ensures forall j :: j in old(db.jobs) && !IsOpen(old(db.tickets), j) ==>
              j in db.jobs && db.jobs[j] == old(db.jobs)[j]
  {
    ReconcileEffects(db.View(), now);
    var active := ActiveJobs(db.View());
    count := |active|;
    RecomputeEach(db, active, now);
  }
}
