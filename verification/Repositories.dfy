/**
 The repositories as objects that update the tables in place. Each method is proved against the
 function of QueueSpec that gives its effect; the row locks of other sessions are a parameter.
 */
module Repositories {
  import opened Options
  import opened Lifecycle
  import opened Tables
  import opened QueueSpec
  import opened Invariants
  import opened Preservation
  import opened RowEffects
  import Protocol

  class Database {
    var jobs: map<Id, Job>
    var tickets: map<Id, Ticket>
    var results: map<Id, EvalResult>

    function View(): Db
      reads this
    {
      Db(jobs, tickets, results)
    }

    /** The tables become what a raised transaction found, or what other sessions have made of them. */
    method Restore(saved: Db)
      modifies this
      ensures View() == saved
    {
      jobs, tickets, results := saved.jobs, saved.tickets, saved.results;
    }
  }

  // ---------------------------------------------------------------- ORDER BY

  /** A strict order in which "neither first" is transitive, as the sort keys of the queries are. */
  ghost predicate StrictWeakOrder(before: (Ticket, Ticket) -> bool) {
    && (forall a :: !before(a, a))
    && (forall a, b, c :: before(a, b) && before(b, c) ==> before(a, c))
  }

  predicate IsFirst(rows: map<Id, Ticket>, rest: set<Id>, before: (Ticket, Ticket) -> bool, t: Id) {
    t in rest && t in rows && forall u :: u in rest && u in rows ==> !before(rows[u], rows[t])
  }

  lemma {:induction false} FirstExists(rows: map<Id, Ticket>, rest: set<Id>, before: (Ticket, Ticket) -> bool)
    returns (first: Id)
    requires StrictWeakOrder(before) && rest <= rows.Keys && rest != {}
    ensures IsFirst(rows, rest, before, first)
    decreases |rest|
  {
    first :| first in rest;
    if rest - {first} != {} {
      var f := FirstExists(rows, rest - {first}, before);
      if before(rows[first], rows[f]) {
        forall u | u in rest
          ensures !before(rows[u], rows[first])
        {
        }
      } else {
        first := f;
      }
    } else {
      assert rest == {first};
    }
  }

  /** Appending a first element of the rest keeps the listing ordered. */
  lemma AppendFirst(rows: map<Id, Ticket>, done: set<Id>, rest: set<Id>, listed: seq<Id>,
                    before: (Ticket, Ticket) -> bool, t: Id)
    requires IsOrdered(rows, done, listed, before) && rest <= rows.Keys && done !! rest
    requires IsFirst(rows, rest, before, t)
    requires forall u :: u in listed && u in rows ==> !before(rows[t], rows[u])
    ensures IsOrdered(rows, done + {t}, listed + [t], before)
  {
  }

  /** The candidate rows in sort order. */
  method OrderRows(rows: map<Id, Ticket>, candidates: set<Id>, before: (Ticket, Ticket) -> bool)
    returns (listed: seq<Id>)
    requires StrictWeakOrder(before) && candidates <= rows.Keys
    ensures IsOrdered(rows, candidates, listed, before)
  {
    listed := [];
    var rest := candidates;
    while rest != {}
      invariant rest <= candidates
      invariant IsOrdered(rows, candidates - rest, listed, before)
      invariant forall t, u :: t in listed && t in rows && u in rest && u in rows ==> !before(rows[u], rows[t])
      decreases |rest|
    {
      ghost var witness' := FirstExists(rows, rest, before);
      var t :| t in rest && IsFirst(rows, rest, before, t);
      AppendFirst(rows, candidates - rest, rest, listed, before, t);
      assert candidates - (rest - {t}) == (candidates - rest) + {t};
      listed, rest := listed + [t], rest - {t};
    }
    assert candidates - rest == candidates;
  }

  // ---------------------------------------------------------------- what a scan takes

  lemma {:induction false} TakenAreListed(rows: seq<Id>, locked: set<Id>, limit: nat)
    ensures forall t :: t in TakeUnlocked(rows, locked, limit) ==> t in rows && t !in locked
    decreases |rows|
  {
    if rows != [] && limit > 0 {
      TakenAreListed(rows[1..], locked, if rows[0] in locked then limit else limit - 1);
    }
  }

  /** READY or RETRY, available, in a job that is neither cancelled nor finished, and in the asked job if one is. */
  predicate IsClaimable(db: Db, t: Id, now: int, filter: Option<Id>) {
    && t in db.tickets && (db.tickets[t].status == Ready || db.tickets[t].status == Retry)
    && db.tickets[t].availableAt <= now && db.tickets[t].jobId in db.jobs
    && (filter.None? || filter.value == db.tickets[t].jobId)
    && var job := db.jobs[db.tickets[t].jobId];
       job.cancelRequestedAt.None? && (job.status == JobCreated || job.status == JobReady || job.status == JobRunning)
  }

  /** At most `limit` tickets, each once: claimable, unlocked, by priority and then age, and all that are if few. */
  ghost predicate ScansInOrder(db: Db, taken: seq<Id>, locked: set<Id>, limit: nat, now: int, filter: Option<Id>) {
    && |taken| <= limit && (forall i, k :: 0 <= i < k < |taken| ==> taken[i] != taken[k])
    && (forall t :: t in taken ==> IsClaimable(db, t, now, filter) && t !in locked)
    && (forall u :: IsClaimable(db, u, now, filter) && u !in locked && u !in taken ==> |taken| == limit)
    && (forall t, u :: t in taken && IsClaimable(db, u, now, filter) && u !in locked && u !in taken ==>
          ClaimedBefore(db.tickets, t, u))
  }

  /** Higher priority first, then older. */
  predicate ClaimedBefore(tickets: map<Id, Ticket>, t: Id, u: Id) {
    t in tickets && u in tickets ==>
      && tickets[t].priority >= tickets[u].priority
      && (tickets[t].priority == tickets[u].priority ==> tickets[t].createdAt <= tickets[u].createdAt)
  }

  lemma ScanTakesInOrder(db: Db, rows: seq<Id>, locked: set<Id>, limit: nat, now: int, filter: Option<Id>)
    requires IsOrdered(db.tickets, EligibleTickets(db, now, filter), rows, Outranks)
    ensures ScansInOrder(db, TakeUnlocked(rows, locked, limit), locked, limit, now, filter)
  {
    var taken := TakeUnlocked(rows, locked, limit);
    var free := EligibleTickets(db, now, filter) - locked;
    TakeUnlockedTakes(db.tickets, EligibleTickets(db, now, filter), rows, locked, limit, Outranks);
    ClaimableTickets(db, now, filter);
    forall t, u | t in taken && u in free && u !in taken
      ensures ClaimedBefore(db.tickets, t, u)
    {
      assert NotBefore(db.tickets, u, t, Outranks);
      OutranksByColumns(db.tickets, t, u);
    }
    if u :| u in free && u !in taken {
      TakesAllIfFew(taken, free, u);
    }
  }

  lemma ClaimableTickets(db: Db, now: int, filter: Option<Id>)
    ensures forall t :: t in EligibleTickets(db, now, filter) <==> IsClaimable(db, t, now, filter)
  {
  }

  lemma OutranksByColumns(tickets: map<Id, Ticket>, t: Id, u: Id)
    requires NotBefore(tickets, u, t, Outranks)
    ensures ClaimedBefore(tickets, t, u)
  {
  }

  /** Distinct members of a set that leave one out are fewer. */
  lemma {:induction false} TakesAllIfFew(taken: seq<Id>, free: set<Id>, u: Id)
    requires forall t :: t in taken ==> t in free
    requires forall i, k :: 0 <= i < k < |taken| ==> taken[i] != taken[k]
    requires u in free && u !in taken
    ensures |taken| < |free|
  {
    if taken != [] {
      forall t | t in taken[1..]
        ensures t in free - {taken[0]}
      {
        var k :| 0 <= k < |taken| - 1 && taken[1..][k] == t;
        assert taken[k + 1] == t;
      }
      TakesAllIfFew(taken[1..], free - {taken[0]}, u);
    }
  }

  /** At most `limit` expired leases, each once: unlocked, the earliest first, and all that are if few. */
  ghost predicate SweepsInOrder(db: Db, picked: seq<Id>, locked: set<Id>, limit: nat, now: int, cancelledOnly: bool) {
    && |picked| <= limit && (forall i, k :: 0 <= i < k < |picked| ==> picked[i] != picked[k])
    && (forall t :: t in picked ==> IsSwept(db, t, now, cancelledOnly) && t !in locked)
    && (forall u :: IsSwept(db, u, now, cancelledOnly) && u !in locked && u !in picked ==> |picked| == limit)
    && (forall t, u :: t in picked && IsSwept(db, u, now, cancelledOnly) && u !in locked && u !in picked ==>
          LeaseEndsFirst(db.tickets, t, u))
  }

  predicate IsSwept(db: Db, t: Id, now: int, cancelledOnly: bool) {
    IsExpired(db, t, now) && (cancelledOnly ==> db.jobs[db.tickets[t].jobId].cancelRequestedAt.Some?)
  }

  predicate LeaseEndsFirst(tickets: map<Id, Ticket>, t: Id, u: Id) {
    t in tickets && u in tickets && tickets[t].leaseExpiresAt.Some? && tickets[u].leaseExpiresAt.Some? ==>
      tickets[t].leaseExpiresAt.value <= tickets[u].leaseExpiresAt.value
  }

  lemma SweepTakesInOrder(db: Db, candidates: set<Id>, picked: seq<Id>, locked: set<Id>, limit: nat, now: int,
                          cancelledOnly: bool)
    requires candidates == if cancelledOnly then ExpiredCancelledTickets(db, now) else ExpiredTickets(db, now)
    requires TakesFirst(db.tickets, candidates - locked, picked, limit, LeaseBefore)
    ensures SweepsInOrder(db, picked, locked, limit, now, cancelledOnly)
  {
    SweepsLookAt(db, now);
    assert forall t :: t in candidates <==> IsSwept(db, t, now, cancelledOnly);
    forall t, u | t in picked && u in candidates - locked && u !in picked
      ensures LeaseEndsFirst(db.tickets, t, u)
    {
      assert NotBefore(db.tickets, u, t, LeaseBefore);
    }
    if u :| u in candidates - locked && u !in picked {
      TakesAllIfFew(picked, candidates - locked, u);
    }
  }

  // ---------------------------------------------------------------- tickets

  class TicketRepository {
    const db: Database

    constructor (db: Database)
      ensures this.db == db
    {
      this.db := db;
    }

    /** Lock the best unlocked rows and mark them RUNNING, or raise when the table check fails. */
    method Claim(limit: nat, worker: Worker, lease: nat, filter: Option<Id>, locked: set<Id>, now: int)
      returns (claimed: Outcome<seq<Id>, ()>, ghost rows: seq<Id>)
      modifies db
      ensures IsOrdered(old(db.tickets), EligibleTickets(old(db.View()), now, filter), rows, Outranks)
      ensures var taken := TakeUnlocked(rows, locked, limit);
              if ClaimAborts(old(db.tickets), Protocol.Elements(taken))
              then claimed.Err? && db.View() == old(db.View())
              else claimed == Ok(taken)
                   && db.tickets == ClaimRows(old(db.tickets), Protocol.Elements(taken), worker, lease, now)
                   && db.jobs == old(db.jobs) && db.results == old(db.results)
      ensures claimed.Ok? ==>
                && ScansInOrder(old(db.View()), claimed.value, locked, limit, now, filter)
                && db.tickets.Keys == old(db.tickets).Keys
                && forall t :: t in old(db.tickets) ==>
                     if t in claimed.value then WasClaimed(old(db.tickets)[t], db.tickets[t], worker, lease, now)
                     else db.tickets[t] == old(db.tickets)[t]
      ensures claimed.Err? ==> exists t :: t in rows && t !in locked && t in db.tickets
                                           && db.tickets[t].attemptCount > db.tickets[t].maxAttempts
    {
      var listed := OrderRows(db.tickets, EligibleTickets(db.View(), now, filter), Outranks);
      rows := listed;
      var taken := TakeUnlocked(listed, locked, limit);
      var ids := Protocol.Elements(taken);
      ScanTakesInOrder(db.View(), listed, locked, limit, now, filter);
      if ClaimAborts(db.tickets, ids) {
        TakenAreListed(listed, locked, limit);
        claimed := Err(());
        return;
      }
      db.tickets := map t | t in db.tickets ::
        if t in ids then ClaimedTicket(db.tickets[t], worker, lease, now) else db.tickets[t];
      claimed := Ok(taken);
    }

    /** Move one ticket on behalf of the worker that owns it. */
    method Transition(t: Id, target: TicketStatus, result: Option<Id>, delay: nat, worker: Worker, now: int)
      returns (r: Outcome<Ticket, SettleError>)
      modifies db
      ensures match QueueSpec.Transition(old(db.View()), t, target, result, delay, worker, now)
              case Ok(next) => db.View() == next && r == Ok(next.tickets[t])
              case Err(e) => db.View() == old(db.View()) && r == Err(e)
      ensures r.Ok? ==>
                && t in old(db.tickets) && WasSettled(old(db.tickets)[t], r.value, target, result, delay, now)
                && db.tickets == old(db.tickets)[t := r.value]
      ensures r == Err(TicketNotFound) <==> t !in old(db.tickets)
      ensures r == Err(StaleWorker) <==>
                && t in old(db.tickets) && worker != "" && IsForeign(old(db.tickets)[t], worker)
                && (Allowed(old(db.tickets)[t].status, target)
                    || (old(db.tickets)[t].workerId.Some? && old(db.tickets)[t].workerId.value != worker))
      ensures r == Err(NoWorker) <==> t in old(db.tickets) && worker == ""
    {
      if t !in db.tickets {
        return Err(TicketNotFound);
      }
      var row := db.tickets[t];
      if worker == "" {
        return Err(NoWorker);
      }
      var owned := row.status == Running && row.workerId == Some(worker);
      if !owned {
        var differentOwner := row.workerId.Some? && row.workerId != Some(worker);
        if !differentOwner && !Allowed(row.status, target) {
          return Err(IllegalTransition);
        }
        return Err(StaleWorker);
      }
      if !Allowed(row.status, target) {
        return Err(IllegalTransition);
      }
      var next: Ticket;
      if target == Done {
        next := row.(status := Done, resultId := result, completedAt := Some(now), leaseExpiresAt := None);
      } else if target == Retry {
        next := row.(status := Retry, availableAt := now + delay, workerId := None, leaseExpiresAt := None);
      } else if target == Cancelled {
        next := row.(status := Cancelled, completedAt := Some(now), leaseExpiresAt := None);
      } else {
        next := row.(status := target, completedAt := Some(now), leaseExpiresAt := None,
                     resultId := if result.Some? then result else row.resultId);
      }
      db.tickets := db.tickets[t := next];
      return Ok(next);
    }

    method ExtendLease(t: Id, worker: Worker, lease: nat, now: int) returns (r: Option<Ticket>)
      modifies db
      ensures db.View() == QueueSpec.ExtendLease(old(db.View()), t, worker, lease, now)
      ensures r.Some? <==> Owns(old(db.View()), t, worker)
      ensures r.Some? ==> r.value == old(db.tickets)[t].(leaseExpiresAt := Some(now + lease))
      ensures db.tickets == if r.Some? then old(db.tickets)[t := r.value] else old(db.tickets)
    {
      if t in db.tickets && db.tickets[t].status == Running && db.tickets[t].workerId == Some(worker) {
        var next := db.tickets[t].(leaseExpiresAt := Some(now + lease));
        db.tickets := db.tickets[t := next];
        return Some(next);
      }
      return None;
    }

    method CancelUnclaimed(j: Id, now: int) returns (count: nat)
      modifies db
      ensures db.View() == CancelRows(old(db.View()), UnclaimedTickets(old(db.View()), j), now)
      ensures count == |UnclaimedTickets(old(db.View()), j)|
      ensures CancelsWaiting(old(db.View()), db.View(), j, now)
    {
      CancelUnclaimedEffects(db.View(), j, now);
      var picked := set t | t in db.tickets && db.tickets[t].jobId == j && IsPending(db.tickets[t].status);
      assert picked == UnclaimedTickets(db.View(), j);
      db.tickets := map t | t in db.tickets ::
        if t in picked then CancelledTicket(db.tickets[t], now) else db.tickets[t];
      count := |picked|;
    }

    method ResetFailed(j: Id, now: int) returns (reset: set<Id>)
      modifies db
      ensures db.View() == QueueSpec.ResetFailed(old(db.View()), j, now)
      ensures reset == TicketsWith(old(db.tickets), j, Failed)
      ensures ResetsFailed(old(db.View()), db.View(), j, now)
    {
      ResetEffects(db.View(), j, now);
      reset := set t | t in db.tickets && db.tickets[t].jobId == j && db.tickets[t].status == Failed;
      db.tickets := map t | t in db.tickets :: if t in reset then ResetTicket(db.tickets[t], now) else db.tickets[t];
    }

    /** Reclaim at most `limit` unlocked rows whose lease ran out, the oldest lease first. */
    method RecoverExpiredLeases(limit: nat, locked: set<Id>, jitter: map<Id, nat>, now: int) returns (picked: seq<Id>)
      modifies db
      ensures TakesFirst(old(db.tickets), ExpiredTickets(old(db.View()), now) - locked, picked, limit, LeaseBefore)
      ensures SweepsInOrder(old(db.View()), picked, locked, limit, now, false)
      ensures db.View() == RecoverExpired(old(db.View()), Protocol.Elements(picked), jitter, now)
      ensures SweptRows(old(db.View()), db.View(), Protocol.Elements(picked), {}, jitter, now)
    {
      picked := LockOldest(db.tickets, ExpiredTickets(db.View(), now), locked, limit);
      SweepTakesInOrder(db.View(), ExpiredTickets(db.View(), now), picked, locked, limit, now, false);
      RecoverExpiredEffects(db.View(), Protocol.Elements(picked), jitter, now);
      var ids := Protocol.Elements(picked);
      db.tickets := map t | t in db.tickets ::
        if t in ids then RecoveredTicket(db.tickets[t], CancelRequested(db.View(), db.tickets[t].jobId),
                                         if t in jitter then jitter[t] else 0, now)
        else db.tickets[t];
    }

    /** Cancel at most `limit` unlocked rows of cancelled jobs whose lease ran out, the oldest lease first. */
    method CancelRunningForCancelledJobs(limit: nat, locked: set<Id>, now: int) returns (picked: seq<Id>)
      modifies db
      ensures TakesFirst(old(db.tickets), ExpiredCancelledTickets(old(db.View()), now) - locked, picked, limit,
                         LeaseBefore)
      ensures SweepsInOrder(old(db.View()), picked, locked, limit, now, true)
      ensures db.View() == CancelRows(old(db.View()), Protocol.Elements(picked), now)
      ensures SweptRows(old(db.View()), db.View(), {}, Protocol.Elements(picked), map[], now)
    {
      picked := LockOldest(db.tickets, ExpiredCancelledTickets(db.View(), now), locked, limit);
      SweepTakesInOrder(db.View(), ExpiredCancelledTickets(db.View(), now), picked, locked, limit, now, true);
      CancelSweptEffects(db.View(), Protocol.Elements(picked), now);
      var ids := Protocol.Elements(picked);
      db.tickets := map t | t in db.tickets ::
        if t in ids then CancelledTicket(db.tickets[t], now) else db.tickets[t];
    }
  }

  /** The unlocked rows whose lease ran out first, up to the limit. */
  method LockOldest(tickets: map<Id, Ticket>, candidates: set<Id>, locked: set<Id>, limit: nat)
    returns (picked: seq<Id>)
    requires candidates <= tickets.Keys
    ensures TakesFirst(tickets, candidates - locked, picked, limit, LeaseBefore)
  {
    LeaseOrderIsStrict();
    var listed := OrderRows(tickets, candidates, LeaseBefore);
    picked := TakeUnlocked(listed, locked, limit);
    TakeUnlockedTakes(tickets, candidates, listed, locked, limit, LeaseBefore);
  }

  lemma LeaseOrderIsStrict()
    ensures StrictWeakOrder(LeaseBefore)
  {
  }

  /** The first of the candidates in the sort order, each once: all of them, or as many as the limit allows. */
  ghost predicate TakesFirst(tickets: map<Id, Ticket>, candidates: set<Id>, picked: seq<Id>, limit: nat,
                             before: (Ticket, Ticket) -> bool) {
    && (forall t :: t in picked ==> t in candidates)
    && (forall i, k :: 0 <= i < k < |picked| ==> picked[i] != picked[k])
    && |picked| == (if limit < |candidates| then limit else |candidates|)
    && (forall t, u :: t in picked && u in candidates && u !in picked ==> NotBefore(tickets, u, t, before))
  }

  predicate NotBefore(tickets: map<Id, Ticket>, u: Id, t: Id, before: (Ticket, Ticket) -> bool) {
    u in tickets && t in tickets ==> !before(tickets[u], tickets[t])
  }

  lemma PrependFirst(tickets: map<Id, Ticket>, others: set<Id>, picked: seq<Id>, before: (Ticket, Ticket) -> bool,
                     first: Id, all: set<Id>, taken: seq<Id>, limit: nat)
    requires limit > 0 && TakesFirst(tickets, others, picked, limit - 1, before) && first !in others
    requires forall u :: u in others ==> NotBefore(tickets, u, first, before)
    requires all == {first} + others && taken == [first] + picked
    ensures TakesFirst(tickets, all, taken, limit, before)
  {
    assert |all| == |others| + 1;
    forall i, k | 0 <= i < k < |taken|
      ensures taken[i] != taken[k]
    {
      assert taken[k] == picked[k - 1] && picked[k - 1] in picked;
    }
  }

  /** A scan of listed rows takes the first unlocked ones up to the limit. */
  lemma {:induction false} TakeUnlockedTakes(tickets: map<Id, Ticket>, candidates: set<Id>, rows: seq<Id>,
                                             locked: set<Id>, limit: nat, before: (Ticket, Ticket) -> bool)
    requires IsOrdered(tickets, candidates, rows, before)
    ensures TakesFirst(tickets, candidates - locked, TakeUnlocked(rows, locked, limit), limit, before)
    decreases |rows|
  {
    if limit == 0 {
      assert TakeUnlocked(rows, locked, limit) == [];
    } else if rows == [] {
      assert candidates == {} && candidates - locked == {};
    } else {
      RestIsOrdered(tickets, candidates, rows, before);
      if rows[0] in locked {
        assert candidates - {rows[0]} - locked == candidates - locked;
        TakeUnlockedTakes(tickets, candidates - {rows[0]}, rows[1..], locked, limit, before);
      } else {
        TakeUnlockedTakes(tickets, candidates - {rows[0]}, rows[1..], locked, limit - 1, before);
        FirstIsFirst(tickets, candidates, rows, before);
        TakesUnlockedFirst(tickets, candidates, rows, locked, limit, before);
      }
    }
  }

  lemma TakesUnlockedFirst(tickets: map<Id, Ticket>, candidates: set<Id>, rows: seq<Id>, locked: set<Id>, limit: nat,
                           before: (Ticket, Ticket) -> bool)
    requires rows != [] && limit > 0 && rows[0] in candidates - locked
    requires forall u :: u in candidates && u != rows[0] ==> NotBefore(tickets, u, rows[0], before)
    requires TakesFirst(tickets, candidates - {rows[0]} - locked, TakeUnlocked(rows[1..], locked, limit - 1),
                        limit - 1, before)
    ensures TakesFirst(tickets, candidates - locked, TakeUnlocked(rows, locked, limit), limit, before)
  {
    assert candidates - locked == {rows[0]} + (candidates - {rows[0]} - locked);
    assert TakeUnlocked(rows, locked, limit) == [rows[0]] + TakeUnlocked(rows[1..], locked, limit - 1);
    PrependFirst(tickets, candidates - {rows[0]} - locked, TakeUnlocked(rows[1..], locked, limit - 1), before, rows[0],
                 candidates - locked, TakeUnlocked(rows, locked, limit), limit);
  }

  lemma RestIsOrdered(tickets: map<Id, Ticket>, candidates: set<Id>, rows: seq<Id>, before: (Ticket, Ticket) -> bool)
    requires IsOrdered(tickets, candidates, rows, before) && rows != []
    ensures IsOrdered(tickets, candidates - {rows[0]}, rows[1..], before) && rows[0] in candidates
  {
    assert rows == [rows[0]] + rows[1..];
  }

  lemma FirstIsFirst(tickets: map<Id, Ticket>, candidates: set<Id>, rows: seq<Id>, before: (Ticket, Ticket) -> bool)
    requires IsOrdered(tickets, candidates, rows, before) && rows != []
    ensures forall u :: u in candidates && u != rows[0] ==> NotBefore(tickets, u, rows[0], before)
  {
    forall u | u in candidates && u != rows[0]
      ensures NotBefore(tickets, u, rows[0], before)
    {
      var k :| 0 <= k < |rows| && rows[k] == u;
    }
  }

  // ---------------------------------------------------------------- jobs

  /** The job has tickets, its total counts them all, and cancelled ones stand only in a job asked to cancel. */
  predicate CanAgree(db: Db, j: Id) {
    && j in db.jobs && TicketsOf(db.tickets, j) != {}
    && db.jobs[j].totalTickets == |TicketsOf(db.tickets, j)|
    && (db.jobs[j].cancelRequestedAt.None? ==> TicketsWith(db.tickets, j, Cancelled) == {})
  }

  /** Count the ticket rows by status and derive the progress columns of their job. */
  method Recount(job: Job, tickets: map<Id, Ticket>, j: Id, now: int) returns (next: Job)
    ensures next == RecomputedJob(job, tickets, j, now)
  {
    var done := |TicketsWith(tickets, j, Done)|;
    var failed := |TicketsWith(tickets, j, Failed)|;
    var cancelled := |TicketsWith(tickets, j, Cancelled)|;
    var notApplicable := |TicketsWith(tickets, j, NotApplicable)|;
    var running := |TicketsWith(tickets, j, Running)|;
    var pending := |TicketsWith(tickets, j, Ready)| + |TicketsWith(tickets, j, Retry)|;
    var terminal := done + failed + cancelled + notApplicable;
    var total := terminal + running + pending;

    var status: JobStatus;
    if total == 0 {
      status := job.status;
    } else if terminal < total {
      status := if running > 0 || terminal > 0 then JobRunning else JobReady;
    } else if cancelled > 0 && (job.cancelRequestedAt.Some? || done + failed == 0) {
      status := JobCancelled;
    } else if failed == 0 {
      status := JobCompleted;
    } else if done + notApplicable > 0 {
      status := JobPartialFailed;
    } else {
      status := JobFailed;
    }

    var isTerminal := total > 0 && terminal >= total;
    var started := status != JobReady && status != JobCreated;
    next := job.(status := status,
                 totalTickets := if job.totalTickets < total then total else job.totalTickets,
                 completed := done,
                 failed := failed,
                 cancelled := cancelled,
                 notApplicable := notApplicable,
                 startedAt := if started && job.startedAt.None? then Some(now) else job.startedAt,
                 completedAt := if !isTerminal then None
                                else if job.completedAt.Some? then job.completedAt else Some(now));
  }

  lemma RecomputeMeans(db: Db, j: Id, now: int)
    ensures OnlyShows(db.jobs, RecomputeAll(db, {j}, now), {j}, now)
    ensures RecomputeAll(db, {j}, now).tickets == db.tickets && RecomputeAll(db, {j}, now).results == db.results
    ensures CanAgree(db, j) ==> JobAgrees(RecomputeAll(db, {j}, now).jobs[j], db.tickets, j)
  {
    RecomputeShows(db, {j}, now);
    if CanAgree(db, j) {
      RecomputedAgrees(db.jobs[j], db.tickets, j, now);
    }
  }

  class JobRepository {
    const db: Database

    constructor (db: Database)
      ensures this.db == db
    {
      this.db := db;
    }

    /**
     Rewrite the progress columns of one job from a count of its ticket rows. The columns then agree with the rows,
     if the job has tickets, all of them counted in its total, and cancelled ones only after a request.
     */
    method RecomputeProgress(j: Id, now: int)
      modifies db
      ensures db.View() == RecomputeAll(old(db.View()), {j}, now)
      ensures CanAgree(old(db.View()), j) ==> j in db.jobs && JobAgrees(db.jobs[j], db.tickets, j)
      ensures OnlyShows(old(db.jobs), db.View(), {j}, now)
      ensures db.tickets == old(db.tickets) && db.results == old(db.results)
    {
      RecomputeMeans(db.View(), j, now);
      if j !in db.jobs {
        assert RecomputeAll(db.View(), {j}, now).jobs == db.jobs;
        return;
      }
      var next := Recount(db.jobs[j], db.tickets, j, now);
      db.jobs := db.jobs[j := next];
    }

    method MarkRunningIfPending(js: set<Id>, lockedJobs: set<Id>, now: int)
      modifies db
      ensures db.View() == old(db.View()).(jobs := MarkRunning(old(db.jobs), js - lockedJobs, now))
      ensures db.jobs.Keys == old(db.jobs).Keys
      ensures forall j :: j in db.jobs ==>
                if j in js && j !in lockedJobs then ShowsStarted(old(db.jobs)[j], db.jobs[j], now)
                else db.jobs[j] == old(db.jobs)[j]
    {
      var ids := set j | j in js && j in db.jobs && j !in lockedJobs
                         && (db.jobs[j].status == JobCreated || db.jobs[j].status == JobReady);
      db.jobs := map j | j in db.jobs ::
        if j in ids
        then db.jobs[j].(status := JobRunning,
                         startedAt := if db.jobs[j].startedAt.Some? then db.jobs[j].startedAt else Some(now))
        else db.jobs[j];
    }

    method RequestCancellation(j: Id, now: int) returns (found: bool)
      modifies db
      ensures found == (j in old(db.jobs))
      ensures db.View() == if found then old(db.View()).(jobs := QueueSpec.RequestCancellation(old(db.jobs), j, now))
                           else old(db.View())
      ensures found ==> db.jobs == old(db.jobs)[j := Requested(old(db.jobs)[j], now)]
    {
      found := j in db.jobs;
      if found && db.jobs[j].cancelRequestedAt.None? {
        db.jobs := db.jobs[j := db.jobs[j].(cancelRequestedAt := Some(now))];
      }
      assert found ==> db.jobs == QueueSpec.RequestCancellation(old(db.jobs), j, now);
    }
  }

  // ---------------------------------------------------------------- results

  class ResultRepository {
    const db: Database

    constructor (db: Database)
      ensures this.db == db
    {
      this.db := db;
    }

    /** Insert the row, or overwrite the one the ticket already has; returns the id of the row. */
    method Upsert(row: EvalResult, newId: Id) returns (id: Id)
      requires UniquePerTicket(db.results) && newId !in db.results
      modifies db
      ensures db.View() == old(db.View()).(results := QueueSpec.Upsert(old(db.results), row, newId))
      ensures id == UpsertId(old(db.results), row.ticketId, newId)
    {
      UpsertIdNames(db.results, row.ticketId, newId);
      if r :| r in db.results && db.results[r].ticketId == row.ticketId {
        assert r in ResultsFor(db.results, row.ticketId);
        id := r;
        db.results := db.results[r := db.results[r].(verdict := row.verdict, attemptCount := row.attemptCount)];
      } else {
        assert ResultsFor(db.results, row.ticketId) == {};
        id := newId;
        db.results := db.results[newId := row];
      }
    }
  }
}
