/**
 What a claim takes and what it leaves: the selection of rows, the table check that can abort the whole batch,
 and which unfinished tickets a worker can still be given.
 */
module Claims {
  import opened Options
  import opened Lifecycle
  import opened Tables
  import opened QueueSpec
  import opened Invariants
  import opened Protocol
  import opened Reachability
  import opened Fencing
  import opened Cancellation
  import opened AttemptBudget
  import Repositories

  // ---------------------------------------------------------------- selection of the claim

  lemma {:induction false} DistinctSize(rows: seq<Id>)
    requires forall i, k :: 0 <= i < k < |rows| ==> rows[i] != rows[k]
    ensures |Elements(rows)| == |rows|
  {
    if rows != [] {
      var rest := rows[1..];
      DistinctSize(rest);
      assert rows[0] !in rest;
      assert Elements(rows) == {rows[0]} + Elements(rest);
    }
  }

  /** The rows a claim would lock. */
  ghost function Scanned(a: Action): seq<Id>
    requires a.ClaimTickets?
  {
    TakeUnlocked(a.rows, a.locked, a.limit)
  }

  predicate IsOverdrawn(t: Ticket) {
    t.attemptCount > t.maxAttempts
  }

  ghost predicate ScansOverdrawn(w: World, a: Action)
    requires a.ClaimTickets?
  {
    exists u :: u in Scanned(a) && u in w.db.tickets && IsOverdrawn(w.db.tickets[u])
  }

  /**
   A claim scans min(limit, unlocked eligible) tickets, none outranked by an unlocked one left behind, and takes
   exactly these, unless one of them has more attempts than its maximum: then it takes none.
   */
  lemma ClaimTakesTheBest(w: World, a: Action)
    requires a.ClaimTickets? && Enabled(w, a)
    ensures var free := EligibleTickets(w.db, w.now, a.filter) - a.locked;
            var scanned := Elements(Scanned(a));
            && scanned <= free
            && |scanned| == (if a.limit < |free| then a.limit else |free|)
            && (forall t, u :: t in scanned && u in free - scanned ==> !Outranks(w.db.tickets[u], w.db.tickets[t]))
            && Elements(Taken(w, a)) == (if ScansOverdrawn(w, a) then {} else scanned)
  {
    var free := EligibleTickets(w.db, w.now, a.filter) - a.locked;
    Repositories.TakeUnlockedTakes(w.db.tickets, EligibleTickets(w.db, w.now, a.filter), a.rows, a.locked, a.limit,
                                   Outranks);
    DistinctSize(Scanned(a));
    TakenUnlessOverdrawn(w, a);
    forall t, u | t in Elements(Scanned(a)) && u in free - Elements(Scanned(a))
      ensures !Outranks(w.db.tickets[u], w.db.tickets[t])
    {
      assert Repositories.NotBefore(w.db.tickets, u, t, Outranks);
    }
  }

  /** Between an unlocked ticket left behind and a taken one, priority decides, and age between equals. */
  lemma ClaimGoesByPriorityAndAge(w: World, a: Action, t: Id, u: Id)
    requires a.ClaimTickets? && Enabled(w, a) && t in Taken(w, a) && u !in Taken(w, a) && u !in a.locked
    requires Repositories.IsClaimable(w.db, u, w.now, a.filter)
    ensures t in w.db.tickets && w.db.tickets[t].priority >= w.db.tickets[u].priority
    ensures w.db.tickets[t].priority == w.db.tickets[u].priority ==>
              w.db.tickets[t].createdAt <= w.db.tickets[u].createdAt
  {
    Repositories.ScanTakesInOrder(w.db, a.rows, a.locked, a.limit, w.now, a.filter);
    assert Repositories.ClaimedBefore(w.db.tickets, t, u);
  }

  /** A claim takes only tickets whose columns allow it, and leaves one of these behind only at its limit. */
  lemma ClaimTakesTheClaimable(w: World, a: Action, t: Id)
    requires a.ClaimTickets? && Enabled(w, a)
    ensures t in Taken(w, a) ==>
              t !in a.locked && t in w.db.tickets && w.db.tickets[t].availableAt <= w.now
              && (w.db.tickets[t].status == Ready || w.db.tickets[t].status == Retry)
              && !CancelRequested(w.db, w.db.tickets[t].jobId)
              && (a.filter.None? || a.filter.value == w.db.tickets[t].jobId)
    ensures Repositories.IsClaimable(w.db, t, w.now, a.filter) && t !in a.locked && t !in Taken(w, a) ==>
              ScansOverdrawn(w, a) || |Taken(w, a)| == a.limit
  {
    Repositories.ScanTakesInOrder(w.db, a.rows, a.locked, a.limit, w.now, a.filter);
    TakenUnlessOverdrawn(w, a);
  }

  lemma TakenUnlessOverdrawn(w: World, a: Action)
    requires a.ClaimTickets?
    ensures Taken(w, a) == if ScansOverdrawn(w, a) then [] else Scanned(a)
  {
    assert ClaimAborts(w.db.tickets, Elements(Scanned(a))) <==> ScansOverdrawn(w, a);
  }

  /** One row with too many attempts in the scan starves the whole batch: the claim changes nothing. */
  lemma OverdrawnStarvesTheBatch(w: World, a: Action)
    requires a.ClaimTickets? && Enabled(w, a) && ScansOverdrawn(w, a)
    ensures Taken(w, a) == [] && Apply(w, a).db == w.db
  {
    TakenUnlessOverdrawn(w, a);
    ClaimOfNothing(w.db, a.lockedJobs, a.worker, a.lease, w.now);
  }

  lemma ClaimOfNothing(db: Db, lockedJobs: set<Id>, worker: Worker, lease: nat, now: int)
    ensures Claim(db, {}, lockedJobs, worker, lease, now) == db
  {
    assert JobsOf(db.tickets, {}) == {};
    assert MarkRunning(db.jobs, {} - lockedJobs, now) == db.jobs;
    assert ClaimRows(db.tickets, {}, worker, lease, now) == db.tickets;
  }

  /** Each taken ticket gains one attempt, the worker and a lease; every other ticket keeps its row. */
  lemma ClaimChangesOnlyTaken(w: World, a: Action, t: Id)
    requires a.ClaimTickets? && Enabled(w, a) && t in w.db.tickets
    ensures var row, next := w.db.tickets[t], Apply(w, a).db.tickets[t];
            if t in Taken(w, a)
            then next == row.(status := Running, workerId := Some(a.worker),
                              leaseExpiresAt := Some(w.now + a.lease), attemptCount := row.attemptCount + 1)
            else next == row
  {
  }

  lemma TakeEverything(rows: seq<Id>, limit: nat)
    requires limit >= |rows|
    ensures TakeUnlocked(rows, {}, limit) == rows
  {
  }

  /**
   A claim with nothing locked and room for all takes an eligible ticket exactly when no eligible one is
   overdrawn.
   */
  lemma WideClaimTakesEligible(w: World, a: Action, t: Id)
    requires a.ClaimTickets? && Enabled(w, a) && a.locked == {} && a.limit >= |a.rows|
    requires Eligible(w.db, t, w.now, a.filter)
    ensures t in Taken(w, a) <==>
            forall u :: u in w.db.tickets && Eligible(w.db, u, w.now, a.filter) ==> !IsOverdrawn(w.db.tickets[u])
  {
    TakeEverything(a.rows, a.limit);
    TakenUnlessOverdrawn(w, a);
    assert forall u :: u in a.rows <==> u in EligibleTickets(w.db, w.now, a.filter);
    assert t in EligibleTickets(w.db, w.now, a.filter);
  }

  // ---------------------------------------------------------------- who can still be given a ticket

  /** Some claim that is possible now takes the ticket. */
  ghost predicate CanBeTaken(w: World, t: Id) {
    exists a: Action :: a.ClaimTickets? && Enabled(w, a) && t in Taken(w, a)
  }

  lemma {:induction false} OrderedListing(rows: map<Id, Ticket>, candidates: set<Id>, before: (Ticket, Ticket) -> bool)
    returns (listed: seq<Id>)
    requires Repositories.StrictWeakOrder(before) && candidates <= rows.Keys
    ensures IsOrdered(rows, candidates, listed, before)
    decreases |candidates|
  {
    if candidates == {} {
      listed := [];
    } else {
      var first := Repositories.FirstExists(rows, candidates, before);
      var rest := OrderedListing(rows, candidates - {first}, before);
      listed := [first] + rest;
    }
  }

  lemma {:induction false} TakeTheOnlyFree(rows: seq<Id>, locked: set<Id>, t: Id)
    requires t in rows && t !in locked && forall u :: u in rows && u != t ==> u in locked
    ensures TakeUnlocked(rows, locked, 1) == [t]
  {
    if rows[0] != t {
      TakeTheOnlyFree(rows[1..], locked, t);
    }
  }

  lemma {:induction false} FreshBase(ids: set<Id>) returns (base: Id)
    ensures forall e :: e in ids ==> e < base
    decreases |ids|
  {
    if ids == {} {
      base := 0;
    } else {
      var e :| e in ids;
      var rest := FreshBase(ids - {e});
      base := if e < rest then rest else e + 1;
      assert ids == (ids - {e}) + {e};
    }
  }

  /** The claim that finds every other eligible row locked takes the ticket. */
  lemma LoneClaim(w: World, t: Id) returns (a: Action)
    requires Eligible(w.db, t, w.now, None) && !IsOverdrawn(w.db.tickets[t])
    ensures a.ClaimTickets? && Enabled(w, a) && Taken(w, a) == [t]
  {
    var eligible := EligibleTickets(w.db, w.now, None);
    var rows := OrderedListing(w.db.tickets, eligible, Outranks);
    var base := FreshBase(w.execs.Keys);
    a := ClaimTickets("w", None, rows, eligible - {t}, 1, {}, 1, base);
    assert t in eligible && Enabled(w, a);
    TakeTheOnlyFree(rows, eligible - {t}, t);
    assert Scanned(a) == [t] && !ScansOverdrawn(w, a);
    TakenUnlessOverdrawn(w, a);
    assert Taken(w, a) == [t];
  }

  lemma TakenIsFit(w: World, a: Action, t: Id)
    requires a.ClaimTickets? && Enabled(w, a) && t in Taken(w, a)
    ensures Eligible(w.db, t, w.now, None) && !IsOverdrawn(w.db.tickets[t])
  {
    TakenAreEligible(w, a);
    TakenUnlessOverdrawn(w, a);
    assert t in Elements(Taken(w, a));
  }

  lemma CanBeTakenIff(w: World, t: Id)
    requires t in w.db.tickets
    ensures CanBeTaken(w, t) <==> Eligible(w.db, t, w.now, None) && !IsOverdrawn(w.db.tickets[t])
  {
    if Eligible(w.db, t, w.now, None) && !IsOverdrawn(w.db.tickets[t]) {
      var a := LoneClaim(w, t);
    }
    if a: Action :| a.ClaimTickets? && Enabled(w, a) && t in Taken(w, a) {
      TakenIsFit(w, a, t);
    }
  }

  /** Recovery of one expired lease is always possible, and it frees the ticket. */
  lemma RecoveryFrees(w: World, t: Id)
    requires t in ExpiredTickets(w.db, w.now) && !CancelRequested(w.db, w.db.tickets[t].jobId)
    ensures var a := RecoverLeases({t}, {}, map[]);
            && Enabled(w, a)
            && var row := Apply(w, a).db.tickets[t];
               if w.db.tickets[t].attemptCount < w.db.tickets[t].maxAttempts
               then row.status == Retry && row.availableAt == w.now && row.workerId == None
               else row.status == Failed && row.completedAt == Some(w.now)
  {
  }

  /**
   An unfinished ticket of an uncancelled job: while RUNNING, recovery can reclaim it exactly once its lease ran out;
   otherwise a worker can be given it exactly when it is available and has no more attempts than its maximum.
   */
  lemma NothingIsStranded(run: seq<Action>, t: Id)
    requires ValidRun(INITIAL, run) && t in After(INITIAL, run).db.tickets
    requires var db := After(INITIAL, run).db;
             !IsTerminal(db.tickets[t].status) && !CancelRequested(db, db.tickets[t].jobId)
    ensures var w := After(INITIAL, run);
            var row := w.db.tickets[t];
            if row.status == Running
            then row.leaseExpiresAt.Some?
                 && (Enabled(w, RecoverLeases({t}, {}, map[])) <==> row.leaseExpiresAt.value < w.now)
            else CanBeTaken(w, t) <==> row.availableAt <= w.now && row.attemptCount <= row.maxAttempts
  {
    ReachableInv(run);
    OpenTicketFacts(After(INITIAL, run).db, t);
    OpenTicketMoves(After(INITIAL, run), t);
  }

  lemma OpenTicketMoves(w: World, t: Id)
    requires t in w.db.tickets && RowShape(w.db.tickets[t]) && w.db.tickets[t].jobId in w.db.jobs
    requires !IsTerminalJob(w.db.jobs[w.db.tickets[t].jobId].status)
    requires !IsTerminal(w.db.tickets[t].status) && !CancelRequested(w.db, w.db.tickets[t].jobId)
    ensures var row := w.db.tickets[t];
            if row.status == Running
            then row.leaseExpiresAt.Some?
                 && (Enabled(w, RecoverLeases({t}, {}, map[])) <==> row.leaseExpiresAt.value < w.now)
            else CanBeTaken(w, t) <==> row.availableAt <= w.now && row.attemptCount <= row.maxAttempts
  {
    CanBeTakenIff(w, t);
    SweepOfOne(w, t);
  }

  lemma SweepOfOne(w: World, t: Id)
    ensures Enabled(w, RecoverLeases({t}, {}, map[])) <==> t in ExpiredTickets(w.db, w.now)
  {
  }

  lemma OpenTicketFacts(db: Db, t: Id)
    requires RowsOk(db) && JobsAgree(db) && t in db.tickets && !IsTerminal(db.tickets[t].status)
    ensures RowShape(db.tickets[t]) && db.tickets[t].jobId in db.jobs
    ensures !IsTerminalJob(db.jobs[db.tickets[t].jobId].status)
  {
    assert RowOk(db, t, db.tickets[t]);
    assert JobAgrees(db.jobs[db.tickets[t].jobId], db.tickets, db.tickets[t].jobId);
  }

  /**
   When no worker claims what it is still executing, a pending ticket can be given out exactly once it is
   available.
   */
  lemma NothingIsStrandedWhenCareful(run: seq<Action>, t: Id)
    requires ValidRun(INITIAL, run) && CarefulRun(INITIAL, run) && t in After(INITIAL, run).db.tickets
    requires var db := After(INITIAL, run).db;
             IsPending(db.tickets[t].status) && !CancelRequested(db, db.tickets[t].jobId)
    ensures CanBeTaken(After(INITIAL, run), t) <==>
              After(INITIAL, run).db.tickets[t].availableAt <= After(INITIAL, run).now
  {
    NothingIsStranded(run, t);
    CarefulRowsAreWithin(run, t);
  }

  /** And a claim with nothing locked and room for all then takes every eligible ticket. */
  lemma WideClaimTakesAllWhenCareful(run: seq<Action>, a: Action, t: Id)
    requires ValidRun(INITIAL, run) && CarefulRun(INITIAL, run) && a.ClaimTickets? && Enabled(After(INITIAL, run), a)
    requires a.locked == {} && a.limit >= |a.rows|
    ensures t in Taken(After(INITIAL, run), a) <==>
            Eligible(After(INITIAL, run).db, t, After(INITIAL, run).now, a.filter)
  {
    var w := After(INITIAL, run);
    if Eligible(w.db, t, w.now, a.filter) {
      forall u | u in w.db.tickets && Eligible(w.db, u, w.now, a.filter)
        ensures !IsOverdrawn(w.db.tickets[u])
      {
        CarefulRowsAreWithin(run, u);
      }
      WideClaimTakesEligible(w, a, t);
    }
    TakenAreEligible(w, a);
    assert t in Taken(w, a) ==> t in Elements(Taken(w, a));
  }

  lemma CarefulRowsAreWithin(run: seq<Action>, t: Id)
    requires ValidRun(INITIAL, run) && CarefulRun(INITIAL, run) && t in After(INITIAL, run).db.tickets
    ensures !IsOverdrawn(After(INITIAL, run).db.tickets[t])
  {
    ReachableInv([]);
    CarefulRunsStayWithinBudget(INITIAL, run);
    assert WithinBudget(After(INITIAL, run).db.tickets[t]);
  }

  // ---------------------------------------------------------------- the ticket nobody can be given

  /** Pending in an uncancelled job, with more attempts than its maximum. */
  predicate IsStuck(db: Db, t: Id) {
    && t in db.tickets && IsPending(db.tickets[t].status) && IsOverdrawn(db.tickets[t])
    && !CancelRequested(db, db.tickets[t].jobId)
  }

  lemma CancelTakesPending(db: Db, t: Id, now: int)
    requires t in db.tickets && IsPending(db.tickets[t].status) && db.tickets[t].jobId in db.jobs
    requires !IsTerminalJob(db.jobs[db.tickets[t].jobId].status)
    ensures var r := CancelJob(db, db.tickets[t].jobId, now);
            r.Ok? && t in r.value.tickets && r.value.tickets[t].status == Cancelled
  {
  }

  lemma OthersLeaveStuck(w: World, a: Action, t: Id)
    requires Enabled(w, a) && !Settles(w, a) && IsStuck(w.db, t) && a != RequestCancel(w.db.tickets[t].jobId)
    ensures IsStuck(Apply(w, a).db, t) && Apply(w, a).db.tickets[t] == w.db.tickets[t]
  {
    match a
    case ClaimTickets(_, _, _, _, _, _, _, _) => TakenUnlessOverdrawn(w, a);
    case RecoverLeases(expired, abandoned, jitter) =>
      SweepLeavesPending(w.db, expired, abandoned, jitter, w.now, t);
    case RequestCancel(j) => OperatorsLeavePending(w.db, j, w.now, t);
    case RequestRetry(j) => OperatorsLeavePending(w.db, j, w.now, t);
    case _ =>
  }

  lemma SweepLeavesPending(db: Db, expired: set<Id>, abandoned: set<Id>, jitter: map<Id, nat>, now: int, t: Id)
    requires t in db.tickets && IsPending(db.tickets[t].status) && expired <= ExpiredTickets(db, now)
    requires abandoned <= ExpiredCancelledTickets(RecoverExpired(db, expired, jitter, now), now)
    ensures var next := Recover(db, expired, abandoned, jitter, now);
            t in next.tickets && next.tickets[t] == db.tickets[t]
            && (CancelRequested(next, db.tickets[t].jobId) <==> CancelRequested(db, db.tickets[t].jobId))
  {
    SweepEndsRunning(db, expired, abandoned, jitter, now, t);
  }

  lemma OperatorsLeavePending(db: Db, j: Id, now: int, t: Id)
    requires t in db.tickets && IsPending(db.tickets[t].status)
    ensures RetryFailed(db, j, now).Ok? ==>
              var next := RetryFailed(db, j, now).value;
              t in next.tickets && next.tickets[t] == db.tickets[t]
              && (CancelRequested(next, db.tickets[t].jobId) <==> CancelRequested(db, db.tickets[t].jobId))
    ensures CancelJob(db, j, now).Ok? && db.tickets[t].jobId != j ==>
              var next := CancelJob(db, j, now).value;
              t in next.tickets && next.tickets[t] == db.tickets[t]
              && (CancelRequested(next, db.tickets[t].jobId) <==> CancelRequested(db, db.tickets[t].jobId))
  {
  }

  lemma SettlementLeavesStuck(w: World, a: Action, t: Id)
    requires ExecutionsOk(w) && Enabled(w, a) && Settles(w, a) && IsStuck(w.db, t)
    ensures IsStuck(Apply(w, a).db, t) && Apply(w, a).db.tickets[t] == w.db.tickets[t]
  {
    if OwnsItsTicket(w.db, Settler(w, a)) {
      SettlementTouchesOnlyItsTicket(w, a);
      SettlementKeepsRequests(w, a, w.db.tickets[t].jobId);
    } else {
      OutsidersChangeNothing(w, a);
    }
  }

  /** Such a ticket stays as it is, and stuck, exactly until its job is cancelled. */
  lemma {:induction false} StuckUntilCancelled(w: World, run: seq<Action>, t: Id)
    requires WorldInv(w) && ValidRun(w, run) && IsStuck(w.db, t)
    ensures var db := After(w, run).db;
            t in db.tickets
            && if RequestCancel(w.db.tickets[t].jobId) in run
               then db.tickets[t].status == Cancelled
               else IsStuck(db, t) && db.tickets[t] == w.db.tickets[t]
    decreases |run|
  {
    if run != [] {
      var cancel := RequestCancel(w.db.tickets[t].jobId);
      StepKeepsInv(w, run[0]);
      assert cancel in run <==> run[0] == cancel || cancel in run[1..];
      if run[0] == cancel {
        OpenTicketFacts(w.db, t);
        CancelTakesPending(w.db, t, w.now);
        CancelledStaysCancelled(Apply(w, run[0]), run[1..], t);
      } else {
        if Settles(w, run[0]) {
          SettlementLeavesStuck(w, run[0], t);
        } else {
          OthersLeaveStuck(w, run[0], t);
        }
        StuckUntilCancelled(Apply(w, run[0]), run[1..], t);
      }
    }
  }
}
