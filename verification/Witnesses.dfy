/**
 Reachable states that a reader may not expect: one attempt too many, a ticket that can be given to nobody, and a
 RETRY ticket in a cancelled job.
 */
module Witnesses {
  import opened Options
  import opened Lifecycle
  import opened Tables
  import opened QueueSpec
  import opened Invariants
  import opened Preservation
  import opened Protocol
  import opened Reachability
  import opened Cancellation
  import opened Claims

  const W: Worker := "w"

  /** Ticket 0 of job 0 is the only ticket, and no result was written. */
  ghost predicate Lone(w: World, row: Ticket, now: int, cancelled: bool, execs: map<Id, Execution>) {
    && w.db.tickets == map[0 := row] && w.db.results == map[]
    && row.jobId == 0 && 0 in w.db.jobs
    && (CancelRequested(w.db, 0) <==> cancelled)
    && w.now == now && w.execs == execs
  }

  /** `run` is possible and leads to such a world. */
  ghost predicate LeadsTo(run: seq<Action>, row: Ticket, now: int, cancelled: bool, execs: map<Id, Execution>) {
    ValidRun(INITIAL, run) && Lone(After(INITIAL, run), row, now, cancelled, execs)
  }

  function Copy(row: Ticket): ClaimCopy {
    ClaimCopy(0, 0, row.attemptCount, row.maxAttempts)
  }

  function ClaimIt(base: Id): Action {
    ClaimTickets(W, None, [0], {}, 1, {}, 1, base)
  }

  /** One more action on a valid run. */
  lemma {:induction false} Extend(w: World, run: seq<Action>, a: Action)
    requires ValidRun(w, run) && Enabled(After(w, run), a)
    ensures ValidRun(w, run + [a]) && After(w, run + [a]) == Apply(After(w, run), a)
    decreases |run|
  {
    if run == [] {
      assert run + [a] == [a];
      assert [a][1..] == [];
    } else {
      assert (run + [a])[1..] == run[1..] + [a];
      Extend(Apply(w, run[0]), run[1..], a);
    }
  }

  lemma CreateStep(max: nat)
    requires max >= 1
    ensures LeadsTo([CreateJob(0, map[0 := TicketSpec(0, max)])], NewTicket(0, TicketSpec(0, max), 0), 0, false, map[])
  {
    var a := CreateJob(0, map[0 := TicketSpec(0, max)]);
    Extend(INITIAL, [], a);
    assert [] + [a] == [a];
    assert Apply(INITIAL, a).db.tickets == map[0 := NewTicket(0, TicketSpec(0, max), 0)];
  }

  lemma ClaimEnabled(w: World, row: Ticket, now: int, execs: map<Id, Execution>, base: Id)
    requires Lone(w, row, now, false, execs) && IsPending(row.status) && row.availableAt <= now
    requires !IsTerminalJob(w.db.jobs[0].status) && forall e :: e in execs ==> e < base
    ensures Enabled(w, ClaimIt(base))
  {
    assert EligibleTickets(w.db, w.now, None) == {0};
  }

  lemma LoneClaimRows(db: Db, row: Ticket, now: int)
    requires db.tickets == map[0 := row] && row.jobId == 0 && 0 in db.jobs
    ensures var next := Claim(db, {0}, {}, W, 1, now);
            && next.tickets == map[0 := ClaimedTicket(row, W, 1, now)] && next.results == db.results
            && 0 in next.jobs && (CancelRequested(next, 0) <==> CancelRequested(db, 0))
  {
  }

  lemma LoneExecution(row: Ticket, base: Id)
    requires row.jobId == 0
    ensures NewExecutions(map[0 := row], [0], W, base) == map[base := Execution(W, Copy(row), Loading)]
  {
    assert BatchTicket([0], base, base) == Some(0);
  }

  lemma ClaimResult(w: World, row: Ticket, now: int, execs: map<Id, Execution>, base: Id)
    requires Lone(w, row, now, false, execs) && Enabled(w, ClaimIt(base)) && row.attemptCount <= row.maxAttempts
    ensures var next := ClaimedTicket(row, W, 1, now);
            Lone(Apply(w, ClaimIt(base)), next, now, false, execs[base := Execution(W, Copy(next), Loading)])
  {
    var a := ClaimIt(base);
    assert TakeUnlocked([0], {}, 1) == [0];
    assert Elements([0]) == {0};
    assert Taken(w, a) == [0];
    var next := Apply(w, a);
    LoneClaimRows(w.db, row, now);
    LoneExecution(ClaimedTicket(row, W, 1, now), base);
  }

  lemma ClaimStep(run: seq<Action>, row: Ticket, now: int, execs: map<Id, Execution>, base: Id)
    requires LeadsTo(run, row, now, false, execs) && IsPending(row.status) && row.availableAt <= now
    requires row.attemptCount <= row.maxAttempts && forall e :: e in execs ==> e < base
    ensures var next := ClaimedTicket(row, W, 1, now);
            LeadsTo(run + [ClaimIt(base)], next, now, false, execs[base := Execution(W, Copy(next), Loading)])
  {
    OpenTicketOpenJob(run, row, now, false, execs);
    ClaimEnabled(After(INITIAL, run), row, now, execs, base);
    ClaimResult(After(INITIAL, run), row, now, execs, base);
    Extend(INITIAL, run, ClaimIt(base));
  }

  lemma OpenTicketOpenJob(run: seq<Action>, row: Ticket, now: int, cancelled: bool, execs: map<Id, Execution>)
    requires LeadsTo(run, row, now, cancelled, execs) && !IsTerminal(row.status)
    ensures !IsTerminalJob(After(INITIAL, run).db.jobs[0].status)
  {
    ReachableInv(run);
    assert JobAgrees(After(INITIAL, run).db.jobs[0], After(INITIAL, run).db.tickets, 0);
  }

  lemma TickStep(run: seq<Action>, row: Ticket, now: int, cancelled: bool, execs: map<Id, Execution>, elapsed: nat)
    requires LeadsTo(run, row, now, cancelled, execs)
    ensures LeadsTo(run + [Tick(elapsed)], row, now + elapsed, cancelled, execs)
  {
    Extend(INITIAL, run, Tick(elapsed));
  }

  lemma RecoverStep(run: seq<Action>, row: Ticket, now: int, execs: map<Id, Execution>)
    requires LeadsTo(run, row, now, false, execs) && LeaseExpired(row, now) && row.attemptCount < row.maxAttempts
    ensures LeadsTo(run + [RecoverLeases({0}, {}, map[])], RecoveredTicket(row, false, 0, now), now, false, execs)
  {
    var w, a := After(INITIAL, run), RecoverLeases({0}, {}, map[]);
    assert 0 in ExpiredTickets(w.db, now);
    Extend(INITIAL, run, a);
    RecoverLone(w.db, row, now);
  }

  lemma RecoverLone(db: Db, row: Ticket, now: int)
    requires db.tickets == map[0 := row] && row.jobId == 0 && !CancelRequested(db, 0)
             && row.attemptCount < row.maxAttempts
    ensures var next := Recover(db, {0}, {}, map[], now);
            && next.tickets == map[0 := RecoveredTicket(row, false, 0, now)] && next.results == db.results
            && next.jobs.Keys == db.jobs.Keys && !CancelRequested(next, 0)
  {
    var swept := RecoverExpired(db, {0}, map[], now);
    assert swept.tickets == map[0 := RecoveredTicket(row, false, 0, now)];
    assert CancelRows(swept, {}, now).tickets == swept.tickets;
  }

  lemma RaiseStep(run: seq<Action>, row: Ticket, now: int, cancelled: bool, execs: map<Id, Execution>, e: Id)
    requires LeadsTo(run, row, now, cancelled, execs) && e in execs && execs[e].phase == Loading
    ensures LeadsTo(run + [RaiseError(e, Transient)], row, now, cancelled,
                    execs[e := execs[e].(phase := Handling(Transient))])
  {
    Extend(INITIAL, run, RaiseError(e, Transient));
  }

  lemma CancelStep(run: seq<Action>, row: Ticket, now: int, execs: map<Id, Execution>)
    requires LeadsTo(run, row, now, false, execs) && row.status == Running
    ensures LeadsTo(run + [RequestCancel(0)], row, now, true, execs)
  {
    OpenTicketOpenJob(run, row, now, false, execs);
    Extend(INITIAL, run, RequestCancel(0));
    CancelLeavesRunning(After(INITIAL, run).db, row, now);
  }

  lemma CancelLeavesRunning(db: Db, row: Ticket, now: int)
    requires db.tickets == map[0 := row] && row.jobId == 0 && row.status == Running
    requires 0 in db.jobs && !IsTerminalJob(db.jobs[0].status)
    ensures var r := CancelJob(db, 0, now);
            r.Ok? && r.value.tickets == db.tickets && r.value.results == db.results && CancelRequested(r.value, 0)
  {
    assert UnclaimedTickets(db, 0) == {};
  }

  lemma RetryStep(run: seq<Action>, row: Ticket, now: int, cancelled: bool, execs: map<Id, Execution>, e: Id)
    requires LeadsTo(run, row, now, cancelled, execs) && row.status == Running && row.workerId == Some(W)
    requires e in execs && execs[e].phase == Handling(Transient) && execs[e].worker == W
    requires execs[e].copy.attemptCount < execs[e].copy.maxAttempts
    requires execs[e].copy.ticketId == 0 && execs[e].copy.jobId == 0
    ensures LeadsTo(run + [HandleError(e, 0, 0)], SettledTicket(row, Retry, None, 0, now), now, cancelled, execs - {e})
  {
    var w := After(INITIAL, run);
    Extend(INITIAL, run, HandleError(e, 0, 0));
    SettleCommitsIffOwner(w.db, 0, Retry, None, 0, 0, W, now);
    assert MovedTicket(w.db, 0, Retry, None, 0, now).tickets == map[0 := SettledTicket(row, Retry, None, 0, now)];
  }

  function Claimed(max: nat): Ticket {
    ClaimedTicket(NewTicket(0, TicketSpec(0, max), 0), W, 1, 0)
  }

  lemma FirstClaim(max: nat) returns (run: seq<Action>)
    requires max >= 1
    ensures LeadsTo(run, Claimed(max), 0, false, map[0 := Execution(W, ClaimCopy(0, 0, 1, max), Loading)])
  {
    CreateStep(max);
    run := [CreateJob(0, map[0 := TicketSpec(0, max)])];
    ClaimStep(run, NewTicket(0, TicketSpec(0, max), 0), 0, map[], 0);
    run := run + [ClaimIt(0)];
    assert map[][0 := Execution(W, Copy(Claimed(max)), Loading)]
           == map[0 := Execution(W, ClaimCopy(0, 0, 1, max), Loading)];
  }

  /** The same worker claims the ticket a second time while its first execution is still in flight. */
  lemma SecondClaim() returns (run: seq<Action>, row: Ticket, execs: map<Id, Execution>)
    ensures LeadsTo(run, row, 2, false, execs)
    ensures row.status == Running && row.workerId == Some(W) && row.attemptCount == row.maxAttempts == 2
    ensures execs.Keys == {0, 1} && execs[0] == Execution(W, ClaimCopy(0, 0, 1, 2), Loading)
  {
    run := FirstClaim(2);
    row := Claimed(2);
    execs := map[0 := Execution(W, ClaimCopy(0, 0, 1, 2), Loading)];
    TickStep(run, row, 0, false, execs, 2);
    run := run + [Tick(2)];
    RecoverStep(run, row, 2, execs);
    run, row := run + [RecoverLeases({0}, {}, map[])], RecoveredTicket(row, false, 0, 2);
    ClaimStep(run, row, 2, execs, 1);
    run, row := run + [ClaimIt(1)], ClaimedTicket(row, W, 1, 2);
    execs := execs[1 := Execution(W, Copy(row), Loading)];
  }

  /**
   The attempt bound fails when a worker claims a ticket again before its earlier execution ended:
   the earlier execution still passes the ownership check and grants a retry from its old attempt number.
   */
  lemma AttemptsCanExceedTheMaximum() returns (run: seq<Action>, row: Ticket)
    ensures ValidRun(INITIAL, run) && After(INITIAL, run).db.tickets == map[0 := row]
    ensures row.attemptCount > row.maxAttempts
  {
    var execs;
    run, row, execs := SecondClaim();
    RaiseStep(run, row, 2, false, execs, 0);
    run, execs := run + [RaiseError(0, Transient)], execs[0 := execs[0].(phase := Handling(Transient))];
    RetryStep(run, row, 2, false, execs, 0);
    run, row, execs := run + [HandleError(0, 0, 0)], SettledTicket(row, Retry, None, 0, 2), execs - {0};
    ClaimStep(run, row, 2, execs, 2);
    run, row := run + [ClaimIt(2)], ClaimedTicket(row, W, 1, 2);
  }

  /**
   Execution `e` of an earlier claim fails, and its worker, owner again, grants a retry from the old attempt
   number.
   */
  lemma StaleRetry(run: seq<Action>, row: Ticket, now: int, execs: map<Id, Execution>, e: Id)
    returns (run': seq<Action>, row': Ticket)
    requires LeadsTo(run, row, now, false, execs) && row.status == Running && row.workerId == Some(W)
    requires e in execs && execs[e].phase == Loading && execs[e].worker == W
    requires execs[e].copy.attemptCount < execs[e].copy.maxAttempts
    requires execs[e].copy.ticketId == 0 && execs[e].copy.jobId == 0
    ensures LeadsTo(run', row', now, false, execs - {e}) && row' == SettledTicket(row, Retry, None, 0, now)
  {
    RaiseStep(run, row, now, false, execs, e);
    run' := run + [RaiseError(e, Transient)];
    var handling := execs[e := execs[e].(phase := Handling(Transient))];
    RetryStep(run', row, now, false, handling, e);
    run', row' := run' + [HandleError(e, 0, 0)], SettledTicket(row, Retry, None, 0, now);
    assert handling - {e} == execs - {e};
  }

  /** The lease of the claim runs out, recovery frees the ticket, and the same worker claims it again. */
  lemma RecoverAndReclaim(run: seq<Action>, row: Ticket, now: int, execs: map<Id, Execution>, base: Id)
    returns (run': seq<Action>, row': Ticket, execs': map<Id, Execution>)
    requires LeadsTo(run, row, now, false, execs) && row.status == Running && row.leaseExpiresAt == Some(now + 1)
    requires row.attemptCount < row.maxAttempts && forall e :: e in execs ==> e < base
    ensures LeadsTo(run', row', now + 2, false, execs')
    ensures row' == ClaimedTicket(RecoveredTicket(row, false, 0, now + 2), W, 1, now + 2)
    ensures execs' == execs[base := Execution(W, Copy(row'), Loading)]
  {
    TickStep(run, row, now, false, execs, 2);
    run' := run + [Tick(2)];
    RecoverStep(run', row, now + 2, execs);
    run', row' := run' + [RecoverLeases({0}, {}, map[])], RecoveredTicket(row, false, 0, now + 2);
    ClaimStep(run', row', now + 2, execs, base);
    run', row' := run' + [ClaimIt(base)], ClaimedTicket(row', W, 1, now + 2);
    execs' := execs[base := Execution(W, Copy(row'), Loading)];
  }

  /** Three claims by one worker, of which the first two executions are still in flight. */
  lemma ThreeClaims() returns (run: seq<Action>, row: Ticket, execs: map<Id, Execution>)
    ensures LeadsTo(run, row, 4, false, execs) && row.status == Running && row.workerId == Some(W)
    ensures row.attemptCount == row.maxAttempts == 3 && execs.Keys == {0, 1, 2}
    ensures execs[0] == Execution(W, ClaimCopy(0, 0, 1, 3), Loading)
    ensures execs[1] == Execution(W, ClaimCopy(0, 0, 2, 3), Loading)
  {
    run := FirstClaim(3);
    row := Claimed(3);
    execs := map[0 := Execution(W, ClaimCopy(0, 0, 1, 3), Loading)];
    run, row, execs := RecoverAndReclaim(run, row, 0, execs, 1);
    run, row, execs := RecoverAndReclaim(run, row, 2, execs, 2);
  }

  lemma FourClaims() returns (run: seq<Action>, row: Ticket, execs: map<Id, Execution>)
    ensures LeadsTo(run, row, 4, false, execs) && row.status == Running && row.workerId == Some(W)
    ensures row.attemptCount == 4 && row.maxAttempts == 3
    ensures 1 in execs && execs[1] == Execution(W, ClaimCopy(0, 0, 2, 3), Loading)
  {
    run, row, execs := ThreeClaims();
    run, row := StaleRetry(run, row, 4, execs, 0);
    execs := execs - {0};
    ClaimStep(run, row, 4, execs, 3);
    run, row := run + [ClaimIt(3)], ClaimedTicket(row, W, 1, 4);
    execs := execs[3 := Execution(W, Copy(row), Loading)];
  }

  /**
   Two earlier executions of one worker in turn grant a retry: the ticket waits with one attempt more than its
   maximum, so it can be given to nobody although its job is not cancelled.
   */
  lemma StuckRetryIsReachable() returns (run: seq<Action>)
    ensures ValidRun(INITIAL, run) && IsStuck(After(INITIAL, run).db, 0)
    ensures Eligible(After(INITIAL, run).db, 0, After(INITIAL, run).now, None)
    ensures !CanBeTaken(After(INITIAL, run), 0)
  {
    var row, execs;
    run, row, execs := FourClaims();
    run, row := StaleRetry(run, row, 4, execs, 1);
    OpenTicketOpenJob(run, row, 4, false, execs - {1});
    CanBeTakenIff(After(INITIAL, run), 0);
  }

  /** A transient failure after the cancellation request leaves a RETRY ticket in a cancelled job. */
  lemma RetryInCancelledJobIsReachable() returns (run: seq<Action>)
    ensures ValidRun(INITIAL, run) && WaitsForCancel(After(INITIAL, run).db, 0)
  {
    run := FirstClaim(2);
    var row := Claimed(2);
    var execs := map[0 := Execution(W, ClaimCopy(0, 0, 1, 2), Loading)];
    RaiseStep(run, row, 0, false, execs, 0);
    run, execs := run + [RaiseError(0, Transient)], execs[0 := execs[0].(phase := Handling(Transient))];
    CancelStep(run, row, 0, execs);
    run := run + [RequestCancel(0)];
    RetryStep(run, row, 0, true, execs, 0);
    run := run + [HandleError(0, 0, 0)];
  }
}
