/**
 Bounds for every run, workers that claim what they are still executing included. The table check lets a ticket have
 one attempt more than its maximum, so a round allows one claim more per ticket than in a careful run.
 */
module RunBound {
  import opened Tables
  import opened Lifecycle
  import opened QueueSpec
  import opened Protocol
  import opened Invariants
  import opened Reachability
  import opened AttemptBudget
  import opened ClaimBound
  import opened Totals

  /** Attempts the table check still admits. */
  function Spare(t: Ticket): nat {
    if IsTerminal(t.status) || t.attemptCount > t.maxAttempts + 1 then 0 else t.maxAttempts + 1 - t.attemptCount
  }

  /** Twice those, plus one while unfinished and one more while RUNNING. */
  function Effort(t: Ticket): nat {
    2 * Spare(t) + (if IsTerminal(t.status) then 0 else 1) + if t.status == Running then 1 else 0
  }

  function SpareOf(tickets: map<Id, Ticket>): map<Id, nat> {
    map t | t in tickets :: Spare(tickets[t])
  }

  function EffortOf(tickets: map<Id, Ticket>): map<Id, nat> {
    map t | t in tickets :: Effort(tickets[t])
  }

  function CapsOf(tickets: map<Id, Ticket>): map<Id, nat> {
    map t | t in tickets :: tickets[t].maxAttempts + 1
  }

  // ---------------------------------------------------------------- one step

  lemma RowSpends(row: Ticket, next: Ticket, claimed: bool)
    requires TicketStep(row, next) && next.attemptCount <= next.maxAttempts + 1
    requires next.attemptCount == row.attemptCount + (if claimed then 1 else 0)
    requires IsTerminal(row.status) ==> next.status == row.status
    requires claimed ==> row.status != Running && next.status == Running
    requires !claimed && next.status == Running ==> row.status == Running
    ensures Effort(next) + (if next.status != row.status then 1 else 0) <= Effort(row)
    ensures Spare(next) + (if claimed then 1 else 0) <= Spare(row)
  {
  }

  lemma MaximumAdmits(db: Db, t: Id)
    requires RowsOk(db) && t in db.tickets
    ensures db.tickets[t].attemptCount <= db.tickets[t].maxAttempts + 1
  {
    assert RowOk(db, t, db.tickets[t]);
  }

  lemma StepSpends(w: World, a: Action, t: Id)
    requires WorldInv(w) && Enabled(w, a) && !a.RequestRetry? && t in w.db.tickets
    ensures t in Apply(w, a).db.tickets
    ensures var row, next := w.db.tickets[t], Apply(w, a).db.tickets[t];
            && Effort(next) + (if next.status != row.status then 1 else 0) <= Effort(row)
            && Spare(next) + (if t in Taken(w, a) then 1 else 0) <= Spare(row)
  {
    AttemptsCountClaims(w, a, t);
    StepMovesRow(w, a, t);
    TablesKeepInv(w, a);
    MaximumAdmits(Apply(w, a).db, t);
    RowSpends(w.db.tickets[t], Apply(w, a).db.tickets[t], t in Taken(w, a));
  }

  lemma StepCostsEffort(w: World, a: Action)
    requires WorldInv(w) && Enabled(w, a) && !a.RequestRetry? && !a.CreateJob?
    ensures Total(EffortOf(Apply(w, a).db.tickets)) + |Moved(w, a)| <= Total(EffortOf(w.db.tickets))
  {
    SameTickets(w, a);
    var moved := Indicator(w.db.tickets.Keys, Moved(w, a));
    forall t | t in w.db.tickets
      ensures EffortOf(Apply(w, a).db.tickets)[t] + moved[t] <= EffortOf(w.db.tickets)[t]
    {
      StepSpends(w, a, t);
    }
    TotalIndicator(w.db.tickets.Keys, Moved(w, a));
    TotalBound(EffortOf(Apply(w, a).db.tickets), moved, EffortOf(w.db.tickets));
  }

  lemma CapsStay(before: Db, after: Db)
    requires DbStep(before, after) && after.tickets.Keys == before.tickets.Keys
    ensures CapsOf(after.tickets) == CapsOf(before.tickets)
  {
  }

  lemma StepCostsSpare(w: World, a: Action)
    requires WorldInv(w) && Enabled(w, a) && !a.RequestRetry? && !a.CreateJob?
    ensures Total(SpareOf(Apply(w, a).db.tickets)) + |Taken(w, a)| <= Total(SpareOf(w.db.tickets))
    ensures CapsOf(Apply(w, a).db.tickets) == CapsOf(w.db.tickets)
  {
    SameTickets(w, a);
    ClaimedSize(w, a);
    var claimed := Indicator(w.db.tickets.Keys, Elements(Taken(w, a)));
    forall t | t in w.db.tickets
      ensures SpareOf(Apply(w, a).db.tickets)[t] + claimed[t] <= SpareOf(w.db.tickets)[t]
    {
      StepSpends(w, a, t);
    }
    TotalIndicator(w.db.tickets.Keys, Elements(Taken(w, a)));
    TotalBound(SpareOf(Apply(w, a).db.tickets), claimed, SpareOf(w.db.tickets));
    EveryActionFollowsTheTable(w, a);
    CapsStay(w.db, Apply(w, a).db);
  }

  lemma RefundWithinCaps(before: map<Id, Ticket>, after: map<Id, Ticket>)
    requires before.Keys == after.Keys && CapsOf(after) == CapsOf(before)
    ensures Total(SpareOf(after)) <= Total(SpareOf(before)) + Total(CapsOf(before))
  {
    var sum := map t | t in before :: Spare(before[t]) + before[t].maxAttempts + 1;
    TotalSum(SpareOf(before), CapsOf(before), sum);
    TotalIndicator(before.Keys, {});
    forall t | t in before
      ensures SpareOf(after)[t] + Indicator(before.Keys, {})[t] <= sum[t]
    {
      assert CapsOf(after)[t] == CapsOf(before)[t];
    }
    TotalBound(SpareOf(after), Indicator(before.Keys, {}), sum);
  }

  lemma ResetRefundsCaps(w: World, a: Action)
    requires Enabled(w, a) && a.RequestRetry?
    ensures Total(SpareOf(Apply(w, a).db.tickets)) <= Total(SpareOf(w.db.tickets)) + Total(CapsOf(w.db.tickets))
    ensures CapsOf(Apply(w, a).db.tickets) == CapsOf(w.db.tickets) && Taken(w, a) == []
  {
    SameTickets(w, a);
    EveryActionFollowsTheTable(w, a);
    CapsStay(w.db, Apply(w, a).db);
    RefundWithinCaps(w.db.tickets, Apply(w, a).db.tickets);
  }

  function NewCaps(specs: map<Id, TicketSpec>): map<Id, nat> {
    map t | t in specs :: specs[t].maxAttempts + 1
  }

  lemma CreationExtendsCaps(tickets: map<Id, Ticket>, j: Id, specs: map<Id, TicketSpec>, now: int)
    requires specs.Keys !! tickets.Keys
    ensures CapsOf(tickets + NewTickets(j, specs, now)) == CapsOf(tickets) + NewCaps(specs)
  {
    assert CapsOf(tickets + NewTickets(j, specs, now)).Keys == (CapsOf(tickets) + NewCaps(specs)).Keys;
  }

  lemma CreationExtendsSpare(tickets: map<Id, Ticket>, j: Id, specs: map<Id, TicketSpec>, now: int)
    requires specs.Keys !! tickets.Keys
    ensures SpareOf(tickets + NewTickets(j, specs, now)) == SpareOf(tickets) + NewCaps(specs)
  {
    assert SpareOf(tickets + NewTickets(j, specs, now)).Keys == (SpareOf(tickets) + NewCaps(specs)).Keys;
  }

  lemma CreationAddsCaps(tickets: map<Id, Ticket>, j: Id, specs: map<Id, TicketSpec>, now: int)
    requires specs.Keys !! tickets.Keys
    ensures var next := tickets + NewTickets(j, specs, now);
            && Total(CapsOf(tickets)) <= Total(CapsOf(next))
            && Total(SpareOf(next)) - Total(SpareOf(tickets)) == Total(CapsOf(next)) - Total(CapsOf(tickets))
  {
    CreationExtendsCaps(tickets, j, specs, now);
    CreationExtendsSpare(tickets, j, specs, now);
    TotalUnion(CapsOf(tickets), NewCaps(specs));
    TotalUnion(SpareOf(tickets), NewCaps(specs));
  }

  // ---------------------------------------------------------------- runs

  /** Without resets and new jobs, any run makes at most as many ticket moves as the effort it starts with. */
  lemma {:induction false} AllMovesAreBounded(w: World, run: seq<Action>)
    requires WorldInv(w) && ValidRun(w, run) && NoRefill(run)
    ensures Total(EffortOf(After(w, run).db.tickets)) + MoveCount(w, run) <= Total(EffortOf(w.db.tickets))
    decreases |run|
  {
    if run != [] {
      assert run[0] in run;
      StepCostsEffort(w, run[0]);
      StepKeepsInv(w, run[0]);
      AllMovesAreBounded(Apply(w, run[0]), run[1..]);
    }
  }

  lemma StepBalance(w: World, a: Action)
    requires WorldInv(w) && Enabled(w, a)
    ensures Total(CapsOf(w.db.tickets)) <= Total(CapsOf(Apply(w, a).db.tickets))
    ensures |Taken(w, a)| + Total(SpareOf(Apply(w, a).db.tickets)) + Total(CapsOf(w.db.tickets))
            <= Total(SpareOf(w.db.tickets)) + Total(CapsOf(Apply(w, a).db.tickets))
               + (if a.RequestRetry? then Total(CapsOf(w.db.tickets)) else 0)
  {
    match a
    case CreateJob(j, specs) => CreationAddsCaps(w.db.tickets, j, specs, w.now);
    case RequestRetry(_) => ResetRefundsCaps(w, a);
    case _ => StepCostsSpare(w, a);
  }

  lemma {:induction false} ClaimsBalance(w: World, run: seq<Action>)
    requires WorldInv(w) && ValidRun(w, run)
    ensures Total(CapsOf(w.db.tickets)) <= Total(CapsOf(After(w, run).db.tickets))
    ensures ClaimCount(w, run) + Total(SpareOf(After(w, run).db.tickets)) + Total(CapsOf(w.db.tickets))
            <= Total(SpareOf(w.db.tickets)) + Allowance(ResetCount(run), Total(CapsOf(After(w, run).db.tickets)))
    decreases |run|
  {
    if run != [] {
      StepBalance(w, run[0]);
      StepKeepsInv(w, run[0]);
      ClaimsBalance(Apply(w, run[0]), run[1..]);
      AllowanceStep(run, Total(CapsOf(After(w, run).db.tickets)), Total(CapsOf(w.db.tickets)));
    }
  }

  /** The caps add up to the maxima and one for every ticket. */
  lemma CapsAddUp(tickets: map<Id, Ticket>)
    ensures Total(CapsOf(tickets)) == Total(MaximaOf(tickets)) + |tickets|
  {
    var ones := Indicator(tickets.Keys, tickets.Keys);
    TotalIndicator(tickets.Keys, tickets.Keys);
    TotalSum(MaximaOf(tickets), ones, CapsOf(tickets));
    assert |tickets.Keys| == |tickets|;
  }

  lemma NothingAtTheStart()
    ensures Total(SpareOf(INITIAL.db.tickets)) == 0
  {
    assert SpareOf(INITIAL.db.tickets) == map[];
  }

  lemma AllClaimsFromTheStart(run: seq<Action>)
    requires ValidRun(INITIAL, run)
    ensures ClaimCount(INITIAL, run) <= Allowance(ResetCount(run), Total(CapsOf(After(INITIAL, run).db.tickets)))
  {
    ReachableInv([]);
    ClaimsBalance(INITIAL, run);
    NothingAtTheStart();
  }

  lemma RoundOf(db: Db)
    ensures Total(CapsOf(db.tickets)) == Total(MaxMap(db)) + |db.tickets|
  {
    CapsAddUp(db.tickets);
  }

  /** From empty tables, a run with k resets claims at most (k + 1) times the sum of all maxima plus one per ticket. */
  lemma AllClaimsAreBounded(run: seq<Action>, resets: nat, round: nat)
    requires ValidRun(INITIAL, run) && resets == ResetCount(run)
    requires round == Total(MaxMap(After(INITIAL, run).db)) + |After(INITIAL, run).db.tickets|
    ensures ClaimCount(INITIAL, run) <= (resets + 1) * round
  {
    AllClaimsFromTheStart(run);
    RoundOf(After(INITIAL, run).db);
    AllowanceIsProduct(resets, round);
  }
}
