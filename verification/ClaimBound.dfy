/** A measure on runs: how many moves and how many claims a set of tickets can still see. */
module ClaimBound {
  import opened Lifecycle
  import opened Tables
  import opened QueueSpec
  import opened Protocol
  import opened Reachability
  import opened Fencing
  import opened AttemptBudget
  import opened Totals
  import Claims

  function Remaining(t: Ticket): nat {
    if IsTerminal(t.status) || t.attemptCount > t.maxAttempts then 0 else t.maxAttempts - t.attemptCount
  }

  /** Twice the attempts left, plus one while RUNNING. */
  function Fuel(t: Ticket): nat {
    2 * Remaining(t) + if t.status == Running then 1 else 0
  }

  function RemainingOf(tickets: map<Id, Ticket>): map<Id, nat> {
    map t | t in tickets :: Remaining(tickets[t])
  }

  function RemainingMap(db: Db): map<Id, nat> {
    RemainingOf(db.tickets)
  }

  function FuelMap(db: Db): map<Id, nat> {
    map t | t in db.tickets :: Fuel(db.tickets[t])
  }

  function MaximaOf(tickets: map<Id, Ticket>): map<Id, nat> {
    map t | t in tickets :: tickets[t].maxAttempts
  }

  function MaxMap(db: Db): map<Id, nat> {
    MaximaOf(db.tickets)
  }

  /** The tickets whose status a step changes. */
  ghost function Moved(w: World, a: Action): set<Id>
    requires Enabled(w, a)
  {
    set t | t in w.db.tickets && t in Apply(w, a).db.tickets
            && Apply(w, a).db.tickets[t].status != w.db.tickets[t].status
  }

  // ---------------------------------------------------------------- one step

  lemma SameTickets(w: World, a: Action)
    requires Enabled(w, a) && !a.CreateJob?
    ensures Apply(w, a).db.tickets.Keys == w.db.tickets.Keys
  {
    if Settles(w, a) {
      AttemptKeepsKeys(w, a);
    }
  }

  lemma RowCostsFuel(row: Ticket, next: Ticket, claimed: bool)
    requires TicketStep(row, next) && WithinBudget(row) && WithinBudget(next)
    requires next.attemptCount == row.attemptCount + (if claimed then 1 else 0)
    requires IsTerminal(row.status) ==> next.status == row.status
    requires claimed ==> row.status != Running && next.status == Running
    requires !claimed && next.status == Running ==> row.status == Running
    ensures Fuel(next) + (if next.status != row.status then 1 else 0) <= Fuel(row)
    ensures Remaining(next) + (if claimed then 1 else 0) <= Remaining(row)
  {
  }

  /** A ticket that moves loses fuel, and a claimed one also loses an attempt. */
  lemma MoveCostsFuel(w: World, a: Action, t: Id)
    requires WorldInv(w) && BudgetInv(w) && Enabled(w, a) && Careful(w, a) && !a.RequestRetry? && t in w.db.tickets
    ensures t in Apply(w, a).db.tickets
    ensures var row, next := w.db.tickets[t], Apply(w, a).db.tickets[t];
            && Fuel(next) + (if next.status != row.status then 1 else 0) <= Fuel(row)
            && Remaining(next) + (if t in Taken(w, a) then 1 else 0) <= Remaining(row)
  {
    AttemptsCountClaims(w, a, t);
    StepMovesRow(w, a, t);
    StepWithinBudget(w, a, t);
    RowCostsFuel(w.db.tickets[t], Apply(w, a).db.tickets[t], t in Taken(w, a));
  }

  lemma StepMovesRow(w: World, a: Action, t: Id)
    requires ExecutionsOk(w) && Enabled(w, a) && t in w.db.tickets
    ensures t in Apply(w, a).db.tickets && TicketStep(w.db.tickets[t], Apply(w, a).db.tickets[t])
    ensures t in Taken(w, a) ==> w.db.tickets[t].status != Running && Apply(w, a).db.tickets[t].status == Running
    ensures t !in Taken(w, a) && Apply(w, a).db.tickets[t].status == Running ==> w.db.tickets[t].status == Running
  {
    EveryActionFollowsTheTable(w, a);
    RunningChangesOnlyByClaims(w, a, t);
  }

  lemma StepCostsFuel(w: World, a: Action)
    requires WorldInv(w) && BudgetInv(w) && Enabled(w, a) && Careful(w, a) && !a.RequestRetry? && !a.CreateJob?
    ensures Total(FuelMap(Apply(w, a).db)) + |Moved(w, a)| <= Total(FuelMap(w.db))
  {
    SameTickets(w, a);
    var moved := Indicator(w.db.tickets.Keys, Moved(w, a));
    forall t | t in w.db.tickets
      ensures FuelMap(Apply(w, a).db)[t] + moved[t] <= FuelMap(w.db)[t]
    {
      MoveCostsFuel(w, a, t);
    }
    TotalIndicator(w.db.tickets.Keys, Moved(w, a));
    TotalBound(FuelMap(Apply(w, a).db), moved, FuelMap(w.db));
  }

  lemma ClaimedSize(w: World, a: Action)
    requires Enabled(w, a)
    ensures |Elements(Taken(w, a))| == |Taken(w, a)| && Elements(Taken(w, a)) <= w.db.tickets.Keys
  {
    if a.ClaimTickets? {
      TakenAreDistinct(a.rows, a.locked, a.limit);
      TakenAreEligible(w, a);
    }
    Claims.DistinctSize(Taken(w, a));
  }

  lemma StepSpendsClaims(w: World, a: Action)
    requires WorldInv(w) && BudgetInv(w) && Enabled(w, a) && Careful(w, a) && !a.RequestRetry? && !a.CreateJob?
    ensures Total(RemainingMap(Apply(w, a).db)) + |Taken(w, a)| <= Total(RemainingMap(w.db))
    ensures MaxMap(Apply(w, a).db) == MaxMap(w.db)
  {
    SameTickets(w, a);
    ClaimedSize(w, a);
    EveryActionFollowsTheTable(w, a);
    var claimed := Indicator(w.db.tickets.Keys, Elements(Taken(w, a)));
    forall t | t in w.db.tickets
      ensures RemainingMap(Apply(w, a).db)[t] + claimed[t] <= RemainingMap(w.db)[t]
    {
      MoveCostsFuel(w, a, t);
    }
    TotalIndicator(w.db.tickets.Keys, Elements(Taken(w, a)));
    TotalBound(RemainingMap(Apply(w, a).db), claimed, RemainingMap(w.db));
    MaximaStay(w.db, Apply(w, a).db);
  }

  lemma MaximaStay(before: Db, after: Db)
    requires DbStep(before, after) && after.tickets.Keys == before.tickets.Keys
    ensures MaxMap(after) == MaxMap(before)
  {
  }

  lemma RefundIsBounded(before: Db, after: Db)
    requires DbStep(before, after) && after.tickets.Keys == before.tickets.Keys
    ensures Total(RemainingMap(after)) <= Total(RemainingMap(before)) + Total(MaxMap(before))
  {
    var sum := map t | t in before.tickets :: Remaining(before.tickets[t]) + before.tickets[t].maxAttempts;
    TotalSum(RemainingMap(before), MaxMap(before), sum);
    var none := Indicator(before.tickets.Keys, {});
    TotalIndicator(before.tickets.Keys, {});
    TotalBound(RemainingMap(after), none, sum);
  }

  /** An operator's reset hands out at most the maximum of every ticket again. */
  lemma ResetRefunds(w: World, a: Action)
    requires Enabled(w, a) && a.RequestRetry?
    ensures Total(RemainingMap(Apply(w, a).db)) <= Total(RemainingMap(w.db)) + Total(MaxMap(w.db))
    ensures MaxMap(Apply(w, a).db) == MaxMap(w.db) && Taken(w, a) == []
  {
    SameTickets(w, a);
    EveryActionFollowsTheTable(w, a);
    RefundIsBounded(w.db, Apply(w, a).db);
    MaximaStay(w.db, Apply(w, a).db);
  }

  lemma {:induction false} TotalSum(a: map<Id, nat>, b: map<Id, nat>, sum: map<Id, nat>)
    requires a.Keys == b.Keys == sum.Keys
    requires forall k :: k in a ==> sum[k] == a[k] + b[k]
    ensures Total(sum) == Total(a) + Total(b)
    decreases |sum|
  {
    if sum != map[] {
      var k :| k in sum;
      TotalSplit(a, k);
      TotalSplit(b, k);
      TotalSplit(sum, k);
      TotalSum(a - {k}, b - {k}, sum - {k});
    } else {
      assert a == map[] && b == map[];
    }
  }

  function Maxima(specs: map<Id, TicketSpec>): map<Id, nat> {
    map t | t in specs :: specs[t].maxAttempts
  }

  lemma InsertExtendsMaps(db: Db, j: Id, specs: map<Id, TicketSpec>, now: int)
    requires specs.Keys !! db.tickets.Keys
    ensures MaxMap(InsertJob(db, j, specs, now)) == MaxMap(db) + Maxima(specs)
    ensures RemainingMap(InsertJob(db, j, specs, now)) == RemainingMap(db) + Maxima(specs)
  {
    ExtendMaps(db.tickets, j, specs, now);
  }

  lemma ExtendMaps(tickets: map<Id, Ticket>, j: Id, specs: map<Id, TicketSpec>, now: int)
    requires specs.Keys !! tickets.Keys
    ensures MaximaOf(tickets + NewTickets(j, specs, now)) == MaximaOf(tickets) + Maxima(specs)
    ensures RemainingOf(tickets + NewTickets(j, specs, now)) == RemainingOf(tickets) + Maxima(specs)
  {
    var next := tickets + NewTickets(j, specs, now);
    assert MaximaOf(next).Keys == (MaximaOf(tickets) + Maxima(specs)).Keys;
    assert RemainingOf(next).Keys == (RemainingOf(tickets) + Maxima(specs)).Keys;
  }

  /** A new job brings as many claims as its tickets' maxima add up to. */
  lemma CreationAdds(db: Db, j: Id, specs: map<Id, TicketSpec>, now: int)
    requires specs.Keys !! db.tickets.Keys
    ensures var next := InsertJob(db, j, specs, now);
            && Total(MaxMap(db)) <= Total(MaxMap(next))
            && Total(RemainingMap(next)) - Total(RemainingMap(db)) == Total(MaxMap(next)) - Total(MaxMap(db))
  {
    InsertExtendsMaps(db, j, specs, now);
    TotalUnion(MaxMap(db), Maxima(specs));
    TotalUnion(RemainingMap(db), Maxima(specs));
  }

  // ---------------------------------------------------------------- runs

  ghost function ClaimCount(w: World, run: seq<Action>): nat
    requires ValidRun(w, run)
    decreases |run|
  {
    if run == [] then 0 else |Taken(w, run[0])| + ClaimCount(Apply(w, run[0]), run[1..])
  }

  ghost function MoveCount(w: World, run: seq<Action>): nat
    requires ValidRun(w, run)
    decreases |run|
  {
    if run == [] then 0 else |Moved(w, run[0])| + MoveCount(Apply(w, run[0]), run[1..])
  }

  function ResetCount(run: seq<Action>): nat {
    if run == [] then 0 else (if run[0].RequestRetry? then 1 else 0) + ResetCount(run[1..])
  }

  predicate NoRefill(run: seq<Action>) {
    forall a :: a in run ==> !a.RequestRetry? && !a.CreateJob?
  }

  /** Without resets and new jobs, a run makes at most as many ticket moves as the fuel it starts with. */
  lemma {:induction false} MovesAreBounded(w: World, run: seq<Action>)
    requires WorldInv(w) && BudgetInv(w) && ValidRun(w, run) && CarefulRun(w, run) && NoRefill(run)
    ensures Total(FuelMap(After(w, run).db)) + MoveCount(w, run) <= Total(FuelMap(w.db))
    decreases |run|
  {
    if run != [] {
      assert run[0] in run;
      StepCostsFuel(w, run[0]);
      StepKeepsInv(w, run[0]);
      StepKeepsBudget(w, run[0]);
      MovesAreBounded(Apply(w, run[0]), run[1..]);
    }
  }

  lemma StepAccount(w: World, a: Action)
    requires WorldInv(w) && BudgetInv(w) && Enabled(w, a) && Careful(w, a)
    ensures Total(MaxMap(w.db)) <= Total(MaxMap(Apply(w, a).db))
    ensures |Taken(w, a)| + Total(RemainingMap(Apply(w, a).db)) + Total(MaxMap(w.db))
            <= Total(RemainingMap(w.db)) + Total(MaxMap(Apply(w, a).db))
               + (if a.RequestRetry? then Total(MaxMap(w.db)) else 0)
  {
    match a
    case CreateJob(j, specs) => CreationAdds(w.db, j, specs, w.now);
    case RequestRetry(_) => ResetRefunds(w, a);
    case _ => StepSpendsClaims(w, a);
  }

  /** What `resets` rounds after the first allow when one round allows `max`. */
  function Allowance(resets: nat, max: nat): nat {
    if resets == 0 then max else max + Allowance(resets - 1, max)
  }

  lemma AllowanceIsProduct(resets: nat, max: nat)
    ensures Allowance(resets, max) == (resets + 1) * max
  {
  }

  lemma {:induction false} ClaimsAccount(w: World, run: seq<Action>)
    requires WorldInv(w) && BudgetInv(w) && ValidRun(w, run) && CarefulRun(w, run)
    ensures Total(MaxMap(w.db)) <= Total(MaxMap(After(w, run).db))
    ensures ClaimCount(w, run) + Total(RemainingMap(After(w, run).db)) + Total(MaxMap(w.db))
            <= Total(RemainingMap(w.db)) + Allowance(ResetCount(run), Total(MaxMap(After(w, run).db)))
    decreases |run|
  {
    if run != [] {
      StepAccount(w, run[0]);
      StepKeepsInv(w, run[0]);
      StepKeepsBudget(w, run[0]);
      ClaimsAccount(Apply(w, run[0]), run[1..]);
      AllowanceStep(run, Total(MaxMap(After(w, run).db)), Total(MaxMap(w.db)));
    }
  }

  /** One more reset allows one more round, and a round allows at least the maxima there were before. */
  lemma AllowanceStep(run: seq<Action>, allMax: nat, max: nat)
    requires run != [] && max <= allMax
    ensures Allowance(ResetCount(run[1..]), allMax) + (if run[0].RequestRetry? then max else 0)
            <= Allowance(ResetCount(run), allMax)
  {
  }

  lemma ClaimsFromTheStart(run: seq<Action>)
    requires ValidRun(INITIAL, run) && CarefulRun(INITIAL, run)
    ensures ClaimCount(INITIAL, run) <= Allowance(ResetCount(run), Total(MaxMap(After(INITIAL, run).db)))
  {
    ClaimsAccount(INITIAL, run);
    assert RemainingMap(INITIAL.db) == map[];
  }

  /** From the empty tables, a careful run with k resets claims at most (k + 1) times the sum of all maxima. */
  lemma ClaimsAreBounded(run: seq<Action>, resets: nat, maxima: nat)
    requires ValidRun(INITIAL, run) && CarefulRun(INITIAL, run)
    requires resets == ResetCount(run) && maxima == Total(MaxMap(After(INITIAL, run).db))
    ensures ClaimCount(INITIAL, run) <= (resets + 1) * maxima
  {
    ClaimsFromTheStart(run);
    AllowanceIsProduct(resets, maxima);
  }
}
