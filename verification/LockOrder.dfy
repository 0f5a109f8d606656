/**
 Row locks of concurrent transactions. Settlements, cancels and retry-failed calls take the job row
 and then tickets of that job; a heartbeat takes one ticket; a claim takes tickets and then job rows
 but skips every locked one. Nobody can then wait in a circle.
 */
module LockOrder {

  type Txn = nat

  datatype Row = JobRow(j: nat) | TicketRow(t: nat)

  datatype Kind = JobFirst(job: nat) | OneTicket | Skipping

  /** Who holds which row, who waits for which row, and what each transaction is. */
  datatype Locks = Locks(
    kinds: map<Txn, Kind>,
    holder: map<Row, Txn>,
    waiting: map<Txn, Row>,
    jobOf: map<nat, nat>)

  predicate Free(s: Locks, r: Row) {
    r !in s.holder
  }

  predicate HoldsNothing(s: Locks, x: Txn) {
    forall r :: r in s.holder ==> s.holder[r] != x
  }

  /** The rows a transaction of this kind may ask for, given what it holds. */
  predicate MayRequest(s: Locks, x: Txn, r: Row)
    requires x in s.kinds
  {
    match s.kinds[x]
    case JobFirst(j) =>
      if r.JobRow? then r.j == j && HoldsNothing(s, x)
      else r.t in s.jobOf && s.jobOf[r.t] == j && JobRow(j) in s.holder && s.holder[JobRow(j)] == x
    case OneTicket => r.TicketRow? && HoldsNothing(s, x)
    case Skipping => true
  }

  datatype Step =
    | Begin(x: Txn, kind: Kind)
    | Request(x: Txn, r: Row)
    | Grant(x: Txn)
    | Finish(x: Txn)

  predicate Enabled(s: Locks, a: Step) {
    match a
    case Begin(x, _) => x !in s.kinds
    case Request(x, r) => x in s.kinds && x !in s.waiting && MayRequest(s, x, r)
    case Grant(x) => x in s.waiting && Free(s, s.waiting[x])
    case Finish(x) => x in s.kinds
  }

  /** A free row is taken at once; a locked one is waited for, or skipped by a claim. */
  function Apply(s: Locks, a: Step): Locks
    requires Enabled(s, a)
  {
    match a
    case Begin(x, kind) => s.(kinds := s.kinds[x := kind])
    case Request(x, r) =>
      if Free(s, r) then s.(holder := s.holder[r := x])
      else if s.kinds[x] == Skipping || s.holder[r] == x then s
      else s.(waiting := s.waiting[x := r])
    case Grant(x) => s.(holder := s.holder[s.waiting[x] := x], waiting := s.waiting - {x})
    case Finish(x) =>
      s.(kinds := s.kinds - {x},
         holder := map r | r in s.holder && s.holder[r] != x :: s.holder[r],
         waiting := s.waiting - {x})
  }

  /** Holders and waiters are known, and every lock held or awaited respects the kind of its transaction. */
  ghost predicate Disciplined(s: Locks) {
    && (forall r :: r in s.holder ==> s.holder[r] in s.kinds && HeldRightly(s, r))
    && (forall x :: x in s.waiting ==> x in s.kinds && AwaitedRightly(s, x))
  }

  /** A job-first transaction holds only its own job row and, once it has that, tickets of that job. */
  predicate HeldRightly(s: Locks, r: Row)
    requires r in s.holder && s.holder[r] in s.kinds
  {
    var x := s.holder[r];
    match s.kinds[x]
    case JobFirst(j) =>
      if r.JobRow? then r.j == j
      else r.t in s.jobOf && s.jobOf[r.t] == j && JobRow(j) in s.holder && s.holder[JobRow(j)] == x
    case OneTicket => r.TicketRow?
    case Skipping => true
  }

  predicate AwaitedRightly(s: Locks, x: Txn)
    requires x in s.waiting && x in s.kinds
  {
    match s.kinds[x]
    case Skipping => false
    case _ => MayRequest(s, x, s.waiting[x])
  }

  lemma StepKeepsHeld(s: Locks, a: Step, r: Row)
    requires Disciplined(s) && Enabled(s, a) && r in Apply(s, a).holder
    ensures Apply(s, a).holder[r] in Apply(s, a).kinds && HeldRightly(Apply(s, a), r)
  {
    if r in s.holder && s.holder[r] == Apply(s, a).holder[r] {
      assert HeldRightly(s, r);
    }
  }

  lemma StepKeepsAwaited(s: Locks, a: Step, x: Txn)
    requires Disciplined(s) && Enabled(s, a) && x in Apply(s, a).waiting
    ensures x in Apply(s, a).kinds && AwaitedRightly(Apply(s, a), x)
  {
    if x in s.waiting {
      assert AwaitedRightly(s, x);
    }
  }

  lemma StepKeepsDiscipline(s: Locks, a: Step)
    requires Disciplined(s) && Enabled(s, a)
    ensures Disciplined(Apply(s, a))
  {
    forall r | r in Apply(s, a).holder
      ensures Apply(s, a).holder[r] in Apply(s, a).kinds && HeldRightly(Apply(s, a), r)
    {
      StepKeepsHeld(s, a, r);
    }
    forall x | x in Apply(s, a).waiting
      ensures x in Apply(s, a).kinds && AwaitedRightly(Apply(s, a), x)
    {
      StepKeepsAwaited(s, a, x);
    }
  }

  // ---------------------------------------------------------------- waits-for

  /** `x` waits for a row that another transaction `y` holds. */
  predicate WaitsFor(s: Locks, x: Txn, y: Txn) {
    x != y && x in s.waiting && s.waiting[x] in s.holder && s.holder[s.waiting[x]] == y
  }

  /**
   A transaction that is waited for and waits itself is job-first and waits for a ticket; its waiter is not in
   that position.
   */
  lemma AwaitedWaiters(s: Locks, x: Txn, y: Txn, z: Txn)
    requires Disciplined(s) && WaitsFor(s, x, y) && WaitsFor(s, y, z)
    ensures s.kinds[y].JobFirst? && s.waiting[y].TicketRow?
    ensures s.kinds[x] == OneTicket || s.waiting[x].JobRow?
  {
    assert HeldRightly(s, s.waiting[x]) && AwaitedRightly(s, y) && AwaitedRightly(s, x);
    assert !HoldsNothing(s, y);
  }

  /** `chain` visits transactions each of which waits for the next. */
  predicate WaitChain(s: Locks, chain: seq<Txn>) {
    forall i :: 0 <= i < |chain| - 1 ==> WaitsFor(s, chain[i], chain[i + 1])
  }

  /** A chain of waiting transactions has at most two links, so none of them leads back to its start. */
  lemma NoWaitChainIsLong(s: Locks, chain: seq<Txn>)
    requires Disciplined(s) && WaitChain(s, chain)
    ensures |chain| <= 3
    ensures |chain| >= 2 ==> chain[0] != chain[|chain| - 1]
  {
    if |chain| >= 3 {
      AwaitedWaiters(s, chain[0], chain[1], chain[2]);
      if |chain| >= 4 {
        AwaitedWaiters(s, chain[1], chain[2], chain[3]);
      } else if chain[0] == chain[2] {
        AwaitedWaiters(s, chain[1], chain[0], chain[1]);
      }
    }
  }

  predicate ValidSteps(s: Locks, steps: seq<Step>)
    decreases |steps|
  {
    steps == [] || (Enabled(s, steps[0]) && ValidSteps(Apply(s, steps[0]), steps[1..]))
  }

  function After(s: Locks, steps: seq<Step>): Locks
    requires ValidSteps(s, steps)
    decreases |steps|
  {
    if steps == [] then s else After(Apply(s, steps[0]), steps[1..])
  }

  lemma {:induction false} RunKeepsDiscipline(s: Locks, steps: seq<Step>)
    requires Disciplined(s) && ValidSteps(s, steps)
    ensures Disciplined(After(s, steps))
    decreases |steps|
  {
    if steps != [] {
      StepKeepsDiscipline(s, steps[0]);
      RunKeepsDiscipline(Apply(s, steps[0]), steps[1..]);
    }
  }

  /** Whatever transactions run concurrently, no circle of waiting transactions ever forms. */
  lemma NoDeadlock(jobOf: map<nat, nat>, steps: seq<Step>, chain: seq<Txn>)
    requires ValidSteps(Locks(map[], map[], map[], jobOf), steps)
    requires WaitChain(After(Locks(map[], map[], map[], jobOf), steps), chain) && |chain| >= 2
    ensures chain[0] != chain[|chain| - 1]
  {
    RunKeepsDiscipline(Locks(map[], map[], map[], jobOf), steps);
    NoWaitChainIsLong(After(Locks(map[], map[], map[], jobOf), steps), chain);
  }
}
