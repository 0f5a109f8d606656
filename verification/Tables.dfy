/** The three tables as immutable values: one map from primary key to row each. */
module Tables {
  import opened Options
  import opened Lifecycle

  type Id = nat
  type Worker = string

  datatype Job = Job(
    status: JobStatus,
    totalTickets: nat,
    completed: nat,
    failed: nat,
    cancelled: nat,
    notApplicable: nat,
    startedAt: Option<int>,
    completedAt: Option<int>,
    cancelRequestedAt: Option<int>)

  datatype Ticket = Ticket(
    jobId: Id,
    status: TicketStatus,
    priority: int,
    createdAt: int,
    attemptCount: nat,
    maxAttempts: nat,
    availableAt: int,
    workerId: Option<Worker>,
    leaseExpiresAt: Option<int>,
    completedAt: Option<int>,
    resultId: Option<Id>)

  datatype EvalResult = EvalResult(jobId: Id, ticketId: Id, verdict: Verdict, attemptCount: nat)

  datatype Db = Db(jobs: map<Id, Job>, tickets: map<Id, Ticket>, results: map<Id, EvalResult>)

  function TicketsOf(tickets: map<Id, Ticket>, j: Id): set<Id> {
    set t | t in tickets && tickets[t].jobId == j
  }

  function TicketsWith(tickets: map<Id, Ticket>, j: Id, s: TicketStatus): set<Id> {
    set t | t in tickets && tickets[t].jobId == j && tickets[t].status == s
  }

  /** The result rows that name ticket `t`; the unique index keeps this at one row. */
  function ResultsFor(results: map<Id, EvalResult>, t: Id): set<Id> {
    set r | r in results && results[r].ticketId == t
  }

  predicate CancelRequested(db: Db, j: Id) {
    j in db.jobs && db.jobs[j].cancelRequestedAt.Some?
  }
}
