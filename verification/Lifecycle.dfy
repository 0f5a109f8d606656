/** Ticket, job and result statuses, and the ticket state machine. */
module Lifecycle {

  datatype JobStatus =
    | JobCreated | JobReady | JobRunning
    | JobCompleted | JobPartialFailed | JobFailed | JobCancelled

  datatype TicketStatus = Ready | Running | Retry | Done | Failed | Cancelled | NotApplicable

  datatype Verdict = VerdictPassed | VerdictFailed | VerdictNotApplicable | VerdictError

  datatype ErrorClass = Transient | Permanent | MissingContext

  predicate IsTerminal(s: TicketStatus) {
    s == Done || s == Failed || s == Cancelled || s == NotApplicable
  }

  predicate IsTerminalJob(s: JobStatus) {
    s == JobCompleted || s == JobPartialFailed || s == JobFailed || s == JobCancelled
  }

  /** Waiting to be claimed. */
  predicate IsPending(s: TicketStatus) {
    s == Ready || s == Retry
  }

  /** The transition table of a ticket. */
  predicate Allowed(s: TicketStatus, target: TicketStatus) {
    match s
    case Ready => target == Running || target == Cancelled
    case Running => IsTerminal(target) || target == Retry
    case Retry => target == Running || target == Cancelled || target == Failed
    case Failed => target == Ready
    case _ => false
  }

  /** The table read by target: where a ticket may come from. */
  lemma SourcesAre(s: TicketStatus)
    ensures Allowed(s, Ready) <==> s == Failed
    ensures Allowed(s, Running) <==> s == Ready || s == Retry
    ensures Allowed(s, Retry) <==> s == Running
    ensures Allowed(s, Done) <==> s == Running
    ensures Allowed(s, NotApplicable) <==> s == Running
    ensures Allowed(s, Failed) <==> s == Running || s == Retry
    ensures Allowed(s, Cancelled) <==> s == Ready || s == Running || s == Retry
  {
  }
}
