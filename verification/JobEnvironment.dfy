/** What the job processors share: the log of their effects and the kinds of reply they get. */
module JobEnvironment {
  import opened Wrappers

  /** The effects of a run on the outside world, in order. */
  class EventLog<E> {
    var events: seq<E>

    constructor ()
      ensures events == []
    {
      events := [];
    }

    method Append(event: E)
      modifies this
      ensures events == old(events) + [event]
    {
      events := events + [event];
    }
  }

  /** `!value` of a nullable string. */
  predicate Missing(value: Option<string>) { value.None? || value.value == "" }

  /** The answer of the delivery-time URL check. */
  datatype Safety = Safety(safe: bool, reason: Option<string>)

  /** The end of a request; a TransportError carries no message when what was thrown is not an Error. */
  datatype FetchReply = Responded(status: int) | TimedOut | TransportError(message: Option<string>)

  predicate Accepted(response: FetchReply) {
    response.Responded? && 200 <= response.status < 300
  }

  // ---------- The job's row ----------

  datatype JobStatus = Pending | InProgress | JobDone | Dead

  datatype JobRow = JobRow(status: JobStatus, attempts: nat, maxAttempts: nat)

  /** claim_next_job: taking over a job whose lease ran out counts as an attempt. */
  function ClaimedRow(row: JobRow): JobRow {
    JobRow(InProgress, if row.status == InProgress then row.attempts + 1 else row.attempts, row.maxAttempts)
  }

  /** The table's constraint on attempts; a statement that would break it raises. */
  predicate WithinAttempts(row: JobRow) { row.attempts <= row.maxAttempts }

  /** The job is offered to workers, and claiming it does not raise. */
  predicate Claimable(row: JobRow) { (row.status == Pending || row.status == InProgress) && WithinAttempts(ClaimedRow(row)) }

  /** complete_job; None when it raises. */
  function CompletedRow(row: JobRow): Option<JobRow> {
    if row.status == InProgress then Some(row.(status := JobDone)) else None
  }

  /** record_job_failure; None when it raises, also on the constraint. */
  function FailedRow(row: JobRow): Option<JobRow> {
    if row.status == JobDone || row.status == Dead || row.attempts + 1 > row.maxAttempts then None
    else Some(JobRow(if row.attempts + 1 >= row.maxAttempts then Dead else Pending, row.attempts + 1, row.maxAttempts))
  }

  /** The job's attempts once it is claimed: taking it over from a run that died is one more. */
  ghost function AttemptsWhenClaimed(row: JobRow): nat { row.attempts + if row.status == InProgress then 1 else 0 }

  // ---------- How many runs are left ----------

  /** The runs a job can still have; the one in progress has been had. */
  function RunsLeft(row: JobRow): nat {
    if !WithinAttempts(row) then 0
    else
      match row.status
      case Pending => row.maxAttempts - row.attempts + 1
      case InProgress => row.maxAttempts - row.attempts
      case _ => 0
  }

  lemma ClaimSpendsARun(row: JobRow)
    requires Claimable(row)
    ensures RunsLeft(row) == RunsLeft(ClaimedRow(row)) + 1
  {
  }

  lemma ReportsAddNoRun(row: JobRow)
    ensures CompletedRow(row).Some? ==> RunsLeft(CompletedRow(row).value) == 0
    ensures FailedRow(row).Some? ==> RunsLeft(FailedRow(row).value) <= RunsLeft(row)
  {
  }

  /** No worker can claim the job again exactly when no run is left. */
  lemma ClaimableIff(row: JobRow)
    ensures Claimable(row) <==> RunsLeft(row) > 0
  {
  }
}
