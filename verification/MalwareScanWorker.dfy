/** scripts/jobs/malware-scan-worker.ts: the claim loop over malware-scan jobs. */
module MalwareScanWorker {
  import opened Wrappers
  import opened Sequences
  import opened JobEnvironment
  import opened MalwareScan
  import ClaimLoop

  datatype Claim = NoJob | Claimed(job: Job, replies: Replies)

  datatype Counts = Counts(claimed: nat, resolved: nat, failed: nat, emptyPolls: nat)

  type Seen = ClaimLoop.Seen<Event, Outcome, Exception>

  function SeenOf(claim: Claim, workerId: string): Seen {
    match claim
    case NoJob => ClaimLoop.NoJob
    case Claimed(job, r) => ClaimLoop.Ran(Events(PlanFor(job, r), job, workerId), ResultOf(PlanFor(job, r)))
  }

  function SeenBy(claims: nat -> Claim, workerId: string): nat -> Seen { (i: nat) => SeenOf(claims(i), workerId) }

  predicate IsResolved(o: Outcome) { o.kind == ScanResolved }

  function Polls(claims: nat -> Claim, workerId: string): nat -> ClaimLoop.Poll { ClaimLoop.Polls(SeenBy(claims, workerId), IsResolved) }

  function Trace(claims: nat -> Claim, n: nat, workerId: string): seq<Event> { ClaimLoop.Trace(SeenBy(claims, workerId), n) }

  function Tally(claims: nat -> Claim, n: nat, workerId: string): Counts { CountsOf(ClaimLoop.Tally(Polls(claims, workerId), n)) }

  function CountsOf(c: ClaimLoop.Counters): Counts { Counts(c.claimed, c.succeeded, c.failed, c.emptyPolls) }

  function AfterRun(c: Counts, o: Outcome): Counts {
    Counts(c.claimed + 1, if o.kind == ScanResolved then c.resolved + 1 else c.resolved, if o.kind == ScanResolved then c.failed else c.failed + 1, 0)
  }

  /** What the next poll does to the counters and to the rest of the run. */
  lemma PollStep(claims: nat -> Claim, i: nat, c: Counts, iterations: int, limit: int, workerId: string)
    requires i < iterations && Tally(claims, i, workerId) == c
    ensures var polls := Polls(claims, workerId); var run := ClaimLoop.Run(polls, i, c.emptyPolls, iterations, limit);
      match claims(i)
      case NoJob =>
        && Tally(claims, i + 1, workerId) == c.(emptyPolls := c.emptyPolls + 1)
        && run == if c.emptyPolls + 1 >= limit then ClaimLoop.Ending(i + 1, false, c.emptyPolls + 1)
                  else ClaimLoop.Run(polls, i + 1, c.emptyPolls + 1, iterations, limit)
      case Claimed(job, r) =>
        match ResultOf(PlanFor(job, r))
        case Thrown(_) => run == ClaimLoop.Ending(i + 1, true, 0)
        case Ok(o) => Tally(claims, i + 1, workerId) == AfterRun(c, o) && run == ClaimLoop.Run(polls, i + 1, 0, iterations, limit)
  {
    ClaimLoop.PollStep(SeenBy(claims, workerId), IsResolved, i, ClaimLoop.Tally(Polls(claims, workerId), i), iterations, limit);
    assert SeenBy(claims, workerId)(i) == SeenOf(claims(i), workerId);
  }

  /** The i-th poll and what it leads to; `base` is what the log held before the first one. */
  method ProcessClaim(log: EventLog<Event>, claims: nat -> Claim, i: nat, workerId: string, ghost base: seq<Event>)
    returns (run: Option<Result<Outcome, Exception>>)
    requires log.events == base + Trace(claims, i, workerId)
    modifies log
    ensures log.events == base + Trace(claims, i + 1, workerId)
    ensures claims(i).NoJob? <==> run.None?
    ensures claims(i).Claimed? ==> run == Some(ResultOf(PlanFor(claims(i).job, claims(i).replies)))
  {
    var claim := claims(i);
    AppendAssociates(base, Trace(claims, i, workerId), ClaimLoop.EventsOf(SeenOf(claim, workerId)));
    if claim.NoJob? {
      return None;
    }
    var result := ProcessMalwareScanJob(log, claim.job, workerId, claim.replies);
    return Some(result);
  }

  /** One turn of the loop: the poll, its effects, and what it does to the counters and to the rest of the run. */
  method TakeTurn(log: EventLog<Event>, claims: nat -> Claim, i: nat, workerId: string,
                  ghost base: seq<Event>, ghost c: Counts, ghost iterations: int, ghost limit: int)
    returns (run: Option<Result<Outcome, Exception>>)
    requires i < iterations && log.events == base + Trace(claims, i, workerId) && Tally(claims, i, workerId) == c
    modifies log
    ensures log.events == base + Trace(claims, i + 1, workerId)
    ensures var polls := Polls(claims, workerId); var rest := ClaimLoop.Run(polls, i, c.emptyPolls, iterations, limit);
      match run
      case None =>
        && Tally(claims, i + 1, workerId) == c.(emptyPolls := c.emptyPolls + 1)
        && rest == if c.emptyPolls + 1 >= limit then ClaimLoop.Ending(i + 1, false, c.emptyPolls + 1)
                   else ClaimLoop.Run(polls, i + 1, c.emptyPolls + 1, iterations, limit)
      case Some(Thrown(_)) => rest == ClaimLoop.Ending(i + 1, true, 0)
      case Some(Ok(o)) => Tally(claims, i + 1, workerId) == AfterRun(c, o) && rest == ClaimLoop.Run(polls, i + 1, 0, iterations, limit)
  {
    run := ProcessClaim(log, claims, i, workerId, base);
    PollStep(claims, i, c, iterations, limit, workerId);
  }

  method RunMalwareScanWorker(log: EventLog<Event>, claims: nat -> Claim, iterations: int, emptyPollLimit: int, workerId: string)
    returns (result: Result<Counts, Exception>, ghost end: ClaimLoop.Ending)
    modifies log
    ensures end == ClaimLoop.Run(Polls(claims, workerId), 0, 0, iterations, emptyPollLimit)
    ensures log.events == old(log.events) + Trace(claims, end.polls, workerId)
    ensures result.Ok? <==> !end.threw
    ensures result.Ok? ==> result.value == Tally(claims, end.polls, workerId)
  {
    var counts := Counts(0, 0, 0, 0);
    end := ClaimLoop.Run(Polls(claims, workerId), 0, 0, iterations, emptyPollLimit);
    var i := 0;
    while i < iterations
      invariant 0 <= i
      invariant end == ClaimLoop.Run(Polls(claims, workerId), i, counts.emptyPolls, iterations, emptyPollLimit)
      invariant log.events == old(log.events) + Trace(claims, i, workerId)
      invariant Tally(claims, i, workerId) == counts
    {
      var run := TakeTurn(log, claims, i, workerId, old(log.events), counts, iterations, emptyPollLimit);
      i := i + 1;
      if run.None? {
        counts := counts.(emptyPolls := counts.emptyPolls + 1);
        if counts.emptyPolls >= emptyPollLimit {
          break;
        }
        continue;
      }
      if run.value.Thrown? {
        return Thrown(run.value.error), end;
      }
      counts := AfterRun(counts, run.value.value);
    }
    return Ok(counts), end;
  }

  predicate IsCompletion(e: Event) { e.JobCompleted? }
  predicate IsVerdict(e: Event) { e.VerdictRecorded? }

  /** A returning run reports its own job once; a verdict is recorded exactly when the job is completed. */
  lemma RunAccounts(job: Job, workerId: string, r: Replies)
    requires !PlanFor(job, r).Abort?
    ensures var plan := PlanFor(job, r); var events := Events(plan, job, workerId);
      && events != [] && IsReport(events[|events| - 1]) && events[|events| - 1].jobId == job.jobId && Count(events, IsReport) == 1
      && Count(events, IsCompletion) == Count(events, IsVerdict) == (if plan.Resolve? then 1 else 0)
  {
    var plan := PlanFor(job, r);
    var postlude := Postlude(plan, job, workerId);
    CallsAreQuiet(job, r);
    CountZero(plan.calls, IsReport);
    CountZero(plan.calls, IsCompletion);
    CountZero(plan.calls, IsVerdict);
    CountAppend(plan.calls, postlude, IsReport);
    CountAppend(plan.calls, postlude, IsCompletion);
    CountAppend(plan.calls, postlude, IsVerdict);
    var last := postlude[|postlude| - 1];
    assert postlude == if plan.Resolve? then [postlude[0], last] else [last];
    CountTwo(postlude[0], last, IsReport);
    CountTwo(postlude[0], last, IsCompletion);
    CountTwo(postlude[0], last, IsVerdict);
  }

  /** A run that returns has one report, and it is about its own job. */
  ghost predicate ReportsOwnJob(job: Job, workerId: string, r: Replies) {
    var events := Events(PlanFor(job, r), job, workerId);
    events != [] && IsReport(events[|events| - 1]) && events[|events| - 1].jobId == job.jobId && Count(events, IsReport) == 1
  }

  lemma SeenIsAccounted(claim: Claim, workerId: string)
    requires ClaimLoop.PollOf(SeenOf(claim, workerId), IsResolved) != ClaimLoop.Threw
    ensures ClaimLoop.OneReport(SeenOf(claim, workerId), IsResolved, IsReport, IsCompletion)
    ensures Count(ClaimLoop.EventsOf(SeenOf(claim, workerId)), IsVerdict) == Count(ClaimLoop.EventsOf(SeenOf(claim, workerId)), IsCompletion)
    ensures claim.Claimed? ==> ReportsOwnJob(claim.job, workerId, claim.replies)
  {
    if claim.Claimed? {
      RunAccounts(claim.job, workerId, claim.replies);
    }
  }

  /**
   * A worker run that returns counts every claimed job once, as resolved or failed, within its
   * budget; each has one report, its own, and each resolved one a verdict and a completion. If it
   * stopped early it has just seen the limit's number of empty claims.
   */
  lemma WorkerRunIsAccounted(claims: nat -> Claim, iterations: int, emptyPollLimit: int, workerId: string)
    requires !ClaimLoop.Run(Polls(claims, workerId), 0, 0, iterations, emptyPollLimit).threw
    ensures var n := ClaimLoop.Run(Polls(claims, workerId), 0, 0, iterations, emptyPollLimit).polls;
      var t, trace := Tally(claims, n, workerId), Trace(claims, n, workerId);
      && t.claimed == t.resolved + t.failed <= n <= (if iterations < 0 then 0 else iterations)
      && Count(trace, IsReport) == t.claimed && Count(trace, IsCompletion) == Count(trace, IsVerdict) == t.resolved
      && (forall i: nat :: i < n && claims(i).Claimed? ==> ReportsOwnJob(claims(i).job, workerId, claims(i).replies))
      && (n < iterations ==>
            && t.emptyPolls == ClaimLoop.Patience(emptyPollLimit) <= n
            && forall k: nat :: n - t.emptyPolls <= k < n ==> claims(k).NoJob?)
  {
    var seen := SeenBy(claims, workerId);
    var n := ClaimLoop.Run(Polls(claims, workerId), 0, 0, iterations, emptyPollLimit).polls;
    forall i: nat | ClaimLoop.PollOf(seen(i), IsResolved) != ClaimLoop.Threw
      ensures ClaimLoop.OneReport(seen(i), IsResolved, IsReport, IsCompletion)
      ensures Count(ClaimLoop.EventsOf(seen(i)), IsVerdict) == Count(ClaimLoop.EventsOf(seen(i)), IsCompletion)
      ensures claims(i).Claimed? ==> ReportsOwnJob(claims(i).job, workerId, claims(i).replies)
    {
      SeenIsAccounted(claims(i), workerId);
    }
    ClaimLoop.RunIsAccounted(seen, IsResolved, IsReport, IsCompletion, iterations, emptyPollLimit);
    VerdictsAreCompletions(claims, n, workerId);
    forall k: nat | seen(k) == ClaimLoop.NoJob ensures claims(k).NoJob? {
    }
  }

  lemma {:induction false} VerdictsAreCompletions(claims: nat -> Claim, n: nat, workerId: string)
    requires forall i: nat :: i < n ==> ClaimLoop.PollOf(SeenBy(claims, workerId)(i), IsResolved) != ClaimLoop.Threw
    ensures Count(Trace(claims, n, workerId), IsVerdict) == Count(Trace(claims, n, workerId), IsCompletion)
  {
    if n > 0 {
      VerdictsAreCompletions(claims, n - 1, workerId);
      assert SeenBy(claims, workerId)(n - 1) == SeenOf(claims(n - 1), workerId);
      SeenIsAccounted(claims(n - 1), workerId);
      var before, events := Trace(claims, n - 1, workerId), ClaimLoop.EventsOf(SeenOf(claims(n - 1), workerId));
      CountAppend(before, events, IsVerdict);
      CountAppend(before, events, IsCompletion);
    }
  }
}
