/**
 * lib/malware-scan/scan-file-with-virustotal.server.ts and
 * lib/malware-scan/process-malware-scan-job.server.ts: a bounded poll for a verdict, and the job
 * that records it. Every reply of the scanner, the storage and the database is arbitrary.
 */
module MalwareScan {
  import opened Wrappers
  import opened Text
  import opened JobEnvironment

  // ---------- The scan ----------

  datatype SubmitReply = Accepted(analysisId: Option<string>) | SubmitStatus(status: int) | SubmitNotJson | SubmitFailed(message: string)

  /** PollStatus is a reply outside 2xx; a completed analysis carries its counts, each None when missing or not numeric. */
  datatype PollReply =
    | PollStatus(status: int)
    | PollNotJson
    | PollFailed(message: string)
    | NotCompleted
    | Analysis(malicious: Option<int>, suspicious: Option<int>)

  datatype PollOutcome = Completed(malicious: int, suspicious: int) | Queued | Malformed | TransientError

  datatype Verdict = Clean | Infected | Error

  datatype ScanOutcome = Resolved(verdict: Verdict, providerRef: Option<string>) | Retryable

  const MAX_FILE_SIZE_BYTES := 32 * 1024 * 1024

  function ReadPoll(reply: PollReply): PollOutcome {
    match reply
    case PollStatus(_) => TransientError
    case PollNotJson => TransientError
    case PollFailed(_) => TransientError
    case NotCompleted => Queued
    case Analysis(malicious, suspicious) =>
      if malicious.None? || suspicious.None? then Malformed else Completed(malicious.value, suspicious.value)
  }

  /** The id of an accepted submission. */
  function AnalysisId(submit: SubmitReply): Option<string> {
    if submit.Accepted? && submit.analysisId.Some? && submit.analysisId.value != "" then submit.analysisId else None
  }

  /** The first poll from i on, among max, that is not queued; None when there is none. */
  function FirstDecided(polls: nat -> PollReply, i: nat, max: int): Option<nat>
    decreases max - i
  {
    if i >= max then None
    else if ReadPoll(polls(i)) != Queued then Some(i)
    else FirstDecided(polls, i + 1, max)
  }

  function OutcomeOfPoll(poll: PollOutcome, id: string): ScanOutcome {
    match poll
    case Completed(malicious, suspicious) => Resolved(if malicious > 0 || suspicious > 0 then Infected else Clean, Some(id))
    case Malformed => Resolved(Error, Some(id))
    case TransientError => Retryable
    case Queued => Retryable
  }

  function Scan(size: nat, submit: SubmitReply, polls: nat -> PollReply, maxAttempts: int): ScanOutcome {
    if size == 0 || size > MAX_FILE_SIZE_BYTES then Resolved(Error, None)
    else if AnalysisId(submit).None? then Retryable
    else
      match FirstDecided(polls, 0, maxAttempts)
      case None => Retryable
      case Some(k) => OutcomeOfPoll(ReadPoll(polls(k)), AnalysisId(submit).value)
  }

  method ScanFileWithVirusTotal(size: nat, submit: SubmitReply, polls: nat -> PollReply, pollMaxAttempts: int)
    returns (outcome: ScanOutcome, pollsMade: nat)
    ensures outcome == Scan(size, submit, polls, pollMaxAttempts)
    ensures pollMaxAttempts >= 0 ==> pollsMade <= pollMaxAttempts
    ensures forall k: nat :: k + 1 < pollsMade ==> polls(k) == NotCompleted
    ensures size == 0 || size > MAX_FILE_SIZE_BYTES || AnalysisId(submit).None? ==> pollsMade == 0
  {
    if size == 0 {
      return Resolved(Error, None), 0;
    }
    if size > MAX_FILE_SIZE_BYTES {
      return Resolved(Error, None), 0;
    }
    if AnalysisId(submit).None? {
      return Retryable, 0;
    }
    var analysisId := AnalysisId(submit).value;
    var attempt := 0;
    while attempt < pollMaxAttempts
      invariant 0 <= attempt && (pollMaxAttempts >= 0 ==> attempt <= pollMaxAttempts)
      invariant forall k: nat :: k < attempt ==> polls(k) == NotCompleted
      invariant FirstDecided(polls, attempt, pollMaxAttempts) == FirstDecided(polls, 0, pollMaxAttempts)
    {
      var pollResult := ReadPoll(polls(attempt));
      if pollResult.TransientError? {
        return Retryable, attempt + 1;
      }
      if pollResult.Malformed? {
        return Resolved(Error, Some(analysisId)), attempt + 1;
      }
      if pollResult.Completed? {
        var infected := pollResult.malicious > 0 || pollResult.suspicious > 0;
        return Resolved(if infected then Infected else Clean, Some(analysisId)), attempt + 1;
      }
      attempt := attempt + 1;
    }
    return Retryable, attempt;
  }

  lemma {:induction false} FirstDecidedIs(polls: nat -> PollReply, i: nat, max: int)
    ensures var d := FirstDecided(polls, i, max);
      && (d.Some? ==> i <= d.value < max && polls(d.value) != NotCompleted && forall k: nat :: i <= k < d.value ==> polls(k) == NotCompleted)
      && (d.None? <==> forall k: nat :: i <= k < max ==> polls(k) == NotCompleted)
    decreases max - i
  {
    if i < max && polls(i) == NotCompleted {
      FirstDecidedIs(polls, i + 1, max);
    }
  }

  /** Poll k is the one that decides: the first that does not say the analysis is still running. */
  ghost predicate Decides(polls: nat -> PollReply, max: int, k: nat) {
    k < max && polls(k) != NotCompleted && forall j: nat :: j < k ==> polls(j) == NotCompleted
  }

  /** What the deciding poll makes of an accepted file, read off the reply itself. */
  lemma DecidingReply(size: nat, id: string, polls: nat -> PollReply, max: int, k: nat)
    requires 0 < size <= 33554432 && id != "" && Decides(polls, max, k)
    ensures Scan(size, Accepted(Some(id)), polls, max) ==
      match polls(k)
      case Analysis(Some(malicious), Some(suspicious)) => Resolved(if malicious > 0 || suspicious > 0 then Infected else Clean, Some(id))
      case Analysis(_, _) => Resolved(Error, Some(id))
      case _ => Retryable
  {
    FirstDecidedIs(polls, 0, max);
    OnlyOneDecides(polls, max, k, FirstDecided(polls, 0, max).value);
  }

  /** A file of a size that can be scanned, and a submission that was answered with an id. */
  ghost predicate Submitted(size: nat, submit: SubmitReply) {
    0 < size <= 33554432 && submit.Accepted? && submit.analysisId.Some? && submit.analysisId.value != ""
  }

  /** The deciding reply of an accepted file. */
  ghost predicate DecidedBy(size: nat, submit: SubmitReply, polls: nat -> PollReply, max: int, holds: PollReply -> bool) {
    Submitted(size, submit) && exists k :: Decides(polls, max, k) && holds(polls(k))
  }

  /**
   * Main result, on the replies themselves. Infected: the first reply that is not "still running" is
   * a completed analysis with both counts, one of them positive. Clean: the same with neither
   * positive. Error: a count is missing there, or the size cannot be scanned. Everything else is
   * retried: no id, a failed poll, or nothing but "still running" in time.
   */
  lemma VerdictIff(size: nat, submit: SubmitReply, polls: nat -> PollReply, max: int)
    ensures var outcome := Scan(size, submit, polls, max);
      && (outcome.Resolved? && outcome.verdict == Infected
          <==> DecidedBy(size, submit, polls, max, (r: PollReply) => r.Analysis? && r.malicious.Some? && r.suspicious.Some?
                                                                     && (r.malicious.value > 0 || r.suspicious.value > 0)))
      && (outcome.Resolved? && outcome.verdict == Clean
          <==> DecidedBy(size, submit, polls, max, (r: PollReply) => r.Analysis? && r.malicious.Some? && r.suspicious.Some?
                                                                     && r.malicious.value <= 0 && r.suspicious.value <= 0))
      && (outcome.Resolved? && outcome.verdict == Error
          <==> size == 0 || size > 33554432
               || DecidedBy(size, submit, polls, max, (r: PollReply) => r.Analysis? && (r.malicious.None? || r.suspicious.None?)))
      && (outcome.Retryable?
          <==> 0 < size <= 33554432
               && (!Submitted(size, submit) || (forall k: nat :: k < max ==> polls(k) == NotCompleted)
                   || DecidedBy(size, submit, polls, max, (r: PollReply) => r.PollStatus? || r.PollNotJson? || r.PollFailed?)))
      && (outcome.Resolved? ==> outcome.providerRef == if Submitted(size, submit) then submit.analysisId else None)
  {
    FirstDecidedIs(polls, 0, max);
    var d := FirstDecided(polls, 0, max);
    if d.Some? && Submitted(size, submit) {
      DecidingReply(size, submit.analysisId.value, polls, max, d.value);
      forall holds: PollReply -> bool ensures DecidedBy(size, submit, polls, max, holds) <==> holds(polls(d.value)) {
        DecidedByOne(size, submit, polls, max, d.value, holds);
      }
    } else {
      forall holds: PollReply -> bool ensures !DecidedBy(size, submit, polls, max, holds) {
      }
    }
  }

  lemma DecidedByOne(size: nat, submit: SubmitReply, polls: nat -> PollReply, max: int, k: nat, holds: PollReply -> bool)
    requires Submitted(size, submit) && Decides(polls, max, k)
    ensures DecidedBy(size, submit, polls, max, holds) <==> holds(polls(k))
  {
    forall j | Decides(polls, max, j) ensures j == k {
      OnlyOneDecides(polls, max, j, k);
    }
  }

  lemma OnlyOneDecides(polls: nat -> PollReply, max: int, j: nat, k: nat)
    requires Decides(polls, max, j) && Decides(polls, max, k)
    ensures j == k
  {
  }

  /** What later polls would have said cannot change the outcome. */
  lemma LaterPollsAreIrrelevant(size: nat, submit: SubmitReply, polls: nat -> PollReply, other: nat -> PollReply, max: int, k: nat)
    requires Decides(polls, max, k)
    requires forall j: nat :: j <= k ==> polls(j) == other(j)
    ensures Scan(size, submit, polls, max) == Scan(size, submit, other, max)
  {
    FirstDecidedIs(polls, 0, max);
    FirstDecidedIs(other, 0, max);
    assert polls(k) == other(k) && Decides(other, max, k);
    OnlyOneDecides(polls, max, k, FirstDecided(polls, 0, max).value);
    OnlyOneDecides(other, max, k, FirstDecided(other, 0, max).value);
  }

  // ---------- The job ----------

  /** A payload field is None when it is not a string. */
  datatype Job = Job(
    jobId: string, requestedBy: Option<string>,
    fileId: Option<string>, storagePath: Option<string>, uploadedBy: Option<string>,
    originalFilename: Option<string>, mimeType: Option<string>)

  /** The API key as read, or the exception that reading it raised. */
  datatype SecretReply = Secret(value: Option<string>) | SecretRaised(message: string)

  datatype Replies = Replies(
    blobSize: Option<nat>, downloadError: Option<string>, secret: SecretReply,
    submit: SubmitReply, polls: nat -> PollReply, pollMaxAttempts: int)

  datatype Event =
    | Downloaded(path: string)
    | SecretRead
    | Scanned(filename: string, mimeType: string)
    | VerdictRecorded(fileId: string, verdict: Verdict, providerRef: Option<string>, actor: string)
    | JobCompleted(jobId: string, workerId: string)
    | JobFailed(jobId: string, actor: string, problem: Problem)

  datatype Problem = BadPayload | NoDownload(message: Option<string>) | NoSecret(secretError: string) | NoApiKey | ScanRetry

  datatype OutcomeKind = ScanResolved | Failed

  datatype Outcome = Outcome(kind: OutcomeKind, verdict: Option<Verdict>, problem: Option<Problem>)

  datatype Exception = NoActor

  predicate PayloadValid(job: Job) {
    job.fileId.Some? && job.storagePath.Some? && job.uploadedBy.Some? && job.originalFilename.Some? && job.mimeType.Some?
  }

  /** What one run does: its calls, then either one failure report or a verdict and a completion. */
  datatype Plan =
    | Abort
    | Fail(calls: seq<Event>, actor: string, problem: Problem)
    | Resolve(calls: seq<Event>, verdict: Verdict, providerRef: Option<string>)

  function PlanFor(job: Job, r: Replies): (plan: Plan)
    ensures plan.Resolve? ==> PayloadValid(job)
  {
    if Missing(job.requestedBy) then Abort
    else if !PayloadValid(job) then Fail([], job.requestedBy.value, BadPayload)
    else
      var downloaded, actor := [Downloaded(job.storagePath.value)], job.uploadedBy.value;
      if r.downloadError.Some? || r.blobSize.None? then Fail(downloaded, actor, NoDownload(r.downloadError))
      else
        var read := downloaded + [SecretRead];
        match r.secret
        case SecretRaised(message) => Fail(read, actor, NoSecret(message))
        case Secret(key) =>
          if Missing(key) then Fail(read, actor, NoApiKey)
          else
            var scanned := read + [Scanned(job.originalFilename.value, job.mimeType.value)];
            match Scan(r.blobSize.value, r.submit, r.polls, r.pollMaxAttempts)
            case Retryable => Fail(scanned, actor, ScanRetry)
            case Resolved(verdict, providerRef) => Resolve(scanned, verdict, providerRef)
  }

  function Postlude(plan: Plan, job: Job, workerId: string): seq<Event>
    requires plan.Resolve? ==> PayloadValid(job)
  {
    match plan
    case Abort => []
    case Fail(_, actor, problem) => [JobFailed(job.jobId, actor, problem)]
    case Resolve(_, verdict, providerRef) =>
      [VerdictRecorded(job.fileId.value, verdict, providerRef, job.uploadedBy.value), JobCompleted(job.jobId, workerId)]
  }

  function Events(plan: Plan, job: Job, workerId: string): seq<Event>
    requires plan.Resolve? ==> PayloadValid(job)
  {
    (if plan.Abort? then [] else plan.calls) + Postlude(plan, job, workerId)
  }

  function ResultOf(plan: Plan): Result<Outcome, Exception> {
    match plan
    case Abort => Thrown(NoActor)
    case Fail(_, _, problem) => Ok(Outcome(Failed, None, Some(problem)))
    case Resolve(_, verdict, _) => Ok(Outcome(ScanResolved, Some(verdict), None))
  }

  method FailJob(log: EventLog<Event>, job: Job, actor: string, problem: Problem) returns (result: Result<Outcome, Exception>)
    modifies log
    ensures log.events == old(log.events) + [JobFailed(job.jobId, actor, problem)]
    ensures result == Ok(Outcome(Failed, None, Some(problem)))
  {
    log.Append(JobFailed(job.jobId, actor, problem));
    return Ok(Outcome(Failed, None, Some(problem)));
  }

  method ProcessMalwareScanJob(log: EventLog<Event>, job: Job, workerId: string, r: Replies) returns (result: Result<Outcome, Exception>)
    modifies log
    ensures log.events == old(log.events) + Events(PlanFor(job, r), job, workerId)
    ensures result == ResultOf(PlanFor(job, r))
  {
    if Missing(job.requestedBy) {
      return Thrown(NoActor);
    }
    if !PayloadValid(job) {
      result := FailJob(log, job, job.requestedBy.value, BadPayload);
      return;
    }
    var actor := job.uploadedBy.value;

    log.Append(Downloaded(job.storagePath.value));
    if r.downloadError.Some? || r.blobSize.None? {
      result := FailJob(log, job, actor, NoDownload(r.downloadError));
      return;
    }

    log.Append(SecretRead);
    if r.secret.SecretRaised? {
      result := FailJob(log, job, actor, NoSecret(r.secret.message));
      return;
    }
    var apiKey := r.secret.value;
    if Missing(apiKey) {
      result := FailJob(log, job, actor, NoApiKey);
      return;
    }

    log.Append(Scanned(job.originalFilename.value, job.mimeType.value));
    var scanOutcome, _ := ScanFileWithVirusTotal(r.blobSize.value, r.submit, r.polls, r.pollMaxAttempts);
    if scanOutcome.Retryable? {
      result := FailJob(log, job, actor, ScanRetry);
      return;
    }
    log.Append(VerdictRecorded(job.fileId.value, scanOutcome.verdict, scanOutcome.providerRef, actor));
    log.Append(JobCompleted(job.jobId, workerId));
    return Ok(Outcome(ScanResolved, Some(scanOutcome.verdict), None));
  }

  /** A verdict is recorded exactly when a scan ran and resolved; it is that scan's verdict. */
  lemma RecordsExactlyWhenResolved(job: Job, r: Replies)
    ensures PlanFor(job, r).Resolve?
      <==> && job.requestedBy.Some? && job.requestedBy.value != ""
           && job.fileId.Some? && job.storagePath.Some? && job.uploadedBy.Some? && job.originalFilename.Some? && job.mimeType.Some?
           && r.downloadError.None? && r.blobSize.Some?
           && r.secret.Secret? && r.secret.value.Some? && r.secret.value.value != ""
           && Scan(r.blobSize.value, r.submit, r.polls, r.pollMaxAttempts).Resolved?
    ensures PlanFor(job, r).Resolve? ==>
      Scan(r.blobSize.value, r.submit, r.polls, r.pollMaxAttempts) == Resolved(PlanFor(job, r).verdict, PlanFor(job, r).providerRef)
  {
  }

  /** The run makes these calls, reports this failure and returns it. */
  ghost predicate FailsWith(job: Job, r: Replies, workerId: string, calls: seq<Event>, actor: string, problem: Problem) {
    && Events(PlanFor(job, r), job, workerId) == calls + [JobFailed(job.jobId, actor, problem)]
    && ResultOf(PlanFor(job, r)) == Ok(Outcome(Failed, None, Some(problem)))
  }

  /** Without a requester the run throws and does nothing; an incomplete payload is reported in the requester's name. */
  lemma EarlyEndIs(job: Job, r: Replies, workerId: string)
    ensures job.requestedBy == None || job.requestedBy == Some("") ==>
      Events(PlanFor(job, r), job, workerId) == [] && ResultOf(PlanFor(job, r)) == Thrown(NoActor)
    ensures job.requestedBy != None && job.requestedBy != Some("")
        && (job.fileId == None || job.storagePath == None || job.uploadedBy == None || job.originalFilename == None || job.mimeType == None)
      ==> FailsWith(job, r, workerId, [], job.requestedBy.value, BadPayload)
  {
  }

  /** The calls a complete payload leads to, how each can fail, and the two effects of a verdict; all in the uploader's name. */
  lemma RunIs(jobId: string, requester: string, file: string, path: string, uploader: string, name: string, mime: string, r: Replies, workerId: string)
    requires requester != ""
    ensures var job := Job(jobId, Some(requester), Some(file), Some(path), Some(uploader), Some(name), Some(mime));
      var fetched, read, scanned := [Downloaded(path)], [Downloaded(path), SecretRead], [Downloaded(path), SecretRead, Scanned(name, mime)];
      if r.downloadError != None || r.blobSize == None then FailsWith(job, r, workerId, fetched, uploader, NoDownload(r.downloadError))
      else
        match r.secret
        case SecretRaised(message) => FailsWith(job, r, workerId, read, uploader, NoSecret(message))
        case Secret(None) => FailsWith(job, r, workerId, read, uploader, NoApiKey)
        case Secret(Some(key)) =>
          if key == "" then FailsWith(job, r, workerId, read, uploader, NoApiKey)
          else
            match Scan(r.blobSize.value, r.submit, r.polls, r.pollMaxAttempts)
            case Retryable => FailsWith(job, r, workerId, scanned, uploader, ScanRetry)
            case Resolved(verdict, ref) =>
              && Events(PlanFor(job, r), job, workerId) == scanned + [VerdictRecorded(file, verdict, ref, uploader), JobCompleted(jobId, workerId)]
              && ResultOf(PlanFor(job, r)) == Ok(Outcome(ScanResolved, Some(verdict), None))
  {
  }

  // ---------- Every sequence of retries ----------

  /** verdict is None while the file is pending. */
  datatype World = World(verdict: Option<Verdict>, job: JobRow)

  function WithJob(w: World, job: Option<JobRow>): Option<World> { if job.Some? then Some(w.(job := job.value)) else None }

  /** None when the database raises: a different verdict for a resolved file, or a job not held. */
  function Apply(w: World, e: Event): Option<World> {
    match e
    case VerdictRecorded(_, verdict, _, _) =>
      if w.verdict.None? then Some(w.(verdict := Some(verdict)))
      else if w.verdict.value == verdict then Some(w)
      else None
    case JobCompleted(_, _) => WithJob(w, CompletedRow(w.job))
    case JobFailed(_, _, _) => WithJob(w, FailedRow(w.job))
    case _ => Some(w)
  }

  function Perform(w: World, events: seq<Event>): Option<World>
    decreases |events|
  {
    if events == [] then Some(w)
    else
      match Apply(w, events[0])
      case None => None
      case Some(next) => Perform(next, events[1..])
  }

  function Claim(w: World): World { w.(job := ClaimedRow(w.job)) }

  /** A run of the job: the replies it got, and how many of its events took effect. */
  datatype Step = Step(replies: Replies, done: nat)

  function Effects(step: Step, job: Job, workerId: string): seq<Event> {
    var events := Events(PlanFor(job, step.replies), job, workerId);
    if step.done < |events| then events[..step.done] else events
  }

  ghost predicate Ran(w: World, step: Step, job: Job, workerId: string, w': World) {
    && Claimable(w.job)
    && Perform(Claim(w), Effects(step, job, workerId)) == Some(w')
  }

  ghost predicate History(worlds: seq<World>, steps: seq<Step>, job: Job, workerId: string) {
    && |worlds| == |steps| + 1
    && forall i :: 0 <= i < |steps| ==> Ran(worlds[i], steps[i], job, workerId, worlds[i + 1])
  }

  /** What a run did to the file, read off its effects. */
  lemma {:induction false} PerformFollows(w: World, events: seq<Event>, w': World)
    requires Perform(w, events) == Some(w')
    ensures w.verdict.Some? ==> w'.verdict == w.verdict
    ensures forall i :: 0 <= i < |events| && events[i].VerdictRecorded? ==> w'.verdict == Some(events[i].verdict)
    ensures (forall i :: 0 <= i < |events| ==> !events[i].VerdictRecorded?) ==> w'.verdict == w.verdict
    decreases |events|
  {
    if events != [] {
      PerformFollows(Apply(w, events[0]).value, events[1..], w');
      forall i | 0 <= i < |events| && events[i].VerdictRecorded? ensures w'.verdict == Some(events[i].verdict) {
        if i > 0 { assert events[1..][i - 1] == events[i]; }
      }
      if forall i :: 0 <= i < |events| ==> !events[i].VerdictRecorded? {
        assert !events[0].VerdictRecorded?;
        assert forall i :: 0 <= i < |events[1..]| ==> events[1..][i] == events[i + 1];
      }
    }
  }

  lemma {:induction false} QuietChangesNothing(w: World, events: seq<Event>)
    requires forall e :: e in events ==> !e.VerdictRecorded? && !IsReport(e)
    ensures Perform(w, events) == Some(w)
    decreases |events|
  {
    if events != [] {
      assert events[0] in events;
      QuietChangesNothing(w, events[1..]);
    }
  }

  /** What a run with these effects leaves behind; None when the database raised. */
  ghost predicate Leaves(w: World, effects: seq<Event>, result: Option<World>) {
    var claimed, max := AttemptsWhenClaimed(w.job), w.job.maxAttempts;
    && (result == None <==> exists e :: e in effects && ((e.VerdictRecorded? && w.verdict != None && w.verdict != Some(e.verdict))
                                                         || (e.JobFailed? && claimed + 1 > max)))
    && (result.Some? ==>
          && (forall e :: e in effects && e.VerdictRecorded? ==> result.value.verdict == Some(e.verdict))
          && ((forall e :: e in effects ==> !e.VerdictRecorded?) ==> result.value.verdict == w.verdict)
          && (forall e :: e in effects && e.JobCompleted? ==> result.value.job == JobRow(JobDone, claimed, max))
          && (forall e :: e in effects && e.JobFailed? ==> result.value.job == JobRow(if claimed + 1 == max then Dead else Pending, claimed + 1, max))
          && ((forall e :: e in effects ==> !IsReport(e)) ==> result.value.job == JobRow(InProgress, claimed, max)))
  }

  lemma PerformTwo(w: World, a: Event, b: Event)
    ensures Perform(w, [a]) == Apply(w, a)
    ensures Perform(w, [a, b]) == match Apply(w, a) case None => None case Some(next) => Apply(next, b)
  {
    assert [a][1..] == [] && [a, b][1..] == [b] && [b][1..] == [];
    assert forall next :: Perform(next, [b]) == Apply(next, b);
  }

  lemma OneLeaves(w: World, e: Event)
    requires Claimable(w.job) && (e.VerdictRecorded? || IsReport(e))
    ensures Leaves(w, [e], Apply(Claim(w), e))
  {
    assert e in [e];
  }

  lemma TwoLeave(w: World, a: Event, b: Event)
    requires Claimable(w.job) && a.VerdictRecorded? && b.JobCompleted?
    ensures Leaves(w, [a, b], Perform(Claim(w), [a, b]))
  {
    PerformTwo(Claim(w), a, b);
    assert a in [a, b] && b in [a, b];
  }

  lemma QuietLeave(w: World, calls: seq<Event>, tail: seq<Event>)
    requires Leaves(w, tail, Perform(Claim(w), tail)) && forall e :: e in calls ==> !e.VerdictRecorded? && !IsReport(e)
    ensures Leaves(w, calls + tail, Perform(Claim(w), calls + tail))
  {
    QuietChangesNothing(Claim(w), calls);
    PerformAppend(Claim(w), calls, tail);
    assert forall e :: e in calls + tail <==> e in calls || e in tail;
  }

  /**
   * Main result: a claimed run gets through exactly when it records no verdict against the file's own
   * and reports no failure on a job without an attempt left, and what it then leaves behind.
   */
  lemma RunLeaves(w: World, step: Step, job: Job, workerId: string)
    requires Claimable(w.job)
    ensures Leaves(w, Effects(step, job, workerId), Perform(Claim(w), Effects(step, job, workerId)))
  {
    var plan, effects := PlanFor(job, step.replies), Effects(step, job, workerId);
    var calls, postlude := if plan.Abort? then [] else plan.calls, Postlude(plan, job, workerId);
    CallsAreQuiet(job, step.replies);
    if |effects| <= |calls| {
      assert effects == calls[..|effects|];
      QuietChangesNothing(Claim(w), effects);
    } else {
      var tail := postlude[..|effects| - |calls|];
      assert effects == calls + tail;
      PerformTwo(Claim(w), tail[0], tail[0]);
      if |tail| == 1 {
        assert tail == [tail[0]];
        OneLeaves(w, tail[0]);
      } else {
        assert tail == [tail[0], tail[1]];
        TwoLeave(w, tail[0], tail[1]);
      }
      QuietLeave(w, calls, tail);
    }
  }

  /** Over every sequence of runs, dying anywhere: a verdict, once there, never changes. */
  lemma {:induction false} VerdictIsFinal(worlds: seq<World>, steps: seq<Step>, job: Job, workerId: string, i: nat, j: nat)
    requires History(worlds, steps, job, workerId) && i <= j < |worlds| && worlds[i].verdict.Some?
    ensures worlds[j].verdict == worlds[i].verdict
    decreases j - i
  {
    if i < j {
      VerdictIsFinal(worlds, steps, job, workerId, i, j - 1);
      PerformFollows(Claim(worlds[j - 1]), Effects(steps[j - 1], job, workerId), worlds[j]);
    }
  }

  /** So the file leaves pending in at most one run, and every recorded verdict is the same one. */
  lemma FileLeavesPendingOnce(worlds: seq<World>, steps: seq<Step>, job: Job, workerId: string, i: nat, j: nat)
    requires History(worlds, steps, job, workerId) && i < |steps| && j < |steps|
    requires worlds[i].verdict.None? && worlds[i + 1].verdict.Some?
    requires worlds[j].verdict.None? && worlds[j + 1].verdict.Some?
    ensures i == j
  {
    if i < j {
      VerdictIsFinal(worlds, steps, job, workerId, i + 1, j);
    } else if j < i {
      VerdictIsFinal(worlds, steps, job, workerId, j + 1, i);
    }
  }

  lemma RecordedVerdictsAgree(worlds: seq<World>, steps: seq<Step>, job: Job, workerId: string, i: nat, j: nat, a: Event, b: Event)
    requires History(worlds, steps, job, workerId) && i <= j < |steps|
    requires a.VerdictRecorded? && b.VerdictRecorded? && a in Effects(steps[i], job, workerId) && b in Effects(steps[j], job, workerId)
    ensures a.verdict == b.verdict
  {
    PerformFollows(Claim(worlds[i]), Effects(steps[i], job, workerId), worlds[i + 1]);
    PerformFollows(Claim(worlds[j]), Effects(steps[j], job, workerId), worlds[j + 1]);
    VerdictIsFinal(worlds, steps, job, workerId, i + 1, j + 1);
  }

  lemma {:induction false} PerformKeepsStatus(w: World, events: seq<Event>, w': World)
    requires Perform(w, events) == Some(w')
    requires forall i :: 0 <= i < |events| ==> !events[i].JobCompleted? && !events[i].JobFailed?
    ensures w'.job == w.job
    decreases |events|
  {
    if events != [] {
      PerformKeepsStatus(Apply(w, events[0]).value, events[1..], w');
    }
  }

  lemma {:induction false} PerformAppend(w: World, a: seq<Event>, b: seq<Event>)
    ensures Perform(w, a + b) == match Perform(w, a) case None => None case Some(mid) => Perform(mid, b)
    decreases |a|
  {
    if a == [] {
      assert a + b == b;
    } else {
      assert (a + b)[1..] == a[1..] + b;
      if Apply(w, a[0]).Some? {
        PerformAppend(Apply(w, a[0]).value, a[1..], b);
      }
    }
  }

  lemma {:induction false} PerformAddsNoRun(w: World, events: seq<Event>, w': World)
    requires Perform(w, events) == Some(w')
    ensures RunsLeft(w'.job) <= RunsLeft(w.job)
    decreases |events|
  {
    if events != [] {
      ReportsAddNoRun(w.job);
      PerformAddsNoRun(Apply(w, events[0]).value, events[1..], w');
    }
  }

  /** Each run, returned or dead, spends one of the runs its job has left. */
  lemma {:induction false} RunsAreBounded(worlds: seq<World>, steps: seq<Step>, job: Job, workerId: string)
    requires History(worlds, steps, job, workerId)
    ensures |steps| + RunsLeft(worlds[|steps|].job) <= RunsLeft(worlds[0].job)
    decreases |steps|
  {
    if steps != [] {
      var n := |steps| - 1;
      RunsAreBounded(worlds[..n + 1], steps[..n], job, workerId);
      assert Ran(worlds[n], steps[n], job, workerId, worlds[n + 1]);
      ClaimSpendsARun(worlds[n].job);
      PerformAddsNoRun(Claim(worlds[n]), Effects(steps[n], job, workerId), worlds[n + 1]);
    }
  }

  lemma CallsAreQuiet(job: Job, r: Replies)
    ensures var plan := PlanFor(job, r);
      !plan.Abort? ==> forall i :: 0 <= i < |plan.calls| ==> plan.calls[i].Downloaded? || plan.calls[i].SecretRead? || plan.calls[i].Scanned?
  {
  }

  predicate IsReport(e: Event) { e.JobCompleted? || e.JobFailed? }

  lemma ReportIsLast(step: Step, job: Job, workerId: string, k: nat)
    requires k < |Effects(step, job, workerId)| && IsReport(Effects(step, job, workerId)[k])
    ensures Effects(step, job, workerId) == Events(PlanFor(job, step.replies), job, workerId)
    ensures k == |Effects(step, job, workerId)| - 1
  {
    var plan := PlanFor(job, step.replies);
    CallsAreQuiet(job, step.replies);
    var calls, postlude := if plan.Abort? then [] else plan.calls, Postlude(plan, job, workerId);
    assert Events(plan, job, workerId) == calls + postlude;
    assert Effects(step, job, workerId)[k] == (calls + postlude)[k];
    assert k >= |calls|;
    assert IsReport(postlude[k - |calls|]);
  }

  lemma LastReportDecides(w: World, events: seq<Event>, w': World)
    requires events != [] && IsReport(events[|events| - 1]) && Perform(w, events) == Some(w')
    ensures w'.job.status == JobDone ==> events[|events| - 1].JobCompleted?
  {
    var n := |events| - 1;
    assert events == events[..n] + [events[n]];
    PerformAppend(w, events[..n], [events[n]]);
    assert [events[n]][1..] == [];
  }

  /** A completed job means its file is resolved, with the verdict of the run that completed it. */
  lemma CompletedMeansResolved(w: World, step: Step, job: Job, workerId: string, w': World)
    requires Ran(w, step, job, workerId, w') && w'.job.status == JobDone
    ensures var plan := PlanFor(job, step.replies); plan.Resolve? && w'.verdict == Some(plan.verdict)
  {
    var w1, effects := Claim(w), Effects(step, job, workerId);
    if exists k :: 0 <= k < |effects| && IsReport(effects[k]) {
      var k :| 0 <= k < |effects| && IsReport(effects[k]);
      ReportIsLast(step, job, workerId, k);
      LastReportDecides(w1, effects, w');
      PerformFollows(w1, effects, w');
      assert PlanFor(job, step.replies).Resolve? ==> effects[k - 1].VerdictRecorded?;
    } else {
      PerformKeepsStatus(w1, effects, w');
    }
  }

  /**
   * A run that dies after recording its verdict leaves the job to a retry, and from then on only a
   * run that reaches the same verdict can complete it: any other verdict is refused.
   */
  lemma RetryMustAgree(w: World, step: Step, job: Job, workerId: string, w': World)
    requires Ran(w, step, job, workerId, w') && w.verdict.Some? && w'.job.status == JobDone
    ensures var plan := PlanFor(job, step.replies); plan.Resolve? && plan.verdict == w.verdict.value
  {
    CompletedMeansResolved(w, step, job, workerId, w');
    PerformFollows(Claim(w), Effects(step, job, workerId), w');
  }
}
