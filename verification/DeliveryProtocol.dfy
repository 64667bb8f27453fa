/**
 * The delivery protocol that the webhook and the notification processor share: what one run of a
 * claimed job may do, what the database does with it, and what holds over every sequence of
 * retries, whether a run returns or dies at any point.
 */
module DeliveryProtocol {
  import opened Wrappers
  import opened Sequences
  import opened JobEnvironment

  /** payloadId is the delivery or notification the payload names; None when it is not a string. */
  datatype Job = Job(jobId: string, tenantId: string, requestedBy: Option<string>, payloadId: Option<string>)

  /** The row a run is about. */
  function Subject(job: Job): string { if job.payloadId.None? then "" else job.payloadId.value }

  datatype Check =
    | CheckUrl(url: string)
    | Sign(endpointId: string, body: string, timestamp: int)
    | ReadCredential(connectionId: string)

  datatype Request = Request(url: string, body: string, headers: seq<(string, string)>)

  datatype Attempt = Attempt(success: bool, httpStatus: Option<int>, error: Option<string>, cost: Option<real>)

  /** One effect of a run on the outside world. */
  datatype Event =
    | Lookup(id: string)
    | Checked(check: Check)
    | Posted(request: Request)
    | AttemptRecorded(id: string, attempt: Attempt)
    | JobCompleted(jobId: string, workerId: string)
    | JobFailed(jobId: string, error: string)

  /** What a run does from start to end. */
  datatype Plan =
    | Abort
    | Unattributed(error: string)
    | NotFound(error: string)
    | Redundant
    | Try(checks: seq<Check>, post: Option<Request>, attempt: Attempt, jobError: string)

  function CheckEvents(checks: seq<Check>): (events: seq<Event>)
    ensures |events| == |checks|
    ensures forall i :: 0 <= i < |checks| ==> events[i] == Checked(checks[i])
  {
    seq(|checks|, i requires 0 <= i < |checks| => Checked(checks[i]))
  }

  function Report(plan: Plan, job: Job, workerId: string): Event
    requires plan.Try?
  {
    if plan.attempt.success then JobCompleted(job.jobId, workerId) else JobFailed(job.jobId, plan.jobError)
  }

  function Events(plan: Plan, job: Job, workerId: string): seq<Event>
  {
    match plan
    case Abort => []
    case Unattributed(error) => [JobFailed(job.jobId, error)]
    case NotFound(error) => [Lookup(Subject(job)), JobFailed(job.jobId, error)]
    case _ => [Lookup(Subject(job))] + RowEvents(plan, job, workerId)
  }

  /** The events after a lookup that found a row. */
  function RowEvents(plan: Plan, job: Job, workerId: string): seq<Event>
    requires plan.Redundant? || plan.Try?
  {
    if plan.Redundant? then [JobCompleted(job.jobId, workerId)] else TryEvents(plan, job, workerId)
  }

  function TryEvents(plan: Plan, job: Job, workerId: string): seq<Event>
    requires plan.Try?
  {
    CheckEvents(plan.checks)
    + (if plan.post.Some? then [Posted(plan.post.value)] else [])
    + [AttemptRecorded(Subject(job), plan.attempt), Report(plan, job, workerId)]
  }

  /** A try that ends before its request. */
  function Refused(error: string): Plan { Try([], None, Attempt(false, None, Some(error), None), error) }

  /** The plan after one more check. */
  function Checking(check: Check, plan: Plan): Plan
    requires plan.Try?
  {
    plan.(checks := [check] + plan.checks)
  }

  lemma CheckingEvents(base: seq<Event>, check: Check, plan: Plan, job: Job, workerId: string)
    requires plan.Try?
    ensures base + TryEvents(Checking(check, plan), job, workerId) == (base + [Checked(check)]) + TryEvents(plan, job, workerId)
  {
    var rest := TryEvents(plan, job, workerId)[|plan.checks|..];
    assert TryEvents(plan, job, workerId) == CheckEvents(plan.checks) + rest;
    assert CheckEvents(Checking(check, plan).checks) == [Checked(check)] + CheckEvents(plan.checks);
    assert TryEvents(Checking(check, plan), job, workerId) == ([Checked(check)] + CheckEvents(plan.checks)) + rest;
  }

  /** A try without checks: the request, the attempt's record and the report. */
  lemma CallEvents(base: seq<Event>, request: Request, attempt: Attempt, jobError: string, job: Job, workerId: string)
    ensures var plan := Try([], Some(request), attempt, jobError);
      base + TryEvents(plan, job, workerId)
      == base + [Posted(request)] + [AttemptRecorded(Subject(job), attempt)] + [Report(plan, job, workerId)]
  {
    assert CheckEvents([]) == [];
  }

  method RecordRefusal(log: EventLog<Event>, job: Job, error: string, ghost workerId: string)
    modifies log
    ensures log.events == old(log.events) + TryEvents(Refused(error), job, workerId)
  {
    log.Append(AttemptRecorded(Subject(job), Attempt(false, None, Some(error), None)));
    log.Append(JobFailed(job.jobId, error));
    assert CheckEvents([]) == [];
  }

  // ---------- The database ----------

  /** Closed is a delivery that will get no further attempt although it never succeeded. */
  datatype RowStatus = Open | Succeeded | Closed

  datatype Row = Row(tenantId: string, status: RowStatus, attempts: nat, maxAttempts: Option<nat>)

  datatype World = World(row: Option<Row>, job: JobRow)

  function WithJob(w: World, job: Option<JobRow>): Option<World> { if job.Some? then Some(w.(job := job.value)) else None }

  /** One event against the database; None when the database raises. */
  function Apply(w: World, e: Event): Option<World> {
    match e
    case AttemptRecorded(_, attempt) =>
      if w.row.None? || w.row.value.status != Open then None
      else
        var row := w.row.value;
        var exhausted := row.maxAttempts.Some? && row.attempts + 1 >= row.maxAttempts.value;
        var status := if attempt.success then Succeeded else if exhausted then Closed else Open;
        Some(w.(row := Some(row.(status := status, attempts := row.attempts + 1))))
    case JobCompleted(_, _) => WithJob(w, CompletedRow(w.job))
    case JobFailed(_, _) => WithJob(w, FailedRow(w.job))
    case _ => Some(w)
  }

  function Perform(w: World, events: seq<Event>): Option<World>
    decreases |events|
  {
    if events == [] then Some(w)
    else
      match Apply(w, events[0])
      case None => None
      case Some(next) => Perform(next, events[1..])
  }

  function Claim(w: World): World { w.(job := ClaimedRow(w.job)) }

  /** What a plan owes to the row its lookup returned. */
  ghost predicate Sound(plan: Plan, job: Job, row: Option<Row>) {
    match plan
    case Abort => true
    case Unattributed(_) => true
    case NotFound(_) => row.None?
    case Redundant => row.Some? && row.value.tenantId == job.tenantId && row.value.status != Open
    case Try(checks, post, attempt, _) =>
      && row.Some?
      && (row.value.tenantId == job.tenantId ==> row.value.status == Open)
      && (post.Some? ==> row.value.tenantId == job.tenantId && CheckUrl(post.value.url) in checks)
      && (attempt.success ==> post.Some?)
  }

  /** One claimed run: its plan, and how many of its events took effect before it returned or died. */
  datatype Step = Step(plan: Plan, done: nat)

  predicate Returned(step: Step, job: Job, workerId: string) {
    step.done >= |Events(step.plan, job, workerId)|
  }

  function Effects(step: Step, job: Job, workerId: string): seq<Event> {
    var events := Events(step.plan, job, workerId);
    if step.done < |events| then events[..step.done] else events
  }

  function Trace(steps: seq<Step>, job: Job, workerId: string): seq<Event> {
    if steps == [] then [] else Trace(steps[..|steps| - 1], job, workerId) + Effects(steps[|steps| - 1], job, workerId)
  }

  /** The job could be claimed in w, and the step's effects lead to w'. */
  ghost predicate Executed(w: World, step: Step, job: Job, workerId: string, w': World) {
    && Claimable(w.job)
    && Perform(Claim(w), Effects(step, job, workerId)) == Some(w')
  }

  ghost predicate Ran(w: World, step: Step, job: Job, workerId: string, w': World) {
    Sound(step.plan, job, w.row) && Executed(w, step, job, workerId, w')
  }

  /** worlds[i] is the database before run i. */
  ghost predicate History(worlds: seq<World>, steps: seq<Step>, job: Job, workerId: string) {
    && |worlds| == |steps| + 1
    && forall i :: 0 <= i < |steps| ==> Ran(worlds[i], steps[i], job, workerId, worlds[i + 1])
  }

  // ---------- Counting ----------

  predicate IsPost(e: Event) { e.Posted? }
  predicate IsRecord(e: Event) { e.AttemptRecorded? }
  predicate IsSuccess(e: Event) { e.AttemptRecorded? && e.attempt.success }
  predicate IsReport(e: Event) { e.JobCompleted? || e.JobFailed? }
  predicate IsCompletion(e: Event) { e.JobCompleted? }
  predicate IsFailure(e: Event) { e.JobFailed? }

  /** Runs that died before their last event. */
  function Died(steps: seq<Step>, job: Job, workerId: string): nat {
    if steps == [] then 0
    else Died(steps[..|steps| - 1], job, workerId) + if Returned(steps[|steps| - 1], job, workerId) then 0 else 1
  }

  ghost predicate RowInBounds(row: Option<Row>) {
    row.Some? && row.value.status == Open && row.value.maxAttempts.Some? ==> row.value.attempts < row.value.maxAttempts.value
  }

  function RowAttempts(w: World): nat { if w.row.None? then 0 else w.row.value.attempts }

  // ---------- One run ----------

  lemma {:induction false} PerformAppend(w: World, a: seq<Event>, b: seq<Event>)
    decreases |a|
    ensures Perform(w, a + b) == match Perform(w, a) case None => None case Some(mid) => Perform(mid, b)
  {
    if a == [] {
      assert a + b == b;
    } else {
      assert (a + b)[1..] == a[1..] + b;
      if Apply(w, a[0]).Some? {
        PerformAppend(Apply(w, a[0]).value, a[1..], b);
      }
    }
  }

  ghost predicate Harmless(events: seq<Event>) {
    forall i :: 0 <= i < |events| ==> events[i].Lookup? || events[i].Checked? || events[i].Posted?
  }

  lemma {:induction false} HarmlessChangesNothing(w: World, events: seq<Event>)
    requires Harmless(events)
    ensures Perform(w, events) == Some(w)
  {
    if events != [] {
      HarmlessChangesNothing(w, events[1..]);
    }
  }

  /** What a run that got through `effects` did to the row, counted on its effects. */
  ghost predicate RowFollows(w: World, effects: seq<Event>, w': World) {
    && w'.row.Some? == w.row.Some?
    && RowAttempts(w') == RowAttempts(w) + Count(effects, IsRecord)
    && (w.row.Some? ==> w'.row.value.tenantId == w.row.value.tenantId && w'.row.value.maxAttempts == w.row.value.maxAttempts)
    && (Count(effects, IsRecord) == 0 ==> w'.row == w.row)
    && (Count(effects, IsRecord) > 0 ==> w.row.Some? && w.row.value.status == Open)
    && (Count(effects, IsSuccess) > 0 ==> w'.row.Some? && w'.row.value.status == Succeeded)
    && (RowInBounds(w.row) ==> RowInBounds(w'.row))
  }

  lemma CountHarmless(events: seq<Event>)
    requires Harmless(events)
    ensures Count(events, IsRecord) == Count(events, IsSuccess) == Count(events, IsReport) == Count(events, IsCompletion) == 0
  {
    CountZero(events, IsRecord);
    CountZero(events, IsSuccess);
    CountZero(events, IsReport);
    CountZero(events, IsCompletion);
  }

  /** The part of a run before it touches the database. */
  function Prelude(plan: Plan, job: Job): seq<Event>
  {
    match plan
    case Abort => []
    case Unattributed(_) => []
    case NotFound(_) => [Lookup(Subject(job))]
    case Redundant => [Lookup(Subject(job))]
    case Try(checks, post, _, _) =>
      [Lookup(Subject(job))] + CheckEvents(checks) + (if post.Some? then [Posted(post.value)] else [])
  }

  function Postlude(plan: Plan, job: Job, workerId: string): seq<Event>
  {
    match plan
    case Abort => []
    case Unattributed(error) => [JobFailed(job.jobId, error)]
    case NotFound(error) => [JobFailed(job.jobId, error)]
    case Redundant => [JobCompleted(job.jobId, workerId)]
    case Try(_, _, attempt, _) => [AttemptRecorded(Subject(job), attempt), Report(plan, job, workerId)]
  }

  lemma PreludeAndPostlude(plan: Plan, job: Job, workerId: string)
    ensures Events(plan, job, workerId) == Prelude(plan, job) + Postlude(plan, job, workerId)
    ensures Harmless(Prelude(plan, job))
    ensures Count(Prelude(plan, job), IsPost) == if plan.Try? && plan.post.Some? then 1 else 0
  {
    var prelude := Prelude(plan, job);
    match plan
    case Abort =>
    case Unattributed(_) =>
    case NotFound(_) => CountTwo(prelude[0], prelude[0], IsPost);
    case Redundant => CountTwo(prelude[0], prelude[0], IsPost);
    case Try(checks, post, _, _) =>
      var head := [Lookup(Subject(job))] + CheckEvents(checks);
      CountZero(head, IsPost);
      if post.Some? {
        CountAppend(head, [Posted(post.value)], IsPost);
        CountTwo(Posted(post.value), Posted(post.value), IsPost);
      } else {
        assert prelude == head;
      }
  }

  /** Everything the retry theorem needs to know about one run that got through `effects`. */
  ghost predicate RunFollows(w: World, effects: seq<Event>, returned: bool, w': World) {
    && RowFollows(w, effects, w')
    && Count(effects, IsSuccess) <= Count(effects, IsRecord) <= 1
    && Count(effects, IsPost) <= Count(effects, IsRecord) + (if returned then 0 else 1)
    && (w'.job.status == JobDone <==> Count(effects, IsCompletion) > 0)
    && Count(effects, IsCompletion) <= 1
    && (w'.job.status == JobDone ==> w'.row.Some? && w'.row.value.status != Open)
  }

  lemma RunFollowsRow(w: World, step: Step, job: Job, workerId: string, w': World)
    requires Ran(w, step, job, workerId, w')
    ensures RunFollows(w, Effects(step, job, workerId), Returned(step, job, workerId), w')
  {
    PreludeAndPostlude(step.plan, job, workerId);
    if |Effects(step, job, workerId)| <= |Prelude(step.plan, job)| {
      EarlyEndFollows(w, step, job, workerId, w');
    } else {
      LateEndFollows(w, step, job, workerId, w');
    }
  }

  /** A run that reached no database call has changed nothing, and it died if it has posted. */
  lemma EarlyEndFollows(w: World, step: Step, job: Job, workerId: string, w': World)
    requires Ran(w, step, job, workerId, w')
    requires |Effects(step, job, workerId)| <= |Prelude(step.plan, job)|
    ensures RunFollows(w, Effects(step, job, workerId), Returned(step, job, workerId), w')
  {
    PreludeAndPostlude(step.plan, job, workerId);
    var prelude, effects := Prelude(step.plan, job), Effects(step, job, workerId);
    assert prelude == effects + prelude[|effects|..];
    CountHarmless(effects);
    HarmlessChangesNothing(Claim(w), effects);
    CountAppend(effects, prelude[|effects|..], IsPost);
  }

  lemma LateEndFollows(w: World, step: Step, job: Job, workerId: string, w': World)
    requires Ran(w, step, job, workerId, w')
    requires |Effects(step, job, workerId)| > |Prelude(step.plan, job)|
    ensures RunFollows(w, Effects(step, job, workerId), Returned(step, job, workerId), w')
  {
    PreludeAndPostlude(step.plan, job, workerId);
    var prelude, effects := Prelude(step.plan, job), Effects(step, job, workerId);
    var tail := Postlude(step.plan, job, workerId)[..|effects| - |prelude|];
    assert effects == prelude + tail;
    CountHarmless(prelude);
    HarmlessChangesNothing(Claim(w), prelude);
    PerformAppend(Claim(w), prelude, tail);
    CountAppend(prelude, tail, IsPost);
    CountAppend(prelude, tail, IsRecord);
    CountAppend(prelude, tail, IsSuccess);
    CountAppend(prelude, tail, IsCompletion);
    TailFollowsRow(w, step.plan, job, workerId, tail, w');
  }

  lemma PerformTwo(w: World, a: Event, b: Event)
    ensures Perform(w, [a]) == Apply(w, a)
    ensures Perform(w, [a, b]) == match Apply(w, a) case None => None case Some(next) => Apply(next, b)
  {
    assert [a][1..] == [] && [a, b][1..] == [b] && [b][1..] == [];
    assert forall next :: Perform(next, [b]) == Apply(next, b);
  }

  /** One recorded attempt, or one report, against the row. */
  lemma ApplyFollowsRow(w: World, e: Event, w': World)
    requires IsRecord(e) || IsReport(e)
    requires Apply(w, e) == Some(w')
    ensures RowFollows(w, [e], w')
    ensures IsRecord(e) ==> w'.job == w.job
    ensures IsReport(e) ==> w'.row == w.row && (w'.job.status == JobDone <==> IsCompletion(e))
  {
    CountTwo(e, e, IsRecord);
    CountTwo(e, e, IsSuccess);
  }

  lemma TailFollowsRow(w: World, plan: Plan, job: Job, workerId: string, tail: seq<Event>, w': World)
    requires Sound(plan, job, w.row)
    requires 0 < |tail| <= |Postlude(plan, job, workerId)| && tail == Postlude(plan, job, workerId)[..|tail|]
    requires Perform(Claim(w), tail) == Some(w')
    ensures RowFollows(w, tail, w')
    ensures Count(tail, IsSuccess) <= Count(tail, IsRecord) <= 1 && Count(tail, IsPost) == 0
    ensures plan.Try? ==> Count(tail, IsRecord) == 1
    ensures w'.job.status == JobDone <==> Count(tail, IsCompletion) > 0
    ensures Count(tail, IsCompletion) <= 1
    ensures w'.job.status == JobDone ==> w'.row.Some? && w'.row.value.status != Open
  {
    var first := tail[0];
    var last := tail[|tail| - 1];
    PerformTwo(Claim(w), first, last);
    CountTwo(first, last, IsPost);
    CountTwo(first, last, IsRecord);
    CountTwo(first, last, IsSuccess);
    CountTwo(first, last, IsCompletion);
    if |tail| == 1 {
      assert tail == [first];
      ApplyFollowsRow(Claim(w), first, w');
    } else {
      assert tail == [first, last];
      var next := Apply(Claim(w), first).value;
      ApplyFollowsRow(Claim(w), first, next);
      ApplyFollowsRow(next, last, w');
    }
  }

  // ---------- What a run leaves behind ----------

  /** The job after a run with these effects: done, failed once more, or still in progress. */
  ghost predicate JobAfter(row: JobRow, effects: seq<Event>, row': JobRow) {
    var claimed := AttemptsWhenClaimed(row);
    && row'.maxAttempts == row.maxAttempts
    && row'.attempts == claimed + Count(effects, IsFailure)
    && (row'.status == JobDone <==> Count(effects, IsCompletion) > 0)
    && (row'.status == Dead <==> Count(effects, IsFailure) > 0 && claimed + 1 == row.maxAttempts)
    && (row'.status == Pending <==> Count(effects, IsFailure) > 0 && claimed + 1 < row.maxAttempts)
  }

  /** The delivery after such a run: one attempt more if one was recorded, and closed once it may have no further one. */
  ghost predicate RowAfter(row: Option<Row>, effects: seq<Event>, row': Option<Row>) {
    if Count(effects, IsRecord) == 0 then row' == row
    else
      && row.Some? && row'.Some? && row'.value.tenantId == row.value.tenantId && row'.value.maxAttempts == row.value.maxAttempts
      && row'.value.attempts == row.value.attempts + 1
      && (row'.value.status == Succeeded <==> Count(effects, IsSuccess) > 0)
      && (row'.value.status == Open <==> Count(effects, IsSuccess) == 0 && forall max :: row.value.maxAttempts == Some(max) ==> row.value.attempts + 1 < max)
  }

  /** A database call of the run raises. */
  ghost predicate Raises(w: World, effects: seq<Event>) {
    || (Count(effects, IsRecord) > 0 && !(w.row.Some? && w.row.value.status == Open))
    || (Count(effects, IsFailure) > 0 && AttemptsWhenClaimed(w.job) + 1 > w.job.maxAttempts)
  }

  ghost predicate Leaves(w: World, effects: seq<Event>, result: Option<World>) {
    && (result == None <==> Raises(w, effects))
    && (result.Some? ==> JobAfter(w.job, effects, result.value.job) && RowAfter(w.row, effects, result.value.row))
  }

  lemma NothingCounted(events: seq<Event>)
    requires Harmless(events)
    ensures Count(events, IsRecord) == Count(events, IsSuccess) == Count(events, IsCompletion) == Count(events, IsFailure) == 0
  {
    CountHarmless(events);
    CountZero(events, IsFailure);
  }

  /**
   * Main result: a claimed run gets through exactly when it records no attempt on a delivery that is
   * not open and reports no failure on a job without an attempt left, and what it then leaves behind.
   */
  lemma RunLeaves(w: World, step: Step, job: Job, workerId: string)
    requires Claimable(w.job) && Sound(step.plan, job, w.row)
    ensures var effects := Effects(step, job, workerId); Leaves(w, effects, Perform(Claim(w), effects))
  {
    PreludeAndPostlude(step.plan, job, workerId);
    var prelude, effects := Prelude(step.plan, job), Effects(step, job, workerId);
    if |effects| <= |prelude| {
      assert prelude == effects + prelude[|effects|..];
      HarmlessLeaves(w, effects);
    } else {
      var tail := Postlude(step.plan, job, workerId)[..|effects| - |prelude|];
      assert effects == prelude + tail;
      TailLeaves(w, step.plan, job, workerId, tail);
      PreludeLeaves(w, prelude, tail);
    }
  }

  lemma HarmlessLeaves(w: World, effects: seq<Event>)
    requires Harmless(effects)
    ensures Leaves(w, effects, Perform(Claim(w), effects))
  {
    NothingCounted(effects);
    HarmlessChangesNothing(Claim(w), effects);
  }

  lemma PreludeLeaves(w: World, prelude: seq<Event>, tail: seq<Event>)
    requires Harmless(prelude) && Leaves(w, tail, Perform(Claim(w), tail))
    ensures Leaves(w, prelude + tail, Perform(Claim(w), prelude + tail))
  {
    NothingCounted(prelude);
    HarmlessChangesNothing(Claim(w), prelude);
    PerformAppend(Claim(w), prelude, tail);
    CountAppend(prelude, tail, IsRecord);
    CountAppend(prelude, tail, IsSuccess);
    CountAppend(prelude, tail, IsCompletion);
    CountAppend(prelude, tail, IsFailure);
    SameCountsLeave(w, tail, prelude + tail, Perform(Claim(w), tail));
  }

  lemma SameCountsLeave(w: World, a: seq<Event>, b: seq<Event>, result: Option<World>)
    requires Leaves(w, a, result)
    requires Count(a, IsRecord) == Count(b, IsRecord) && Count(a, IsSuccess) == Count(b, IsSuccess)
    requires Count(a, IsCompletion) == Count(b, IsCompletion) && Count(a, IsFailure) == Count(b, IsFailure)
    ensures Leaves(w, b, result)
  {
  }

  lemma TailLeaves(w: World, plan: Plan, job: Job, workerId: string, tail: seq<Event>)
    requires Claimable(w.job) && Sound(plan, job, w.row)
    requires 0 < |tail| <= |Postlude(plan, job, workerId)| && tail == Postlude(plan, job, workerId)[..|tail|]
    ensures Leaves(w, tail, Perform(Claim(w), tail))
  {
    var first := tail[0];
    var last := tail[|tail| - 1];
    PerformTwo(Claim(w), first, last);
    CountTwo(first, last, IsRecord);
    CountTwo(first, last, IsSuccess);
    CountTwo(first, last, IsCompletion);
    CountTwo(first, last, IsFailure);
    assert tail == if |tail| == 1 then [first] else [first, last];
  }

  /** Runs that took the job over from one that died. */
  ghost function Takeovers(worlds: seq<World>, n: nat): nat
    requires n <= |worlds|
  {
    if n == 0 then 0 else Takeovers(worlds, n - 1) + if worlds[n - 1].job.status == InProgress then 1 else 0
  }

  /** What one run adds to the job's attempts. */
  lemma AttemptsAfterRun(w: World, step: Step, job: Job, workerId: string, w': World)
    requires Ran(w, step, job, workerId, w')
    ensures w'.job.maxAttempts == w.job.maxAttempts
    ensures w'.job.attempts == w.job.attempts + (if w.job.status == InProgress then 1 else 0) + Count(Effects(step, job, workerId), IsFailure)
  {
    RunLeaves(w, step, job, workerId);
  }

  lemma FailuresOfTrace(steps: seq<Step>, job: Job, workerId: string, n: nat)
    requires 0 < n <= |steps|
    ensures Count(Trace(steps[..n], job, workerId), IsFailure)
         == Count(Trace(steps[..n - 1], job, workerId), IsFailure) + Count(Effects(steps[n - 1], job, workerId), IsFailure)
  {
    assert steps[..n][..n - 1] == steps[..n - 1];
    CountAppend(Trace(steps[..n - 1], job, workerId), Effects(steps[n - 1], job, workerId), IsFailure);
  }

  lemma AttemptsStep(worlds: seq<World>, steps: seq<Step>, job: Job, workerId: string, n: nat)
    requires History(worlds, steps, job, workerId) && 0 < n <= |steps|
    ensures worlds[n].job.maxAttempts == worlds[n - 1].job.maxAttempts
    ensures worlds[n].job.attempts + Count(Trace(steps[..n - 1], job, workerId), IsFailure)
         == worlds[n - 1].job.attempts + (if worlds[n - 1].job.status == InProgress then 1 else 0) + Count(Trace(steps[..n], job, workerId), IsFailure)
  {
    assert Ran(worlds[n - 1], steps[n - 1], job, workerId, worlds[n]);
    AttemptsAfterRun(worlds[n - 1], steps[n - 1], job, workerId, worlds[n]);
    FailuresOfTrace(steps, job, workerId, n);
  }

  /** Over every history the job's attempts are the failures reported and the runs taken over. */
  lemma {:induction false} AttemptsAreAccounted(worlds: seq<World>, steps: seq<Step>, job: Job, workerId: string, n: nat)
    requires History(worlds, steps, job, workerId) && n <= |steps|
    ensures worlds[n].job.maxAttempts == worlds[0].job.maxAttempts
    ensures worlds[n].job.attempts == worlds[0].job.attempts + Count(Trace(steps[..n], job, workerId), IsFailure) + Takeovers(worlds, n)
  {
    if n > 0 {
      AttemptsAreAccounted(worlds, steps, job, workerId, n - 1);
      AttemptsStep(worlds, steps, job, workerId, n);
    }
  }

  // ---------- Every sequence of retries ----------

  /** No attempt and no POST once a success is on record. */
  ghost predicate QuietAfterSuccess(trace: seq<Event>) {
    forall i, j :: 0 <= i < j < |trace| && IsSuccess(trace[i]) ==> !IsPost(trace[j]) && !IsRecord(trace[j])
  }

  ghost predicate Invariant(first: World, last: World, steps: seq<Step>, job: Job, workerId: string) {
    var trace := Trace(steps, job, workerId);
    && RowAttempts(last) == RowAttempts(first) + Count(trace, IsRecord)
    && (first.row.Some? == last.row.Some?)
    && (first.row.Some? ==> last.row.value.tenantId == first.row.value.tenantId && last.row.value.maxAttempts == first.row.value.maxAttempts)
    && Count(trace, IsSuccess) <= 1
    && (Count(trace, IsSuccess) == 1 ==> last.row.Some? && last.row.value.status == Succeeded && last.row.value.tenantId == job.tenantId)
    && Count(trace, IsPost) <= Count(trace, IsRecord) + Died(steps, job, workerId)
    && QuietAfterSuccess(trace)
    && (RowInBounds(first.row) ==> RowInBounds(last.row))
    && (first.row.Some? && first.row.value.status != Open ==> last.row == first.row && Count(trace, IsRecord) == 0)
    && (RowInBounds(first.row) && first.row.Some? && first.row.value.status == Open && first.row.value.maxAttempts.Some?
        ==> RowAttempts(last) <= first.row.value.maxAttempts.value)
    && (Count(trace, IsCompletion) > 0 ==> last.job.status == JobDone && last.row.Some? && last.row.value.status != Open)
    && Count(trace, IsCompletion) <= 1
  }

  /**
   * Main result. Over every sequence of runs of one job, each returning or dying anywhere:
   * the row counts exactly the recorded attempts; at most one success is ever recorded and nothing
   * is posted or recorded after it; every POST beyond the recorded attempts belongs to a run that
   * died; and a completed job leaves a delivery that is no longer open.
   */
  lemma {:induction false} RetriesAreSafe(worlds: seq<World>, steps: seq<Step>, job: Job, workerId: string)
    requires History(worlds, steps, job, workerId)
    ensures Invariant(worlds[0], worlds[|steps|], steps, job, workerId)
    decreases |steps|
  {
    if steps != [] {
      var n := |steps| - 1;
      var before, effects := Trace(steps[..n], job, workerId), Effects(steps[n], job, workerId);
      RetriesAreSafe(worlds[..n + 1], steps[..n], job, workerId);
      RunFollowsRow(worlds[n], steps[n], job, workerId, worlds[n + 1]);
      SuccessNeedsOwnTenant(worlds[n], steps[n], job, workerId, worlds[n + 1]);
      CountAppend(before, effects, IsRecord);
      CountAppend(before, effects, IsSuccess);
      CountAppend(before, effects, IsPost);
      CountAppend(before, effects, IsCompletion);
      SuccessSilences(worlds[n], steps[n], job, workerId, worlds[n + 1], before);
    }
  }

  /** Only a try posts and records; it records once, right after its calls, and then only reports. */
  lemma EffectAt(step: Step, job: Job, workerId: string, i: nat)
    requires i < |Effects(step, job, workerId)|
    ensures var e, n := Effects(step, job, workerId)[i], |Prelude(step.plan, job)|;
      && (IsPost(e) ==> step.plan.Try? && i < n)
      && (IsRecord(e) ==> step.plan.Try? && i == n && (IsSuccess(e) ==> step.plan.attempt.success))
  {
    PreludeAndPostlude(step.plan, job, workerId);
    assert Effects(step, job, workerId)[i] == Events(step.plan, job, workerId)[i];
    if i < |Prelude(step.plan, job)| {
      assert Effects(step, job, workerId)[i] == Prelude(step.plan, job)[i];
    }
  }

  lemma SuccessNeedsOwnTenant(w: World, step: Step, job: Job, workerId: string, w': World)
    requires Ran(w, step, job, workerId, w')
    ensures Count(Effects(step, job, workerId), IsSuccess) > 0 ==> w.row.Some? && w.row.value.tenantId == job.tenantId
  {
    var effects := Effects(step, job, workerId);
    CountZero(effects, IsSuccess);
    if Count(effects, IsSuccess) > 0 {
      var i :| 0 <= i < |effects| && IsSuccess(effects[i]);
      EffectAt(step, job, workerId, i);
    }
  }

  lemma SuccessSilences(w: World, step: Step, job: Job, workerId: string, w': World, before: seq<Event>)
    requires Ran(w, step, job, workerId, w')
    requires QuietAfterSuccess(before) && Count(before, IsSuccess) <= 1
    requires Count(before, IsSuccess) == 1 ==> w.row.Some? && w.row.value.status == Succeeded && w.row.value.tenantId == job.tenantId
    ensures QuietAfterSuccess(before + Effects(step, job, workerId))
  {
    var effects := Effects(step, job, workerId);
    var trace := before + effects;
    CountZero(before, IsSuccess);
    forall i, j | 0 <= i < j < |trace| && IsSuccess(trace[i]) ensures !IsPost(trace[j]) && !IsRecord(trace[j]) {
      if j >= |before| {
        assert trace[j] == effects[j - |before|];
        EffectAt(step, job, workerId, j - |before|);
        if i < |before| {
          assert before[i] == trace[i];
          assert !step.plan.Try?;
        } else {
          assert trace[i] == effects[i - |before|];
          EffectAt(step, job, workerId, i - |before|);
        }
      }
    }
  }

  // ---------- Retries end ----------

  lemma {:induction false} PerformAddsNoRun(w: World, events: seq<Event>, w': World)
    requires Perform(w, events) == Some(w')
    ensures RunsLeft(w'.job) <= RunsLeft(w.job)
    decreases |events|
  {
    if events != [] {
      ReportsAddNoRun(w.job);
      PerformAddsNoRun(Apply(w, events[0]).value, events[1..], w');
    }
  }

  /**
   * Main result: over every history each run, returned or dead, spends one of the runs its job has
   * left; from a pending job there are at most one more than the attempts left.
   */
  lemma {:induction false} RunsAreBounded(worlds: seq<World>, steps: seq<Step>, job: Job, workerId: string)
    requires History(worlds, steps, job, workerId)
    ensures |steps| + RunsLeft(worlds[|steps|].job) <= RunsLeft(worlds[0].job)
    decreases |steps|
  {
    if steps != [] {
      var n := |steps| - 1;
      RunsAreBounded(worlds[..n + 1], steps[..n], job, workerId);
      assert Ran(worlds[n], steps[n], job, workerId, worlds[n + 1]);
      ClaimSpendsARun(worlds[n].job);
      PerformAddsNoRun(Claim(worlds[n]), Effects(steps[n], job, workerId), worlds[n + 1]);
    }
  }

  lemma PerformThree(w: World, a: Event, b: Event, c: Event)
    ensures Perform(w, [a]) == Apply(w, a)
    ensures Perform(w, [a, b]) == match Apply(w, a) case None => None case Some(next) => Apply(next, b)
    ensures Perform(w, [a, b, c]) == match Perform(w, [a, b]) case None => None case Some(next) => Apply(next, c)
  {
    PerformTwo(w, a, b);
    PerformAppend(w, [a, b], [c]);
    assert [a, b] + [c] == [a, b, c];
    if Perform(w, [a, b]).Some? {
      PerformTwo(Perform(w, [a, b]).value, c, c);
    }
  }

  /** What a refusal does to an open row, once its second event took effect. */
  lemma RefusalFollows(w: World, step: Step, error: string, job: Job, workerId: string, w': World)
    requires step.plan == Refused(error) && Executed(w, step, job, workerId, w') && w.row.Some?
    ensures Count(Effects(step, job, workerId), IsPost) == 0
    ensures step.done < 2 ==> w'.row == w.row
    ensures step.done >= 2 ==>
      && w.row.value.status == Open && w'.row.Some? && w'.row.value.attempts == w.row.value.attempts + 1
      && w'.row.value.status == if w.row.value.maxAttempts.Some? && w.row.value.attempts + 1 >= w.row.value.maxAttempts.value then Closed else Open
  {
    var lookup, record, report := Lookup(Subject(job)), AttemptRecorded(Subject(job), step.plan.attempt), JobFailed(job.jobId, error);
    var effects := Effects(step, job, workerId);
    assert Events(step.plan, job, workerId) == [lookup, record, report] by {
      assert CheckEvents([]) == [];
    }
    CountZero(effects, IsPost);
    assert effects == if step.done == 0 then [] else if step.done == 1 then [lookup] else if step.done == 2 then [lookup, record] else [lookup, record, report];
    PerformThree(Claim(w), lookup, record, report);
  }

  lemma OnePostPerPlan(plan: Plan, job: Job, workerId: string)
    ensures Count(Events(plan, job, workerId), IsPost) <= 1
  {
    var postlude := Postlude(plan, job, workerId);
    PreludeAndPostlude(plan, job, workerId);
    CountAppend(Prelude(plan, job), postlude, IsPost);
    CountZero(postlude, IsPost);
  }

  lemma OnePostPerRun(step: Step, job: Job, workerId: string)
    ensures Count(Effects(step, job, workerId), IsPost) <= 1
  {
    OnePostPerPlan(step.plan, job, workerId);
    CountOfPrefix(Events(step.plan, job, workerId), |Effects(step, job, workerId)|, IsPost);
  }

  lemma {:induction false} PostsAtMostRuns(steps: seq<Step>, job: Job, workerId: string)
    ensures Count(Trace(steps, job, workerId), IsPost) <= |steps|
  {
    if steps != [] {
      var n := |steps| - 1;
      PostsAtMostRuns(steps[..n], job, workerId);
      OnePostPerRun(steps[n], job, workerId);
      CountAppend(Trace(steps[..n], job, workerId), Effects(steps[n], job, workerId), IsPost);
    }
  }

  /**
   * The runs the job has left bound every POST; so do the attempts left in the row, up to one more
   * per run that died.
   */
  lemma PostsAreBounded(worlds: seq<World>, steps: seq<Step>, job: Job, workerId: string)
    requires History(worlds, steps, job, workerId)
    ensures Count(Trace(steps, job, workerId), IsPost) <= |steps| <= RunsLeft(worlds[0].job)
    ensures worlds[0].row.Some? && worlds[0].row.value.maxAttempts.Some? && RowInBounds(worlds[0].row) ==>
      var row := worlds[0].row.value;
      Count(Trace(steps, job, workerId), IsPost)
        <= (if row.status == Open then row.maxAttempts.value - row.attempts else 0) + Died(steps, job, workerId)
  {
    RunsAreBounded(worlds, steps, job, workerId);
    PostsAtMostRuns(steps, job, workerId);
    RetriesAreSafe(worlds, steps, job, workerId);
  }

  // ---------- Runs that all die ----------

  /** n runs that die before their first event. */
  function CrashLoop(n: nat): seq<Step> { seq(n, _ => Step(Abort, 0)) }

  /** The job after n such runs. */
  function Crashed(row: JobRow, n: nat): JobRow {
    if n == 0 then row else JobRow(InProgress, if row.status == InProgress then row.attempts + n else row.attempts + n - 1, row.maxAttempts)
  }

  /**
   * The bound is met: a pending job can be run exactly as often as it has runs left, if every run
   * dies. It is then in progress with all attempts spent, can never be claimed again, and is not
   * dead although counting lost leases was to make it so.
   */
  lemma CrashLoopSticks(w: World, job: Job, workerId: string) returns (worlds: seq<World>)
    requires w.job.status == Pending && WithinAttempts(w.job)
    ensures var n := RunsLeft(w.job);
      && |worlds| == n + 1 && worlds[0] == w && History(worlds, CrashLoop(n), job, workerId)
      && worlds[n].job == JobRow(InProgress, w.job.maxAttempts, w.job.maxAttempts) && !Claimable(worlds[n].job)
  {
    var n := RunsLeft(w.job);
    worlds := seq(n + 1, i requires 0 <= i <= n => w.(job := Crashed(w.job, i)));
    forall i | 0 <= i < n ensures Ran(worlds[i], CrashLoop(n)[i], job, workerId, worlds[i + 1]) {
      assert Claim(worlds[i]) == worlds[i + 1];
    }
  }

  lemma {:induction false} PerformKeepsAlive(w: World, events: seq<Event>, w': World)
    requires Perform(w, events) == Some(w') && w.job.status != Dead
    requires forall e :: e in events ==> !e.JobFailed?
    ensures w'.job.status != Dead
    decreases |events|
  {
    if events != [] {
      assert events[0] in events;
      PerformKeepsAlive(Apply(w, events[0]).value, events[1..], w');
    }
  }

  /** A job becomes dead only by a failure report. */
  lemma {:induction false} DeadNeedsReport(worlds: seq<World>, steps: seq<Step>, job: Job, workerId: string)
    requires History(worlds, steps, job, workerId) && worlds[0].job.status != Dead
    requires forall e :: e in Trace(steps, job, workerId) ==> !e.JobFailed?
    ensures worlds[|steps|].job.status != Dead
    decreases |steps|
  {
    if steps != [] {
      var n := |steps| - 1;
      var before, effects := Trace(steps[..n], job, workerId), Effects(steps[n], job, workerId);
      assert forall e :: e in before + effects <==> e in before || e in effects;
      DeadNeedsReport(worlds[..n + 1], steps[..n], job, workerId);
      PerformKeepsAlive(Claim(worlds[n]), effects, worlds[n + 1]);
    }
  }

  // ---------- One run's reports ----------

  /**
   * A run that returns reports its job exactly once, as its last act. If it found its delivery it
   * has recorded exactly one attempt just before, and that attempt succeeded exactly when the job
   * is completed; only a redundant run completes without an attempt. A POST needs an attempt.
   */
  lemma ReturnedRunReportsOnce(plan: Plan, job: Job, workerId: string)
    requires !plan.Abort?
    ensures var events := Events(plan, job, workerId);
      && events != [] && IsReport(events[|events| - 1]) && Count(events, IsReport) == 1
      && Count(events, IsRecord) == (if plan.Try? then 1 else 0)
      && (plan.Try? ==> |events| >= 2 && IsRecord(events[|events| - 2]) && (IsSuccess(events[|events| - 2]) <==> IsCompletion(events[|events| - 1])))
      && Count(events, IsCompletion) == (if plan.Redundant? || (plan.Try? && plan.attempt.success) then 1 else 0)
      && Count(events, IsPost) == (if plan.Try? && plan.post.Some? then 1 else 0)
    ensures var events := Events(plan, job, workerId);
      match plan
      case Try(_, _, attempt, jobError) =>
        && events[|events| - 1] == (if attempt.success then JobCompleted(job.jobId, workerId) else JobFailed(job.jobId, jobError))
        && forall id: string :: job.payloadId == Some(id) ==> events[0] == Lookup(id) && events[|events| - 2] == AttemptRecorded(id, attempt)
      case Redundant => events[|events| - 1] == JobCompleted(job.jobId, workerId)
      case Unattributed(error) => events[|events| - 1] == JobFailed(job.jobId, error)
      case NotFound(error) => events[|events| - 1] == JobFailed(job.jobId, error)
      case Abort => true
  {
    var prelude, postlude := Prelude(plan, job), Postlude(plan, job, workerId);
    PreludeAndPostlude(plan, job, workerId);
    CountHarmless(prelude);
    var last := postlude[|postlude| - 1];
    assert postlude == if plan.Try? then [postlude[0], last] else [last];
    CountAppend(prelude, postlude, IsReport);
    CountAppend(prelude, postlude, IsRecord);
    CountAppend(prelude, postlude, IsCompletion);
    CountAppend(prelude, postlude, IsPost);
    CountTwo(postlude[0], last, IsReport);
    CountTwo(postlude[0], last, IsRecord);
    CountTwo(postlude[0], last, IsCompletion);
    CountTwo(postlude[0], last, IsPost);
  }
}
