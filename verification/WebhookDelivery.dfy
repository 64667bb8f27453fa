/**
 * lib/webhooks/process-webhook-delivery-job.server.ts: one dispatch attempt for one claimed
 * webhook job. Every reply of the database, the URL check and the endpoint is arbitrary.
 */
module WebhookDelivery {
  import opened Wrappers
  import opened Text
  import opened Sequences
  import opened JobEnvironment
  import opened DeliveryProtocol

  datatype DispatchInfo = DispatchInfo(
    tenantId: string,
    status: RowStatus,
    endpointDisabled: bool,
    endpointUrl: string,
    endpointId: string,
    eventTypeCode: string,
    payloadText: string)

  datatype Replies = Replies(info: Option<DispatchInfo>, safety: Safety, timestamp: int, signature: string, response: FetchReply)

  datatype OutcomeKind = Delivered | AlreadyTerminal | Failed

  datatype Outcome = Outcome(kind: OutcomeKind, httpStatusCode: Option<int>, errorMessage: Option<string>)

  const NO_ACTOR := "no requested_by_auth_user_id"
  const MISSING_ID := "webhook_retry job payload is missing delivery_id"
  const ENDPOINT_DISABLED := "endpoint is disabled and will not receive live traffic"

  function ResponseError(response: FetchReply): Option<string> {
    match response
    case Responded(status) => if 200 <= status < 300 then None else Some("endpoint responded with HTTP " + Integer(status))
    case TimedOut => Some("request timed out after 10000ms")
    case TransportError(message) => Some(if message.Some? then message.value else "unknown fetch error")
  }

  function HttpStatus(response: FetchReply): Option<int> {
    if response.Responded? then Some(response.status) else None
  }

  function NotFoundError(id: string): string { "webhook_delivery " + id + " not found" }

  function ForeignError(id: string, info: DispatchInfo, job: Job): string {
    "webhook_delivery " + id + " belongs to tenant " + info.tenantId + ", not the enqueuing job's tenant " + job.tenantId
  }

  function UnsafeError(safety: Safety): string {
    "refusing to dispatch: " + if safety.reason.Some? then safety.reason.value else "endpoint URL failed the delivery-time safety check"
  }

  function RequestFor(id: string, info: DispatchInfo, r: Replies): Request {
    Request(info.endpointUrl, info.payloadText,
            [("content-type", "application/json"), ("x-cargogrid-webhook-timestamp", Integer(r.timestamp)),
             ("x-cargogrid-webhook-signature", r.signature), ("x-cargogrid-webhook-event", info.eventTypeCode),
             ("x-cargogrid-webhook-delivery-id", id)])
  }

  /** The live call, once every check has passed. */
  function Send(job: Job, info: DispatchInfo, r: Replies): Plan {
    var error := ResponseError(r.response);
    Try([], Some(RequestFor(Subject(job), info, r)), Attempt(Accepted(r.response), HttpStatus(r.response), error, None),
        if error.Some? then error.value else "")
  }

  function PlanForOpen(job: Job, info: DispatchInfo, r: Replies): (plan: Plan)
    ensures plan.Try?
  {
    if info.endpointDisabled then Refused(ENDPOINT_DISABLED)
    else Checking(CheckUrl(info.endpointUrl),
                  if !r.safety.safe then Refused(UnsafeError(r.safety))
                  else Checking(Sign(info.endpointId, info.payloadText, r.timestamp), Send(job, info, r)))
  }

  function PlanForRow(job: Job, info: DispatchInfo, r: Replies): (plan: Plan)
    ensures plan.Redundant? || plan.Try?
  {
    if info.tenantId != job.tenantId then Refused(ForeignError(Subject(job), info, job))
    else if info.status != Open then Redundant
    else PlanForOpen(job, info, r)
  }

  function PlanForNamed(job: Job, r: Replies): (plan: Plan)
    ensures plan.NotFound? || plan.Redundant? || plan.Try?
  {
    if r.info.None? then NotFound(NotFoundError(Subject(job))) else PlanForRow(job, r.info.value, r)
  }

  /** The first failing test decides; only when none fails is there a POST. */
  function PlanFor(job: Job, r: Replies): Plan {
    if Missing(job.requestedBy) then Abort
    else if Missing(job.payloadId) then Unattributed(MISSING_ID)
    else PlanForNamed(job, r)
  }

  function OutcomeOf(plan: Plan): Result<Outcome, string> {
    match plan
    case Abort => Thrown(NO_ACTOR)
    case Unattributed(_) => Ok(Outcome(Failed, None, Some("missing delivery_id in job payload")))
    case NotFound(_) => Ok(Outcome(Failed, None, Some("delivery not found")))
    case Redundant => Ok(Outcome(AlreadyTerminal, None, None))
    case Try(_, _, attempt, _) => Ok(Outcome(if attempt.success then Delivered else Failed, attempt.httpStatus, attempt.error))
  }

  method ProcessWebhookDeliveryJob(log: EventLog<Event>, job: Job, workerId: string, r: Replies) returns (result: Result<Outcome, string>)
    modifies log
    ensures log.events == old(log.events) + Events(PlanFor(job, r), job, workerId)
    ensures result == OutcomeOf(PlanFor(job, r))
  {
    if Missing(job.requestedBy) {
      return Thrown(NO_ACTOR);
    }
    if Missing(job.payloadId) {
      log.Append(JobFailed(job.jobId, MISSING_ID));
      return Ok(Outcome(Failed, None, Some("missing delivery_id in job payload")));
    }
    result := ProcessNamed(log, job, workerId, r);
  }

  /** The rest of the run, once the payload is known to name a row. */
  method ProcessNamed(log: EventLog<Event>, job: Job, workerId: string, r: Replies) returns (result: Result<Outcome, string>)
    modifies log
    ensures log.events == old(log.events) + Events(PlanForNamed(job, r), job, workerId)
    ensures result == OutcomeOf(PlanForNamed(job, r))
  {
    log.Append(Lookup(Subject(job)));
    if r.info.None? {
      log.Append(JobFailed(job.jobId, NotFoundError(Subject(job))));
      return Ok(Outcome(Failed, None, Some("delivery not found")));
    }
    result := ProcessRow(log, job, workerId, r.info.value, r);
    AppendAssociates(old(log.events), [Lookup(Subject(job))], RowEvents(PlanForRow(job, r.info.value, r), job, workerId));
  }

  /** The rest of the run, once the lookup has found a delivery. */
  method ProcessRow(log: EventLog<Event>, job: Job, workerId: string, info: DispatchInfo, r: Replies) returns (result: Result<Outcome, string>)
    modifies log
    ensures log.events == old(log.events) + RowEvents(PlanForRow(job, info, r), job, workerId)
    ensures result == OutcomeOf(PlanForRow(job, info, r))
  {
    if info.tenantId != job.tenantId {
      var error := ForeignError(Subject(job), info, job);
      RecordRefusal(log, job, error, workerId);
      return Ok(Outcome(Failed, None, Some(error)));
    }

    if info.status != Open {
      log.Append(JobCompleted(job.jobId, workerId));
      return Ok(Outcome(AlreadyTerminal, None, None));
    }
    result := ProcessOpen(log, job, workerId, info, r);
  }

  /** The rest of the run, once the delivery is known to be the job's own and open. */
  method ProcessOpen(log: EventLog<Event>, job: Job, workerId: string, info: DispatchInfo, r: Replies) returns (result: Result<Outcome, string>)
    modifies log
    ensures log.events == old(log.events) + TryEvents(PlanForOpen(job, info, r), job, workerId)
    ensures result == OutcomeOf(PlanForOpen(job, info, r))
  {
    if info.endpointDisabled {
      RecordRefusal(log, job, ENDPOINT_DISABLED, workerId);
      return Ok(Outcome(Failed, None, Some(ENDPOINT_DISABLED)));
    }

    var check := CheckUrl(info.endpointUrl);
    log.Append(Checked(check));
    if !r.safety.safe {
      var error := UnsafeError(r.safety);
      RecordRefusal(log, job, error, workerId);
      CheckingEvents(old(log.events), check, Refused(error), job, workerId);
      return Ok(Outcome(Failed, None, Some(error)));
    }

    var sign := Sign(info.endpointId, info.payloadText, r.timestamp);
    log.Append(Checked(sign));
    result := Dispatch(log, job, workerId, info, r);
    CheckingEvents(old(log.events), check, Checking(sign, Send(job, info, r)), job, workerId);
    CheckingEvents(old(log.events) + [Checked(check)], sign, Send(job, info, r), job, workerId);
  }

  /** The live call and its reports. */
  method Dispatch(log: EventLog<Event>, job: Job, workerId: string, info: DispatchInfo, r: Replies) returns (result: Result<Outcome, string>)
    modifies log
    ensures log.events == old(log.events) + TryEvents(Send(job, info, r), job, workerId)
    ensures result == OutcomeOf(Send(job, info, r))
  {
    var deliveryId := Subject(job);
    var request := RequestFor(deliveryId, info, r);

    var httpStatusCode: Option<int> := None;
    var errorMessage: Option<string> := None;
    var success := false;
    log.Append(Posted(request));
    match r.response {
      case Responded(status) =>
        httpStatusCode := Some(status);
        success := status >= 200 && status < 300;
        if !success {
          errorMessage := Some("endpoint responded with HTTP " + Integer(status));
        }
      case TimedOut =>
        errorMessage := Some("request timed out after 10000ms");
      case TransportError(message) =>
        errorMessage := Some(if message.Some? then message.value else "unknown fetch error");
    }

    assert success == Accepted(r.response) && httpStatusCode == HttpStatus(r.response) && errorMessage == ResponseError(r.response);
    var attempt := Attempt(success, httpStatusCode, errorMessage, None);
    log.Append(AttemptRecorded(deliveryId, attempt));
    if success {
      log.Append(JobCompleted(job.jobId, workerId));
      result := Ok(Outcome(Delivered, httpStatusCode, None));
    } else {
      log.Append(JobFailed(job.jobId, errorMessage.value));
      result := Ok(Outcome(Failed, httpStatusCode, errorMessage));
    }
    CallEvents(old(log.events), request, attempt, if success then "" else errorMessage.value, job, workerId);
  }

  /** The lookup reports the delivery's row as the database has it. */
  ghost predicate Reflects(r: Replies, row: Option<Row>) {
    if row.None? then r.info.None?
    else r.info.Some? && r.info.value.tenantId == row.value.tenantId && r.info.value.status == row.value.status
  }

  lemma PlanIsSound(job: Job, r: Replies, row: Option<Row>)
    requires Reflects(r, row)
    ensures Sound(PlanFor(job, r), job, row)
  {
  }

  /** Whatever else the environment replies: retries of one webhook job keep the protocol's invariant. */
  lemma WebhookRetriesAreSafe(worlds: seq<World>, steps: seq<Step>, replies: seq<Replies>, job: Job, workerId: string)
    requires |worlds| == |steps| + 1 && |replies| == |steps|
    requires forall i :: 0 <= i < |steps| ==>
      && steps[i].plan == PlanFor(job, replies[i]) && Reflects(replies[i], worlds[i].row)
      && Executed(worlds[i], steps[i], job, workerId, worlds[i + 1])
    ensures Invariant(worlds[0], worlds[|steps|], steps, job, workerId)
  {
    forall i | 0 <= i < |steps| ensures Ran(worlds[i], steps[i], job, workerId, worlds[i + 1]) {
      PlanIsSound(job, replies[i], worlds[i].row);
    }
    RetriesAreSafe(worlds, steps, job, workerId);
  }

  /**
   * A POST happens exactly when the payload names a delivery of the job's own tenant that is still
   * open, its endpoint is enabled and its URL was found safe; it goes to that URL, which was
   * checked before, with the payload and the signature of that payload.
   */
  lemma PostsExactlyWhen(job: Job, r: Replies)
    ensures var plan := PlanFor(job, r);
      (plan.Try? && plan.post.Some?)
      <==> && !Missing(job.requestedBy) && !Missing(job.payloadId)
           && r.info.Some? && r.info.value.tenantId == job.tenantId && r.info.value.status == Open
           && !r.info.value.endpointDisabled && r.safety.safe
    ensures var plan := PlanFor(job, r);
      plan.Try? && plan.post.Some? ==>
        && var request, info := plan.post.value, r.info.value;
        && request.url == info.endpointUrl && request.body == info.payloadText
        && request.headers == [("content-type", "application/json"), ("x-cargogrid-webhook-timestamp", Integer(r.timestamp)),
                               ("x-cargogrid-webhook-signature", r.signature), ("x-cargogrid-webhook-event", info.eventTypeCode),
                               ("x-cargogrid-webhook-delivery-id", job.payloadId.value)]
        && plan.checks == [CheckUrl(request.url), Sign(info.endpointId, request.body, r.timestamp)]
  {
  }

  /** What a run hands back: its exception, or its kind with the status and the text that it recorded. */
  lemma ResultIs(job: Job, r: Replies)
    ensures var result, plan := OutcomeOf(PlanFor(job, r)), PlanFor(job, r);
      && (plan == Abort ==> result == Thrown("no requested_by_auth_user_id"))
      && (plan.Unattributed? ==> result == Ok(Outcome(Failed, None, Some("missing delivery_id in job payload"))))
      && (plan.NotFound? ==> result == Ok(Outcome(Failed, None, Some("delivery not found"))))
      && (plan.Redundant? ==> result == Ok(Outcome(AlreadyTerminal, None, None)))
      && (plan.Try? && plan.attempt.success ==> result == Ok(Outcome(Delivered, plan.attempt.httpStatus, None)))
      && (plan.Try? && !plan.attempt.success ==> result == Ok(Outcome(Failed, plan.attempt.httpStatus, Some(plan.jobError))))
  {
  }

  /** The three reports of one run agree: outcome, attempt and job. */
  lemma OutcomeMatchesReports(job: Job, r: Replies, workerId: string)
    requires OutcomeOf(PlanFor(job, r)).Ok?
    ensures var plan := PlanFor(job, r); var events := Events(plan, job, workerId);
      var outcome := OutcomeOf(PlanFor(job, r)).value;
      && events != []
      && (outcome.kind == Delivered <==> plan.Try? && plan.attempt.success)
      && (outcome.kind == AlreadyTerminal <==> plan.Redundant?)
      && (outcome.kind == Failed <==> events[|events| - 1].JobFailed?)
      && (outcome.kind == Delivered <==> plan.Try? && plan.post.Some? && Accepted(r.response))
      && (outcome.kind == Failed <==> outcome.errorMessage.Some?)
  {
    ReturnedRunReportsOnce(PlanFor(job, r), job, workerId);
  }

  /** The plan records one failed attempt with that text after those checks, and fails the job with it. */
  ghost predicate FailsWith(plan: Plan, checks: seq<Check>, text: string) {
    plan == Try(checks, None, Attempt(false, None, Some(text), None), text)
  }

  /** The first test that fails, in the delivery's own fields. */
  lemma EarlyEndIs(job: Job, r: Replies)
    ensures job.requestedBy.None? || job.requestedBy.value == "" <==> PlanFor(job, r) == Abort
    ensures !Missing(job.requestedBy) && (job.payloadId.None? || job.payloadId.value == "") ==>
      PlanFor(job, r) == Unattributed("webhook_retry job payload is missing delivery_id")
    ensures !Missing(job.requestedBy) && !Missing(job.payloadId) && r.info.None? ==>
      PlanFor(job, r) == NotFound("webhook_delivery " + job.payloadId.value + " not found")
    ensures !Missing(job.requestedBy) && !Missing(job.payloadId) && r.info.Some? && r.info.value.tenantId != job.tenantId ==>
      FailsWith(PlanFor(job, r), [], "webhook_delivery " + job.payloadId.value + " belongs to tenant " + r.info.value.tenantId
                                     + ", not the enqueuing job's tenant " + job.tenantId)
    ensures (!Missing(job.requestedBy) && !Missing(job.payloadId) && r.info.Some?) ==>
      (r.info.value.tenantId == job.tenantId && r.info.value.status != Open <==> PlanFor(job, r) == Redundant)
  {
  }

  lemma LateEndIs(job: Job, r: Replies)
    requires !Missing(job.requestedBy) && !Missing(job.payloadId)
    requires r.info.Some? && r.info.value.tenantId == job.tenantId && r.info.value.status == Open
    ensures r.info.value.endpointDisabled ==> FailsWith(PlanFor(job, r), [], "endpoint is disabled and will not receive live traffic")
    ensures !r.info.value.endpointDisabled && !r.safety.safe ==>
      FailsWith(PlanFor(job, r), [CheckUrl(r.info.value.endpointUrl)],
                "refusing to dispatch: " + if r.safety.reason.Some? then r.safety.reason.value else "endpoint URL failed the delivery-time safety check")
  {
  }

  /** What a POST is reported with: the status when there is one, a success exactly for 2xx, and the text of the failure. */
  lemma AttemptIs(job: Job, r: Replies)
    requires PlanFor(job, r).Try? && PlanFor(job, r).post.Some?
    ensures var attempt, text := PlanFor(job, r).attempt, PlanFor(job, r).jobError;
      && (attempt.success <==> r.response.Responded? && 200 <= r.response.status <= 299)
      && attempt.httpStatus == (if r.response.Responded? then Some(r.response.status) else None)
      && attempt.error == (if attempt.success then None else Some(text)) && attempt.cost == None
      && match r.response
         case TimedOut => text == "request timed out after 10000ms"
         case TransportError(message) => text == if message.Some? then message.value else "unknown fetch error"
         case Responded(status) => text == if 200 <= status <= 299 then "" else "endpoint responded with HTTP " + Integer(status)
  {
  }

  // ---------- Another tenant's delivery ----------

  /** The payload names a delivery of another tenant. */
  ghost predicate NamesForeign(job: Job, w: World) { w.row.Some? && w.row.value.tenantId != job.tenantId }

  lemma UnattributedKeepsRow(w: World, step: Step, job: Job, workerId: string, w': World)
    requires step.plan.Abort? || step.plan.Unattributed?
    requires Executed(w, step, job, workerId, w')
    ensures w'.row == w.row && Count(Effects(step, job, workerId), IsPost) == 0
  {
    var effects := Effects(step, job, workerId);
    if effects != [] {
      assert effects == [JobFailed(job.jobId, step.plan.error)];
      PerformTwo(Claim(w), effects[0], effects[0]);
    }
    CountZero(effects, IsPost);
  }

  /**
   * The source promises to fail closed before any dispatch or write when the tenants differ. No
   * such run posts, but it writes: the other tenant's row changes exactly when actor and id are
   * there, the row is open and the run got past its first two events. It then has one more attempt
   * on record, and is closed if that was its last.
   */
  lemma ForeignRowChangesIff(w: World, step: Step, r: Replies, job: Job, workerId: string, w': World)
    requires step.plan == PlanFor(job, r) && Reflects(r, w.row) && Executed(w, step, job, workerId, w') && NamesForeign(job, w)
    ensures Count(Effects(step, job, workerId), IsPost) == 0
    ensures w'.row != w.row
       <==> !Missing(job.requestedBy) && !Missing(job.payloadId) && w.row.value.status == Open && step.done >= 2
    ensures w'.row != w.row ==>
      && w'.row.Some? && w'.row.value.attempts == w.row.value.attempts + 1
      && w'.row.value.status == if w.row.value.maxAttempts.Some? && w.row.value.attempts + 1 >= w.row.value.maxAttempts.value then Closed else Open
  {
    if Missing(job.requestedBy) || Missing(job.payloadId) {
      UnattributedKeepsRow(w, step, job, workerId, w');
    } else {
      RefusalFollows(w, step, ForeignError(Subject(job), r.info.value, job), job, workerId, w');
    }
  }

  /** Such a run exists: it closes another tenant's open delivery that has one attempt left. */
  lemma ForeignRowIsClosed(w: World, r: Replies, job: Job, workerId: string) returns (w': World)
    requires w.job.status == Pending && w.job.attempts < w.job.maxAttempts
    requires !Missing(job.requestedBy) && !Missing(job.payloadId) && Reflects(r, w.row) && NamesForeign(job, w)
    requires w.row.value.status == Open && w.row.value.maxAttempts == Some(w.row.value.attempts + 1)
    ensures Executed(w, Step(PlanFor(job, r), 3), job, workerId, w') && w'.row.Some? && w'.row.value.status == Closed
  {
    var plan := PlanFor(job, r);
    var error := ForeignError(Subject(job), r.info.value, job);
    var lookup, record, report := Lookup(Subject(job)), AttemptRecorded(Subject(job), plan.attempt), JobFailed(job.jobId, error);
    assert Events(plan, job, workerId) == [lookup, record, report] by {
      assert CheckEvents([]) == [];
    }
    PerformThree(Claim(w), lookup, record, report);
    w' := Perform(Claim(w), [lookup, record, report]).value;
  }
}
