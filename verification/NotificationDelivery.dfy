/**
 * lib/notifications/process-notification-delivery-job.server.ts: one dispatch attempt for one
 * claimed notification job, over e-mail, WhatsApp or SMS. Sent is the row status Succeeded, skipped
 * is Closed, queued and failed are Open.
 */
module NotificationDelivery {
  import opened Wrappers
  import opened Text
  import opened Sequences
  import opened JobEnvironment
  import opened DeliveryProtocol

  datatype DispatchInfo = DispatchInfo(
    tenantId: string,
    status: RowStatus,
    channel: string,
    recipientEmail: Option<string>,
    recipientContactAddress: Option<string>,
    connectionId: Option<string>,
    connectionStatus: string,
    apiUrl: Option<string>,
    subject: string,
    body: string)

  /** json renders an object's fields, in order. */
  datatype Replies = Replies(
    info: Option<DispatchInfo>,
    safety: Safety,
    credential: Option<string>,
    json: seq<(string, string)> -> string,
    response: FetchReply)

  datatype OutcomeKind = Delivered | AlreadyTerminal | Failed

  datatype Outcome = Outcome(kind: OutcomeKind, errorMessage: Option<string>)

  const NO_ACTOR := "no requested_by_auth_user_id"
  const MISSING_ID := "notification_batch job payload is missing notification_id"

  function NotFoundError(id: string): string { "notification " + id + " not found" }

  function ForeignError(id: string, info: DispatchInfo, job: Job): string {
    "notification " + id + " belongs to tenant " + info.tenantId + ", not the enqueuing job's tenant " + job.tenantId
  }

  function Recipient(info: DispatchInfo): Option<string> {
    if info.channel == "email" then info.recipientEmail else info.recipientContactAddress
  }

  function NoRecipientError(info: DispatchInfo): string {
    "no " + (if info.channel == "email" then "email address" else "contact address") + " on file for this recipient"
  }

  function NoConnectionError(info: DispatchInfo): string { "no active " + info.channel + " provider connection configured for this tenant" }

  function NoUrlError(info: DispatchInfo): string { info.channel + " provider connection has no apiUrl configured" }

  function NoCredentialError(info: DispatchInfo): string { info.channel + " provider connection has no stored credential" }

  function UnsafeError(safety: Safety): string {
    "refusing to dispatch: " + if safety.reason.Some? then safety.reason.value else "provider apiUrl failed the delivery-time safety check"
  }

  function WrongChannelError(info: DispatchInfo, job: Job): string {
    "notification_batch job " + job.jobId + " has effectiveChannel=" + info.channel + " -- in_app never reaches this worker"
  }

  predicate KnownChannel(channel: string) { channel == "email" || channel == "whatsapp" || channel == "sms" }

  function ProviderName(channel: string): string {
    if channel == "email" then "email" else if channel == "whatsapp" then "WhatsApp" else "SMS"
  }

  function Fields(info: DispatchInfo, to: string): seq<(string, string)> {
    if info.channel == "email" then [("to", to), ("subject", info.subject), ("body", info.body)]
    else if info.channel == "whatsapp" then [("to", to), ("message", info.body), ("type", "text")]
    else [("to", to), ("text", info.body)]
  }

  function ProviderHeaders(credential: string): seq<(string, string)> {
    [("content-type", "application/json"), ("authorization", "Bearer " + credential)]
  }

  /** Math.round((0.005 + n * 0.00001) * 10000) / 10000, on exact reals. */
  function PlaceholderCost(n: nat): real {
    ((0.005 + n as real * 0.00001) * 10000.0 + 0.5).Floor as real / 10000.0
  }

  function SendError(channel: string, response: FetchReply): Option<string> {
    match response
    case Responded(status) => if 200 <= status < 300 then None else Some(ProviderName(channel) + " provider responded with HTTP " + Integer(status))
    case TimedOut => Some("request timed out after 10000ms")
    case TransportError(message) => Some(if message.Some? then message.value else "unknown fetch error")
  }

  /** The live call, once every test has passed. */
  function Send(info: DispatchInfo, r: Replies): Plan
    requires !Missing(info.apiUrl) && !Missing(r.credential) && !Missing(Recipient(info))
  {
    var body := r.json(Fields(info, Recipient(info).value));
    var error := SendError(info.channel, r.response);
    Try(
      [],
      Some(Request(info.apiUrl.value, body, ProviderHeaders(r.credential.value))),
      Attempt(Accepted(r.response), None, error, if Accepted(r.response) then Some(PlaceholderCost(|body|)) else None),
      if error.Some? then error.value else "")
  }

  function PlanForCredential(job: Job, info: DispatchInfo, r: Replies): (plan: Plan)
    requires !Missing(info.apiUrl) && !Missing(Recipient(info))
    ensures plan.Try?
  {
    if Missing(r.credential) then Refused(NoCredentialError(info))
    else if !KnownChannel(info.channel) then Refused(WrongChannelError(info, job))
    else Send(info, r)
  }

  function PlanForProvider(job: Job, info: DispatchInfo, r: Replies): (plan: Plan)
    requires !Missing(info.apiUrl) && !Missing(Recipient(info)) && !Missing(info.connectionId)
    ensures plan.Try?
  {
    Checking(CheckUrl(info.apiUrl.value),
             if !r.safety.safe then Refused(UnsafeError(r.safety))
             else Checking(ReadCredential(info.connectionId.value), PlanForCredential(job, info, r)))
  }

  function PlanForOwn(job: Job, info: DispatchInfo, r: Replies): (plan: Plan)
    ensures plan.Try?
  {
    if Missing(Recipient(info)) then Refused(NoRecipientError(info))
    else if Missing(info.connectionId) || info.connectionStatus != "active" then Refused(NoConnectionError(info))
    else if Missing(info.apiUrl) then Refused(NoUrlError(info))
    else PlanForProvider(job, info, r)
  }

  function PlanForRow(job: Job, info: DispatchInfo, r: Replies): (plan: Plan)
    ensures plan.Redundant? || plan.Try?
  {
    if info.tenantId != job.tenantId then Refused(ForeignError(Subject(job), info, job))
    else if info.status != Open then Redundant
    else PlanForOwn(job, info, r)
  }

  function PlanForNamed(job: Job, r: Replies): (plan: Plan)
    ensures plan.NotFound? || plan.Redundant? || plan.Try?
  {
    if r.info.None? then NotFound(NotFoundError(Subject(job))) else PlanForRow(job, r.info.value, r)
  }

  function PlanFor(job: Job, r: Replies): Plan {
    if Missing(job.requestedBy) then Abort
    else if Missing(job.payloadId) then Unattributed(MISSING_ID)
    else PlanForNamed(job, r)
  }

  function OutcomeOf(plan: Plan): Result<Outcome, string> {
    match plan
    case Abort => Thrown(NO_ACTOR)
    case Unattributed(_) => Ok(Outcome(Failed, Some("missing notification_id in job payload")))
    case NotFound(_) => Ok(Outcome(Failed, Some("notification not found")))
    case Redundant => Ok(Outcome(AlreadyTerminal, None))
    case Try(_, _, attempt, _) => Ok(Outcome(if attempt.success then Delivered else Failed, attempt.error))
  }

  method Fail(log: EventLog<Event>, job: Job, error: string, ghost workerId: string) returns (result: Result<Outcome, string>)
    modifies log
    ensures log.events == old(log.events) + TryEvents(Refused(error), job, workerId)
    ensures result == OutcomeOf(Refused(error))
  {
    RecordRefusal(log, job, error, workerId);
    return Ok(Outcome(Failed, Some(error)));
  }

  method ProcessNotificationDeliveryJob(log: EventLog<Event>, job: Job, workerId: string, r: Replies) returns (result: Result<Outcome, string>)
    modifies log
    ensures log.events == old(log.events) + Events(PlanFor(job, r), job, workerId)
    ensures result == OutcomeOf(PlanFor(job, r))
  {
    if Missing(job.requestedBy) {
      return Thrown(NO_ACTOR);
    }
    if Missing(job.payloadId) {
      log.Append(JobFailed(job.jobId, MISSING_ID));
      return Ok(Outcome(Failed, Some("missing notification_id in job payload")));
    }

    result := ProcessNamed(log, job, workerId, r);
  }

  /** The rest of the run, once the payload is known to name a row. */
  method ProcessNamed(log: EventLog<Event>, job: Job, workerId: string, r: Replies) returns (result: Result<Outcome, string>)
    modifies log
    ensures log.events == old(log.events) + Events(PlanForNamed(job, r), job, workerId)
    ensures result == OutcomeOf(PlanForNamed(job, r))
  {
    log.Append(Lookup(Subject(job)));
    if r.info.None? {
      log.Append(JobFailed(job.jobId, NotFoundError(Subject(job))));
      return Ok(Outcome(Failed, Some("notification not found")));
    }
    result := ProcessRow(log, job, workerId, r.info.value, r);
    AppendAssociates(old(log.events), [Lookup(Subject(job))], RowEvents(PlanForRow(job, r.info.value, r), job, workerId));
  }

  /** The rest of the run, once the lookup has found a notification. */
  method ProcessRow(log: EventLog<Event>, job: Job, workerId: string, info: DispatchInfo, r: Replies) returns (result: Result<Outcome, string>)
    modifies log
    ensures log.events == old(log.events) + RowEvents(PlanForRow(job, info, r), job, workerId)
    ensures result == OutcomeOf(PlanForRow(job, info, r))
  {
    if info.tenantId != job.tenantId {
      result := Fail(log, job, ForeignError(Subject(job), info, job), workerId);
      return;
    }

    if info.status != Open {
      log.Append(JobCompleted(job.jobId, workerId));
      return Ok(Outcome(AlreadyTerminal, None));
    }
    result := ProcessOwn(log, job, workerId, info, r);
  }

  /** The rest of the run, once the notification is known to be the job's own and open. */
  method ProcessOwn(log: EventLog<Event>, job: Job, workerId: string, info: DispatchInfo, r: Replies) returns (result: Result<Outcome, string>)
    modifies log
    ensures log.events == old(log.events) + TryEvents(PlanForOwn(job, info, r), job, workerId)
    ensures result == OutcomeOf(PlanForOwn(job, info, r))
  {
    var recipientAddress := Recipient(info);
    if Missing(recipientAddress) {
      result := Fail(log, job, NoRecipientError(info), workerId);
      return;
    }
    if Missing(info.connectionId) || info.connectionStatus != "active" {
      result := Fail(log, job, NoConnectionError(info), workerId);
      return;
    }
    if Missing(info.apiUrl) {
      result := Fail(log, job, NoUrlError(info), workerId);
      return;
    }
    result := CheckAndTransmit(log, job, workerId, info, r);
  }

  /** The rest of the run, once the provider's connection is known. */
  method CheckAndTransmit(log: EventLog<Event>, job: Job, workerId: string, info: DispatchInfo, r: Replies) returns (result: Result<Outcome, string>)
    requires !Missing(info.apiUrl) && !Missing(Recipient(info)) && !Missing(info.connectionId)
    modifies log
    ensures log.events == old(log.events) + TryEvents(PlanForProvider(job, info, r), job, workerId)
    ensures result == OutcomeOf(PlanForProvider(job, info, r))
  {
    var check := CheckUrl(info.apiUrl.value);
    log.Append(Checked(check));
    if !r.safety.safe {
      result := Fail(log, job, UnsafeError(r.safety), workerId);
      CheckingEvents(old(log.events), check, Refused(UnsafeError(r.safety)), job, workerId);
      return;
    }

    var read := ReadCredential(info.connectionId.value);
    log.Append(Checked(read));
    result := TransmitAs(log, job, workerId, info, r);
    CheckingEvents(old(log.events), check, Checking(read, PlanForCredential(job, info, r)), job, workerId);
    CheckingEvents(old(log.events) + [Checked(check)], read, PlanForCredential(job, info, r), job, workerId);
  }

  /** The rest of the run, once the credential has been read. */
  method TransmitAs(log: EventLog<Event>, job: Job, workerId: string, info: DispatchInfo, r: Replies) returns (result: Result<Outcome, string>)
    requires !Missing(info.apiUrl) && !Missing(Recipient(info))
    modifies log
    ensures log.events == old(log.events) + TryEvents(PlanForCredential(job, info, r), job, workerId)
    ensures result == OutcomeOf(PlanForCredential(job, info, r))
  {
    if Missing(r.credential) {
      result := Fail(log, job, NoCredentialError(info), workerId);
      return;
    }

    // The exception for an unknown channel is raised and caught inside the same try block.
    if !KnownChannel(info.channel) {
      result := Fail(log, job, WrongChannelError(info, job), workerId);
      return;
    }
    result := Transmit(log, job, workerId, info, r);
  }

  /** The live call and its reports. */
  method Transmit(log: EventLog<Event>, job: Job, workerId: string, info: DispatchInfo, r: Replies) returns (result: Result<Outcome, string>)
    requires !Missing(info.apiUrl) && !Missing(r.credential) && !Missing(Recipient(info))
    modifies log
    ensures log.events == old(log.events) + TryEvents(Send(info, r), job, workerId)
    ensures result == OutcomeOf(Send(info, r))
  {
    var body := r.json(Fields(info, Recipient(info).value));
    var request := Request(info.apiUrl.value, body, ProviderHeaders(r.credential.value));
    log.Append(Posted(request));

    var errorMessage: Option<string> := None;
    if r.response.TimedOut? {
      errorMessage := Some("request timed out after 10000ms");
    } else if r.response.TransportError? {
      errorMessage := Some(if r.response.message.Some? then r.response.message.value else "unknown fetch error");
    } else if !(200 <= r.response.status < 300) {
      errorMessage := Some(ProviderName(info.channel) + " provider responded with HTTP " + Integer(r.response.status));
    }
    assert errorMessage == SendError(info.channel, r.response) && (errorMessage.None? <==> Accepted(r.response));
    if errorMessage.None? {
      var attempt := Attempt(true, None, None, Some(PlaceholderCost(|body|)));
      log.Append(AttemptRecorded(Subject(job), attempt));
      log.Append(JobCompleted(job.jobId, workerId));
      CallEvents(old(log.events), request, attempt, "", job, workerId);
      return Ok(Outcome(Delivered, None));
    }
    var attempt := Attempt(false, None, errorMessage, None);
    log.Append(AttemptRecorded(Subject(job), attempt));
    log.Append(JobFailed(job.jobId, errorMessage.value));
    CallEvents(old(log.events), request, attempt, errorMessage.value, job, workerId);
    return Ok(Outcome(Failed, errorMessage));
  }

  /** The lookup reports the notification's row as the database has it. */
  ghost predicate Reflects(r: Replies, row: Option<Row>) {
    if row.None? then r.info.None?
    else r.info.Some? && r.info.value.tenantId == row.value.tenantId && r.info.value.status == row.value.status
  }

  lemma PlanIsSound(job: Job, r: Replies, row: Option<Row>)
    requires Reflects(r, row)
    ensures Sound(PlanFor(job, r), job, row)
  {
  }

  /** Whatever else the environment replies: retries of one notification job keep the protocol's invariant. */
  lemma NotificationRetriesAreSafe(worlds: seq<World>, steps: seq<Step>, replies: seq<Replies>, job: Job, workerId: string)
    requires |worlds| == |steps| + 1 && |replies| == |steps|
    requires forall i :: 0 <= i < |steps| ==>
      && steps[i].plan == PlanFor(job, replies[i]) && Reflects(replies[i], worlds[i].row)
      && Executed(worlds[i], steps[i], job, workerId, worlds[i + 1])
    ensures Invariant(worlds[0], worlds[|steps|], steps, job, workerId)
  {
    forall i | 0 <= i < |steps| ensures Ran(worlds[i], steps[i], job, workerId, worlds[i + 1]) {
      PlanIsSound(job, replies[i], worlds[i].row);
    }
    RetriesAreSafe(worlds, steps, job, workerId);
  }

  /** The tests up to the provider's address, as the notification's own fields have it. */
  ghost predicate Addressed(job: Job, r: Replies) {
    && !Missing(job.requestedBy) && !Missing(job.payloadId) && r.info.Some?
    && var info := r.info.value;
       && info.tenantId == job.tenantId && info.status == Open
       && (info.channel == "email" ==> info.recipientEmail.Some? && info.recipientEmail.value != "")
       && (info.channel != "email" ==> info.recipientContactAddress.Some? && info.recipientContactAddress.value != "")
       && info.connectionId.Some? && info.connectionId.value != "" && info.connectionStatus == "active"
       && info.apiUrl.Some? && info.apiUrl.value != ""
  }

  /**
   * A message leaves exactly when every test passed, on a channel that has a provider: to the
   * provider's checked address and with the tenant's own credential.
   */
  lemma SendsExactlyWhen(job: Job, r: Replies)
    ensures var plan := PlanFor(job, r);
      (plan.Try? && plan.post.Some?)
      <==> && Addressed(job, r) && r.info.value.channel in {"email", "whatsapp", "sms"}
           && r.safety.safe && r.credential.Some? && r.credential.value != ""
    ensures var plan := PlanFor(job, r);
      plan.Try? && plan.post.Some? ==>
        && plan.checks == [CheckUrl(r.info.value.apiUrl.value), ReadCredential(r.info.value.connectionId.value)]
        && plan.post.value.url == r.info.value.apiUrl.value
        && plan.post.value.headers == [("content-type", "application/json"), ("authorization", "Bearer " + r.credential.value)]
  {
  }

  /** An e-mail goes to the recipient's e-mail address, with the subject; the others go to the contact address. */
  lemma MessageIs(job: Job, r: Replies)
    requires PlanFor(job, r).Try? && PlanFor(job, r).post.Some?
    ensures var info, body := r.info.value, PlanFor(job, r).post.value.body;
      && (info.channel == "email" ==>
            info.recipientEmail.Some? && body == r.json([("to", info.recipientEmail.value), ("subject", info.subject), ("body", info.body)]))
      && (info.channel == "whatsapp" ==>
            info.recipientContactAddress.Some? && body == r.json([("to", info.recipientContactAddress.value), ("message", info.body), ("type", "text")]))
      && (info.channel == "sms" ==>
            info.recipientContactAddress.Some? && body == r.json([("to", info.recipientContactAddress.value), ("text", info.body)]))
  {
  }

  /** The attempt recorded after a request: a success exactly for a 2xx status, billed by the length of the body. */
  lemma AttemptIs(job: Job, r: Replies)
    requires PlanFor(job, r).Try? && PlanFor(job, r).post.Some?
    ensures var attempt, length := PlanFor(job, r).attempt, |PlanFor(job, r).post.value.body|;
      && (attempt.success <==> r.response.Responded? && 200 <= r.response.status <= 299)
      && (attempt.success ==> attempt.error == None && attempt.cost.Some? && IsRoundedCost(attempt.cost.value, length))
      && (!attempt.success ==> attempt.cost == None && attempt.error == Some(PlanFor(job, r).jobError))
      && attempt.httpStatus == None
  {
    var length := |PlanFor(job, r).post.value.body|;
    CostIsRounded(length);
  }

  /** cost is 0.005 + 0.00001 per character, to the nearest 0.0001, halves upwards. */
  ghost predicate IsRoundedCost(cost: real, length: nat) {
    var units := (cost * 10000.0).Floor as real;
    cost * 10000.0 == units && -0.5 < units - (50.0 + length as real / 10.0) <= 0.5
  }

  lemma CostIsRounded(length: nat)
    ensures IsRoundedCost(PlaceholderCost(length), length)
  {
    var exact := (0.005 + length as real * 0.00001) * 10000.0;
    var units := (exact + 0.5).Floor;
    assert exact == 50.0 + length as real / 10.0;
    assert PlaceholderCost(length) * 10000.0 == units as real;
  }

  /** The plan records one failed attempt with that text after those checks, and fails the job with it. */
  ghost predicate FailsWith(plan: Plan, checks: seq<Check>, text: string) {
    plan == Try(checks, None, Attempt(false, None, Some(text), None), text)
  }

  /** The actor and the id are there and the lookup finds the job's own open notification. */
  ghost predicate OwnOpen(job: Job, r: Replies) {
    && !Missing(job.requestedBy) && job.payloadId.Some? && job.payloadId.value != ""
    && r.info.Some? && r.info.value.tenantId == job.tenantId && r.info.value.status == Open
  }

  /** Before the row is known to be its own and open, a run refuses, or leaves without a report, or completes. */
  lemma EarlyEndIs(job: Job, r: Replies)
    ensures job.requestedBy.None? || job.requestedBy.value == "" <==> PlanFor(job, r) == Abort
    ensures !Missing(job.requestedBy) && (job.payloadId.None? || job.payloadId.value == "") ==>
      PlanFor(job, r) == Unattributed("notification_batch job payload is missing notification_id")
    ensures !Missing(job.requestedBy) && !Missing(job.payloadId) && r.info.None? ==>
      PlanFor(job, r) == NotFound("notification " + job.payloadId.value + " not found")
    ensures !Missing(job.requestedBy) && !Missing(job.payloadId) && r.info.Some? && r.info.value.tenantId != job.tenantId ==>
      FailsWith(PlanFor(job, r), [], "notification " + job.payloadId.value + " belongs to tenant " + r.info.value.tenantId
                                     + ", not the enqueuing job's tenant " + job.tenantId)
    ensures (!Missing(job.requestedBy) && !Missing(job.payloadId) && r.info.Some?) ==>
      (r.info.value.tenantId == job.tenantId && r.info.value.status != Open <==> PlanFor(job, r) == Redundant)
  {
  }

  /** Of an own open notification the first test that fails gives the text. */
  lemma RefusalIs(job: Job, r: Replies)
    requires OwnOpen(job, r)
    ensures var info := r.info.value;
      info.channel == "email" && Missing(info.recipientEmail) ==>
        FailsWith(PlanFor(job, r), [], "no " + "email address" + " on file for this recipient")
    ensures var info := r.info.value;
      info.channel != "email" && Missing(info.recipientContactAddress) ==>
        FailsWith(PlanFor(job, r), [], "no " + "contact address" + " on file for this recipient")
    ensures var info := r.info.value;
      !Missing(if info.channel == "email" then info.recipientEmail else info.recipientContactAddress) ==>
        && (Missing(info.connectionId) || info.connectionStatus != "active" ==>
              FailsWith(PlanFor(job, r), [], "no active " + info.channel + " provider connection configured for this tenant"))
        && (!Missing(info.connectionId) && info.connectionStatus == "active" && Missing(info.apiUrl) ==>
              FailsWith(PlanFor(job, r), [], info.channel + " provider connection has no apiUrl configured"))
  {
  }

  lemma LateRefusalIs(job: Job, r: Replies)
    requires Addressed(job, r)
    ensures var info := r.info.value; var checks := [CheckUrl(info.apiUrl.value), ReadCredential(info.connectionId.value)];
      && (!r.safety.safe ==>
            FailsWith(PlanFor(job, r), [CheckUrl(info.apiUrl.value)],
                      "refusing to dispatch: " + if r.safety.reason.Some? then r.safety.reason.value else "provider apiUrl failed the delivery-time safety check"))
      && (r.safety.safe && Missing(r.credential) ==>
            FailsWith(PlanFor(job, r), checks, info.channel + " provider connection has no stored credential"))
      && (r.safety.safe && !Missing(r.credential) && info.channel !in {"email", "whatsapp", "sms"} ==>
            FailsWith(PlanFor(job, r), checks,
                      "notification_batch job " + job.jobId + " has effectiveChannel=" + info.channel + " -- in_app never reaches this worker"))
  {
  }

  /** What a failed request is reported with. */
  lemma RequestFailureIs(job: Job, r: Replies)
    requires PlanFor(job, r).Try? && PlanFor(job, r).post.Some?
    ensures var text, channel := PlanFor(job, r).jobError, r.info.value.channel;
      match r.response
      case TimedOut => text == "request timed out after 10000ms"
      case TransportError(message) => text == if message.Some? then message.value else "unknown fetch error"
      case Responded(status) =>
        if 200 <= status <= 299 then text == ""
        else text == (if channel == "email" then "email" else if channel == "whatsapp" then "WhatsApp" else "SMS")
                     + " provider responded with HTTP " + Integer(status)
  {
  }

  /** What every plan owes to the response. */
  ghost predicate Coherent(plan: Plan, response: FetchReply) {
    plan.Try? ==>
      && (plan.attempt.success <==> plan.post.Some? && Accepted(response))
      && (plan.attempt.success <==> plan.attempt.error.None?)
      && (plan.attempt.success <==> plan.attempt.cost.Some?)
  }

  lemma PlanIsCoherent(job: Job, r: Replies)
    ensures Coherent(PlanFor(job, r), r.response)
  {
  }

  lemma CoherentPlanReports(plan: Plan, job: Job, workerId: string, response: FetchReply)
    requires Coherent(plan, response) && OutcomeOf(plan).Ok?
    ensures var events := Events(plan, job, workerId);
      var outcome := OutcomeOf(plan).value;
      && events != []
      && (outcome.kind == Delivered <==> plan.Try? && plan.attempt.success)
      && (outcome.kind == AlreadyTerminal <==> plan.Redundant?)
      && (outcome.kind == Failed <==> events[|events| - 1].JobFailed?)
      && (outcome.kind == Failed <==> outcome.errorMessage.Some?)
  {
    ReturnedRunReportsOnce(plan, job, workerId);
  }

  /** What a run hands back: its exception, or its kind with the text that it recorded. */
  lemma ResultIs(job: Job, r: Replies)
    ensures var result, plan := OutcomeOf(PlanFor(job, r)), PlanFor(job, r);
      && (plan == Abort ==> result == Thrown("no requested_by_auth_user_id"))
      && (plan.Unattributed? ==> result == Ok(Outcome(Failed, Some("missing notification_id in job payload"))))
      && (plan.NotFound? ==> result == Ok(Outcome(Failed, Some("notification not found"))))
      && (plan.Redundant? ==> result == Ok(Outcome(AlreadyTerminal, None)))
      && (plan.Try? && plan.attempt.success ==> result == Ok(Outcome(Delivered, None)))
      && (plan.Try? && !plan.attempt.success ==> result == Ok(Outcome(Failed, Some(plan.jobError))))
  {
    PlanIsCoherent(job, r);
  }

  /** The reports of one run agree, and a cost is billed exactly for a recorded success. */
  lemma OutcomeMatchesReports(job: Job, r: Replies, workerId: string)
    requires OutcomeOf(PlanFor(job, r)).Ok?
    ensures var plan := PlanFor(job, r); var events := Events(plan, job, workerId);
      var outcome := OutcomeOf(plan).value;
      && events != []
      && (outcome.kind == Delivered <==> plan.Try? && plan.attempt.success)
      && (outcome.kind == AlreadyTerminal <==> plan.Redundant?)
      && (outcome.kind == Failed <==> events[|events| - 1].JobFailed?)
      && (outcome.kind == Delivered <==> plan.Try? && plan.post.Some? && Accepted(r.response))
      && (outcome.kind == Failed <==> outcome.errorMessage.Some?)
      && (plan.Try? ==> (plan.attempt.cost.Some? <==> plan.attempt.success))
  {
    PlanIsCoherent(job, r);
    CoherentPlanReports(PlanFor(job, r), job, workerId, r.response);
  }
}
