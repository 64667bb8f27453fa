/**
 * lib/external-integrations/process-external-sync-job.server.ts and its worker
 * scripts/jobs/external-sync-worker.ts: fetch one batch from a provider, record a snapshot per
 * usable record, report the job once.
 */
module ExternalSync {
  import opened Wrappers
  import opened Sequences
  import opened JobEnvironment
  import ClaimLoop

  /** A payload's adapter code and entity type; the last case is anything missing or not in the list. */
  datatype AdapterCode = ExternalAccountingSystem | ExternalHrSystem | UnknownAdapter
  datatype EntityType = Employee | GlAccount | UnknownEntity

  datatype Job = Job(
    jobId: string, tenantId: string, requestedBy: Option<string>,
    connectionId: Option<string>, adapterCode: AdapterCode, entityType: EntityType)

  datatype Connection = Connection(tenantId: string, active: bool, pollUrl: Option<string>)

  /** NoFields is null, on which reading a field throws; a field of another type reads as None. */
  datatype RawRecord = NoFields | RawRecord(externalEntityId: Option<string>, payload: Option<string>)

  /** A response body; JsonNull is the JSON text null, a missing or non-array records field is None. */
  datatype Body = NotJson | JsonNull | Json(records: Option<seq<RawRecord>>)

  /** The body is that of a response, if there is one. */
  datatype Replies = Replies(connection: Option<Connection>, safety: Safety, credential: Option<string>, response: FetchReply, body: Body)

  datatype Event =
    | ConnectionRead(connectionId: string)
    | UrlChecked(url: string)
    | CredentialRead(connectionId: string)
    | Fetched(url: string, credential: string)
    | SnapshotRecorded(tenantId: string, connectionId: string, adapterCode: AdapterCode, entityType: EntityType, externalEntityId: string, payload: string)
    | JobCompleted(jobId: string, workerId: string)
    | JobFailed(jobId: string, problem: Problem)

  /** Why a run failed: what the text the source writes is built from. */
  datatype Problem =
    | InvalidPayload
    | NoConnection
    | ForeignConnection(owner: string)
    | NoPollUrl
    | UnsafeUrl(reason: Option<string>)
    | NoCredential
    | FetchTimedOut
    | FetchThrew(message: Option<string>)
    | BadStatus(status: int)
    | BadBody

  datatype OutcomeKind = Synced | Failed

  datatype Outcome = Outcome(kind: OutcomeKind, recordedCount: nat, skippedCount: nat, problem: Option<Problem>)

  const MAX_RECORDS_PER_BATCH := 500

  /** The missing requested_by_auth_user_id, and reading a field of null. */
  datatype Exception = NoActor | TypeError

  predicate PayloadValid(job: Job) {
    !Missing(job.connectionId) && job.adapterCode != UnknownAdapter && job.entityType != UnknownEntity
  }

  function EntityName(entity: EntityType): string
    requires entity != UnknownEntity
  {
    if entity == Employee then "employee" else "gl_account"
  }

  function FetchProblem(response: FetchReply, body: Body): Option<Problem> {
    match response
    case TimedOut => Some(FetchTimedOut)
    case TransportError(message) => Some(FetchThrew(message))
    case Responded(status) =>
      if status < 200 || status >= 300 then Some(BadStatus(status))
      else if body.NotJson? then Some(BadBody)
      else None
  }

  /** The encoded entity type is the type itself: both known types are plain words. */
  function PollAddress(url: string, entity: EntityType): string
    requires entity != UnknownEntity
  {
    url + "?entityType=" + EntityName(entity)
  }

  // ---------- What one run does ----------

  /** The calls before the records are read, and what they led to. */
  datatype Gate =
    | Refused(calls: seq<Event>, problem: Problem)
    | Crashed(calls: seq<Event>, exception: Exception)
    | Batch(calls: seq<Event>, records: seq<RawRecord>)

  function After(calls: seq<Event>, gate: Gate): Gate { gate.(calls := calls + gate.calls) }

  function GateFor(job: Job, r: Replies): Gate {
    if Missing(job.requestedBy) then Crashed([], NoActor)
    else if !PayloadValid(job) then Refused([], InvalidPayload)
    else After([ConnectionRead(job.connectionId.value)], ConnectionGate(job, r))
  }

  function ConnectionGate(job: Job, r: Replies): Gate
    requires PayloadValid(job)
  {
    if r.connection.None? || !r.connection.value.active then Refused([], NoConnection)
    else
      var c := r.connection.value;
      if c.tenantId != job.tenantId then Refused([], ForeignConnection(c.tenantId))
      else if Missing(c.pollUrl) then Refused([], NoPollUrl)
      else After([UrlChecked(c.pollUrl.value)], UrlGate(job, c.pollUrl.value, r))
  }

  function UrlGate(job: Job, url: string, r: Replies): Gate
    requires PayloadValid(job)
  {
    if !r.safety.safe then Refused([], UnsafeUrl(r.safety.reason))
    else After([CredentialRead(job.connectionId.value)], CredentialGate(job, url, r))
  }

  function CredentialGate(job: Job, url: string, r: Replies): Gate
    requires PayloadValid(job)
  {
    if Missing(r.credential) then Refused([], NoCredential)
    else After([Fetched(PollAddress(url, job.entityType), r.credential.value)], ResponseGate(r.response, r.body))
  }

  function ResponseGate(response: FetchReply, body: Body): Gate {
    var problem := FetchProblem(response, body);
    if problem.Some? then Refused([], problem.value)
    else if body.JsonNull? then Crashed([], TypeError)
    else Batch([], Capped(body.records))
  }

  function Capped(records: Option<seq<RawRecord>>): (capped: seq<RawRecord>)
    ensures |capped| == if records.None? then 0 else if |records.value| < MAX_RECORDS_PER_BATCH then |records.value| else MAX_RECORDS_PER_BATCH
  {
    if records.None? then []
    else if |records.value| <= MAX_RECORDS_PER_BATCH then records.value
    else records.value[..MAX_RECORDS_PER_BATCH]
  }

  predicate Usable(record: RawRecord) {
    record.RawRecord? && !Missing(record.externalEntityId) && record.payload.Some?
  }

  predicate Unreadable(record: RawRecord) { record.NoFields? }

  /** The records before the first one that cannot be read. */
  function Readable(records: seq<RawRecord>): (prefix: seq<RawRecord>)
    ensures prefix <= records
    ensures forall i :: 0 <= i < |prefix| ==> !Unreadable(prefix[i])
    ensures |prefix| < |records| ==> Unreadable(records[|prefix|])
  {
    if records == [] || Unreadable(records[0]) then [] else [records[0]] + Readable(records[1..])
  }

  function Snapshot(job: Job, tenantId: string, record: RawRecord): Event
    requires PayloadValid(job) && Usable(record)
  {
    SnapshotRecorded(tenantId, job.connectionId.value, job.adapterCode, job.entityType, record.externalEntityId.value, record.payload.value)
  }

  function Snapshots(job: Job, tenantId: string, records: seq<RawRecord>): seq<Event>
    requires PayloadValid(job)
  {
    if records == [] then []
    else Snapshots(job, tenantId, records[..|records| - 1])
         + if Usable(records[|records| - 1]) then [Snapshot(job, tenantId, records[|records| - 1])] else []
  }

  predicate Unusable(record: RawRecord) { !Usable(record) }

  function GateEvents(gate: Gate, job: Job, workerId: string): seq<Event>
    requires gate.Batch? ==> PayloadValid(job)
  {
    match gate
    case Refused(calls, problem) => calls + [JobFailed(job.jobId, problem)]
    case Crashed(calls, _) => calls
    case Batch(calls, records) => calls + BatchEvents(job, workerId, records)
  }

  function BatchEvents(job: Job, workerId: string, records: seq<RawRecord>): seq<Event>
    requires PayloadValid(job)
  {
    Snapshots(job, job.tenantId, Readable(records)) + if Readable(records) == records then [JobCompleted(job.jobId, workerId)] else []
  }

  function GateResult(gate: Gate): Result<Outcome, Exception> {
    match gate
    case Refused(_, problem) => Ok(Outcome(Failed, 0, 0, Some(problem)))
    case Crashed(_, exception) => Thrown(exception)
    case Batch(_, records) =>
      if Readable(records) != records then Thrown(TypeError)
      else Ok(Outcome(Synced, Count(records, Usable), Count(records, Unusable), None))
  }

  function RunEvents(job: Job, workerId: string, r: Replies): seq<Event> {
    GateEvents(GateFor(job, r), job, workerId)
  }

  function RunResult(job: Job, r: Replies): Result<Outcome, Exception> { GateResult(GateFor(job, r)) }

  lemma AfterEvents(base: seq<Event>, calls: seq<Event>, gate: Gate, job: Job, workerId: string)
    requires gate.Batch? ==> PayloadValid(job)
    ensures base + GateEvents(After(calls, gate), job, workerId) == (base + calls) + GateEvents(gate, job, workerId)
    ensures GateResult(After(calls, gate)) == GateResult(gate)
  {
    var rest := GateEvents(gate, job, workerId)[|gate.calls|..];
    assert GateEvents(gate, job, workerId) == gate.calls + rest;
    assert GateEvents(After(calls, gate), job, workerId) == (calls + gate.calls) + rest;
  }

  method FailJob(log: EventLog<Event>, job: Job, problem: Problem) returns (result: Result<Outcome, Exception>)
    modifies log
    ensures log.events == old(log.events) + [JobFailed(job.jobId, problem)]
    ensures result == Ok(Outcome(Failed, 0, 0, Some(problem)))
  {
    log.Append(JobFailed(job.jobId, problem));
    return Ok(Outcome(Failed, 0, 0, Some(problem)));
  }

  method ProcessExternalSyncJob(log: EventLog<Event>, job: Job, workerId: string, r: Replies) returns (result: Result<Outcome, Exception>)
    modifies log
    ensures log.events == old(log.events) + RunEvents(job, workerId, r)
    ensures result == RunResult(job, r)
  {
    if Missing(job.requestedBy) {
      return Thrown(NoActor);
    }
    if !PayloadValid(job) {
      result := FailJob(log, job, InvalidPayload);
      return;
    }

    log.Append(ConnectionRead(job.connectionId.value));
    result := PollConnection(log, job, workerId, r);
    AfterEvents(old(log.events), [ConnectionRead(job.connectionId.value)], ConnectionGate(job, r), job, workerId);
  }

  /** The run from the connection's row on. */
  method PollConnection(log: EventLog<Event>, job: Job, workerId: string, r: Replies) returns (result: Result<Outcome, Exception>)
    requires PayloadValid(job)
    modifies log
    ensures log.events == old(log.events) + GateEvents(ConnectionGate(job, r), job, workerId)
    ensures result == GateResult(ConnectionGate(job, r))
  {
    if r.connection.None? || !r.connection.value.active {
      result := FailJob(log, job, NoConnection);
      return;
    }
    var connection := r.connection.value;
    if connection.tenantId != job.tenantId {
      result := FailJob(log, job, ForeignConnection(connection.tenantId));
      return;
    }
    if Missing(connection.pollUrl) {
      result := FailJob(log, job, NoPollUrl);
      return;
    }

    var url := connection.pollUrl.value;
    log.Append(UrlChecked(url));
    result := PollUrl(log, job, workerId, connection.tenantId, url, r);
    AfterEvents(old(log.events), [UrlChecked(url)], UrlGate(job, url, r), job, workerId);
  }

  /** The run from the URL's check on. */
  method PollUrl(log: EventLog<Event>, job: Job, workerId: string, tenantId: string, url: string, r: Replies) returns (result: Result<Outcome, Exception>)
    requires PayloadValid(job) && tenantId == job.tenantId
    modifies log
    ensures log.events == old(log.events) + GateEvents(UrlGate(job, url, r), job, workerId)
    ensures result == GateResult(UrlGate(job, url, r))
  {
    if !r.safety.safe {
      result := FailJob(log, job, UnsafeUrl(r.safety.reason));
      return;
    }
    var id := job.connectionId.value;
    log.Append(CredentialRead(id));
    result := FetchAndRecord(log, job, workerId, tenantId, url, r);
    AfterEvents(old(log.events), [CredentialRead(id)], CredentialGate(job, url, r), job, workerId);
  }

  /** The credential's check and the request. */
  method FetchAndRecord(log: EventLog<Event>, job: Job, workerId: string, tenantId: string, url: string, r: Replies) returns (result: Result<Outcome, Exception>)
    requires PayloadValid(job) && tenantId == job.tenantId
    modifies log
    ensures log.events == old(log.events) + GateEvents(CredentialGate(job, url, r), job, workerId)
    ensures result == GateResult(CredentialGate(job, url, r))
  {
    if Missing(r.credential) {
      result := FailJob(log, job, NoCredential);
      return;
    }
    var request := Fetched(PollAddress(url, job.entityType), r.credential.value);
    log.Append(request);
    result := RecordResponse(log, job, workerId, tenantId, r.response, r.body);
    AfterEvents(old(log.events), [request], ResponseGate(r.response, r.body), job, workerId);
  }

  method RecordResponse(log: EventLog<Event>, job: Job, workerId: string, tenantId: string, response: FetchReply, body: Body) returns (result: Result<Outcome, Exception>)
    requires PayloadValid(job) && tenantId == job.tenantId
    modifies log
    ensures log.events == old(log.events) + GateEvents(ResponseGate(response, body), job, workerId)
    ensures result == GateResult(ResponseGate(response, body))
  {
    var problem := FetchProblem(response, body);
    if problem.Some? {
      result := FailJob(log, job, problem.value);
      return;
    }
    if body.JsonNull? {
      return Thrown(TypeError);
    }
    result := RecordBatch(log, job, workerId, tenantId, Capped(body.records));
  }

  method RecordBatch(log: EventLog<Event>, job: Job, workerId: string, tenantId: string, records: seq<RawRecord>) returns (result: Result<Outcome, Exception>)
    requires PayloadValid(job) && tenantId == job.tenantId
    modifies log
    ensures log.events == old(log.events) + BatchEvents(job, workerId, records)
    ensures result == GateResult(Batch([], records))
  {
    var recordedCount, skippedCount, read := RecordEach(log, job, tenantId, records);
    ReadableIs(records, read);
    if read < |records| {
      return Thrown(TypeError);
    }
    log.Append(JobCompleted(job.jobId, workerId));
    assert records[..read] == records;
    return Ok(Outcome(Synced, recordedCount, skippedCount, None));
  }

  /** The record loop; it ends early when reading a record throws. */
  method RecordEach(log: EventLog<Event>, job: Job, tenantId: string, records: seq<RawRecord>) returns (recordedCount: nat, skippedCount: nat, read: nat)
    requires PayloadValid(job)
    modifies log
    ensures read <= |records| && (read < |records| ==> Unreadable(records[read]))
    ensures forall k :: 0 <= k < read ==> !Unreadable(records[k])
    ensures log.events == old(log.events) + Snapshots(job, tenantId, records[..read])
    ensures recordedCount == Count(records[..read], Usable) && skippedCount == Count(records[..read], Unusable)
  {
    recordedCount, skippedCount, read := 0, 0, 0;
    while read < |records| && !Unreadable(records[read])
      invariant read <= |records|
      invariant forall k :: 0 <= k < read ==> !Unreadable(records[k])
      invariant log.events == old(log.events) + Snapshots(job, tenantId, records[..read])
      invariant recordedCount == Count(records[..read], Usable)
      invariant skippedCount == Count(records[..read], Unusable)
    {
      PrefixStep(job, tenantId, records, read);
      if !Usable(records[read]) {
        skippedCount := skippedCount + 1;
      } else {
        log.Append(Snapshot(job, tenantId, records[read]));
        recordedCount := recordedCount + 1;
      }
      read := read + 1;
    }
  }

  /** What one more record adds to the events and the counters. */
  lemma PrefixStep(job: Job, tenantId: string, records: seq<RawRecord>, i: nat)
    requires PayloadValid(job) && i < |records|
    ensures var usable := Usable(records[i]);
      && Count(records[..i + 1], Usable) == Count(records[..i], Usable) + (if usable then 1 else 0)
      && Count(records[..i + 1], Unusable) == Count(records[..i], Unusable) + (if usable then 0 else 1)
      && Snapshots(job, tenantId, records[..i + 1])
         == Snapshots(job, tenantId, records[..i]) + if usable then [Snapshot(job, tenantId, records[i])] else []
  {
    var upTo := records[..i + 1];
    assert upTo == records[..i] + [records[i]] && upTo[..i] == records[..i];
    CountAppend(records[..i], [records[i]], Usable);
    CountAppend(records[..i], [records[i]], Unusable);
    CountTwo(records[i], records[i], Usable);
    CountTwo(records[i], records[i], Unusable);
  }

  lemma {:induction false} ReadableIs(records: seq<RawRecord>, k: nat)
    requires k <= |records| && forall i :: 0 <= i < k ==> !Unreadable(records[i])
    requires k < |records| ==> Unreadable(records[k])
    ensures Readable(records) == records[..k]
  {
    if k > 0 {
      ReadableIs(records[1..], k - 1);
      assert records[..k] == [records[0]] + records[1..][..k - 1];
    }
  }

  // ---------- One run ----------

  predicate IsReport(e: Event) { e.JobCompleted? || e.JobFailed? }
  predicate IsCompletion(e: Event) { e.JobCompleted? }
  predicate IsSnapshot(e: Event) { e.SnapshotRecorded? }

  lemma {:induction false} SnapshotsCount(job: Job, tenantId: string, records: seq<RawRecord>)
    requires PayloadValid(job)
    ensures var events := Snapshots(job, tenantId, records);
      && |events| == Count(events, IsSnapshot) == Count(records, Usable)
      && Count(events, IsReport) == Count(events, IsCompletion) == 0
      && forall i :: 0 <= i < |events| ==> events[i].SnapshotRecorded? && events[i].tenantId == tenantId && events[i].connectionId == job.connectionId.value
  {
    if records != [] {
      var n := |records| - 1;
      var before, last := records[..n], records[n];
      SnapshotsCount(job, tenantId, before);
      assert records == before + [last];
      CountAppend(before, [last], Usable);
      CountTwo(last, last, Usable);
      if Usable(last) {
        var e := Snapshot(job, tenantId, last);
        CountAppend(Snapshots(job, tenantId, before), [e], IsSnapshot);
        CountAppend(Snapshots(job, tenantId, before), [e], IsReport);
        CountAppend(Snapshots(job, tenantId, before), [e], IsCompletion);
        CountTwo(e, e, IsReport);
        CountTwo(e, e, IsCompletion);
        CountTwo(e, e, IsSnapshot);
      } else {
        assert Snapshots(job, tenantId, records) == Snapshots(job, tenantId, before);
      }
    }
  }

  lemma {:induction false} UsableOrNot(records: seq<RawRecord>)
    ensures Count(records, Usable) + Count(records, Unusable) == |records|
  {
    if records != [] {
      UsableOrNot(records[1..]);
    }
  }

  /** Calls that neither report the job nor write a snapshot. */
  ghost predicate Plain(calls: seq<Event>) {
    forall i :: 0 <= i < |calls| ==> calls[i].ConnectionRead? || calls[i].UrlChecked? || calls[i].CredentialRead? || calls[i].Fetched?
  }

  lemma UrlCallsArePlain(job: Job, url: string, r: Replies)
    requires PayloadValid(job)
    ensures Plain(UrlGate(job, url, r).calls)
  {
    if r.safety.safe && !Missing(r.credential) {
      assert CredentialGate(job, url, r).calls == [Fetched(PollAddress(url, job.entityType), r.credential.value)];
    }
  }

  lemma ConnectionCallsArePlain(job: Job, r: Replies)
    requires PayloadValid(job)
    ensures Plain(ConnectionGate(job, r).calls)
  {
    if r.connection.Some? && !Missing(r.connection.value.pollUrl) {
      UrlCallsArePlain(job, r.connection.value.pollUrl.value, r);
    }
  }

  lemma PlainCalls(calls: seq<Event>)
    requires Plain(calls)
    ensures Count(calls, IsReport) == Count(calls, IsCompletion) == Count(calls, IsSnapshot) == 0
  {
    CountZero(calls, IsReport);
    CountZero(calls, IsCompletion);
    CountZero(calls, IsSnapshot);
  }

  lemma CallsArePlain(job: Job, r: Replies)
    ensures var calls := GateFor(job, r).calls;
      Count(calls, IsReport) == Count(calls, IsCompletion) == Count(calls, IsSnapshot) == 0
  {
    if PayloadValid(job) {
      ConnectionCallsArePlain(job, r);
    }
    PlainCalls(GateFor(job, r).calls);
  }

  /**
   * A run that returns reports its job exactly once, as its last act: completed exactly when it
   * synced. It recorded as many snapshots as it says, all for the job's own tenant and connection,
   * and on a synced batch every fetched record up to the 500th is either recorded or skipped.
   */
  lemma RunAccounts(job: Job, workerId: string, r: Replies)
    requires RunResult(job, r).Ok?
    ensures var events, outcome := RunEvents(job, workerId, r), RunResult(job, r).value;
      && events != [] && IsReport(events[|events| - 1]) && events[|events| - 1].jobId == job.jobId && Count(events, IsReport) == 1
      && (outcome.kind == Synced <==> IsCompletion(events[|events| - 1]))
      && Count(events, IsCompletion) == (if outcome.kind == Synced then 1 else 0)
      && Count(events, IsSnapshot) == outcome.recordedCount
      && (outcome.kind == Failed ==> outcome.recordedCount == outcome.skippedCount == 0 && outcome.problem.Some?)
    ensures var outcome := RunResult(job, r).value;
      outcome.kind == Synced ==>
        && r.response.Responded? && r.body.Json?
        && var fetched := if r.body.records.None? then 0 else |r.body.records.value|;
           outcome.recordedCount + outcome.skippedCount == if fetched < 500 then fetched else 500
  {
    var gate := GateFor(job, r);
    CallsArePlain(job, r);
    if gate.Refused? {
      CountTwo(JobFailed(job.jobId, gate.problem), JobFailed(job.jobId, gate.problem), IsReport);
      CountTwo(JobFailed(job.jobId, gate.problem), JobFailed(job.jobId, gate.problem), IsCompletion);
      CountTwo(JobFailed(job.jobId, gate.problem), JobFailed(job.jobId, gate.problem), IsSnapshot);
      CountAppend(gate.calls, [JobFailed(job.jobId, gate.problem)], IsReport);
      CountAppend(gate.calls, [JobFailed(job.jobId, gate.problem)], IsCompletion);
      CountAppend(gate.calls, [JobFailed(job.jobId, gate.problem)], IsSnapshot);
    } else {
      BatchAccounts(job, workerId, gate.calls, gate.records);
      UsableOrNot(gate.records);
    }
  }

  lemma BatchAccounts(job: Job, workerId: string, calls: seq<Event>, records: seq<RawRecord>)
    requires PayloadValid(job) && Readable(records) == records
    requires Count(calls, IsReport) == Count(calls, IsCompletion) == Count(calls, IsSnapshot) == 0
    ensures var events := calls + BatchEvents(job, workerId, records);
      && events != [] && IsCompletion(events[|events| - 1]) && events[|events| - 1].jobId == job.jobId
      && Count(events, IsReport) == Count(events, IsCompletion) == 1
      && Count(events, IsSnapshot) == Count(records, Usable)
  {
    var snapshots, done := Snapshots(job, job.tenantId, records), JobCompleted(job.jobId, workerId);
    SnapshotsCount(job, job.tenantId, records);
    assert calls + BatchEvents(job, workerId, records) == calls + (snapshots + [done]);
    CountTwo(done, done, IsReport);
    CountTwo(done, done, IsCompletion);
    CountTwo(done, done, IsSnapshot);
    CountAppend(snapshots, [done], IsReport);
    CountAppend(snapshots, [done], IsCompletion);
    CountAppend(snapshots, [done], IsSnapshot);
    CountAppend(calls, snapshots + [done], IsReport);
    CountAppend(calls, snapshots + [done], IsCompletion);
    CountAppend(calls, snapshots + [done], IsSnapshot);
  }

  /** Every snapshot a run writes, even one that dies in the middle, carries the job's own tenant. */
  lemma SnapshotsStayInTenant(job: Job, workerId: string, r: Replies, i: nat)
    requires i < |RunEvents(job, workerId, r)| && IsSnapshot(RunEvents(job, workerId, r)[i])
    ensures RunEvents(job, workerId, r)[i].tenantId == job.tenantId
    ensures r.connection.Some? && r.connection.value.tenantId == job.tenantId && r.safety.safe
  {
    var gate := GateFor(job, r);
    CallsArePlain(job, r);
    CountZero(gate.calls, IsSnapshot);
    if gate.Batch? {
      SnapshotsCount(job, job.tenantId, Readable(gate.records));
    }
  }

  // ---------- What a run does, in the job's and the replies' own terms ----------

  /** After those calls the job is failed with that problem, and nothing was recorded. */
  ghost predicate FailsWith(job: Job, workerId: string, r: Replies, calls: seq<Event>, problem: Problem) {
    && RunEvents(job, workerId, r) == calls + [JobFailed(job.jobId, problem)]
    && RunResult(job, r) == Ok(Outcome(Failed, 0, 0, Some(problem)))
  }

  ghost predicate Named(value: Option<string>) { value.Some? && value.value != "" }

  /** Actor and payload are there: a connection, one of the two adapters and one of the two entity types. */
  ghost predicate WellFormed(job: Job) {
    && Named(job.requestedBy) && Named(job.connectionId)
    && job.adapterCode in {ExternalAccountingSystem, ExternalHrSystem} && job.entityType in {Employee, GlAccount}
  }

  ghost predicate OwnConnection(job: Job, r: Replies) {
    && WellFormed(job) && r.connection.Some? && r.connection.value.active && r.connection.value.tenantId == job.tenantId
    && Named(r.connection.value.pollUrl)
  }

  /** The first test that fails, up to the connection's address. */
  lemma EarlyEndIs(job: Job, workerId: string, r: Replies)
    ensures !Named(job.requestedBy) ==> RunEvents(job, workerId, r) == [] && RunResult(job, r) == Thrown(NoActor)
    ensures Named(job.requestedBy) && !WellFormed(job) ==> FailsWith(job, workerId, r, [], InvalidPayload)
    ensures WellFormed(job) ==>
      var looked := [ConnectionRead(job.connectionId.value)];
      && (r.connection.None? || !r.connection.value.active ==> FailsWith(job, workerId, r, looked, NoConnection))
      && (r.connection.Some? && r.connection.value.active ==>
            var c := r.connection.value;
            && (c.tenantId != job.tenantId ==> FailsWith(job, workerId, r, looked, ForeignConnection(c.tenantId)))
            && (c.tenantId == job.tenantId && !Named(c.pollUrl) ==> FailsWith(job, workerId, r, looked, NoPollUrl)))
  {
  }

  lemma CheckedEndIs(job: Job, workerId: string, r: Replies)
    requires OwnConnection(job, r)
    ensures var id, url := job.connectionId.value, r.connection.value.pollUrl.value;
      && (!r.safety.safe ==> FailsWith(job, workerId, r, [ConnectionRead(id), UrlChecked(url)], UnsafeUrl(r.safety.reason)))
      && (r.safety.safe && !Named(r.credential) ==>
            FailsWith(job, workerId, r, [ConnectionRead(id), UrlChecked(url), CredentialRead(id)], NoCredential))
  {
  }

  /** The calls up to the request; the entity type is its query. */
  function CallsToRequest(job: Job, url: string, credential: string): seq<Event> {
    [ConnectionRead(if job.connectionId.Some? then job.connectionId.value else ""), UrlChecked(url),
     CredentialRead(if job.connectionId.Some? then job.connectionId.value else ""),
     Fetched(url + "?entityType=" + (if job.entityType == Employee then "employee" else "gl_account"), credential)]
  }

  lemma RequestEndIs(job: Job, workerId: string, r: Replies)
    requires OwnConnection(job, r) && r.safety.safe && Named(r.credential)
    ensures var fetched := CallsToRequest(job, r.connection.value.pollUrl.value, r.credential.value);
      match r.response
      case TimedOut => FailsWith(job, workerId, r, fetched, FetchTimedOut)
      case TransportError(message) => FailsWith(job, workerId, r, fetched, FetchThrew(message))
      case Responded(status) =>
        if !(200 <= status <= 299) then FailsWith(job, workerId, r, fetched, BadStatus(status))
        else if r.body.NotJson? then FailsWith(job, workerId, r, fetched, BadBody)
        else GateFor(job, r).calls == fetched && ReachesBody(job, r)
  {
  }

  /** The i-th record, if it has an id and a payload, is written with them, under the job's own connection, adapter and type. */
  lemma {:induction false} SnapshotOfRecord(job: Job, tenantId: string, records: seq<RawRecord>, i: nat)
    requires PayloadValid(job) && i < |records| && records[i].RawRecord? && Named(records[i].externalEntityId) && records[i].payload.Some?
    ensures var k := Count(records[..i], Usable);
      && k < |Snapshots(job, tenantId, records)|
      && Snapshots(job, tenantId, records)[k]
         == SnapshotRecorded(tenantId, job.connectionId.value, job.adapterCode, job.entityType, records[i].externalEntityId.value, records[i].payload.value)
  {
    var n := |records| - 1;
    SnapshotsCount(job, tenantId, records[..n]);
    if i < n {
      SnapshotOfRecord(job, tenantId, records[..n], i);
      assert records[..n][..i] == records[..i];
    }
  }

  /** Every check up to a readable 2xx response passes. */
  predicate ReachesBody(job: Job, r: Replies) {
    && !Missing(job.requestedBy) && PayloadValid(job)
    && r.connection.Some? && r.connection.value.active && r.connection.value.tenantId == job.tenantId
    && !Missing(r.connection.value.pollUrl) && r.safety.safe && !Missing(r.credential)
    && Accepted(r.response) && !r.body.NotJson?
  }

  /** The fetched records that are looked at: the first 500 of an array, none of anything else. */
  function Fetched500(body: Body): seq<RawRecord> { if body.Json? then Capped(body.records) else [] }

  ghost predicate NoNull(records: seq<RawRecord>) { forall k :: 0 <= k < |records| ==> !Unreadable(records[k]) }

  lemma GateIsBatchIff(job: Job, r: Replies)
    ensures Missing(job.requestedBy) ==> GateFor(job, r).Crashed?
    ensures ReachesBody(job, r) && r.body.JsonNull? ==> GateFor(job, r) == Crashed(GateFor(job, r).calls, TypeError)
    ensures ReachesBody(job, r) && r.body.Json? ==> GateFor(job, r) == Batch(GateFor(job, r).calls, Fetched500(r.body))
    ensures !Missing(job.requestedBy) && !ReachesBody(job, r) ==> GateFor(job, r).Refused?
  {
  }

  /**
   * The documentation says a malformed response or record is never fatal. A null body and a null
   * record are: the run returns exactly when the job has an actor and, if all checks pass, neither
   * the body nor one of its first 500 records is null. A run that throws has reported nothing.
   */
  lemma RunReturnsIff(job: Job, workerId: string, r: Replies)
    ensures RunResult(job, r).Ok?
       <==> !Missing(job.requestedBy)
            && (ReachesBody(job, r) ==> !r.body.JsonNull? && NoNull(Fetched500(r.body)))
    ensures RunResult(job, r).Thrown? ==> Count(RunEvents(job, workerId, r), IsReport) == 0
  {
    GateIsBatchIff(job, r);
    CallsArePlain(job, r);
    var gate := GateFor(job, r);
    if gate.Batch? {
      BatchReturnsIff(gate.records);
      if Readable(gate.records) != gate.records {
        CutBatch(job, workerId, gate.calls, gate.records);
      }
    }
  }

  lemma BatchReturnsIff(records: seq<RawRecord>)
    ensures Readable(records) == records <==> NoNull(records)
  {
    var prefix := Readable(records);
    if |prefix| == |records| {
      assert prefix == records;
    } else {
      assert Unreadable(records[|prefix|]);
    }
  }

  /** A batch that is cut short leaves its snapshots and no report. */
  lemma CutBatch(job: Job, workerId: string, calls: seq<Event>, records: seq<RawRecord>)
    requires PayloadValid(job) && Readable(records) != records
    requires Count(calls, IsReport) == Count(calls, IsSnapshot) == 0
    ensures Count(calls + BatchEvents(job, workerId, records), IsReport) == 0
    ensures Count(calls + BatchEvents(job, workerId, records), IsSnapshot) == Count(Readable(records), Usable)
  {
    var snapshots := Snapshots(job, job.tenantId, Readable(records));
    SnapshotsCount(job, job.tenantId, Readable(records));
    assert BatchEvents(job, workerId, records) == snapshots;
    CountAppend(calls, snapshots, IsReport);
    CountAppend(calls, snapshots, IsSnapshot);
  }

  /** Whatever the batch, its first null record is fatal: the usable records before it are written, and the job gets no report. */
  lemma NullRecordIsFatal(job: Job, workerId: string, r: Replies, k: nat)
    requires ReachesBody(job, r) && k < |Fetched500(r.body)|
    requires Unreadable(Fetched500(r.body)[k]) && NoNull(Fetched500(r.body)[..k])
    ensures RunResult(job, r) == Thrown(TypeError)
    ensures var events := RunEvents(job, workerId, r);
      Count(events, IsReport) == 0 && Count(events, IsSnapshot) == Count(Fetched500(r.body)[..k], Usable)
  {
    var records := Fetched500(r.body);
    GateIsBatchIff(job, r);
    CallsArePlain(job, r);
    assert forall i :: 0 <= i < k ==> records[..k][i] == records[i];
    ReadableIs(records, k);
    CutBatch(job, workerId, GateFor(job, r).calls, records);
  }

  /** A null body is fatal after the request, before anything is written. */
  lemma NullBodyIsFatal(job: Job, workerId: string, r: Replies)
    requires ReachesBody(job, r) && r.body.JsonNull?
    ensures RunResult(job, r) == Thrown(TypeError)
    ensures var events := RunEvents(job, workerId, r);
      Count(events, IsReport) == Count(events, IsSnapshot) == 0
  {
    GateIsBatchIff(job, r);
    CallsArePlain(job, r);
  }

  lemma ReadableReaches(records: seq<RawRecord>, i: nat)
    requires i < |records| && forall j :: 0 <= j <= i ==> records[j].RawRecord?
    ensures i < |Readable(records)| && Readable(records)[i] == records[i] && Readable(records)[..i] == records[..i]
  {
    assert forall k :: 0 <= k < |records| && Unreadable(records[k]) ==> k > i;
  }

  lemma FetchedIs(body: Body, i: nat)
    requires body.Json? && body.records.Some? && i < |body.records.value| && i < 500
    ensures var records, fetched := Fetched500(body), body.records.value;
      && i < |records| && records[i] == fetched[i] && records[..i] == fetched[..i]
      && ((forall j :: 0 <= j <= i ==> fetched[j].RawRecord?) ==> forall j :: 0 <= j <= i ==> records[j].RawRecord?)
  {
  }

  /** The snapshots of a run that reaches a JSON body stand after its four calls. */
  lemma SnapshotsFollowCalls(job: Job, workerId: string, r: Replies, m: nat)
    requires ReachesBody(job, r) && r.body.Json?
    requires m < |Snapshots(job, job.tenantId, Readable(Fetched500(r.body)))|
    ensures 4 + m < |RunEvents(job, workerId, r)|
    ensures RunEvents(job, workerId, r)[4 + m] == Snapshots(job, job.tenantId, Readable(Fetched500(r.body)))[m]
  {
    GateIsBatchIff(job, r);
    RequestEndIs(job, workerId, r);
  }

  lemma FetchedIsWritten(job: Job, workerId: string, r: Replies, i: nat)
    requires ReachesBody(job, r) && r.body.Json? && i < |Fetched500(r.body)|
    requires forall j :: 0 <= j <= i ==> Fetched500(r.body)[j].RawRecord?
    requires var record := Fetched500(r.body)[i]; Named(record.externalEntityId) && record.payload.Some?
    ensures var events, record := RunEvents(job, workerId, r), Fetched500(r.body)[i];
      var k := 4 + Count(Fetched500(r.body)[..i], Usable);
      && k < |events|
      && events[k] == SnapshotRecorded(job.tenantId, job.connectionId.value, job.adapterCode, job.entityType, record.externalEntityId.value, record.payload.value)
  {
    var records := Fetched500(r.body);
    ReadableReaches(records, i);
    SnapshotOfRecord(job, job.tenantId, Readable(records), i);
    SnapshotsFollowCalls(job, workerId, r, Count(records[..i], Usable));
  }

  /**
   * Of the first 500 records of a response each usable one before a null one is written, in order,
   * after the four calls; a run that gets through all of them ends with the job's completion.
   */
  lemma RecordIsWritten(job: Job, workerId: string, r: Replies, i: nat)
    requires ReachesBody(job, r) && r.body.Json? && r.body.records.Some? && i < |r.body.records.value| && i < 500
    requires forall j :: 0 <= j <= i ==> r.body.records.value[j].RawRecord?
    requires var record := r.body.records.value[i]; Named(record.externalEntityId) && record.payload.Some?
    ensures var events, record := RunEvents(job, workerId, r), r.body.records.value[i];
      var k := 4 + Count(r.body.records.value[..i], Usable);
      && k < |events|
      && events[k] == SnapshotRecorded(job.tenantId, job.connectionId.value, job.adapterCode, job.entityType, record.externalEntityId.value, record.payload.value)
  {
    FetchedIs(r.body, i);
    FetchedIsWritten(job, workerId, r, i);
  }

  lemma SyncedRunEnds(job: Job, workerId: string, r: Replies)
    requires RunResult(job, r).Ok? && RunResult(job, r).value.kind == Synced
    ensures var events := RunEvents(job, workerId, r); events != [] && events[|events| - 1] == JobCompleted(job.jobId, workerId)
  {
  }

  /** Such a run exists. */
  lemma BodyIsReached(job: Job, url: string, credential: string, status: int, body: Body)
    requires !Missing(job.requestedBy) && PayloadValid(job) && url != "" && credential != "" && 200 <= status < 300 && !body.NotJson?
    ensures ReachesBody(job, Replies(Some(Connection(job.tenantId, true, Some(url))), Safety(true, None), Some(credential), Responded(status), body))
  {
  }

  // ---------- The worker ----------

  /** What the i-th poll of the queue brings. */
  datatype Claim = NoJob | Claimed(job: Job, replies: Replies)

  datatype Counts = Counts(claimed: nat, synced: nat, failed: nat, recordedRecords: nat, skippedRecords: nat, emptyPolls: nat)

  type Seen = ClaimLoop.Seen<Event, Outcome, Exception>

  function SeenOf(claim: Claim, workerId: string): Seen {
    match claim
    case NoJob => ClaimLoop.NoJob
    case Claimed(job, r) => ClaimLoop.Ran(RunEvents(job, workerId, r), RunResult(job, r))
  }

  function SeenBy(claims: nat -> Claim, workerId: string): nat -> Seen { (i: nat) => SeenOf(claims(i), workerId) }

  predicate IsSynced(o: Outcome) { o.kind == Synced }
  function Recorded(o: Outcome): nat { o.recordedCount }
  function Skipped(o: Outcome): nat { o.skippedCount }

  function Polls(claims: nat -> Claim, workerId: string): nat -> ClaimLoop.Poll { ClaimLoop.Polls(SeenBy(claims, workerId), IsSynced) }

  /** Everything the first n polls made the worker do. */
  function Trace(claims: nat -> Claim, n: nat, workerId: string): seq<Event> { ClaimLoop.Trace(SeenBy(claims, workerId), n) }

  /** The counters after n polls. */
  function Tally(claims: nat -> Claim, n: nat, workerId: string): Counts {
    var seen := SeenBy(claims, workerId);
    CountsOf(ClaimLoop.Tally(Polls(claims, workerId), n), ClaimLoop.Total(seen, n, Recorded), ClaimLoop.Total(seen, n, Skipped))
  }

  function CountsOf(c: ClaimLoop.Counters, recorded: nat, skipped: nat): Counts {
    Counts(c.claimed, c.succeeded, c.failed, recorded, skipped, c.emptyPolls)
  }

  function AfterRun(c: Counts, o: Outcome): Counts {
    Counts(c.claimed + 1, if o.kind == Synced then c.synced + 1 else c.synced, if o.kind == Synced then c.failed else c.failed + 1,
           c.recordedRecords + o.recordedCount, c.skippedRecords + o.skippedCount, 0)
  }

  /** What the next poll does to the counters and to the rest of the run. */
  lemma PollStep(claims: nat -> Claim, i: nat, c: Counts, iterations: int, limit: int, workerId: string)
    requires i < iterations && Tally(claims, i, workerId) == c
    ensures var polls := Polls(claims, workerId); var run := ClaimLoop.Run(polls, i, c.emptyPolls, iterations, limit);
      match claims(i)
      case NoJob =>
        && Tally(claims, i + 1, workerId) == c.(emptyPolls := c.emptyPolls + 1)
        && run == if c.emptyPolls + 1 >= limit then ClaimLoop.Ending(i + 1, false, c.emptyPolls + 1)
                  else ClaimLoop.Run(polls, i + 1, c.emptyPolls + 1, iterations, limit)
      case Claimed(job, r) =>
        match RunResult(job, r)
        case Thrown(_) => run == ClaimLoop.Ending(i + 1, true, 0)
        case Ok(o) => Tally(claims, i + 1, workerId) == AfterRun(c, o) && run == ClaimLoop.Run(polls, i + 1, 0, iterations, limit)
  {
    ClaimLoop.PollStep(SeenBy(claims, workerId), IsSynced, i, ClaimLoop.Tally(Polls(claims, workerId), i), iterations, limit);
    assert SeenBy(claims, workerId)(i) == SeenOf(claims(i), workerId);
  }

  /** The i-th poll and what it leads to; `base` is what the log held before the first one. */
  method ProcessClaim(log: EventLog<Event>, claims: nat -> Claim, i: nat, workerId: string, ghost base: seq<Event>)
    returns (run: Option<Result<Outcome, Exception>>)
    requires log.events == base + Trace(claims, i, workerId)
    modifies log
    ensures log.events == base + Trace(claims, i + 1, workerId)
    ensures claims(i).NoJob? <==> run.None?
    ensures claims(i).Claimed? ==> run == Some(RunResult(claims(i).job, claims(i).replies))
  {
    var claim := claims(i);
    AppendAssociates(base, Trace(claims, i, workerId), ClaimLoop.EventsOf(SeenOf(claim, workerId)));
    if claim.NoJob? {
      return None;
    }
    var result := ProcessExternalSyncJob(log, claim.job, workerId, claim.replies);
    return Some(result);
  }

  /** One turn of the loop: the poll, its effects, and what it does to the counters and to the rest of the run. */
  method TakeTurn(log: EventLog<Event>, claims: nat -> Claim, i: nat, workerId: string,
                  ghost base: seq<Event>, ghost c: Counts, ghost iterations: int, ghost limit: int)
    returns (run: Option<Result<Outcome, Exception>>)
    requires i < iterations && log.events == base + Trace(claims, i, workerId) && Tally(claims, i, workerId) == c
    modifies log
    ensures log.events == base + Trace(claims, i + 1, workerId)
    ensures var polls := Polls(claims, workerId); var rest := ClaimLoop.Run(polls, i, c.emptyPolls, iterations, limit);
      match run
      case None =>
        && Tally(claims, i + 1, workerId) == c.(emptyPolls := c.emptyPolls + 1)
        && rest == if c.emptyPolls + 1 >= limit then ClaimLoop.Ending(i + 1, false, c.emptyPolls + 1)
                   else ClaimLoop.Run(polls, i + 1, c.emptyPolls + 1, iterations, limit)
      case Some(Thrown(_)) => rest == ClaimLoop.Ending(i + 1, true, 0)
      case Some(Ok(o)) => Tally(claims, i + 1, workerId) == AfterRun(c, o) && rest == ClaimLoop.Run(polls, i + 1, 0, iterations, limit)
  {
    run := ProcessClaim(log, claims, i, workerId, base);
    PollStep(claims, i, c, iterations, limit, workerId);
  }

  method RunExternalSyncWorker(log: EventLog<Event>, claims: nat -> Claim, iterations: int, emptyPollLimit: int, workerId: string)
    returns (result: Result<Counts, Exception>, ghost end: ClaimLoop.Ending)
    modifies log
    ensures end == ClaimLoop.Run(Polls(claims, workerId), 0, 0, iterations, emptyPollLimit)
    ensures log.events == old(log.events) + Trace(claims, end.polls, workerId)
    ensures result.Ok? <==> !end.threw
    ensures result.Ok? ==> result.value == Tally(claims, end.polls, workerId)
  {
    var counts := Counts(0, 0, 0, 0, 0, 0);
    end := ClaimLoop.Run(Polls(claims, workerId), 0, 0, iterations, emptyPollLimit);
    var i := 0;
    while i < iterations
      invariant 0 <= i
      invariant end == ClaimLoop.Run(Polls(claims, workerId), i, counts.emptyPolls, iterations, emptyPollLimit)
      invariant log.events == old(log.events) + Trace(claims, i, workerId)
      invariant Tally(claims, i, workerId) == counts
    {
      var run := TakeTurn(log, claims, i, workerId, old(log.events), counts, iterations, emptyPollLimit);
      i := i + 1;
      if run.None? {
        counts := counts.(emptyPolls := counts.emptyPolls + 1);
        if counts.emptyPolls >= emptyPollLimit {
          break;
        }
        continue;
      }
      if run.value.Thrown? {
        return Thrown(run.value.error), end;
      }
      counts := AfterRun(counts, run.value.value);
    }
    return Ok(counts), end;
  }

  /** A run that returns has one report, and it is about its own job. */
  ghost predicate ReportsOwnJob(job: Job, workerId: string, r: Replies) {
    var events := RunEvents(job, workerId, r);
    events != [] && IsReport(events[|events| - 1]) && events[|events| - 1].jobId == job.jobId && Count(events, IsReport) == 1
  }

  lemma SeenIsAccounted(claim: Claim, workerId: string)
    requires ClaimLoop.PollOf(SeenOf(claim, workerId), IsSynced) != ClaimLoop.Threw
    ensures ClaimLoop.OneReport(SeenOf(claim, workerId), IsSynced, IsReport, IsCompletion)
    ensures Count(ClaimLoop.EventsOf(SeenOf(claim, workerId)), IsSnapshot) == ClaimLoop.WeightOf(SeenOf(claim, workerId), Recorded)
    ensures claim.Claimed? ==> ReportsOwnJob(claim.job, workerId, claim.replies)
  {
    if claim.Claimed? {
      RunAccounts(claim.job, workerId, claim.replies);
    }
  }

  /**
   * Main result for a worker run that returns: every claimed job is counted once, as synced or
   * failed, within the iteration budget; each has exactly one report, its own, a completion exactly
   * when it synced; the snapshots written are as many as counted; and a run that stops early has
   * just seen the limit's number of empty claims.
   */
  lemma WorkerRunIsAccounted(claims: nat -> Claim, iterations: int, emptyPollLimit: int, workerId: string)
    requires !ClaimLoop.Run(Polls(claims, workerId), 0, 0, iterations, emptyPollLimit).threw
    ensures var n := ClaimLoop.Run(Polls(claims, workerId), 0, 0, iterations, emptyPollLimit).polls;
      var t, trace := Tally(claims, n, workerId), Trace(claims, n, workerId);
      && t.claimed == t.synced + t.failed <= n <= (if iterations < 0 then 0 else iterations)
      && Count(trace, IsReport) == t.claimed && Count(trace, IsCompletion) == t.synced
      && Count(trace, IsSnapshot) == t.recordedRecords
      && (forall i: nat :: i < n && claims(i).Claimed? ==> ReportsOwnJob(claims(i).job, workerId, claims(i).replies))
      && (n < iterations ==>
            && t.emptyPolls == ClaimLoop.Patience(emptyPollLimit) <= n
            && forall k: nat :: n - t.emptyPolls <= k < n ==> claims(k).NoJob?)
  {
    var seen := SeenBy(claims, workerId);
    var n := ClaimLoop.Run(Polls(claims, workerId), 0, 0, iterations, emptyPollLimit).polls;
    forall i: nat | ClaimLoop.PollOf(seen(i), IsSynced) != ClaimLoop.Threw
      ensures ClaimLoop.OneReport(seen(i), IsSynced, IsReport, IsCompletion)
      ensures Count(ClaimLoop.EventsOf(seen(i)), IsSnapshot) == ClaimLoop.WeightOf(seen(i), Recorded)
      ensures claims(i).Claimed? ==> ReportsOwnJob(claims(i).job, workerId, claims(i).replies)
    {
      SeenIsAccounted(claims(i), workerId);
    }
    ClaimLoop.RunIsAccounted(seen, IsSynced, IsReport, IsCompletion, iterations, emptyPollLimit);
    ClaimLoop.TraceCount(seen, n, IsSnapshot, Recorded);
    forall k: nat | seen(k) == ClaimLoop.NoJob ensures claims(k).NoJob? {
    }
  }
}
