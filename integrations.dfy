/** The integrations half of the client (go-client/integrations.go): integrations and job runs,
    their conversion to and from the service's messages, and the operations that send one request
    and convert the answer. Each remote call is a function parameter standing for the server. */
module Integrations {
  import opened Wrappers
  import opened Rpc
  import opened GoValues
  import opened Structpb
  import opened Timestamps

  /** Go's `int` on the 64-bit platforms the client is built for. */
  type Int64 = x: int | -0x8000_0000_0000_0000 <= x < 0x8000_0000_0000_0000

  type Int32 = x: int | -0x8000_0000 <= x < 0x8000_0000

  predicate FitsInt32(x: int) {
    -0x8000_0000 <= x < 0x8000_0000
  }

  /** The conversion `int32(x)`: the low 32 bits of x read as a two's-complement number. */
  function Narrow32(x: int): (r: Int32)
    ensures (r - x) % 0x1_0000_0000 == 0
    ensures r == x <==> FitsInt32(x)
  {
    (x + 0x8000_0000) % 0x1_0000_0000 - 0x8000_0000
  }

  // ---------------------------------------------------------------- integrations

  datatype Integration = Integration(
    id: Int64,
    name: string,
    schedule: string,
    execPath: string,
    configPath: string,
    enabled: bool,
    settings: map<string, Dyn>)

  /** `userapi.Integration`: a 32-bit id and the settings as a `*structpb.Struct`, None when nil. */
  datatype ProtoIntegration = ProtoIntegration(
    id: Int32,
    name: string,
    schedule: string,
    execPath: string,
    configPath: string,
    enabled: bool,
    settings: Option<Fields>)

  /** `toProto`: the id is narrowed to 32 bits, and settings structpb cannot convert are dropped
      (the error is discarded and the message carries a nil struct). */
  function IntegrationToProto(i: Integration): (p: ProtoIntegration)
    ensures p.id == i.id <==> FitsInt32(i.id)
    ensures p.settings.Some? <==> AllRepresentable(i.settings)
    ensures p.settings.Some? ==> AsMap(p.settings) == i.settings
    ensures p.name == i.name && p.schedule == i.schedule && p.execPath == i.execPath
    ensures p.configPath == i.configPath && p.enabled == i.enabled
  {
    ProtoIntegration(Narrow32(i.id), i.name, i.schedule, i.execPath, i.configPath, i.enabled,
      NewStruct(i.settings).ToOption())
  }

  /** `integrationFromProto`: the id widens unchanged, and a nil settings struct reads as an empty
      map. */
  function IntegrationFromProto(p: ProtoIntegration): (i: Integration)
    ensures i.id == p.id
    ensures i.settings.Keys == (if p.settings.Some? then p.settings.value.Keys else {})
  {
    Integration(p.id, p.name, p.schedule, p.execPath, p.configPath, p.enabled, AsMap(p.settings))
  }

  /** An integration sent and read back unchanged keeps every field except two: the id, which
      survives exactly when it fits in 32 bits, and the settings, which become empty when structpb
      cannot convert them. */
  lemma IntegrationRoundTrip(i: Integration)
    ensures var back := IntegrationFromProto(IntegrationToProto(i));
      && (back.id == i.id <==> FitsInt32(i.id))
      && back.settings == (if AllRepresentable(i.settings) then i.settings else map[])
      && back.(id := i.id, settings := i.settings) == i
  {
  }

  /** So the round trip is the identity exactly on integrations with a 32-bit id and settings
      structpb can represent. */
  lemma IntegrationRoundTripExact(i: Integration)
    ensures IntegrationFromProto(IntegrationToProto(i)) == i <==> FitsInt32(i.id) && AllRepresentable(i.settings)
  {
    IntegrationRoundTrip(i);
    if !AllRepresentable(i.settings) {
      var k :| k in i.settings && !Representable(i.settings[k]);
      assert k !in IntegrationFromProto(IntegrationToProto(i)).settings;
    }
  }

  /** A message read and sent again comes back unchanged, except that a nil settings struct comes
      back empty. */
  lemma ProtoIntegrationRoundTrip(p: ProtoIntegration)
    ensures IntegrationToProto(IntegrationFromProto(p)) ==
      p.(settings := Some(if p.settings.Some? then p.settings.value else map[]))
  {
    if p.settings.Some? {
      NewStructAsMap(p.settings.value);
    } else {
      NewStructAsMap(map[]);
    }
  }

  // ---------------------------------------------------------------- jobs

  /** `Job`: one run of an integration. `status` is the service's `JobStatus` enumeration, carried
      unchanged in both directions. */
  datatype Job = Job(
    integrationName: string,
    started: Time,
    ended: Time,
    status: Int32,
    error: string,
    id: Int64)

  /** `userapi.Job`: nil timestamps are None. */
  datatype ProtoJob = ProtoJob(
    integrationName: string,
    started: Option<Timestamp>,
    ended: Option<Timestamp>,
    status: Int32,
    error: string,
    id: Int32)

  function JobToProto(j: Job): (p: ProtoJob)
    ensures p.started.Some? && p.ended.Some?
    ensures AsTime(p.started) == j.started && AsTime(p.ended) == j.ended
    ensures p.id == j.id <==> FitsInt32(j.id)
    ensures p.integrationName == j.integrationName && p.status == j.status && p.error == j.error
  {
    AsTimeNewTimestamp(j.started);
    AsTimeNewTimestamp(j.ended);
    ProtoJob(j.integrationName, Some(NewTimestamp(j.started)), Some(NewTimestamp(j.ended)), j.status, j.error,
      Narrow32(j.id))
  }

  /** `jobFromProto`: a nil timestamp reads as the Unix epoch. */
  function JobFromProto(p: ProtoJob): (j: Job)
    ensures j.id == p.id
    ensures p.started.None? ==> j.started == 0
    ensures p.ended.None? ==> j.ended == 0
  {
    Job(p.integrationName, AsTime(p.started), AsTime(p.ended), p.status, p.error, p.id)
  }

  /** A job sent and read back unchanged is itself exactly when its id fits in 32 bits; the times
      always survive. */
  lemma JobRoundTrip(j: Job)
    ensures var back := JobFromProto(JobToProto(j));
      && back.(id := j.id) == j
      && (back == j <==> FitsInt32(j.id))
  {
  }

  predicate ValidTimestamp(ts: Option<Timestamp>) {
    ts.Some? ==> 0 <= ts.value.nanos < NanosPerSecond
  }

  /** A job message read and sent again comes back unchanged, except that nil timestamps come back
      as the epoch. */
  lemma ProtoJobRoundTrip(p: ProtoJob)
    requires ValidTimestamp(p.started) && ValidTimestamp(p.ended)
    ensures JobToProto(JobFromProto(p)) == p.(
      started := Some(if p.started.Some? then p.started.value else Timestamp(0, 0)),
      ended := Some(if p.ended.Some? then p.ended.value else Timestamp(0, 0)))
  {
    if p.started.Some? {
      NewTimestampAsTime(p.started.value);
    }
    if p.ended.Some? {
      NewTimestampAsTime(p.ended.value);
    }
  }

  // ---------------------------------------------------------------- the service's messages

  datatype IntegrationAddRequest = IntegrationAddRequest(integration: ProtoIntegration)
  datatype IntegrationGetRequest = IntegrationGetRequest(name: string)
  datatype IntegrationUpdateRequest = IntegrationUpdateRequest(integration: ProtoIntegration)
  datatype IntegrationRemoveRequest = IntegrationRemoveRequest(name: string)
  datatype IntegrationListRequest = IntegrationListRequest
  datatype JobUpdateRequest = JobUpdateRequest(job: ProtoJob)
  datatype JobGetHistoryRequest = JobGetHistoryRequest(integrationName: string)

  /** The answer to an add, get or update: the integration, None when the server left it out. */
  datatype IntegrationResponse = IntegrationResponse(integration: Option<ProtoIntegration>)
  datatype IntegrationListResponse = IntegrationListResponse(integrations: seq<ProtoIntegration>)
  datatype JobGetHistoryResponse = JobGetHistoryResponse(jobHistory: seq<ProtoJob>)

  /** What an add, get or update returns for the server's answer: the server's error unchanged,
      the converted integration, or a panic when the answer carries none. */
  function IntegrationAnswer(answer: Result<IntegrationResponse, Status>): (r: Result<Integration, Error>)
    ensures r.Success? <==> answer.Success? && answer.value.integration.Some?
    ensures answer.Failure? ==> r == Failure(Remote(answer.error))
    ensures r.Success? ==> r.value == IntegrationFromProto(answer.value.integration.value)
    ensures r.Success? ==> IntegrationToProto(r.value) == answer.value.integration.value.(
      settings := Some(if answer.value.integration.value.settings.Some? then answer.value.integration.value.settings.value else map[]))
  {
    match answer
    case Failure(st) => Failure(Remote(st))
    case Success(IntegrationResponse(None)) => Failure(Panic(NilDereference))
    case Success(IntegrationResponse(Some(p))) =>
      ProtoIntegrationRoundTrip(p);
      Success(IntegrationFromProto(p))
  }

  /** What an operation that only reports success returns. */
  function Acknowledged<R>(answer: Result<R, Status>): (r: Result<(), Error>)
    ensures r.Success? <==> answer.Success?
    ensures answer.Failure? ==> r.error == Remote(answer.error)
  {
    match answer
    case Failure(st) => Failure(Remote(st))
    case Success(_) => Success(())
  }

  /** A server that stores what it is sent and answers with it hands back the integration itself
      exactly when its id fits in 32 bits and structpb can represent its settings. */
  lemma EchoedIntegration(i: Integration)
    ensures var answer := Success(IntegrationResponse(Some(IntegrationToProto(i))));
      IntegrationAnswer(answer) == Success(i) <==> FitsInt32(i.id) && AllRepresentable(i.settings)
  {
    IntegrationRoundTripExact(i);
  }

  // ---------------------------------------------------------------- operations

  /** `AddIntegration`: the integration goes out as `toProto` builds it, and the answer is
      converted. */
  method AddIntegration(add: IntegrationAddRequest -> Result<IntegrationResponse, Status>, integration: Integration)
    returns (ex: Exchange<IntegrationAddRequest, Integration>)
    ensures ex.sent == Some(IntegrationAddRequest(IntegrationToProto(integration)))
    ensures ex.result == IntegrationAnswer(add(ex.sent.value))
  {
    var request := IntegrationAddRequest(IntegrationToProto(integration));
    var response := add(request);
    if response.Failure? {
      return Exchange(Some(request), Failure(Remote(response.error)));
    }
    if response.value.integration.None? {
      return Exchange(Some(request), Failure(Panic(NilDereference)));
    }
    return Exchange(Some(request), Success(IntegrationFromProto(response.value.integration.value)));
  }

  /** `GetIntegration`: asks by name. */
  method GetIntegration(get: IntegrationGetRequest -> Result<IntegrationResponse, Status>, name: string)
    returns (ex: Exchange<IntegrationGetRequest, Integration>)
    ensures ex.sent == Some(IntegrationGetRequest(name))
    ensures ex.result == IntegrationAnswer(get(ex.sent.value))
  {
    var request := IntegrationGetRequest(name);
    var response := get(request);
    if response.Failure? {
      return Exchange(Some(request), Failure(Remote(response.error)));
    }
    if response.value.integration.None? {
      return Exchange(Some(request), Failure(Panic(NilDereference)));
    }
    return Exchange(Some(request), Success(IntegrationFromProto(response.value.integration.value)));
  }

  /** `UpdateIntegration`: the same shape as `AddIntegration`. */
  method UpdateIntegration(update: IntegrationUpdateRequest -> Result<IntegrationResponse, Status>, integration: Integration)
    returns (ex: Exchange<IntegrationUpdateRequest, Integration>)
    ensures ex.sent == Some(IntegrationUpdateRequest(IntegrationToProto(integration)))
    ensures ex.result == IntegrationAnswer(update(ex.sent.value))
  {
    var request := IntegrationUpdateRequest(IntegrationToProto(integration));
    var response := update(request);
    if response.Failure? {
      return Exchange(Some(request), Failure(Remote(response.error)));
    }
    if response.value.integration.None? {
      return Exchange(Some(request), Failure(Panic(NilDereference)));
    }
    return Exchange(Some(request), Success(IntegrationFromProto(response.value.integration.value)));
  }

  /** `RemoveIntegration`: asks by name; the answer's content is ignored. */
  method RemoveIntegration<R>(remove: IntegrationRemoveRequest -> Result<R, Status>, name: string)
    returns (ex: Exchange<IntegrationRemoveRequest, ()>)
    ensures ex.sent == Some(IntegrationRemoveRequest(name))
    ensures ex.result == Acknowledged(remove(ex.sent.value))
  {
    var request := IntegrationRemoveRequest(name);
    var response := remove(request);
    if response.Failure? {
      return Exchange(Some(request), Failure(Remote(response.error)));
    }
    return Exchange(Some(request), Success(()));
  }

  /** `ListIntegrations`: one converted integration per message in the answer, in the server's
      order. */
  method ListIntegrations(list: IntegrationListRequest -> Result<IntegrationListResponse, Status>)
    returns (ex: Exchange<IntegrationListRequest, seq<Integration>>)
    ensures ex.sent == Some(IntegrationListRequest)
    ensures ex.result.Success? <==> list(IntegrationListRequest).Success?
    ensures ex.result.Failure? ==> ex.result.error == Remote(list(IntegrationListRequest).error)
    ensures ex.result.Success? ==>
      var ps := list(IntegrationListRequest).value.integrations;
      |ex.result.value| == |ps| && forall k :: 0 <= k < |ps| ==> ex.result.value[k] == IntegrationFromProto(ps[k])
  {
    var request := IntegrationListRequest;
    var response := list(request);
    if response.Failure? {
      return Exchange(Some(request), Failure(Remote(response.error)));
    }
    var ps := response.value.integrations;
    var integrations: seq<Integration> := [];
    var n := 0;
    while n < |ps|
      invariant 0 <= n <= |ps|
      invariant |integrations| == n
      invariant forall k :: 0 <= k < n ==> integrations[k] == IntegrationFromProto(ps[k])
    {
      integrations := integrations + [IntegrationFromProto(ps[n])];
      n := n + 1;
    }
    return Exchange(Some(request), Success(integrations));
  }

  /** `JobUpdate`: the job goes out as `toProto` builds it; the answer's content is ignored. */
  method JobUpdate<R>(update: JobUpdateRequest -> Result<R, Status>, job: Job)
    returns (ex: Exchange<JobUpdateRequest, ()>)
    ensures ex.sent == Some(JobUpdateRequest(JobToProto(job)))
    ensures ex.result == Acknowledged(update(ex.sent.value))
  {
    var request := JobUpdateRequest(JobToProto(job));
    var response := update(request);
    if response.Failure? {
      return Exchange(Some(request), Failure(Remote(response.error)));
    }
    return Exchange(Some(request), Success(()));
  }

  /** `GetJobHistory`: asks by integration name; one converted job per message in the answer, in
      the server's order. */
  method GetJobHistory(history: JobGetHistoryRequest -> Result<JobGetHistoryResponse, Status>, integrationName: string)
    returns (ex: Exchange<JobGetHistoryRequest, seq<Job>>)
    ensures ex.sent == Some(JobGetHistoryRequest(integrationName))
    ensures ex.result.Success? <==> history(ex.sent.value).Success?
    ensures ex.result.Failure? ==> ex.result.error == Remote(history(ex.sent.value).error)
    ensures ex.result.Success? ==>
      var ps := history(ex.sent.value).value.jobHistory;
      |ex.result.value| == |ps| && forall k :: 0 <= k < |ps| ==> ex.result.value[k] == JobFromProto(ps[k])
  {
    var request := JobGetHistoryRequest(integrationName);
    var response := history(request);
    if response.Failure? {
      return Exchange(Some(request), Failure(Remote(response.error)));
    }
    var ps := response.value.jobHistory;
    var jobs: seq<Job> := [];
    var n := 0;
    while n < |ps|
      invariant 0 <= n <= |ps|
      invariant |jobs| == n
      invariant forall k :: 0 <= k < n ==> jobs[k] == JobFromProto(ps[k])
    {
      jobs := jobs + [JobFromProto(ps[n])];
      n := n + 1;
    }
    return Exchange(Some(request), Success(jobs));
  }
}
