/** The event logger (go-client/events.go): its configuration, the defaults `LogEvent` fills into
    an event, the request it sends and the event it reads back. The fresh UUID and the current time
    `LogEvent` may draw are parameters. */
module Events {
  import opened Wrappers
  import opened Rpc
  import opened Hex
  import opened Uuids
  import opened Timestamps
  import opened Base64
  import opened Users

  /** `Event`; its `Type` field is `kind` here, and a nil `Data` is None. */
  datatype Event = Event(
    timestamp: Time,
    id: string,
    source: string,
    specVersion: string,
    kind: string,
    dataContentType: string,
    dataSchema: string,
    subject: string,
    data: Option<seq<Byte>>,
    userID: UserID)

  /** `EventLoggerConfig`; a nil user service is None. */
  datatype EventLoggerConfig = EventLoggerConfig(source: string, specVersion: string, userService: Option<UserService>)

  datatype EventLogger = EventLogger(config: EventLoggerConfig)

  const DefaultSpecVersion := "1.0"

  const JsonContentType := "application/json"

  const TypeRequired := "`Type` is required for the event"

  /** `NewLoggerConfig`: the given source and service, and version "1.0" of the event format. */
  function NewLoggerConfig(source: string, userService: Option<UserService>): (c: EventLoggerConfig)
    ensures c.source == source && c.userService == userService
    ensures c.specVersion == DefaultSpecVersion
  {
    EventLoggerConfig(source, DefaultSpecVersion, userService)
  }

  function NewLogger(config: EventLoggerConfig): (l: EventLogger)
    ensures l.config == config
  {
    EventLogger(config)
  }

  // ---------------------------------------------------------------- defaults

  /** The event after `LogEvent`'s defaults: each of Source, ID, DataContentType, SpecVersion and
      Timestamp is replaced only when it is empty (zero, for the timestamp). */
  function WithDefaults(config: EventLoggerConfig, event: Event, freshId: Uuid, now: Time): (e: Event)
    ensures e.source == (if event.source == "" then config.source else event.source)
    ensures e.id == (if event.id == "" then Text(freshId) else event.id)
    ensures e.dataContentType == (if event.dataContentType == "" then JsonContentType else event.dataContentType)
    ensures e.specVersion == (if event.specVersion == "" then config.specVersion else event.specVersion)
    ensures e.timestamp == (if IsZero(event.timestamp) then now else event.timestamp)
    ensures e.(source := event.source, id := event.id, dataContentType := event.dataContentType,
               specVersion := event.specVersion, timestamp := event.timestamp) == event
  {
    var source := if event.source == "" then config.source else event.source;
    var id := if event.id == "" then Text(freshId) else event.id;
    var contentType := if event.dataContentType == "" then JsonContentType else event.dataContentType;
    var specVersion := if event.specVersion == "" then config.specVersion else event.specVersion;
    var timestamp := if IsZero(event.timestamp) then now else event.timestamp;
    event.(source := source, id := id, dataContentType := contentType, specVersion := specVersion,
           timestamp := timestamp)
  }

  /** After the defaults the ID and the content type are never empty, a generated ID is canonical
      UUID text, and the timestamp is zero only when the clock said so. */
  lemma DefaultsFill(config: EventLoggerConfig, event: Event, freshId: Uuid, now: Time)
    ensures var e := WithDefaults(config, event, freshId, now);
      && e.id != "" && e.dataContentType != ""
      && (event.id == "" ==> IsCanonical(e.id) && Parse(e.id) == Some(freshId))
      && (IsZero(e.timestamp) ==> IsZero(now) || IsZero(event.timestamp))
  {
    TextIsCanonical(freshId);
    ParseText(freshId);
  }

  /** A logger built by `NewLoggerConfig` never leaves the spec version empty. */
  lemma DefaultSpecVersionFilled(source: string, service: Option<UserService>, event: Event, freshId: Uuid, now: Time)
    ensures var e := WithDefaults(NewLoggerConfig(source, service), event, freshId, now);
      e.specVersion == (if event.specVersion == "" then "1.0" else event.specVersion)
  {
  }

  /** Applying the defaults twice is applying them once, whatever UUID and time the second round
      would draw, as long as the first round did not take the zero time. */
  lemma DefaultsIdempotent(config: EventLoggerConfig, event: Event, freshId: Uuid, now: Time, otherId: Uuid, later: Time)
    requires !IsZero(now)
    ensures var e := WithDefaults(config, event, freshId, now);
      WithDefaults(config, e, otherId, later) == e
  {
  }

  // ---------------------------------------------------------------- the service's messages

  /** `userapi.Event`: the identity in wire form; a nil `Data` is None. The client fills `Data`
      with the bytes `json.Marshal` wrote. */
  datatype ApiEvent = ApiEvent(
    userId: Option<ApiUserID>,
    source: string,
    kind: string,
    data: Option<seq<Byte>>,
    specversion: string,
    timestamp: Option<Timestamp>,
    id: string,
    datacontenttype: string,
    subject: string,
    dataschema: string)

  datatype EventRequest = EventRequest(event: ApiEvent)

  /** The server's answer; an event it left out is None. */
  datatype EventResponse = EventResponse(event: Option<ApiEvent>)

  /** The message `LogEvent` builds from the defaulted event. `json.Marshal` of the `[]byte` data
      cannot fail; it writes `null` for nil data and a JSON string of base64 text otherwise. */
  function ApiEventOf(e: Event): (a: ApiEvent)
    ensures ClientUserID(a.userId) == Success(e.userID)
    ensures AsTime(a.timestamp) == e.timestamp
    ensures a.data == Some(MarshalByteSlice(e.data))
    ensures UnmarshalByteSlice(a.data.value) == Some(e.data)
    ensures a.source == e.source && a.kind == e.kind && a.specversion == e.specVersion && a.id == e.id
    ensures a.datacontenttype == e.dataContentType && a.subject == e.subject && a.dataschema == e.dataSchema
  {
    ClientRpcUserID(e.userID);
    AsTimeNewTimestamp(e.timestamp);
    UnmarshalMarshalByteSlice(e.data);
    ApiEvent(Some(RpcUserID(e.userID)), e.source, e.kind, Some(MarshalByteSlice(e.data)), e.specVersion,
      Some(NewTimestamp(e.timestamp)), e.id, e.dataContentType, e.subject, e.dataSchema)
  }

  /** The event `LogEvent` returns for the server's event: a nil event panics, an identity that
      does not convert ends with its conversion's panic, a nil timestamp reads as the epoch, and
      every other field is copied. */
  function EventOf(a: Option<ApiEvent>): (r: Result<Event, Error>)
    ensures a.None? ==> r == Failure(Panic(NilDereference))
    ensures a.Some? && ClientUserID(a.value.userId).Failure? ==> r == Failure(ClientUserID(a.value.userId).error)
    ensures r.Success? <==> a.Some? && ClientUserID(a.value.userId).Success?
    ensures r.Success? ==> r.value.userID == ClientUserID(a.value.userId).value
    ensures r.Success? ==> r.value.data == a.value.data && r.value.timestamp == AsTime(a.value.timestamp)
    ensures r.Success? ==> r.value.id == a.value.id && r.value.source == a.value.source && r.value.kind == a.value.kind
    ensures r.Success? ==> r.value.specVersion == a.value.specversion && r.value.dataContentType == a.value.datacontenttype
    ensures r.Success? ==> r.value.dataSchema == a.value.dataschema && r.value.subject == a.value.subject
  {
    match a
    case None => Failure(Panic(NilDereference))
    case Some(ev) =>
      var id :- ClientUserID(ev.userId);
      Success(Event(AsTime(ev.timestamp), ev.id, ev.source, ev.specversion, ev.kind, ev.datacontenttype,
        ev.dataschema, ev.subject, ev.data, id))
  }

  /** A server that answers with the event it was sent gives back every field but the data, which
      comes back as the text the client wrote, never as the bytes it was given: `null` for nil
      data, quoted base64 text otherwise. */
  lemma EchoedEvent(e: Event)
    ensures EventOf(Some(ApiEventOf(e))) == Success(e.(data := Some(MarshalByteSlice(e.data))))
    ensures e.data.None? ==> EventOf(Some(ApiEventOf(e))).value.data == Some(NullText)
    ensures e.data.Some? ==> EventOf(Some(ApiEventOf(e))).value.data.value[0] == Quote
    ensures EventOf(Some(ApiEventOf(e))) != Success(e)
  {
    if e.data.Some? {
      assert |MarshalByteSlice(e.data)| > |e.data.value|;
    }
  }

  /** What `LogEvent` returns for the server's answer. */
  function EventAnswer(answer: Result<EventResponse, Status>): (r: Result<Event, Error>)
    ensures answer.Failure? ==> r == Failure(Remote(answer.error))
    ensures answer.Success? ==> r == EventOf(answer.value.event)
  {
    match answer
    case Failure(st) => Failure(Remote(st))
    case Success(resp) => EventOf(resp.event)
  }

  // ---------------------------------------------------------------- LogEvent

  /** The defaulting steps of `LogEvent`, one conditional assignment per field, in the source's
      order. */
  method FillDefaults(config: EventLoggerConfig, event: Event, freshId: Uuid, now: Time) returns (e: Event)
    ensures e == WithDefaults(config, event, freshId, now)
  {
    ghost var d := WithDefaults(config, event, freshId, now);
    e := event;
    if e.source == "" {
      e := e.(source := config.source);
    }
    assert e == event.(source := d.source);
    if e.id == "" {
      e := e.(id := Text(freshId));
    }
    assert e == event.(source := d.source, id := d.id);
    if e.dataContentType == "" {
      e := e.(dataContentType := JsonContentType);
    }
    assert e == event.(source := d.source, id := d.id, dataContentType := d.dataContentType);
    if e.specVersion == "" {
      e := e.(specVersion := config.specVersion);
    }
    assert e == d.(timestamp := event.timestamp);
    if IsZero(e.timestamp) {
      e := e.(timestamp := now);
    }
  }

  /** `LogEvent`: an event without a type is refused before anything is sent (the check comes
      after the source default in the source, which does not touch the type); the defaults are
      filled in; a logger without a user service panics before the call. Otherwise the defaulted
      event goes out once and the server's event is converted. */
  method LogEvent(logger: EventLogger, logEvent: EventRequest -> Result<EventResponse, Status>, event: Event,
                  freshId: Uuid, now: Time)
    returns (ex: Exchange<EventRequest, Event>)
    ensures event.kind == "" ==> ex == Exchange(None, Failure(Invalid(TypeRequired)))
    ensures event.kind != "" && logger.config.userService.None? ==>
      ex == Exchange(None, Failure(Panic(NilDereference)))
    ensures event.kind != "" && logger.config.userService.Some? ==>
      && ex.sent == Some(EventRequest(ApiEventOf(WithDefaults(logger.config, event, freshId, now))))
      && ex.result == EventAnswer(logEvent(ex.sent.value))
  {
    if event.kind == "" {
      return Exchange(None, Failure(Invalid(TypeRequired)));
    }
    var e := FillDefaults(logger.config, event, freshId, now);
    var apiEvent := ApiEventOf(e);
    if logger.config.userService.None? {
      return Exchange(None, Failure(Panic(NilDereference)));
    }
    var request := EventRequest(apiEvent);
    var answer := logEvent(request);
    if answer.Failure? {
      return Exchange(Some(request), Failure(Remote(answer.error)));
    }
    var converted := EventOf(answer.value.event);
    return Exchange(Some(request), converted);
  }
}
