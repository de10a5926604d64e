/** The session logger (go-client/session.go): session identifiers, the logger's configuration and
    the session event `LogEvent` sends. The random prime and the current time are parameters. */
module Sessions {
  import opened Wrappers
  import opened Rpc
  import opened Hex
  import opened GoValues
  import opened Structpb
  import opened Json
  import opened Timestamps
  import opened Users
  import Events

  /** `NewSessionID`: the prime `rand.Prime` drew, printed with `%x`. The error of `rand.Prime` is
      ignored, so when it fails the nil number prints as "<nil>". */
  function NewSessionID(prime: Option<nat>): (id: string)
    ensures prime.None? ==> id == "<nil>"
    ensures prime.Some? ==> ParseNat(id) == Some(prime.value)
  {
    match prime
    case None => "<nil>"
    case Some(p) =>
      ParseNatText(p);
      NatText(p)
  }

  /** A 64-bit prime (its top bit set, as `rand.Prime` returns it) gives sixteen lower-case
      hexadecimal digits, and distinct primes give distinct identifiers. */
  lemma SessionIDShape(p: nat, q: nat)
    requires 0x8000_0000_0000_0000 <= p < 0x1_0000_0000_0000_0000
    ensures var id := NewSessionID(Some(p));
      |id| == 16 && forall i :: 0 <= i < |id| ==> IsLowerDigit(id[i])
    ensures NewSessionID(Some(p)) == NewSessionID(Some(q)) ==> p == q
  {
    assert Pow16(15) == 0x1000_0000_0000_0000 by {
      assert Pow16(4) == 0x1_0000;
      assert Pow16(8) == 0x1_0000_0000 by {
        assert Pow16(8) == 16 * 16 * 16 * 16 * Pow16(4);
      }
      assert Pow16(12) == 0x1_0000_0000_0000 by {
        assert Pow16(12) == 16 * 16 * 16 * 16 * Pow16(8);
      }
      assert Pow16(15) == 16 * 16 * 16 * Pow16(12);
    }
    assert Pow16(16) == 16 * Pow16(15);
    NatTextLength(p, 16);
    if NewSessionID(Some(p)) == NewSessionID(Some(q)) {
      NatTextInjective(p, q);
    }
  }

  /** `SessionEventLoggerConfig`; a nil user service is None. */
  datatype SessionEventLoggerConfig = SessionEventLoggerConfig(
    source: string,
    specVersion: string,
    userService: Option<UserService>)

  datatype SessionEventLogger = SessionEventLogger(config: SessionEventLoggerConfig)

  /** `NewSessionLoggerConfig`: declared to return the event logger's configuration type, not the
      session logger's, and built exactly as `NewLoggerConfig` builds it. */
  function NewSessionLoggerConfig(source: string, userService: Option<UserService>): (c: Events.EventLoggerConfig)
    ensures c.source == source && c.userService == userService && c.specVersion == "1.0"
  {
    Events.EventLoggerConfig(source, "1.0", userService)
  }

  lemma SessionConfigIsEventConfig(source: string, userService: Option<UserService>)
    ensures NewSessionLoggerConfig(source, userService) == Events.NewLoggerConfig(source, userService)
  {
  }

  function NewSessionLogger(config: SessionEventLoggerConfig): (l: SessionEventLogger)
    ensures l.config == config
  {
    SessionEventLogger(config)
  }

  // ---------------------------------------------------------------- the service's messages

  /** `userapi.SessionEvent`: the data as the JSON document `json.Marshal` wrote. */
  datatype SessionEvent = SessionEvent(
    sessionKey: string,
    source: string,
    kind: string,
    data: JsonValue,
    specversion: string,
    timestamp: Option<Timestamp>,
    datacontenttype: string,
    subject: string,
    dataschema: string)

  datatype SessionEventRequest = SessionEventRequest(event: SessionEvent)

  const JsonContentType := "application/json"

  /** The event `LogEvent` sends: the caller's key, type, subject and schema as given, the
      logger's source and spec version, the current time, and always the JSON content type; None
      for data encoding/json cannot write. */
  function SessionEventOf(config: SessionEventLoggerConfig, sessionKey: string, dataType: string, schema: string,
                          subject: string, data: Dyn, now: Time): (r: Result<SessionEvent, Error>)
    ensures r.Success? <==> Writable(data)
    ensures r.Success? ==> Marshal(data) == Success(r.value.data)
    ensures r.Success? ==>
      && r.value.sessionKey == sessionKey && r.value.kind == dataType
      && r.value.subject == subject && r.value.dataschema == schema
      && r.value.source == config.source && r.value.specversion == config.specVersion
      && r.value.datacontenttype == JsonContentType
      && AsTime(r.value.timestamp) == now
    ensures r.Success? && Untyped(data) ==> Unmarshal(r.value.data) == data
  {
    var dataBytes :- Marshal(data);
    assert Untyped(data) ==> Unmarshal(dataBytes) == data by {
      if Untyped(data) {
        UnmarshalMarshal(data);
      }
    }
    AsTimeNewTimestamp(now);
    Success(SessionEvent(sessionKey, config.source, dataType, dataBytes, config.specVersion,
      Some(NewTimestamp(now)), JsonContentType, subject, schema))
  }

  /** Data of a Go type of its own (a struct or a pointer to one, a `[]string`, ...) goes out as
      the document encoding/json writes for it, although structpb refuses such a value; a reader
      of that document gets an untyped value back, never the typed one. */
  lemma TypedDataSent(config: SessionEventLoggerConfig, sessionKey: string, dataType: string, schema: string,
                      subject: string, kind: string, written: JsonValue, now: Time)
    ensures var r := SessionEventOf(config, sessionKey, dataType, schema, subject, Typed(kind, written), now);
      && r.Success? && r.value.data == written
      && NewValue(Typed(kind, written)).Failure?
      && Unmarshal(r.value.data) != Typed(kind, written)
  {
    UnmarshalUntyped(written);
  }

  /** The fields the caller does not choose are the same for every event of one logger. */
  lemma FixedFields(logger: SessionEventLogger, key1: string, type1: string, schema1: string, subject1: string, data1: Dyn,
                    key2: string, type2: string, schema2: string, subject2: string, data2: Dyn, now: Time)
    requires Writable(data1) && Writable(data2)
    ensures var e1 := SessionEventOf(logger.config, key1, type1, schema1, subject1, data1, now).value;
      var e2 := SessionEventOf(logger.config, key2, type2, schema2, subject2, data2, now).value;
      e1.(sessionKey := key2, kind := type2, dataschema := schema2, subject := subject2, data := e2.data) == e2
  {
  }

  /** `LogEvent`: data encoding/json cannot write is returned as the error with no remote call; a
      logger without a user service panics before the call; otherwise the event goes out once and
      only the server's error is returned. */
  method LogEvent(logger: SessionEventLogger, logSessionEvent: SessionEventRequest -> Result<(), Status>,
                  sessionKey: string, dataType: string, schema: string, subject: string, data: Dyn, now: Time)
    returns (ex: Exchange<SessionEventRequest, ()>)
    ensures !Writable(data) ==> ex == Exchange(None, Failure(Marshal(data).error))
    ensures Writable(data) && logger.config.userService.None? ==>
      ex == Exchange(None, Failure(Panic(NilDereference)))
    ensures Writable(data) && logger.config.userService.Some? ==>
      && ex.sent == Some(SessionEventRequest(SessionEventOf(logger.config, sessionKey, dataType, schema, subject, data, now).value))
      && (ex.result.Success? <==> logSessionEvent(ex.sent.value).Success?)
      && (ex.result.Failure? ==> ex.result.error == Remote(logSessionEvent(ex.sent.value).error))
  {
    var dataBytes := Marshal(data);
    if dataBytes.Failure? {
      return Exchange(None, Failure(dataBytes.error));
    }
    var event := SessionEvent(sessionKey, logger.config.source, dataType, dataBytes.value, logger.config.specVersion,
      Some(NewTimestamp(now)), JsonContentType, subject, schema);
    if logger.config.userService.None? {
      return Exchange(None, Failure(Panic(NilDereference)));
    }
    var request := SessionEventRequest(event);
    var answer := logSessionEvent(request);
    if answer.Failure? {
      return Exchange(Some(request), Failure(Remote(answer.error)));
    }
    return Exchange(Some(request), Success(()));
  }
}
