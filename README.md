# userservice-go-sdk client core in Dafny

This project models the data-mapping layer of the Go client of the Hillside Labs user service
(`go-client/`). That layer turns the client's structures into the messages it sends to the user
and integrations services, and turns the answers back into client structures. It covers:

- the query language (`query.go`) and the JSON document encoding/json writes for it, key by key as
  the struct tags decide;
- user identities, their wire form and the search-parameter builders (`userup.go`);
- the user operations that encode, call and convert (`AddUser`, `UpdateUser`, `GetUser`,
  `FindUser`, `QueryUsers`);
- integrations and job runs and their protobuf form (`integrations.go`), with the list-building
  loops;
- the event logger's defaulting, validation and request construction (`events.go`);
- the session logger's configuration, identifiers and request construction (`session.go`).

The remote service is a function parameter from request to `Result<response, Status>`. Each
operation returns an `Exchange`: the request it handed to the server (None when it stopped first)
and what it returned. So "no remote call" is `sent == None`. A Go panic is the error
`Panic(reason)`. `uuid.New()`, `time.Now()` and the prime `rand.Prime` draws are parameters.

The library behaviour the client relies on is modelled as far as the client's promises need it:

- structpb's `NewValue`, `NewStruct`, `AsInterface` and `AsMap`;
- encoding/json's output as a tree, with map keys in ascending order and omitempty;
- timestamppb's `New` and `AsTime`;
- the canonical text of a UUID and `uuid.MustParse`;
- `%x` of an integer;
- the base64 text encoding/json writes for a `[]byte` (section 4 of RFC 4648).

Modules and files:

| module | file | models |
|---|---|---|
| `Wrappers`, `Rpc` | wrappers.dfy | Option/Result, the errors an operation ends with, the `Exchange` of one call, front-to-back conversion of a slice |
| `Hex` | hex.dfy | lower-case hexadecimal text of bytes and of integers |
| `Uuids` | uuids.dfy | UUIDs, `String` and `MustParse` |
| `Keys` | keys.dfy | the byte-wise string order encoding/json sorts map keys by |
| `GoValues` | govalues.dfy | the Go values held in `interface{}` positions, and JSON documents as trees |
| `Structpb` | structpb.dfy | protobuf `Value`/`Struct` and their conversions |
| `Json` | json.dfy | encoding/json output as a tree, `json.Marshal`/`json.Unmarshal` of `interface{}` values, maps and slices |
| `Timestamps` | timestamps.dfy | `time.Time` instants and `timestamppb.Timestamp` |
| `Base64` | base64.dfy | encoding/json's form of a `[]byte` |
| `Queries` | query.dfy | `Query`, `Join`, `Order`, `Condition` and their encoding |
| `Users` | users.dfy | identities, builders, users and the user operations |
| `FilterSlices` | slices.dfy | `WithAttribute` with Go's shared slice backing arrays (see Findings) |
| `Integrations` | integrations.dfy | `Integration`, `Job`, their conversions and the integrations operations |
| `Events` | events.dfy | the event logger |
| `Sessions` | sessions.dfy | the session logger |

Three properties of the code as written are kept in the model:

- identities are plain structs whose zero fields mean "not given", so a numeric id of 0 and no numeric id are the same identity;
- an order's direction is any string, never checked against "ASC"/"DESC";
- the search-parameter builders and `toProto` swallow conversion errors instead of returning them.

## Model

| member | source | states |
|---|---|---|
| Rpc.MapAll | go-client/userup.go:252-256 | converting response elements front to back succeeds exactly when every element converts, and then gives one result per element, in order |
| Rpc.MapAllFailure | go-client/userup.go:404-420 | once a prefix of the responses fails to convert, the whole conversion fails with that prefix's error |
| Hex.DigitValue | go-client/session.go:18 | a hexadecimal digit's value lies in 0..15 |
| Hex.ValueDigit | go-client/session.go:18 | a lower-case digit is the digit of its own value |
| Hex.BytesText | go-client/userup.go:151 | the hexadecimal text of bytes has two lower-case digits per byte |
| Hex.ParseBytes | go-client/userup.go:159 | parsed hexadecimal text has half as many bytes as characters |
| Hex.ParseBytesText | go-client/userup.go:151-159 | parsing the hexadecimal text of bytes gives the bytes back |
| Hex.BytesTextParse | go-client/userup.go:151-159 | lower-case text that parses prints back as itself |
| Hex.NatText | go-client/session.go:18 | `%x` of a number is non-empty lower-case digits with no leading zero |
| Hex.NatTextLength | go-client/session.go:17-18 | a number with k hexadecimal digits prints as k characters |
| Hex.ParseNatText | go-client/session.go:18 | the `%x` text of a number reads back as that number |
| Hex.NatTextInjective | go-client/session.go:18 | distinct numbers print as distinct `%x` texts |
| Uuids.Text | go-client/userup.go:151 | a UUID's text is 36 characters long |
| Uuids.TextPieces | go-client/userup.go:151 | the text is the five byte groups in hexadecimal, joined by hyphens at offsets 8, 13, 18 and 23 |
| Uuids.ParseText | go-client/userup.go:151-159 | `MustParse` of a UUID's text gives the UUID back |
| Uuids.TextIsCanonical | go-client/userup.go:151 | a UUID's text is always canonical |
| Uuids.CanonicalText | go-client/userup.go:159 | every canonical text parses, to the UUID whose text it is |
| Uuids.LowerDigitsParse | go-client/userup.go:159 | even-length runs of lower-case digits always parse |
| Uuids.TextOfGroups | go-client/userup.go:151 | the text of a UUID assembled from five groups is the groups' texts joined by hyphens |
| Uuids.NilText | go-client/userup.go:151 | the zero UUID prints as `00000000-0000-0000-0000-000000000000` |
| Keys.Reflexive | go-client/query.go:18 | the key order is reflexive |
| Keys.Antisymmetric | go-client/query.go:18 | the key order is antisymmetric |
| Keys.Transitive | go-client/query.go:18 | the key order is transitive |
| Keys.Total | go-client/query.go:18 | any two keys are ordered one way or the other |
| Keys.LeastExists | go-client/query.go:18 | a non-empty key set has a least key |
| Keys.Least | go-client/query.go:18 | the least key is in the set and sorts no later than any other |
| Keys.SortedKeys | go-client/query.go:18 | the keys of a map in encoding order: each key exactly once, strictly ascending |
| Structpb.AsMap | go-client/userup.go:376-383 | a nil struct reads as an empty map; otherwise the same keys, each value read with `AsInterface` |
| Structpb.NewValue | go-client/userup.go:73 | conversion fails exactly on values holding a type structpb does not take (a struct, a pointer, a `[]string`, a channel, ...), and a converted value reads back as the original |
| Structpb.NewValues | go-client/userup.go:73 | a slice converts exactly when every element does, element by element in order |
| Structpb.NewStructValue | go-client/userup.go:127-134 | a `map[string]interface{}` converts exactly when all its values do, and the struct reads back as the map |
| Structpb.NewStruct | go-client/userup.go:127-134 | a map converts exactly when all its values do, and reads back as itself with `AsMap` |
| Structpb.NewValueAsInterface | go-client/userup.go:376-383 | a protobuf value read as a Go value converts back to itself |
| Structpb.AsInterfaceRepresentable | go-client/userup.go:376-383 | what `AsInterface` returns is always convertible |
| Structpb.AsInterfaceInjective | go-client/userup.go:376-383 | distinct protobuf values read as distinct Go values |
| Structpb.NewStructAsMap | go-client/integrations.go:26-46 | a struct read with `AsMap` converts back to the same fields |
| Json.KeysOf | go-client/query.go:7-30 | the keys of an object's members, in the order written |
| Json.Get | go-client/query.go:7-30 | a key is found exactly when some member carries it, and then with that member's value |
| Json.EncodeEntries | go-client/query.go:18 | writing map entries in a key order succeeds exactly when every value encodes; the members carry those keys, in that order, with the values' encodings |
| Json.EncodeMap | go-client/query.go:18 | a map is written with its keys in ascending order, and fails exactly when some value fails |
| Json.EncodeMapMembers | go-client/query.go:18 | every written member holds its key's value's encoding |
| Json.EncodeMapGet | go-client/query.go:18 | looking a map key up in the written object finds its value's encoding |
| Json.GetDistinct | go-client/query.go:7-30 | in an object with distinct keys, each member's key finds that member |
| Json.Marshal | go-client/query.go:14 | `json.Marshal` of an `interface{}` value fails exactly on values holding an unsupported type; a value of a Go type of its own is written as its document |
| Json.MarshalObject | go-client/query.go:14 | a `map[string]interface{}` is written as an object exactly when all its values can be written |
| Json.MarshalMembers | go-client/query.go:14 | a map's entries in a given key order: those keys, each with its value's encoding |
| Json.MarshalItems | go-client/session.go:56 | a `[]interface{}` is written element by element, in order |
| Json.MembersToMap | go-client/session.go:56 | the map read from an object has exactly the object's keys |
| Json.MembersToMapDistinct | go-client/session.go:56 | with distinct keys, each member reads back under its key |
| Json.UnmarshalMarshal | go-client/session.go:56 | reading back what `json.Marshal` wrote gives the original value, for values of no Go type of their own |
| Json.UnmarshalUntyped | go-client/session.go:56 | `json.Unmarshal` into `interface{}` only builds untyped, writable values, so a typed value never reads back as itself |
| Json.UnmarshalMarshalSlice | go-client/session.go:56 | a slice whose elements round-trip round-trips |
| Json.UnmarshalMarshalDict | go-client/session.go:56 | a map whose values round-trip round-trips |
| Json.EncodedEntriesReadBack | go-client/session.go:56 | the members written for a map read back as that map |
| Json.DecodeMap | go-client/query.go:18 | reading an object into a map succeeds exactly when every member decodes, and gives exactly the object's keys |
| Json.DecodeMapDistinct | go-client/query.go:18 | with distinct keys, each key maps to its member's decoded value |
| Json.EncodeMapShape | go-client/query.go:18 | what a map is written as: distinct keys, exactly the map's keys, each with its value's encoding |
| Json.DecodeEncodeMap | go-client/query.go:18 | decoding a written map with a decoder that inverts the encoder gives the map back |
| Json.DecodeMembers | go-client/query.go:18 | distinct members, one per key, each decoding to its key's value, decode to that map |
| Json.GetStructMembers | go-client/query.go:17-24 | a struct field reads back as its encoding, absent when omitted |
| Json.GetAbsent | go-client/query.go:17-24 | a key that no struct field has is absent |
| Json.EncodeList | go-client/query.go:19-23 | a slice is written element by element, in order, and fails exactly when an element fails |
| Json.DecodeList | go-client/query.go:19-23 | an array reads element by element, in order |
| Json.DecodeEncodeList | go-client/query.go:19-23 | decoding a written slice with an inverse decoder gives the slice back |
| Timestamps.NewTimestamp | go-client/events.go:88 | `timestamppb.New` gives nanoseconds in [0, 10^9) and seconds and nanoseconds that add up to the instant |
| Timestamps.AsTime | go-client/events.go:101 | a nil timestamp reads as the Unix epoch |
| Timestamps.AsTimeNewTimestamp | go-client/events.go:88-101 | an instant survives `New` followed by `AsTime` |
| Timestamps.NewTimestampAsTime | go-client/integrations.go:62-74 | a timestamp with in-range nanoseconds survives `AsTime` followed by `New` |
| Base64.Symbol | go-client/events.go:77 | each 6-bit value has a symbol that reads back as it |
| Base64.SymbolValue | go-client/events.go:77 | a symbol's value is a 6-bit value |
| Base64.Encode | go-client/events.go:77 | the base64 text of n bytes has 4 characters per started group of 3, all symbols or padding |
| Base64.Group | go-client/events.go:77 | three bytes become four characters |
| Base64.DecodeEncode | go-client/events.go:77 | the base64 text of any bytes decodes to those bytes |
| Base64.DecodeOne | go-client/events.go:77 | a final single byte decodes back from its padded group |
| Base64.DecodeTwo | go-client/events.go:77 | a final pair of bytes decodes back from its padded group |
| Base64.DecodeGroup | go-client/events.go:77 | a full group decodes back, in front of any text that decodes |
| Base64.MarshalBytes | go-client/events.go:77-80 | `json.Marshal` of a non-nil `[]byte` never fails and writes quoted base64 text, longer than the data |
| Base64.UnmarshalBytes | go-client/events.go:77-80 | unquoting and decoding the written text gives the data back |
| Base64.MarshalByteSlice | go-client/events.go:77 | a nil `[]byte` is written `null`, any other (the empty one too) as quoted base64 text |
| Base64.UnmarshalMarshalByteSlice | go-client/events.go:77 | what is written for a `[]byte` reads back as that slice, nil as nil and empty as empty |
| Queries.EncodeCondition | go-client/query.go:14 | a Condition encodes exactly when its values can be written; null exactly for a nil map |
| Queries.EncodeFilter | go-client/query.go:18 | a filter is an object with the map's keys in ascending order; it fails exactly when a condition fails |
| Queries.EncodeJoin | go-client/query.go:7-11 | a join encodes exactly when its filter does |
| Queries.EncodeQuery | go-client/query.go:17-24 | a Query encodes, as an object, exactly when every condition value of its filter and of its joins' filters can be written |
| Queries.DecodeEncodeCondition | go-client/query.go:14 | a written Condition whose values are of no Go type of their own reads back as itself |
| Queries.DecodeEncodeFilter | go-client/query.go:18 | a written filter of such Conditions reads back as itself |
| Queries.DecodeEncodeOrder | go-client/query.go:27-30 | a written Order reads back as itself |
| Queries.OrderMembers | go-client/query.go:27-30 | an Order always writes both `field` and `direction`, whatever the direction string |
| Queries.DecodeEncodeJoin | go-client/query.go:7-11 | a written Join whose filter holds such Conditions reads back as itself |
| Queries.JoinMembers | go-client/query.go:7-11 | a Join always writes `table` and `on`, and `filter` only when the filter is non-empty |
| Queries.DecodeEncodeQuery | go-client/query.go:17-24 | a written Query whose condition values are of no Go type of their own reads back as itself: the wire form loses nothing, since omitted fields are the zero values |
| Queries.LimitReadBack | go-client/query.go:21-22 | an omitted `limit`/`offset` reads back as 0, so Limit 0 and no limit are the same Query |
| Queries.SelectReadBack | go-client/query.go:19 | `select`, omitted when empty, reads back as the same list |
| Queries.OrderByReadBack | go-client/query.go:20 | `order_by`, omitted when empty, reads back as the same list |
| Queries.JoinsReadBack | go-client/query.go:23 | `joins`, omitted when empty, reads back as the same list |
| Queries.QueryMembers | go-client/query.go:17-24 | which Query fields are written: `filter` always, the others only when non-empty or non-zero |
| Queries.QueryMembersOf | go-client/query.go:17-24 | what each written Query field holds |
| Queries.EncodedFieldPresence | go-client/query.go:18-23 | `filter` is always present, as null exactly for a nil Filter; `select`, `order_by`, `joins` are present exactly when non-empty; `limit`, `offset` exactly when non-zero |
| Queries.EncodedSelect | go-client/query.go:19 | Select is written element by element, in order |
| Queries.EncodedOrderBy | go-client/query.go:20 | OrderBy is written element by element, in order, each with both fields |
| Queries.EncodedJoins | go-client/query.go:23 | Joins are written element by element, in order, each with `table` and `on`, and a sorted-key `filter` only when non-empty |
| Queries.OrdersWrittenInOrder | go-client/query.go:20 | the encoding of a list of orders keeps each order's fields at its index |
| Queries.JoinsWrittenInOrder | go-client/query.go:23 | the encoding of a list of joins keeps each join's fields at its index |
| Queries.JoinWrittenOf | go-client/query.go:7-11 | a single join is written as `JoinWritten` describes |
| Queries.SelectWrittenInOrder | go-client/query.go:19 | the encoding of the select list is its strings, in order |
| Queries.SampleQueryWire | cmd/sample-client/main.go:47-59 | the sample query is sent with a null `filter`, no `select`, `order_by`, `limit` or `offset`, and one join |
| Queries.SampleJoinWire | cmd/sample-client/main.go:47-59 | the sample join is sent with `joins[0].filter.attribute.alias == "dumbledore"` |
| Queries.JoinWire | go-client/query.go:7-11 | a join filtering one attribute on one string value carries that value at `filter.<attribute>.<key>` |
| Queries.MarshalSingle | go-client/query.go:14 | a one-entry Condition is written as a one-member object |
| Users.ConstructorsMeetOnlyAtZero | go-client/userup.go:41-51 | `UID`, `UUID` and `ExtID` each set their own field and leave the others zero; `UID(0)` is the zero `UserID`, and two constructors agree only at zero |
| Users.RpcUserID | go-client/userup.go:148-154 | numeric and external ids are copied; the UUID always goes out, as canonical text that parses back to it |
| Users.ClientUserID | go-client/userup.go:156-162 | succeeds exactly on a present identity whose UUID text parses; a nil identity or bad UUID panics |
| Users.ClientRpcUserID | go-client/userup.go:148-162 | `clientUserID(rpcUserID(id)) == id` for every id |
| Users.RpcClientUserID | go-client/userup.go:148-162 | a wire identity with canonical UUID text survives the trip in and back out |
| Users.UnsetUuidIsSentAsNil | go-client/userup.go:41-51 | identities from `UID` and `ExtID` send the all-zero UUID text |
| Users.ChosenOperator | go-client/userup.go:68-71 | EQUALS without an operator argument, the first one otherwise |
| Users.WithAttribute | go-client/userup.go:67-81 | the old attribute filters plus one at the end, with the name, the chosen operator and the value (nil exactly when it cannot be converted); ID, Username and TraitFilters unchanged |
| Users.ForkedBuildersIndependent | go-client/userup.go:67-81 | two builders from the same params each keep their own new filter and share only the old filters |
| Users.WithTrait | go-client/userup.go:83-97 | as `WithAttribute`, on the trait filters; the attribute filters unchanged |
| Users.UserSearchToUserQuery | go-client/userup.go:236-244 | the filters go out unchanged and in order, the username as is, and the identity reads back as the params' |
| Users.FieldsAsInterfaces | go-client/userup.go:376-383 | filling a map from a struct's fields gives exactly its keys, each read with `AsInterface`; a nil struct panics |
| Users.UserOfShape | go-client/userup.go:375-390 | a response converts exactly when both structs are present and the id converts; the maps have exactly the response's keys |
| Users.UserResponseToUser | go-client/userup.go:375-390 | the loops of `UserResponseToUser` compute `UserOf` |
| Users.StoredUserReadsBack | go-client/userup.go:125-145 | a user sent as `AddUser` writes it and answered back unchanged converts to itself |
| Users.NewUserRequest | go-client/userup.go:127-141 | the request is built exactly when both maps convert; it carries the external id, UUID, username and maps that read back as the user's |
| Users.NewUserIgnoresNumericID | go-client/userup.go:135-141 | users differing only in their numeric id produce the same create request |
| Users.AddUser | go-client/userup.go:125-146 | nothing is sent when a map cannot be converted, and the conversion error is returned; otherwise the request goes out once and the answer is converted |
| Users.UpdateUserRequest | go-client/userup.go:202-216 | built exactly when both maps convert; the whole identity, username and both maps go out |
| Users.UpdateUser | go-client/userup.go:201-221 | the same encode-then-call shape as `AddUser` |
| Users.GetUser | go-client/userup.go:226-234 | a request with only the identity goes out; the answer is converted |
| Users.FindUser | go-client/userup.go:246-257 | the search goes out as `UserSearchToUserQuery` builds it; one user per response, in order |
| Users.AppendUsers | go-client/userup.go:252-256 | the append loop computes the front-to-back conversion of the responses |
| Users.QueryUsers | go-client/userup.go:395-422 | a query that cannot be written is returned as the error with nothing sent; otherwise its JSON goes out and the users are converted |
| Users.ConvertUsers | go-client/userup.go:404-420 | the index-filling loop computes the front-to-back conversion of the responses |
| FilterSlices.Append | go-client/userup.go:79 | `append` shows the old elements plus the new one; with room it writes the shared backing array, otherwise a fresh one |
| FilterSlices.WithAttributeAsWritten | go-client/userup.go:67-81 | the copy's slice shows the old filters plus the new one; ID, Username and TraitFilters unchanged |
| FilterSlices.OneCallAgrees | go-client/userup.go:67-81 | a single call shows the same filters as `Users.WithAttribute` |
| FilterSlices.ForkedBuildersShareSlot | go-client/userup.go:79 | two builders from params with spare capacity write the same slot: the first result then shows the second filter |
| FilterSlices.ThreeThenFork | go-client/userup.go:79 | params built with three `WithAttribute` calls, forked twice, show the second fork's filter in the first |
| Integrations.Narrow32 | go-client/integrations.go:28 | `int32(x)` is congruent to x modulo 2^32, and equals x exactly when x fits in 32 bits |
| Integrations.IntegrationToProto | go-client/integrations.go:25-36 | the id narrowed; settings nil exactly when they cannot be converted, else reading back as the settings; the other fields copied |
| Integrations.IntegrationFromProto | go-client/integrations.go:38-48 | the id widened unchanged; nil settings read as an empty map |
| Integrations.IntegrationRoundTrip | go-client/integrations.go:25-48 | Name, Schedule, ExecPath, ConfigPath and Enabled survive; the id exactly when it fits in 32 bits; unconvertible settings come back empty |
| Integrations.IntegrationRoundTripExact | go-client/integrations.go:25-48 | the round trip is the identity exactly on a 32-bit id and convertible settings |
| Integrations.ProtoIntegrationRoundTrip | go-client/integrations.go:25-48 | a message read and sent again is unchanged, but nil settings come back empty |
| Integrations.JobToProto | go-client/integrations.go:59-68 | both timestamps present and reading back as the times; the id narrowed; other fields copied |
| Integrations.JobFromProto | go-client/integrations.go:70-79 | the id widened; a nil timestamp reads as the Unix epoch |
| Integrations.JobRoundTrip | go-client/integrations.go:59-79 | everything but the id survives; the whole job exactly when the id fits in 32 bits |
| Integrations.ProtoJobRoundTrip | go-client/integrations.go:59-79 | a job message read and sent again is unchanged, but nil timestamps come back as the epoch |
| Integrations.IntegrationAnswer | go-client/integrations.go:114-118 | the server's error is returned unchanged; a missing integration panics; else exactly `integrationFromProto` of the message, which sent again is the message with nil settings made empty |
| Integrations.Acknowledged | go-client/integrations.go:147-151 | success exactly when the server succeeded, else the server's error |
| Integrations.EchoedIntegration | go-client/integrations.go:110-119 | an echoed integration comes back as itself exactly when its id fits in 32 bits and its settings convert |
| Integrations.AddIntegration | go-client/integrations.go:110-119 | the integration goes out as `toProto` builds it; the answer as `IntegrationAnswer` |
| Integrations.GetIntegration | go-client/integrations.go:121-130 | asks by name; the answer as `IntegrationAnswer` |
| Integrations.UpdateIntegration | go-client/integrations.go:132-141 | as `AddIntegration` |
| Integrations.RemoveIntegration | go-client/integrations.go:143-152 | asks by name; only the server's error is returned |
| Integrations.ListIntegrations | go-client/integrations.go:154-166 | one converted integration per message, in the server's order; the server's error unchanged |
| Integrations.JobUpdate | go-client/integrations.go:168-177 | the job goes out as `toProto` builds it; only the server's error is returned |
| Integrations.GetJobHistory | go-client/integrations.go:179-193 | one converted job per message, in the server's order; the server's error unchanged |
| Events.NewLoggerConfig | go-client/events.go:30-36 | the source and service copied, the spec version "1.0" |
| Events.NewLogger | go-client/events.go:40-44 | the logger holds the configuration |
| Events.WithDefaults | go-client/events.go:53-75 | Source, ID, DataContentType, SpecVersion and Timestamp each replaced exactly when empty or zero; every other field unchanged |
| Events.DefaultsFill | go-client/events.go:61-67 | after the defaults the ID and content type are non-empty, and a generated ID is canonical UUID text of the fresh UUID |
| Events.DefaultSpecVersionFilled | go-client/events.go:30-36 | with a `NewLoggerConfig` configuration an empty spec version becomes "1.0" |
| Events.DefaultsIdempotent | go-client/events.go:53-75 | applying the defaults again changes nothing, whatever UUID and time it draws |
| Events.ApiEventOf | go-client/events.go:77-93 | the request carries every field of the event, the identity as it reads back, the time as it reads back, and the data as `json.Marshal` writes it (`null` for nil), which reads back as the data |
| Events.EventOf | go-client/events.go:100-112 | a missing event panics and an identity that does not convert ends with its conversion's error; otherwise ID, Source, SpecVersion, Type, DataContentType, DataSchema, Subject and Data copied, the identity converted, a nil time read as the epoch |
| Events.EchoedEvent | go-client/events.go:77-112 | an echoed event comes back with every field but Data, which comes back as the text the client wrote (`null` for nil data, quoted base64 otherwise), never as the original bytes |
| Events.EventAnswer | go-client/events.go:94-112 | the server's error unchanged, else the converted event |
| Events.FillDefaults | go-client/events.go:53-75 | the field-by-field conditional assignments compute `WithDefaults` |
| Events.LogEvent | go-client/events.go:49-113 | an empty Type is refused with nothing sent; a logger without a service panics before the call; otherwise the defaulted event goes out once and the answer is converted |
| Sessions.NewSessionID | go-client/session.go:14-19 | the identifier reads back as the prime; "<nil>" when the prime is missing |
| Sessions.SessionIDShape | go-client/session.go:14-19 | a 64-bit prime gives 16 lower-case digits, and distinct primes give distinct identifiers |
| Sessions.NewSessionLoggerConfig | go-client/session.go:35-41 | the source and service copied, the spec version "1.0" |
| Sessions.SessionConfigIsEventConfig | go-client/session.go:35-41 | the result is exactly what `NewLoggerConfig` builds |
| Sessions.NewSessionLogger | go-client/session.go:45-49 | the logger holds the configuration |
| Sessions.SessionEventOf | go-client/session.go:56-71 | built exactly when the data can be written, carrying what `json.Marshal` wrote; key, type, subject and schema from the arguments, source and spec version from the configuration, the JSON content type, the current time; untyped data reads back as the argument |
| Sessions.TypedDataSent | go-client/session.go:56 | data of a Go type of its own (the sample client logs a `*User`) is sent as its document though structpb refuses it, and reads back as something else |
| Sessions.FixedFields | go-client/session.go:61-71 | two events of one logger differ only in the caller's fields |
| Sessions.LogEvent | go-client/session.go:54-76 | data that cannot be written is the error with nothing sent; a logger without a service panics before the call; otherwise the event goes out once and only the server's error is returned |

## Left out

- `NewClient`, `NewIntegrationsClient` and `Close` (go-client/userup.go:21-33, 118-120; go-client/integrations.go:87-107): dialing and closing gRPC connections. The service handle is an opaque value and each remote call is a function parameter.
- `AddAttribute`, `AddTrait`, `DeleteUser`, `DeleteAttribute`, `DeleteTrait`, `SearchUserTraits`, `GetUsersByTraits`, `GetUsersByEvents`, `SearchEvents`, `QueryAttributes`, `QueryTraits`, `QueryEvents`, `AddSession`, `IdentifySession`, `GetSessions`, `GetSessionEvents` (go-client/userup.go:168-562): pass-through calls. They repeat shapes modelled above: `rpcUserID`, the `NewValue`/`NewStruct` guard, the `json.Marshal(query)` guard and the response conversion loops.
- The context argument of every call and the server's query execution are not modelled.
- A nil `*User`, `*Query` or `*UserSearchParams` argument is not modelled; the model's arguments are values.
- A nil element inside a repeated response field is not modelled; elements are always present.
- The `SessionKey` field set at go-client/events.go:110 does not exist on `Event` (go-client/userup.go:99-110). The returned event has the declared fields only.
- `NewSessionLoggerConfig` (go-client/session.go:35) is declared to return `EventLoggerConfig`, which `NewSessionLogger` does not accept. The model returns the type the code names.
- `LogicalOperator` (go-client/query.go:4) is declared but never used.
- `cmd/` (the sample client, the session manager and the service CLI) is not modelled. The sample query is used only as an example input.
- `uuid.New()`, `time.Now()`, `timestamppb.Now()` and `rand.Prime` are parameters. Nothing is claimed about their distribution.
- Events.LogEvent: checks the empty Type before filling the Source default, where the code fills Source first. The result is the same, since the Source default does not read or change Type.
- The `json.Marshal(event.Data)` failure branch (go-client/events.go:78-80) cannot be reached, since Data is a `[]byte`; the model writes the data without a failure case.
- Time zones and the monotonic clock reading of `time.Time` are not modelled. A time is its instant in nanoseconds since the Unix epoch.
- GoValues.Dyn, Json.Marshal, Structpb.NewValue, Sessions.LogEvent: a nil `[]interface{}` or nil `map[string]interface{}` nested inside a value is not a value of its own. encoding/json writes it `null` and structpb converts it to an empty list or struct, while the model's `Slice([])` and `Dict(map[])` are written `[]` and `{}`. A `[]byte` or `json.Number` inside a value, which structpb converts, is not modelled either.
- Structpb.NewValue, Structpb.NewStructValue, Structpb.NewStruct, Json.UnmarshalMarshal: strings are Unicode text here, while a Go string is any sequence of bytes. So structpb's invalid-UTF-8 error on a string value or a map key, which Users.AddUser and Users.UpdateUser would return, is not modelled, and neither is encoding/json's replacement of invalid bytes by U+FFFD, after which such a string does not read back as itself.
- Structpb.NewValue, Structpb.NewStruct: when several entries of a map cannot be converted, the model reports the error of the one whose key sorts first. Go reports whichever entry its randomized map iteration meets first. So Users.AddUser and Users.UpdateUser name one particular error where the code may return the error of any bad entry; only which bad entry is named differs.
- Numbers are integers; float64 conversion by structpb and encoding/json (precision loss of large integers) is not modelled.
- Panic messages are abstracted to `PanicReason`: a nil dereference, or `MustParse` given text that is not a UUID.
- Uuids.Parse: accepts only the 36-character hyphenated form, which is the form `String` writes. `MustParse` also accepts the braced, `urn:uuid:` and 32-digit forms, so on those forms `Users.ClientUserID` panics in the model but not in the code.
- Users.ConvertUsers, Users.AppendUsers: the `[]*User` result is a sequence of user values updated by index or extended, not a slice of pointers. Aliasing between returned users cannot arise in the code either, since each pointer is fresh.
- Users.WithAttribute, Users.WithTrait: modelled as value builders in which each call gets its own filter list. The sharing of the backing array in the code is modelled only for `WithAttribute`, in `FilterSlices`; `WithTrait` (go-client/userup.go:95) has the same shape.
- FilterSlices.Append: the capacity of a new backing array is a parameter, not Go's growth rule.

## Findings

| source | as written | input that shows it | evidently intended | confidence | as-written member | corrected member |
|---|---|---|---|---|---|---|
| go-client/userup.go:79 | `WithAttribute` has a value receiver but appends to the receiver's slice, which shares its backing array with the caller's params; with spare capacity the new filter is written into that shared array | `p := UserSearchParams{}.WithAttribute("a", v).WithAttribute("b", v).WithAttribute("c", v)` (length 3, capacity 4); `x := p.WithAttribute("d", v)`; `y := p.WithAttribute("e", v)`: then `x.AttributeFilters[3].Name` is "e" | each call returns params with its own filter list, so builders forked from the same params do not affect each other | medium: not executed; depends on Go growing a slice of pointers from capacity 2 to 4 | FilterSlices.ThreeThenFork | Users.ForkedBuildersIndependent |
