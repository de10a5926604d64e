/** The user half of the client (go-client/userup.go): user identities and their wire form, the
    search-parameter builders, the conversion of the server's user records, and the operations
    that encode a request, make one remote call and convert the answer. Each remote call is a
    function parameter standing for the server. */
module Users {
  import opened Wrappers
  import opened Rpc
  import opened GoValues
  import opened Structpb
  import opened Uuids
  import opened Json
  import Queries

  type Uint64 = x: int | 0 <= x < 0x1_0000_0000_0000_0000

  /** `UserID`: a user is named by its numeric id, its UUID or an external id; a field left at its
      zero value is not set. */
  datatype UserID = UserID(id: Uint64, uuid: Uuid, externalID: string)

  /** The zero `UserID{}`. */
  const ZeroUserID := UserID(0, NilUuid, "")

  datatype User = User(id: UserID, username: string, attributes: map<string, Dyn>, traits: map<string, Dyn>)

  /** The zero `User{}`: a `make([]*User, n)` slot before it is assigned. */
  const ZeroUser := User(ZeroUserID, "", map[], map[])

  /** `userapi.Operator`; only EQUALS is named by the client. The enumeration's other values are
      numbered from 0 in declaration order, so each Go operator is exactly one value here. */
  datatype Operator = Equals | OtherOperator(index: nat)

  /** `userapi.AttributeFilter` and `userapi.TraitFilter`; a nil `Value` is None. */
  datatype AttributeFilter = AttributeFilter(name: string, value: Option<PbValue>, operator: Operator)
  datatype TraitFilter = TraitFilter(name: string, value: Option<PbValue>, operator: Operator)

  datatype UserSearchParams = UserSearchParams(
    id: UserID,
    username: string,
    attributeFilters: seq<AttributeFilter>,
    traitFilters: seq<TraitFilter>)

  /** `*UserService`: the client handle of the user service. Only its address is kept; the
      connection it holds is the function parameter of each operation. */
  datatype UserService = UserService(addr: string)

  // ---------------------------------------------------------------- the service's messages

  /** `userapi.UserID`: the UUID travels as text. */
  datatype ApiUserID = ApiUserID(id: Uint64, uuid: string, externalId: string)

  datatype NewUser = NewUser(externalId: string, uuid: string, username: string, attributes: Fields, traits: Fields)

  datatype UserRequest = UserRequest(
    id: Option<ApiUserID>,
    username: string,
    attributes: Option<Fields>,
    traits: Option<Fields>)

  datatype UserQuery = UserQuery(
    userId: Option<ApiUserID>,
    username: string,
    attributeFilters: seq<AttributeFilter>,
    traitFilters: seq<TraitFilter>)

  /** `userapi.QueryRequest`: the JSON document of a query. */
  datatype QueryRequest = QueryRequest(query: JsonValue)

  /** `userapi.UserResponse`; message fields the server left out are None. */
  datatype UserResponse = UserResponse(
    id: Option<ApiUserID>,
    username: string,
    attributes: Option<Fields>,
    traits: Option<Fields>)

  datatype UsersResponse = UsersResponse(users: seq<UserResponse>)

  // ---------------------------------------------------------------- identities

  function UID(id: Uint64): UserID {
    UserID(id, NilUuid, "")
  }

  function UUID(uuid: Uuid): UserID {
    UserID(0, uuid, "")
  }

  function ExtID(id: string): UserID {
    UserID(0, NilUuid, id)
  }

  /** Each constructor sets its own field and leaves the other two at zero, so two identities from
      different constructors coincide only when both are the zero `UserID`: `UID(0)` is the same
      value as `UserID{}`, and "no numeric id" cannot be told from id 0. */
  lemma ConstructorsMeetOnlyAtZero(n: Uint64, u: Uuid, s: string)
    ensures UID(n).uuid == NilUuid && UID(n).externalID == ""
    ensures UUID(u).id == 0 && UUID(u).externalID == ""
    ensures ExtID(s).id == 0 && ExtID(s).uuid == NilUuid
    ensures UID(0) == ZeroUserID && UUID(NilUuid) == ZeroUserID && ExtID("") == ZeroUserID
    ensures UID(n) == UUID(u) <==> n == 0 && u == NilUuid
    ensures UID(n) == ExtID(s) <==> n == 0 && s == ""
    ensures UUID(u) == ExtID(s) <==> u == NilUuid && s == ""
  {
  }

  /** `rpcUserID`: the UUID is always sent, as its canonical text. */
  function RpcUserID(id: UserID): (r: ApiUserID)
    ensures r.id == id.id && r.externalId == id.externalID
    ensures IsCanonical(r.uuid) && Parse(r.uuid) == Some(id.uuid)
  {
    TextIsCanonical(id.uuid);
    ParseText(id.uuid);
    ApiUserID(id.id, Text(id.uuid), id.externalID)
  }

  /** `clientUserID`: a nil id, or a UUID text `uuid.MustParse` rejects, panics. */
  function ClientUserID(p: Option<ApiUserID>): (r: Result<UserID, Error>)
    ensures r.Success? <==> p.Some? && Parse(p.value.uuid).Some?
    ensures r.Success? ==> r.value.id == p.value.id && r.value.externalID == p.value.externalId
    ensures r.Success? ==> Some(r.value.uuid) == Parse(p.value.uuid)
  {
    match p
    case None => Failure(Panic(NilDereference))
    case Some(api) =>
      match Parse(api.uuid)
      case None => Failure(Panic(InvalidUuid(api.uuid)))
      case Some(u) => Success(UserID(api.id, u, api.externalId))
  }

  /** Every identity survives the trip to the wire and back. */
  lemma ClientRpcUserID(id: UserID)
    ensures ClientUserID(Some(RpcUserID(id))) == Success(id)
  {
  }

  /** A wire identity whose UUID is in canonical form survives the trip into the client and back. */
  lemma RpcClientUserID(p: ApiUserID)
    requires IsCanonical(p.uuid)
    ensures ClientUserID(Some(p)).Success?
    ensures RpcUserID(ClientUserID(Some(p)).value) == p
  {
    CanonicalText(p.uuid);
  }

  /** An identity built by `UID` or `ExtID` still sends a UUID: the all-zero one. */
  lemma UnsetUuidIsSentAsNil(n: Uint64, s: string)
    ensures RpcUserID(UID(n)).uuid == "00000000-0000-0000-0000-000000000000"
    ensures RpcUserID(ExtID(s)).uuid == "00000000-0000-0000-0000-000000000000"
  {
    NilText();
  }

  // ---------------------------------------------------------------- search parameters

  /** The operator argument of the builders: EQUALS without one, the first of several. */
  function ChosenOperator(operators: seq<Operator>): (op: Operator)
    ensures |operators| == 0 ==> op == Equals
    ensures |operators| > 0 ==> op == operators[0]
  {
    if |operators| > 0 then operators[0] else Equals
  }

  /** `UserSearchParams.WithAttribute`: a copy of the params with one filter appended. A value
      structpb cannot convert is not an error: the filter goes out with a nil value. */
  function WithAttribute(usp: UserSearchParams, name: string, value: Dyn, operators: seq<Operator>)
    : (r: UserSearchParams)
    ensures |r.attributeFilters| == |usp.attributeFilters| + 1
    ensures r.attributeFilters[..|usp.attributeFilters|] == usp.attributeFilters
    ensures var f := r.attributeFilters[|usp.attributeFilters|];
      && f.name == name
      && f.operator == ChosenOperator(operators)
      && (f.value.Some? <==> Representable(value))
      && (f.value.Some? ==> AsInterface(f.value.value) == value)
    ensures r.id == usp.id && r.username == usp.username && r.traitFilters == usp.traitFilters
  {
    var filter := AttributeFilter(name, NewValue(value).ToOption(), ChosenOperator(operators));
    usp.(attributeFilters := usp.attributeFilters + [filter])
  }

  /** Two builders applied to the same params keep their own last filter and share only the
      filters the params already had; the params themselves are left as they were. */
  lemma ForkedBuildersIndependent(base: UserSearchParams, name1: string, value1: Dyn, name2: string, value2: Dyn,
                                  operators: seq<Operator>)
    ensures var x := WithAttribute(base, name1, value1, operators);
      var y := WithAttribute(base, name2, value2, operators);
      && x.attributeFilters[|base.attributeFilters|].name == name1
      && y.attributeFilters[|base.attributeFilters|].name == name2
      && x.attributeFilters[..|base.attributeFilters|] == y.attributeFilters[..|base.attributeFilters|]
         == base.attributeFilters
  {
  }

  /** `UserSearchParams.WithTrait`: as `WithAttribute`, on the trait filters. */
  function WithTrait(usp: UserSearchParams, name: string, value: Dyn, operators: seq<Operator>)
    : (r: UserSearchParams)
    ensures |r.traitFilters| == |usp.traitFilters| + 1
    ensures r.traitFilters[..|usp.traitFilters|] == usp.traitFilters
    ensures var f := r.traitFilters[|usp.traitFilters|];
      && f.name == name
      && f.operator == ChosenOperator(operators)
      && (f.value.Some? <==> Representable(value))
      && (f.value.Some? ==> AsInterface(f.value.value) == value)
    ensures r.id == usp.id && r.username == usp.username && r.attributeFilters == usp.attributeFilters
  {
    var filter := TraitFilter(name, NewValue(value).ToOption(), ChosenOperator(operators));
    usp.(traitFilters := usp.traitFilters + [filter])
  }

  /** `UserSearchToUserQuery`: the filters go out as they are, in order, and the identity can be
      read back from the query. */
  function UserSearchToUserQuery(usp: UserSearchParams): (r: UserQuery)
    ensures r.attributeFilters == usp.attributeFilters && r.traitFilters == usp.traitFilters
    ensures r.username == usp.username
    ensures ClientUserID(r.userId) == Success(usp.id)
  {
    UserQuery(Some(RpcUserID(usp.id)), usp.username, usp.attributeFilters, usp.traitFilters)
  }

  // ---------------------------------------------------------------- the server's user records

  /** The `Fields` of a `*structpb.Struct` as Go values, one entry per field; reading the fields
      of a nil struct panics. */
  method FieldsAsInterfaces(fields: Option<Fields>) returns (r: Result<map<string, Dyn>, Error>)
    ensures r.Success? <==> fields.Some?
    ensures r.Failure? ==> r.error == Panic(NilDereference)
    ensures r.Success? ==> r.value.Keys == fields.value.Keys
    ensures r.Success? ==> r.value == AsMap(fields)
  {
    if fields.None? {
      return Failure(Panic(NilDereference));
    }
    var source := fields.value;
    var m: map<string, Dyn> := map[];
    var todo := source.Keys;
    while todo != {}
      invariant todo <= source.Keys
      invariant m.Keys == source.Keys - todo
      invariant forall k :: k in m ==> m[k] == AsInterface(source[k])
      decreases |todo|
    {
      var k :| k in todo;
      m := m[k := AsInterface(source[k])];
      todo := todo - {k};
    }
    assert m == AsMap(fields);
    return Success(m);
  }

  /** The user a response describes, as `UserResponseToUser` converts it. */
  function UserOf(resp: UserResponse): Result<User, Error> {
    if resp.attributes.None? || resp.traits.None? then Failure(Panic(NilDereference))
    else
      var id :- ClientUserID(resp.id);
      Success(User(id, resp.username, AsMap(resp.attributes), AsMap(resp.traits)))
  }

  /** The attribute and trait maps of a converted user hold exactly the response's keys, each
      value converted by `AsInterface`; a nil struct, a nil id or an unparsable UUID panics. */
  lemma UserOfShape(resp: UserResponse)
    ensures var r := UserOf(resp);
      && (r.Success? <==> resp.attributes.Some? && resp.traits.Some? && ClientUserID(resp.id).Success?)
      && (r.Success? ==> r.value.attributes.Keys == resp.attributes.value.Keys)
      && (r.Success? ==> r.value.traits.Keys == resp.traits.value.Keys)
      && (r.Success? ==> forall k :: k in r.value.attributes ==> r.value.attributes[k] == AsInterface(resp.attributes.value[k]))
      && (r.Success? ==> forall k :: k in r.value.traits ==> r.value.traits[k] == AsInterface(resp.traits.value[k]))
      && (r.Success? ==> r.value.id == ClientUserID(resp.id).value && r.value.username == resp.username)
  {
  }

  /** `UserResponseToUser`: the maps filled entry by entry, then the identity converted. */
  method UserResponseToUser(resp: UserResponse) returns (r: Result<User, Error>)
    ensures r == UserOf(resp)
  {
    var attributes :- FieldsAsInterfaces(resp.attributes);
    var traits :- FieldsAsInterfaces(resp.traits);
    var id :- ClientUserID(resp.id);
    return Success(User(id, resp.username, attributes, traits));
  }

  /** A user stored as the client writes it and answered back unchanged converts to itself. */
  lemma StoredUserReadsBack(user: User)
    requires AllRepresentable(user.attributes) && AllRepresentable(user.traits)
    ensures UserOf(UserResponse(Some(RpcUserID(user.id)), user.username,
      Some(NewStruct(user.attributes).value), Some(NewStruct(user.traits).value))) == Success(user)
  {
    ClientRpcUserID(user.id);
  }

  /** What an operation returning one user hands back for the server's answer. */
  function UserAnswer(answer: Result<UserResponse, Status>): Result<User, Error> {
    match answer
    case Failure(st) => Failure(Remote(st))
    case Success(resp) => UserOf(resp)
  }

  /** What an operation returning a list of users hands back for the server's answer. */
  function UsersAnswer(answer: Result<UsersResponse, Status>): Result<seq<User>, Error> {
    match answer
    case Failure(st) => Failure(Remote(st))
    case Success(resp) => MapAll(resp.users, UserOf)
  }

  // ---------------------------------------------------------------- operations

  /** The request `AddUser` sends: external id, UUID text, username and the two converted maps; the
      numeric id has no place in it. */
  function NewUserRequest(user: User): (r: Result<NewUser, Error>)
    ensures r.Success? <==> AllRepresentable(user.attributes) && AllRepresentable(user.traits)
    ensures r.Success? ==>
      && r.value.externalId == user.id.externalID
      && Parse(r.value.uuid) == Some(user.id.uuid)
      && r.value.username == user.username
      && AsMap(Some(r.value.attributes)) == user.attributes
      && AsMap(Some(r.value.traits)) == user.traits
  {
    ParseText(user.id.uuid);
    var attributes :- NewStruct(user.attributes);
    var traits :- NewStruct(user.traits);
    Success(NewUser(user.id.externalID, Text(user.id.uuid), user.username, attributes, traits))
  }

  /** Two users that differ only in their numeric id are created by the same request. */
  lemma NewUserIgnoresNumericID(user: User, n: Uint64)
    ensures NewUserRequest(user.(id := user.id.(id := n))) == NewUserRequest(user)
  {
  }

  /** `AddUser`: a map structpb cannot convert is returned as the error with no remote call;
      otherwise the request goes out once and the answer is converted. */
  method AddUser(create: NewUser -> Result<UserResponse, Status>, user: User) returns (ex: Exchange<NewUser, User>)
    ensures ex.sent == NewUserRequest(user).ToOption()
    ensures ex.sent.None? <==> !(AllRepresentable(user.attributes) && AllRepresentable(user.traits))
    ensures ex.sent.None? ==> ex.result == Failure(NewUserRequest(user).error)
    ensures ex.sent.Some? ==> ex.result == UserAnswer(create(ex.sent.value))
  {
    var attributes := NewStruct(user.attributes);
    if attributes.Failure? {
      return Exchange(None, Failure(attributes.error));
    }
    var traits := NewStruct(user.traits);
    if traits.Failure? {
      return Exchange(None, Failure(traits.error));
    }
    var request := NewUser(user.id.externalID, Text(user.id.uuid), user.username, attributes.value, traits.value);
    assert NewUserRequest(user) == Success(request);
    var answer := create(request);
    if answer.Failure? {
      return Exchange(Some(request), Failure(Remote(answer.error)));
    }
    var converted := UserResponseToUser(answer.value);
    return Exchange(Some(request), converted);
  }

  /** The request `UpdateUser` sends: the whole identity, the username and both converted maps. */
  function UpdateUserRequest(user: User): (r: Result<UserRequest, Error>)
    ensures r.Success? <==> AllRepresentable(user.attributes) && AllRepresentable(user.traits)
    ensures r.Success? ==>
      && ClientUserID(r.value.id) == Success(user.id)
      && r.value.username == user.username
      && r.value.attributes.Some? && AsMap(r.value.attributes) == user.attributes
      && r.value.traits.Some? && AsMap(r.value.traits) == user.traits
  {
    var attributes :- NewStruct(user.attributes);
    var traits :- NewStruct(user.traits);
    Success(UserRequest(Some(RpcUserID(user.id)), user.username, Some(attributes), Some(traits)))
  }

  /** `UpdateUser`: the same encode-then-call shape as `AddUser`, identifying the user by id. */
  method UpdateUser(update: UserRequest -> Result<UserResponse, Status>, user: User) returns (ex: Exchange<UserRequest, User>)
    ensures ex.sent == UpdateUserRequest(user).ToOption()
    ensures ex.sent.None? ==> ex.result == Failure(UpdateUserRequest(user).error)
    ensures ex.sent.Some? ==> ex.result == UserAnswer(update(ex.sent.value))
  {
    var attributes := NewStruct(user.attributes);
    if attributes.Failure? {
      return Exchange(None, Failure(attributes.error));
    }
    var traits := NewStruct(user.traits);
    if traits.Failure? {
      return Exchange(None, Failure(traits.error));
    }
    var request := UserRequest(Some(RpcUserID(user.id)), user.username, Some(attributes.value), Some(traits.value));
    assert UpdateUserRequest(user) == Success(request);
    var answer := update(request);
    if answer.Failure? {
      return Exchange(Some(request), Failure(Remote(answer.error)));
    }
    var converted := UserResponseToUser(answer.value);
    return Exchange(Some(request), converted);
  }

  /** `GetUser`: a request carrying only the identity. */
  method GetUser(get: UserRequest -> Result<UserResponse, Status>, id: UserID) returns (ex: Exchange<UserRequest, User>)
    ensures ex.sent.Some?
    ensures ClientUserID(ex.sent.value.id) == Success(id)
    ensures ex.sent.value.username == "" && ex.sent.value.attributes.None? && ex.sent.value.traits.None?
    ensures ex.result == UserAnswer(get(ex.sent.value))
  {
    var request := UserRequest(Some(RpcUserID(id)), "", None, None);
    var answer := get(request);
    if answer.Failure? {
      return Exchange(Some(request), Failure(Remote(answer.error)));
    }
    var converted := UserResponseToUser(answer.value);
    return Exchange(Some(request), converted);
  }

  /** `FindUser`: the search goes out as `UserSearchToUserQuery` builds it, and the answer's users
      come back converted one by one, as many as the server sent and in its order. */
  method FindUser(find: UserQuery -> Result<UsersResponse, Status>, usp: UserSearchParams)
    returns (ex: Exchange<UserQuery, seq<User>>)
    ensures ex.sent == Some(UserSearchToUserQuery(usp))
    ensures ex.result == UsersAnswer(find(ex.sent.value))
    ensures ex.result.Success? ==> |ex.result.value| == |find(ex.sent.value).value.users|
  {
    var query := UserSearchToUserQuery(usp);
    var answer := find(query);
    if answer.Failure? {
      return Exchange(Some(query), Failure(Remote(answer.error)));
    }
    var users := AppendUsers(answer.value.users);
    return Exchange(Some(query), users);
  }

  /** The loop of `FindUser`: each response converted and appended in turn; a conversion that
      panics ends the whole operation. */
  method AppendUsers(rs: seq<UserResponse>) returns (r: Result<seq<User>, Error>)
    ensures r == MapAll(rs, UserOf)
  {
    var users: seq<User> := [];
    var i := 0;
    while i < |rs|
      invariant 0 <= i <= |rs|
      invariant MapAll(rs[..i], UserOf) == Success(users)
    {
      var u := UserResponseToUser(rs[i]);
      if u.Failure? {
        assert rs[..i + 1][..i] == rs[..i];
        MapAllFailure(rs, UserOf, i + 1);
        return Failure(u.error);
      }
      MapAllStep(rs, UserOf, i, users, u.value);
      users := users + [u.value];
      i := i + 1;
    }
    assert rs[..i] == rs;
    return Success(users);
  }

  /** `QueryUsers`: a query encoding/json cannot write is returned as the error with no remote
      call; otherwise its JSON goes out and the users come back converted in the server's order. */
  method QueryUsers(queryUsers: QueryRequest -> Result<UsersResponse, Status>, query: Queries.Query)
    returns (ex: Exchange<QueryRequest, seq<User>>)
    ensures Queries.EncodeQuery(query).Failure? ==> ex == Exchange(None, Failure(Queries.EncodeQuery(query).error))
    ensures Queries.EncodeQuery(query).Success? ==>
      && ex.sent == Some(QueryRequest(Queries.EncodeQuery(query).value))
      && ex.result == UsersAnswer(queryUsers(ex.sent.value))
  {
    var queryJson := Queries.EncodeQuery(query);
    if queryJson.Failure? {
      return Exchange(None, Failure(queryJson.error));
    }
    var request := QueryRequest(queryJson.value);
    var answer := queryUsers(request);
    if answer.Failure? {
      return Exchange(Some(request), Failure(Remote(answer.error)));
    }
    var users := ConvertUsers(answer.value.users);
    return Exchange(Some(request), users);
  }

  /** The loop of `QueryUsers`: a slice of the response's length filled index by index, each
      element converted the way `UserResponseToUser` converts it; a conversion that panics ends
      the whole operation. */
  method ConvertUsers(rs: seq<UserResponse>) returns (r: Result<seq<User>, Error>)
    ensures r == MapAll(rs, UserOf)
  {
    var users := seq(|rs|, _ => ZeroUser);
    var i := 0;
    while i < |rs|
      invariant 0 <= i <= |rs| && |users| == |rs|
      invariant MapAll(rs[..i], UserOf) == Success(users[..i])
    {
      var u := UserResponseToUser(rs[i]);
      if u.Failure? {
        assert rs[..i + 1][..i] == rs[..i];
        MapAllFailure(rs, UserOf, i + 1);
        return Failure(u.error);
      }
      ghost var prefix := users[..i];
      MapAllStep(rs, UserOf, i, prefix, u.value);
      users := users[i := u.value];
      assert users[..i + 1] == prefix + [u.value];
      i := i + 1;
    }
    assert rs[..i] == rs && users[..i] == users;
    return Success(users);
  }

}
