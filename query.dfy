/** The query language the client sends to the user service (go-client/query.go): `Query`, `Join`,
    `Order` and `Condition`, and their encoding/json wire form as the struct tags decide it.
    `DecodeQuery` is a reference reading of that wire form; the round trip through it shows the
    encoding loses nothing. */
module Queries {
  import opened Wrappers
  import opened Rpc
  import opened GoValues
  import opened Json

  /** Go's `int` on the 64-bit platforms the client is built for. */
  type Int64 = x: int | -0x8000_0000_0000_0000 <= x < 0x8000_0000_0000_0000

  /** A Go map, which may be nil. */
  datatype GoMap<V> = NilMap | MapOf(entries: map<string, V>)

  /** `Condition`: a `map[string]interface{}`. */
  type Condition = GoMap<Dyn>

  /** A join; a nil and an empty `filter` are both omitted, so one value stands for both. */
  datatype Join = Join(table: string, on: string, filter: map<string, Condition>)

  /** An ordering; `direction` is documented as "ASC" or "DESC" but is any string. */
  datatype Order = Order(field: string, direction: string)

  datatype Query = Query(
    filter: GoMap<Condition>,
    select: seq<string>,
    orderBy: seq<Order>,
    limit: Int64,
    offset: Int64,
    joins: seq<Join>)

  /** The condition values encoding/json can write. */
  predicate ConditionOk(c: Condition) {
    c.MapOf? ==> AllWritable(c.entries)
  }

  /** Condition values `json.Unmarshal` gives back as they are: writable, and none of a Go type of
      its own (a struct or a `[]string`, say, reads back as a map or a `[]interface{}`). */
  predicate ConditionPlain(c: Condition) {
    c.MapOf? ==> AllRepresentable(c.entries)
  }

  /** A filter encoding/json writes and reads back as it is. */
  predicate FilterPlain(f: map<string, Condition>) {
    FilterOk(f) && forall k :: k in f ==> ConditionPlain(f[k])
  }

  predicate QueryPlain(q: Query) {
    && (q.filter.MapOf? ==> FilterPlain(q.filter.entries))
    && forall i :: 0 <= i < |q.joins| ==> FilterPlain(q.joins[i].filter)
  }

  predicate FilterOk(f: map<string, Condition>) {
    forall k :: k in f ==> ConditionOk(f[k])
  }

  predicate QueryOk(q: Query) {
    && (q.filter.MapOf? ==> FilterOk(q.filter.entries))
    && forall i :: 0 <= i < |q.joins| ==> FilterOk(q.joins[i].filter)
  }

  // ---------------------------------------------------------------- encoding

  /** A nil condition is written as null, any other as an object. */
  function EncodeCondition(c: Condition): (r: Result<JsonValue, Error>)
    ensures r.Success? <==> ConditionOk(c)
    ensures r.Success? ==> (r.value == JNull <==> c.NilMap?)
  {
    match c
    case NilMap => Success(JNull)
    case MapOf(m) => Marshal(Dict(m))
  }

  /** A `map[string]Condition` as an object with sorted keys. */
  function EncodeFilter(f: map<string, Condition>): (r: Result<JsonValue, Error>)
    ensures r.Success? <==> FilterOk(f)
    ensures r.Success? ==> r.value.JObject? && KeysOf(r.value.members) == Keys.SortedKeys(f.Keys)
  {
    var ms :- EncodeMap(f, EncodeCondition);
    Success(JObject(ms))
  }

  function EncodeString(s: string): Result<JsonValue, Error> {
    Success(JString(s))
  }

  /** Both fields of an Order are always written. */
  function EncodeOrder(o: Order): Result<JsonValue, Error> {
    Success(JObject(StructMembers(OrderFields(o))))
  }

  function OrderFields(o: Order): seq<(string, Option<JsonValue>)> {
    [("field", Some(JString(o.field))), ("direction", Some(JString(o.direction)))]
  }

  function EncodeJoin(j: Join): (r: Result<JsonValue, Error>)
    ensures r.Success? <==> FilterOk(j.filter)
  {
    var filter :- EncodeFilter(j.filter);
    Success(JObject(StructMembers(JoinFields(j, filter))))
  }

  /** `table` and `on` carry no omitempty; `filter` does. */
  function JoinFields(j: Join, filter: JsonValue): seq<(string, Option<JsonValue>)> {
    [ ("table", Some(JString(j.table))),
      ("on", Some(JString(j.on))),
      ("filter", if |j.filter| == 0 then None else Some(filter)) ]
  }

  /** `json.Marshal(query)`: fails only on a condition value encoding/json cannot write. */
  function EncodeQuery(q: Query): (r: Result<JsonValue, Error>)
    ensures r.Success? <==> QueryOk(q)
    ensures r.Success? ==> r.value.JObject?
  {
    var filter :- if q.filter.NilMap? then Success(JNull) else EncodeFilter(q.filter.entries);
    var joins :- EncodeList(q.joins, EncodeJoin);
    assert forall i :: 0 <= i < |q.select| ==> EncodeString(q.select[i]).Success?;
    assert forall i :: 0 <= i < |q.orderBy| ==> EncodeOrder(q.orderBy[i]).Success?;
    var selected := EncodeList(q.select, EncodeString).value;
    var orders := EncodeList(q.orderBy, EncodeOrder).value;
    Success(JObject(StructMembers(QueryFields(q, filter, selected, orders, joins))))
  }

  /** The fields of a Query in declaration order; only `filter` lacks omitempty. */
  function QueryFields(q: Query, filter: JsonValue, selected: seq<JsonValue>, orders: seq<JsonValue>, joins: seq<JsonValue>)
    : seq<(string, Option<JsonValue>)>
  {
    [ ("filter", Some(filter)),
      ("select", if |q.select| == 0 then None else Some(JArray(selected))),
      ("order_by", if |q.orderBy| == 0 then None else Some(JArray(orders))),
      ("limit", if q.limit == 0 then None else Some(JNumber(q.limit))),
      ("offset", if q.offset == 0 then None else Some(JNumber(q.offset))),
      ("joins", if |q.joins| == 0 then None else Some(JArray(joins))) ]
  }

  // ---------------------------------------------------------------- reading back

  function DecodeString(j: JsonValue): Result<string, Error> {
    match j
    case JString(s) => Success(s)
    case JNull => Success("")
    case _ => Failure(Invalid("expected a string"))
  }

  /** A string field; a missing one reads as "". */
  function StringField(ms: seq<Member>, key: string): Result<string, Error> {
    match Get(ms, key)
    case None => Success("")
    case Some(j) => DecodeString(j)
  }

  /** An `int` field; a missing one reads as 0. */
  function IntField(ms: seq<Member>, key: string): Result<Int64, Error> {
    match Get(ms, key)
    case None => Success(0)
    case Some(JNull) => Success(0)
    case Some(JNumber(n)) =>
      if -0x8000_0000_0000_0000 <= n < 0x8000_0000_0000_0000 then Success(n)
      else Failure(Invalid("number out of range"))
    case Some(_) => Failure(Invalid("expected a number"))
  }

  /** A slice field; a missing one reads as the empty slice. */
  function ListField<V>(ms: seq<Member>, key: string, dec: JsonValue -> Result<V, Error>): Result<seq<V>, Error> {
    match Get(ms, key)
    case None => Success([])
    case Some(JNull) => Success([])
    case Some(JArray(items)) => DecodeList(items, dec)
    case Some(_) => Failure(Invalid("expected an array"))
  }

  function DecodeCondition(j: JsonValue): Result<Condition, Error> {
    match j
    case JNull => Success(NilMap)
    case JObject(ms) => Success(MapOf(MembersToMap(ms)))
    case _ => Failure(Invalid("expected an object"))
  }

  function DecodeFilter(j: JsonValue): Result<GoMap<Condition>, Error> {
    match j
    case JNull => Success(NilMap)
    case JObject(ms) =>
      var m :- DecodeMap(ms, DecodeCondition);
      Success(MapOf(m))
    case _ => Failure(Invalid("expected an object"))
  }

  /** A filter field; a missing one reads as nil. */
  function FilterField(ms: seq<Member>, key: string): Result<GoMap<Condition>, Error> {
    match Get(ms, key)
    case None => Success(NilMap)
    case Some(j) => DecodeFilter(j)
  }

  function DecodeOrder(j: JsonValue): Result<Order, Error> {
    match j
    case JObject(ms) =>
      var field :- StringField(ms, "field");
      var direction :- StringField(ms, "direction");
      Success(Order(field, direction))
    case _ => Failure(Invalid("expected an object"))
  }

  function DecodeJoin(j: JsonValue): Result<Join, Error> {
    match j
    case JObject(ms) =>
      var table :- StringField(ms, "table");
      var on :- StringField(ms, "on");
      var filter :- FilterField(ms, "filter");
      Success(Join(table, on, if filter.MapOf? then filter.entries else map[]))
    case _ => Failure(Invalid("expected an object"))
  }

  /** Reads a Query back from its wire form. */
  function DecodeQuery(j: JsonValue): Result<Query, Error> {
    match j
    case JObject(ms) =>
      var filter :- FilterField(ms, "filter");
      var select :- ListField(ms, "select", DecodeString);
      var orderBy :- ListField(ms, "order_by", DecodeOrder);
      var limit :- IntField(ms, "limit");
      var offset :- IntField(ms, "offset");
      var joins :- ListField(ms, "joins", DecodeJoin);
      Success(Query(filter, select, orderBy, limit, offset, joins))
    case _ => Failure(Invalid("a query is a JSON object"))
  }

  // ---------------------------------------------------------------- properties

  lemma DecodeEncodeCondition(c: Condition)
    requires ConditionPlain(c)
    ensures DecodeCondition(EncodeCondition(c).value) == Success(c)
  {
    if c.MapOf? {
      UnmarshalMarshal(Dict(c.entries));
    }
  }

  lemma DecodeEncodeFilter(f: map<string, Condition>)
    requires FilterPlain(f)
    ensures DecodeFilter(EncodeFilter(f).value) == Success(MapOf(f))
  {
    forall k | k in f
      ensures EncodeCondition(f[k]).Success? && DecodeCondition(EncodeCondition(f[k]).value) == Success(f[k])
    {
      DecodeEncodeCondition(f[k]);
    }
    DecodeEncodeMap(f, EncodeCondition, DecodeCondition);
  }

  lemma DecodeEncodeOrder(o: Order)
    ensures DecodeOrder(EncodeOrder(o).value) == Success(o)
  {
    OrderMembers(o);
    DecodeOrderOf(StructMembers(OrderFields(o)), o);
  }

  /** Both fields of an Order read back from the members written for it. */
  lemma OrderMembers(o: Order)
    ensures var ms := StructMembers(OrderFields(o));
      Get(ms, "field") == Some(JString(o.field)) && Get(ms, "direction") == Some(JString(o.direction))
  {
    GetStructMembers(OrderFields(o), 0);
    GetStructMembers(OrderFields(o), 1);
  }

  lemma DecodeOrderOf(ms: seq<Member>, o: Order)
    requires Get(ms, "field") == Some(JString(o.field)) && Get(ms, "direction") == Some(JString(o.direction))
    ensures DecodeOrder(JObject(ms)) == Success(o)
  {
    StringFieldOf(ms, "field", o.field);
    StringFieldOf(ms, "direction", o.direction);
  }

  lemma StringFieldOf(ms: seq<Member>, key: string, s: string)
    requires Get(ms, key) == Some(JString(s))
    ensures StringField(ms, key) == Success(s)
  {
  }

  lemma DecodeEncodeJoin(j: Join)
    requires FilterPlain(j.filter)
    ensures DecodeJoin(EncodeJoin(j).value) == Success(j)
  {
    var filter := EncodeFilter(j.filter).value;
    JoinMembers(j, filter);
    DecodeEncodeFilter(j.filter);
    DecodeJoinOf(StructMembers(JoinFields(j, filter)), j, filter);
  }

  lemma DecodeJoinOf(ms: seq<Member>, j: Join, filter: JsonValue)
    requires Get(ms, "table") == Some(JString(j.table)) && Get(ms, "on") == Some(JString(j.on))
    requires Get(ms, "filter") == (if |j.filter| == 0 then None else Some(filter))
    requires DecodeFilter(filter) == Success(MapOf(j.filter))
    ensures DecodeJoin(JObject(ms)) == Success(j)
  {
    StringFieldOf(ms, "table", j.table);
    StringFieldOf(ms, "on", j.on);
    if |j.filter| == 0 {
      assert FilterField(ms, "filter") == Success(NilMap);
      assert j.filter == map[];
    } else {
      assert FilterField(ms, "filter") == Success(MapOf(j.filter));
    }
  }

  /** What each field of a Join reads back as from the members written for it. */
  lemma JoinMembers(j: Join, filter: JsonValue)
    ensures var ms := StructMembers(JoinFields(j, filter));
      && Get(ms, "table") == Some(JString(j.table))
      && Get(ms, "on") == Some(JString(j.on))
      && Get(ms, "filter") == (if |j.filter| == 0 then None else Some(filter))
  {
    var fs := JoinFields(j, filter);
    GetStructMembers(fs, 0);
    GetStructMembers(fs, 1);
    GetStructMembers(fs, 2);
  }

  /** Reading back what `EncodeQuery` writes gives the same Query: the wire form drops nothing and
      keeps every sequence in order. */
  lemma DecodeEncodeQuery(q: Query)
    requires QueryPlain(q)
    ensures DecodeQuery(EncodeQuery(q).value) == Success(q)
  {
    var ms := EncodeQuery(q).value.members;
    QueryMembersOf(q);
    if q.filter.MapOf? {
      DecodeEncodeFilter(q.filter.entries);
    }
    SelectReadBack(ms, q.select);
    OrderByReadBack(ms, q.orderBy);
    JoinsReadBack(ms, q.joins);
    DecodeQueryOf(ms, q);
  }

  lemma DecodeQueryOf(ms: seq<Member>, q: Query)
    requires FilterField(ms, "filter") == Success(q.filter)
    requires ListField(ms, "select", DecodeString) == Success(q.select)
    requires ListField(ms, "order_by", DecodeOrder) == Success(q.orderBy)
    requires Get(ms, "limit") == (if q.limit == 0 then None else Some(JNumber(q.limit)))
    requires Get(ms, "offset") == (if q.offset == 0 then None else Some(JNumber(q.offset)))
    requires ListField(ms, "joins", DecodeJoin) == Success(q.joins)
    ensures DecodeQuery(JObject(ms)) == Success(q)
  {
    LimitReadBack(ms, "limit", q.limit);
    LimitReadBack(ms, "offset", q.offset);
  }

  /** An omitted `int` field reads back as 0. */
  lemma LimitReadBack(ms: seq<Member>, key: string, n: Int64)
    requires Get(ms, key) == (if n == 0 then None else Some(JNumber(n)))
    ensures IntField(ms, key) == Success(n)
  {
  }

  lemma SelectReadBack(ms: seq<Member>, select: seq<string>)
    requires Get(ms, "select") == (if |select| == 0 then None else Some(JArray(EncodeList(select, EncodeString).value)))
    ensures ListField(ms, "select", DecodeString) == Success(select)
  {
    if |select| > 0 {
      forall i | 0 <= i < |select| ensures DecodeString(EncodeString(select[i]).value) == Success(select[i]) {
      }
      DecodeEncodeList(select, EncodeString, DecodeString);
      ListFieldOf(ms, "select", DecodeString, EncodeList(select, EncodeString).value);
    }
  }

  lemma ListFieldOf<V>(ms: seq<Member>, key: string, dec: JsonValue -> Result<V, Error>, items: seq<JsonValue>)
    requires Get(ms, key) == Some(JArray(items))
    ensures ListField(ms, key, dec) == DecodeList(items, dec)
  {
  }

  lemma OrderByReadBack(ms: seq<Member>, orderBy: seq<Order>)
    requires Get(ms, "order_by") == (if |orderBy| == 0 then None else Some(JArray(EncodeList(orderBy, EncodeOrder).value)))
    ensures ListField(ms, "order_by", DecodeOrder) == Success(orderBy)
  {
    forall i | 0 <= i < |orderBy| ensures DecodeOrder(EncodeOrder(orderBy[i]).value) == Success(orderBy[i]) {
      DecodeEncodeOrder(orderBy[i]);
    }
    DecodeEncodeList(orderBy, EncodeOrder, DecodeOrder);
  }

  lemma JoinsReadBack(ms: seq<Member>, joins: seq<Join>)
    requires forall i :: 0 <= i < |joins| ==> FilterPlain(joins[i].filter)
    requires EncodeList(joins, EncodeJoin).Success?
    requires Get(ms, "joins") == (if |joins| == 0 then None else Some(JArray(EncodeList(joins, EncodeJoin).value)))
    ensures ListField(ms, "joins", DecodeJoin) == Success(joins)
  {
    forall i | 0 <= i < |joins|
      ensures EncodeJoin(joins[i]).Success? && DecodeJoin(EncodeJoin(joins[i]).value) == Success(joins[i])
    {
      DecodeEncodeJoin(joins[i]);
    }
    DecodeEncodeList(joins, EncodeJoin, DecodeJoin);
  }

  /** What each field of a Query reads back as from the members written for it. */
  lemma QueryMembers(q: Query, filter: JsonValue, selected: seq<JsonValue>, orders: seq<JsonValue>, joins: seq<JsonValue>)
    ensures var ms := StructMembers(QueryFields(q, filter, selected, orders, joins));
      && Get(ms, "filter") == Some(filter)
      && Get(ms, "select") == (if |q.select| == 0 then None else Some(JArray(selected)))
      && Get(ms, "order_by") == (if |q.orderBy| == 0 then None else Some(JArray(orders)))
      && Get(ms, "limit") == (if q.limit == 0 then None else Some(JNumber(q.limit)))
      && Get(ms, "offset") == (if q.offset == 0 then None else Some(JNumber(q.offset)))
      && Get(ms, "joins") == (if |q.joins| == 0 then None else Some(JArray(joins)))
  {
    var fs := QueryFields(q, filter, selected, orders, joins);
    GetStructMembers(fs, 0);
    GetStructMembers(fs, 1);
    GetStructMembers(fs, 2);
    GetStructMembers(fs, 3);
    GetStructMembers(fs, 4);
    GetStructMembers(fs, 5);
  }

  /** The members `EncodeQuery` writes for `q`, field by field. */
  lemma QueryMembersOf(q: Query)
    requires QueryOk(q)
    ensures var ms := EncodeQuery(q).value.members;
      && Get(ms, "filter") == Some(if q.filter.NilMap? then JNull else EncodeFilter(q.filter.entries).value)
      && Get(ms, "select") == (if |q.select| == 0 then None else Some(JArray(EncodeList(q.select, EncodeString).value)))
      && Get(ms, "order_by") == (if |q.orderBy| == 0 then None else Some(JArray(EncodeList(q.orderBy, EncodeOrder).value)))
      && Get(ms, "limit") == (if q.limit == 0 then None else Some(JNumber(q.limit)))
      && Get(ms, "offset") == (if q.offset == 0 then None else Some(JNumber(q.offset)))
      && Get(ms, "joins") == (if |q.joins| == 0 then None else Some(JArray(EncodeList(q.joins, EncodeJoin).value)))
  {
    var filter := if q.filter.NilMap? then JNull else EncodeFilter(q.filter.entries).value;
    assert forall i :: 0 <= i < |q.select| ==> EncodeString(q.select[i]).Success?;
    assert forall i :: 0 <= i < |q.orderBy| ==> EncodeOrder(q.orderBy[i]).Success?;
    var selected, orders, joins :=
      EncodeList(q.select, EncodeString).value, EncodeList(q.orderBy, EncodeOrder).value, EncodeList(q.joins, EncodeJoin).value;
    EncodeQueryValue(q, filter, selected, orders, joins);
    QueryMembers(q, filter, selected, orders, joins);
  }

  lemma EncodeQueryValue(q: Query, filter: JsonValue, selected: seq<JsonValue>, orders: seq<JsonValue>, joins: seq<JsonValue>)
    requires QueryOk(q)
    requires filter == if q.filter.NilMap? then JNull else EncodeFilter(q.filter.entries).value
    requires EncodeList(q.select, EncodeString) == Success(selected)
    requires EncodeList(q.orderBy, EncodeOrder) == Success(orders)
    requires EncodeList(q.joins, EncodeJoin) == Success(joins)
    ensures EncodeQuery(q) == Success(JObject(StructMembers(QueryFields(q, filter, selected, orders, joins))))
  {
  }

  /** `filter` is always written, as null exactly for a nil Filter; `select`, `order_by` and `joins`
      are written exactly when non-empty, and `limit` and `offset` exactly when non-zero, so a Limit
      of 0 and no Limit are the same query on the wire. */
  lemma EncodedFieldPresence(q: Query)
    requires QueryOk(q)
    ensures var j := EncodeQuery(q).value;
      && Field(j, "filter").Some?
      && (Field(j, "filter") == Some(JNull) <==> q.filter.NilMap?)
      && (Field(j, "select").Some? <==> |q.select| > 0)
      && (Field(j, "order_by").Some? <==> |q.orderBy| > 0)
      && (Field(j, "limit").Some? <==> q.limit != 0)
      && (Field(j, "offset").Some? <==> q.offset != 0)
      && (Field(j, "joins").Some? <==> |q.joins| > 0)
  {
    QueryMembersOf(q);
  }

  /** Select is written element by element, in order. */
  lemma EncodedSelect(q: Query)
    requires QueryOk(q) && |q.select| > 0
    ensures StringsWritten(q.select, Field(EncodeQuery(q).value, "select"))
  {
    QueryMembersOf(q);
    SelectWrittenInOrder(q.select);
  }

  /** OrderBy is written element by element, in order, each Order with both `field` and
      `direction`, whatever the direction says. */
  lemma EncodedOrderBy(q: Query)
    requires QueryOk(q) && |q.orderBy| > 0
    ensures OrdersWritten(q.orderBy, Field(EncodeQuery(q).value, "order_by"))
  {
    QueryMembersOf(q);
    OrdersWrittenInOrder(q.orderBy);
  }

  /** Joins are written element by element, in order: `table` and `on` always, `filter` only when
      non-empty. */
  lemma EncodedJoins(q: Query)
    requires QueryOk(q) && |q.joins| > 0
    ensures JoinsWritten(q.joins, Field(EncodeQuery(q).value, "joins"))
  {
    QueryMembersOf(q);
    JoinsWrittenInOrder(q.joins);
  }

  /** `field` is the array of the orders' encodings, in order, each with both of its fields. */
  predicate OrdersWritten(orders: seq<Order>, field: Option<JsonValue>) {
    && field.Some? && field.value.JArray?
    && |field.value.items| == |orders|
    && forall i :: 0 <= i < |orders| ==>
         && Field(field.value.items[i], "field") == Some(JString(orders[i].field))
         && Field(field.value.items[i], "direction") == Some(JString(orders[i].direction))
  }

  /** `field` is the array of the joins' encodings, in order. */
  predicate JoinsWritten(joins: seq<Join>, field: Option<JsonValue>) {
    && field.Some? && field.value.JArray?
    && |field.value.items| == |joins|
    && forall i :: 0 <= i < |joins| ==> JoinWritten(joins[i], field.value.items[i])
  }

  lemma OrdersWrittenInOrder(orders: seq<Order>)
    ensures OrdersWritten(orders, Some(JArray(EncodeList(orders, EncodeOrder).value)))
  {
    assert forall i :: 0 <= i < |orders| ==> EncodeOrder(orders[i]).Success?;
    forall i | 0 <= i < |orders| {
      OrderMembers(orders[i]);
    }
  }

  lemma JoinsWrittenInOrder(joins: seq<Join>)
    requires forall i :: 0 <= i < |joins| ==> FilterOk(joins[i].filter)
    ensures EncodeList(joins, EncodeJoin).Success?
    ensures JoinsWritten(joins, Some(JArray(EncodeList(joins, EncodeJoin).value)))
  {
    forall i | 0 <= i < |joins| ensures JoinWritten(joins[i], EncodeJoin(joins[i]).value) {
      JoinWrittenOf(joins[i]);
    }
  }

  lemma JoinWrittenOf(join: Join)
    requires FilterOk(join.filter)
    ensures JoinWritten(join, EncodeJoin(join).value)
  {
    JoinMembers(join, EncodeFilter(join.filter).value);
  }

  lemma SelectWrittenInOrder(select: seq<string>)
    ensures EncodeList(select, EncodeString).Success?
    ensures StringsWritten(select, Some(JArray(EncodeList(select, EncodeString).value)))
  {
    assert forall i :: 0 <= i < |select| ==> EncodeString(select[i]).Success?;
  }

  /** `field` is the array of the strings, in order. */
  predicate StringsWritten(strings: seq<string>, field: Option<JsonValue>) {
    && field.Some? && field.value.JArray?
    && |field.value.items| == |strings|
    && forall i :: 0 <= i < |strings| ==> field.value.items[i] == JString(strings[i])
  }
  /** `item` is how `join` is written: `table` and `on` always, `filter` only when non-empty, as an
      object holding the join's condition names. */
  predicate JoinWritten(join: Join, item: JsonValue) {
    && Field(item, "table") == Some(JString(join.table))
    && Field(item, "on") == Some(JString(join.on))
    && (Field(item, "filter").Some? <==> |join.filter| > 0)
    && (Field(item, "filter").Some? ==>
          Field(item, "filter").value.JObject? &&
          KeysOf(Field(item, "filter").value.members) == Keys.SortedKeys(join.filter.Keys))
  }

  /** The query of the sample client: a single join on the attributes table. */
  function SampleQuery(): Query {
    Query(NilMap, [], [], 0, 0, [SampleJoin()])
  }

  function SampleJoin(): Join {
    Join("attributes", "users.id = attributes.user_id",
      map["attribute" := MapOf(map["alias" := Str("dumbledore")])])
  }

  /** The sample query is sent as `joins[0].filter.attribute.alias == "dumbledore"`, with a null
      top-level filter and nothing else. */
  lemma SampleQueryWire()
    ensures EncodeQuery(SampleQuery()).Success?
    ensures var j := EncodeQuery(SampleQuery()).value;
      && Field(j, "filter") == Some(JNull)
      && Field(j, "select").None? && Field(j, "order_by").None? && Field(j, "limit").None?
      && Field(j, "offset").None?
      && Field(j, "joins") == Some(JArray([EncodeJoin(SampleJoin()).value]))
  {
    var q := SampleQuery();
    assert QueryOk(q) by {
      assert FilterOk(SampleJoin().filter) by {
        assert AllRepresentable(map["alias" := Str("dumbledore")]);
      }
    }
    EncodedFieldPresence(q);
    QueryMembersOf(q);
    var items := EncodeList(q.joins, EncodeJoin).value;
    assert items == [EncodeJoin(SampleJoin()).value];
  }

  /** The sample join names the attributes table and filters on `attribute.alias == "dumbledore"`. */
  lemma SampleJoinWire()
    ensures EncodeJoin(SampleJoin()).Success?
    ensures var join := EncodeJoin(SampleJoin()).value;
      && Field(join, "table") == Some(JString("attributes"))
      && Field(join, "on") == Some(JString("users.id = attributes.user_id"))
      && Field(join, "filter").Some?
      && Field(Field(join, "filter").value, "attribute").Some?
      && Field(Field(Field(join, "filter").value, "attribute").value, "alias") == Some(JString("dumbledore"))
  {
    JoinWire("attributes", "users.id = attributes.user_id", "attribute", "alias", "dumbledore");
  }

  /** A join filtering on one string-valued attribute carries that value at
      `filter.<attribute>.<key>`. */
  lemma JoinWire(table: string, on: string, attribute: string, key: string, value: string)
    ensures var j := Join(table, on, map[attribute := MapOf(map[key := Str(value)])]);
      && EncodeJoin(j).Success?
      && var join := EncodeJoin(j).value;
      && Field(join, "table") == Some(JString(table))
      && Field(join, "on") == Some(JString(on))
      && Field(join, "filter").Some?
      && Field(Field(join, "filter").value, attribute).Some?
      && Field(Field(Field(join, "filter").value, attribute).value, key) == Some(JString(value))
  {
    var cond := map[key := Str(value)];
    var filter := map[attribute := MapOf(cond)];
    assert AllRepresentable(cond);
    assert FilterOk(filter);
    JoinMembers(Join(table, on, filter), EncodeFilter(filter).value);
    EncodeMapGet(filter, EncodeCondition, attribute);
    MarshalSingle(key, Str(value));
  }

  /** A one-entry map is written as a one-member object. */
  lemma MarshalSingle(key: string, v: Dyn)
    requires Representable(v)
    ensures Marshal(Dict(map[key := v])).Success?
    ensures Field(Marshal(Dict(map[key := v])).value, key) == Some(Marshal(v).value)
  {
    var d := Dict(map[key := v]);
    var ks := Keys.SortedKeys(d.entries.Keys);
    assert ks == [key];
    var ms := MarshalMembers(d, ks).value;
    assert |ms| == 1 && ms[0].key == key;
  }
}
