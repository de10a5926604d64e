/** The Go values held in `interface{}` positions: condition values, attribute and trait bags,
    integration settings, session documents, session-event data. Also the JSON documents
    encoding/json writes, as trees, since a value of a Go type of its own is known here by the
    document it is written as. */
module GoValues {

  /** A JSON document; object members keep the order in which they are written (struct fields in
      declaration order, map keys sorted). */
  datatype JsonValue =
    | JNull
    | JBool(b: bool)
    | JNumber(n: int)
    | JString(s: string)
    | JArray(items: seq<JsonValue>)
    | JObject(members: seq<Member>)

  datatype Member = Member(key: string, value: JsonValue)

  datatype Dyn =
    | Nil
    | Bool(b: bool)
    | Number(n: int)
    | Str(s: string)
    | Slice(items: seq<Dyn>)             // []interface{}
    | Dict(entries: map<string, Dyn>)    // map[string]interface{}
    | Typed(kind: string, written: JsonValue) // a struct, a pointer, a []string, a map[string]string, ...:
                                         // encoding/json writes it as `written`, structpb refuses it
    | Unsupported(kind: string)          // a channel, a function, ...: a type neither encoder accepts

  /** Nothing inside that encoding/json refuses. */
  predicate Writable(d: Dyn) {
    match d
    case Unsupported(_) => false
    case Slice(items) => forall i :: 0 <= i < |items| ==> Writable(items[i])
    case Dict(entries) => forall k :: k in entries ==> Writable(entries[k])
    case _ => true
  }

  /** Nothing inside of a Go type of its own: the values `json.Unmarshal` and `AsInterface` give. */
  predicate Untyped(d: Dyn) {
    match d
    case Typed(_, _) => false
    case Slice(items) => forall i :: 0 <= i < |items| ==> Untyped(items[i])
    case Dict(entries) => forall k :: k in entries ==> Untyped(entries[k])
    case _ => true
  }

  /** The values structpb converts: writable and untyped throughout. */
  predicate Representable(d: Dyn) {
    Writable(d) && Untyped(d)
  }

  predicate AllRepresentable(m: map<string, Dyn>) {
    forall k :: k in m ==> Representable(m[k])
  }

  predicate AllWritable(m: map<string, Dyn>) {
    forall k :: k in m ==> Writable(m[k])
  }

  lemma RepresentableSlice(items: seq<Dyn>)
    ensures Representable(Slice(items)) <==> forall i :: 0 <= i < |items| ==> Representable(items[i])
  {
  }

  lemma RepresentableDict(entries: map<string, Dyn>)
    ensures Representable(Dict(entries)) <==> AllRepresentable(entries)
  {
  }
}
