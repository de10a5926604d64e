/** google.golang.org/protobuf/types/known/structpb: `NewValue`, `NewStruct`, `AsInterface` and
    `AsMap`, the conversions between Go values and the protobuf `Value`/`Struct` messages. */
module Structpb {
  import opened Wrappers
  import opened Rpc
  import opened GoValues
  import Keys

  datatype PbValue =
    | NullValue
    | BoolValue(b: bool)
    | NumberValue(n: int)
    | StringValue(s: string)
    | ListValue(values: seq<PbValue>)
    | StructValue(fields: map<string, PbValue>)

  /** A `*structpb.Struct`'s fields. */
  type Fields = map<string, PbValue>

  /** The Go value a protobuf value reads back as. */
  function AsInterface(v: PbValue): Dyn {
    match v
    case NullValue => Nil
    case BoolValue(b) => Bool(b)
    case NumberValue(n) => Number(n)
    case StringValue(s) => Str(s)
    case ListValue(vs) => Slice(seq(|vs|, i requires 0 <= i < |vs| => AsInterface(vs[i])))
    case StructValue(fs) => Dict(map k | k in fs :: AsInterface(fs[k]))
  }

  /** `Struct.AsMap`; a nil `*Struct` has no fields and reads back as an empty map. */
  function AsMap(fields: Option<Fields>): (m: map<string, Dyn>)
    ensures fields.None? ==> m == map[]
    ensures fields.Some? ==> m.Keys == fields.value.Keys
    ensures fields.Some? ==> forall k :: k in m ==> m[k] == AsInterface(fields.value[k])
  {
    match fields
    case None => map[]
    case Some(fs) => map k | k in fs :: AsInterface(fs[k])
  }

  /** `NewValue`: fails exactly on values holding a type it does not convert (anything but nil,
      booleans, numbers, strings, `[]interface{}` and `map[string]interface{}`); a slice reports its first
      bad element, a map the bad entry whose key sorts first (Go reports whichever its map
      iteration meets first). What it produces reads back as the value it was given. */
  function NewValue(d: Dyn): (r: Result<PbValue, Error>)
    ensures r.Success? <==> Representable(d)
    ensures r.Success? ==> AsInterface(r.value) == d
    decreases d, 1
  {
    match d
    case Nil => Success(NullValue)
    case Bool(b) => Success(BoolValue(b))
    case Number(n) => Success(NumberValue(n))
    case Str(s) => Success(StringValue(s))
    case Typed(kind, _) => Failure(UnsupportedType(kind))
    case Unsupported(kind) => Failure(UnsupportedType(kind))
    case Slice(items) =>
      RepresentableSlice(items);
      var r := NewValues(items);
      if r.Failure? then Failure(r.error)
      else
        assert AsInterface(ListValue(r.value)) == d by {
          assert forall i :: 0 <= i < |items| ==> AsInterface(r.value[i]) == items[i];
        }
        Success(ListValue(r.value))
    case Dict(entries) =>
      RepresentableDict(entries);
      NewStructValue(d)
  }

  /** A `map[string]interface{}`: the error of its least bad key, or the struct of its converted
      values. */
  function NewStructValue(d: Dyn): (r: Result<PbValue, Error>)
    requires d.Dict?
    ensures r.Success? <==> AllRepresentable(d.entries)
    ensures r.Success? ==> AsInterface(r.value) == d
    decreases d, 0
  {
    var entries := d.entries;
    var bad := set k | k in entries && !Representable(entries[k]);
    if bad != {} then NewValue(entries[Keys.Least(bad)])
    else
      assert AllRepresentable(entries) by {
        forall k | k in entries ensures Representable(entries[k]) {
          assert k !in bad;
        }
      }
      var fields := map k | k in entries :: NewValue(entries[k]).value;
      assert AsInterface(StructValue(fields)) == d by {
        assert forall k :: k in entries ==> AsInterface(fields[k]) == entries[k];
      }
      Success(StructValue(fields))
  }

  /** The elements of a `[]interface{}`, converted front to back, stopping at the first failure. */
  function NewValues(ds: seq<Dyn>): (r: Result<seq<PbValue>, Error>)
    ensures r.Success? <==> forall i :: 0 <= i < |ds| ==> Representable(ds[i])
    ensures r.Success? ==> |r.value| == |ds|
    ensures r.Success? ==> forall i :: 0 <= i < |ds| ==> AsInterface(r.value[i]) == ds[i]
  {
    if ds == [] then Success([])
    else
      match (NewValue(ds[0]), NewValues(ds[1..]))
      case (Failure(e), _) => Failure(e)
      case (Success(_), Failure(e)) => Failure(e)
      case (Success(v), Success(vs)) =>
        assert forall i :: 1 <= i < |ds| ==> ds[i] == ds[1..][i - 1];
        Success([v] + vs)
  }

  /** `NewStruct`: the map's values converted, or the error of an unsupported one. A nil map
      converts to an empty `Struct`. */
  function NewStruct(m: map<string, Dyn>): (r: Result<Fields, Error>)
    ensures r.Success? <==> AllRepresentable(m)
    ensures r.Success? ==> AsMap(Some(r.value)) == m
  {
    match NewValue(Dict(m))
    case Success(StructValue(fs)) => Success(fs)
    case Failure(e) => Failure(e)
    case Success(_) => assert false; Failure(UnsupportedType(""))
  }

  /** Every protobuf value converts to a Go value that converts back to it. */
  lemma NewValueAsInterface(v: PbValue)
    ensures NewValue(AsInterface(v)) == Success(v)
  {
    AsInterfaceRepresentable(v);
    AsInterfaceInjective(NewValue(AsInterface(v)).value, v);
  }

  lemma {:induction false} AsInterfaceRepresentable(v: PbValue)
    ensures Representable(AsInterface(v))
  {
    match v
    case ListValue(vs) =>
      forall i | 0 <= i < |vs| ensures Representable(AsInterface(vs[i])) {
        AsInterfaceRepresentable(vs[i]);
      }
    case StructValue(fs) =>
      forall k | k in fs ensures Representable(AsInterface(fs[k])) {
        AsInterfaceRepresentable(fs[k]);
      }
    case _ =>
  }

  /** Distinct protobuf values read back as distinct Go values. */
  lemma {:induction false} AsInterfaceInjective(a: PbValue, b: PbValue)
    requires AsInterface(a) == AsInterface(b)
    ensures a == b
  {
    match a
    case ListValue(xs) =>
      var ys := b.values;
      assert |xs| == |AsInterface(a).items| == |ys|;
      forall i | 0 <= i < |xs| ensures xs[i] == ys[i] {
        assert AsInterface(a).items[i] == AsInterface(b).items[i];
        AsInterfaceInjective(xs[i], ys[i]);
      }
    case StructValue(xf) =>
      var yf := b.fields;
      assert xf.Keys == AsInterface(a).entries.Keys == yf.Keys;
      forall k | k in xf ensures xf[k] == yf[k] {
        assert AsInterface(a).entries[k] == AsInterface(b).entries[k];
        AsInterfaceInjective(xf[k], yf[k]);
      }
    case _ =>
  }

  /** A `Struct` read back with `AsMap` converts to the same fields with `NewStruct`. */
  lemma NewStructAsMap(fields: Fields)
    ensures NewStruct(AsMap(Some(fields))) == Success(fields)
  {
    NewValueAsInterface(StructValue(fields));
    assert AsInterface(StructValue(fields)) == Dict(AsMap(Some(fields)));
  }
}
