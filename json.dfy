/** encoding/json on the JSON document trees of `GoValues.JsonValue`. `Marshal` is `json.Marshal` on an
    `interface{}` value; `Unmarshal` is `json.Unmarshal` into an `interface{}`. */
module Json {
  import opened Wrappers
  import opened Rpc
  import opened GoValues
  import Keys

  /** The keys of an object's members, in the order they are written. */
  function KeysOf(ms: seq<Member>): (ks: seq<string>)
    ensures |ks| == |ms| && forall i :: 0 <= i < |ms| ==> ks[i] == ms[i].key
  {
    seq(|ms|, i requires 0 <= i < |ms| => ms[i].key)
  }

  /** The value of the first member named `key`. */
  function Get(ms: seq<Member>, key: string): (r: Option<JsonValue>)
    ensures r.Some? <==> key in KeysOf(ms)
    ensures r.Some? ==> exists i :: 0 <= i < |ms| && ms[i] == Member(key, r.value)
  {
    if ms == [] then None
    else if ms[0].key == key then Some(ms[0].value)
    else
      assert forall i :: 1 <= i < |ms| ==> KeysOf(ms)[i] == KeysOf(ms[1..])[i - 1];
      assert key in KeysOf(ms[1..]) ==> key in KeysOf(ms);
      var r := Get(ms[1..], key);
      assert r.Some? ==> exists i :: 1 <= i < |ms| && ms[i] == Member(key, r.value) by {
        if r.Some? {
          var i :| 0 <= i < |ms[1..]| && ms[1..][i] == Member(key, r.value);
          assert ms[i + 1] == Member(key, r.value);
        }
      }
      r
  }

  /** A member of an object value; None for a missing key or a value that is not an object. */
  function Field(j: JsonValue, key: string): Option<JsonValue> {
    if j.JObject? then Get(j.members, key) else None
  }

  /** Writes the entries of a map in the given key order, stopping at the first value that
      cannot be written. */
  function EncodeEntries<V>(m: map<string, V>, keys: seq<string>, enc: V -> Result<JsonValue, Error>)
    : (r: Result<seq<Member>, Error>)
    requires forall i :: 0 <= i < |keys| ==> keys[i] in m
    ensures r.Success? <==> forall i :: 0 <= i < |keys| ==> enc(m[keys[i]]).Success?
    ensures r.Success? ==> KeysOf(r.value) == keys
    ensures r.Success? ==> forall i :: 0 <= i < |keys| ==> r.value[i].value == enc(m[keys[i]]).value
  {
    if keys == [] then Success([])
    else
      match (enc(m[keys[0]]), EncodeEntries(m, keys[1..], enc))
      case (Failure(e), _) => Failure(e)
      case (Success(_), Failure(e)) => Failure(e)
      case (Success(v), Success(rest)) =>
        assert forall i :: 1 <= i < |keys| ==> keys[i] == keys[1..][i - 1];
        Success([Member(keys[0], v)] + rest)
  }

  /** `json.Marshal` of a `map[string]V`: members in sorted key order. */
  function EncodeMap<V>(m: map<string, V>, enc: V -> Result<JsonValue, Error>): (r: Result<seq<Member>, Error>)
    ensures r.Success? <==> forall k :: k in m ==> enc(m[k]).Success?
    ensures r.Success? ==> KeysOf(r.value) == Keys.SortedKeys(m.Keys)
  {
    var ks := Keys.SortedKeys(m.Keys);
    var r := EncodeEntries(m, ks, enc);
    assert r.Success? <==> forall k :: k in m ==> enc(m[k]).Success? by {
      EntriesSucceed(m, ks, enc);
    }
    r
  }

  /** Over a sequence holding every key of m, the values all encode exactly when every key's value
      encodes. */
  lemma EntriesSucceed<V>(m: map<string, V>, ks: seq<string>, enc: V -> Result<JsonValue, Error>)
    requires forall k :: k in m <==> k in ks
    ensures (forall i :: 0 <= i < |ks| ==> enc(m[ks[i]]).Success?) <==> (forall k :: k in m ==> enc(m[k]).Success?)
  {
    if forall i :: 0 <= i < |ks| ==> enc(m[ks[i]]).Success? {
      forall k | k in m ensures enc(m[k]).Success? {
        var i :| 0 <= i < |ks| && ks[i] == k;
      }
    }
  }

  /** Each member `EncodeMap` writes holds the encoding of its key's value. */
  lemma EncodeMapMembers<V>(m: map<string, V>, enc: V -> Result<JsonValue, Error>, i: int)
    requires EncodeMap(m, enc).Success?
    requires 0 <= i < |EncodeMap(m, enc).value|
    ensures EncodeMap(m, enc).value[i].key in m
    ensures EncodeMap(m, enc).value[i].value == enc(m[EncodeMap(m, enc).value[i].key]).value
  {
    var ks := Keys.SortedKeys(m.Keys);
    assert KeysOf(EncodeMap(m, enc).value)[i] == ks[i];
  }

  /** Looking a key up in what `EncodeMap` wrote finds its value's encoding. */
  lemma EncodeMapGet<V>(m: map<string, V>, enc: V -> Result<JsonValue, Error>, k: string)
    requires EncodeMap(m, enc).Success?
    requires k in m
    ensures Get(EncodeMap(m, enc).value, k) == Some(enc(m[k]).value)
  {
    var ms := EncodeMap(m, enc).value;
    EncodeMapShape(m, enc);
    var ks := KeysOf(ms);
    var i :| 0 <= i < |ks| && ks[i] == k;
    GetDistinct(ms, i);
  }

  /** In an object whose keys are distinct, a member's key finds that member. */
  lemma {:induction false} GetDistinct(ms: seq<Member>, i: int)
    requires 0 <= i < |ms|
    requires forall a, b :: 0 <= a < b < |ms| ==> ms[a].key != ms[b].key
    ensures Get(ms, ms[i].key) == Some(ms[i].value)
  {
    if i > 0 {
      GetDistinct(ms[1..], i - 1);
    }
  }

  /** `json.Marshal`: fails exactly on values holding an unsupported type; a value of a Go type of
      its own is written as its document. */
  function Marshal(d: Dyn): (r: Result<JsonValue, Error>)
    ensures r.Success? <==> Writable(d)
    ensures d.Typed? ==> r == Success(d.written)
    decreases d, 1
  {
    match d
    case Nil => Success(JNull)
    case Bool(b) => Success(JBool(b))
    case Number(n) => Success(JNumber(n))
    case Str(s) => Success(JString(s))
    case Typed(_, written) => Success(written)
    case Unsupported(kind) => Failure(UnsupportedType(kind))
    case Slice(items) =>
      var r := MarshalItems(items);
      if r.Failure? then Failure(r.error) else Success(JArray(r.value))
    case Dict(entries) => MarshalObject(d)
  }

  /** A map value: its members in sorted key order. */
  function MarshalObject(d: Dyn): (r: Result<JsonValue, Error>)
    requires d.Dict?
    ensures r.Success? <==> AllWritable(d.entries)
    ensures r.Success? ==> r.value.JObject?
    decreases d, 0, |d.entries| + 1
  {
    var ks := Keys.SortedKeys(d.entries.Keys);
    var r := MarshalMembers(d, ks);
    assert r.Success? <==> AllWritable(d.entries) by {
      KeysWritable(d.entries, ks);
    }
    if r.Failure? then Failure(r.error) else Success(JObject(r.value))
  }

  /** Over a sequence holding every key of a map, the values are all writable exactly when the
      map's values are. */
  lemma KeysWritable(entries: map<string, Dyn>, ks: seq<string>)
    requires forall k :: k in entries <==> k in ks
    ensures (forall i :: 0 <= i < |ks| ==> Writable(entries[ks[i]])) <==> AllWritable(entries)
  {
    if forall i :: 0 <= i < |ks| ==> Writable(entries[ks[i]]) {
      forall k | k in entries ensures Writable(entries[k]) {
        var i :| 0 <= i < |ks| && ks[i] == k;
      }
    }
  }

  /** The entries of a map value, written in the order `keys` gives. */
  function MarshalMembers(d: Dyn, keys: seq<string>): (r: Result<seq<Member>, Error>)
    requires d.Dict? && forall i :: 0 <= i < |keys| ==> keys[i] in d.entries
    ensures r.Success? <==> forall i :: 0 <= i < |keys| ==> Writable(d.entries[keys[i]])
    ensures r.Success? ==> KeysOf(r.value) == keys
    ensures r.Success? ==> forall i :: 0 <= i < |keys| ==> Marshal(d.entries[keys[i]]) == Success(r.value[i].value)
    decreases d, 0, |keys|
  {
    if keys == [] then Success([])
    else
      match (Marshal(d.entries[keys[0]]), MarshalMembers(d, keys[1..]))
      case (Failure(e), _) => Failure(e)
      case (Success(_), Failure(e)) => Failure(e)
      case (Success(v), Success(rest)) =>
        assert forall i :: 1 <= i < |keys| ==> keys[i] == keys[1..][i - 1];
        Success([Member(keys[0], v)] + rest)
  }

  function MarshalItems(ds: seq<Dyn>): (r: Result<seq<JsonValue>, Error>)
    decreases ds
    ensures r.Success? <==> forall i :: 0 <= i < |ds| ==> Writable(ds[i])
    ensures r.Success? ==> |r.value| == |ds|
    ensures r.Success? ==> forall i :: 0 <= i < |ds| ==> Marshal(ds[i]) == Success(r.value[i])
  {
    if ds == [] then Success([])
    else
      match (Marshal(ds[0]), MarshalItems(ds[1..]))
      case (Failure(e), _) => Failure(e)
      case (Success(_), Failure(e)) => Failure(e)
      case (Success(j), Success(js)) =>
        assert forall i :: 1 <= i < |ds| ==> ds[i] == ds[1..][i - 1];
        Success([j] + js)
  }

  /** `json.Unmarshal` into an `interface{}`; of repeated keys the last one wins. */
  function Unmarshal(j: JsonValue): Dyn {
    match j
    case JNull => Nil
    case JBool(b) => Bool(b)
    case JNumber(n) => Number(n)
    case JString(s) => Str(s)
    case JArray(items) => Slice(seq(|items|, i requires 0 <= i < |items| => Unmarshal(items[i])))
    case JObject(ms) => Dict(MembersToMap(ms))
  }

  function MembersToMap(ms: seq<Member>): (m: map<string, Dyn>)
    ensures forall k :: k in m <==> k in KeysOf(ms)
  {
    if ms == [] then map[]
    else
      var init := ms[..|ms| - 1];
      assert KeysOf(ms) == KeysOf(init) + [ms[|ms| - 1].key];
      MembersToMap(init)[ms[|ms| - 1].key := Unmarshal(ms[|ms| - 1].value)]
  }

  lemma {:induction false} MembersToMapDistinct(ms: seq<Member>, i: int)
    requires 0 <= i < |ms|
    requires forall a, b :: 0 <= a < b < |ms| ==> ms[a].key != ms[b].key
    ensures ms[i].key in MembersToMap(ms) && MembersToMap(ms)[ms[i].key] == Unmarshal(ms[i].value)
  {
    if i < |ms| - 1 {
      MembersToMapDistinct(ms[..|ms| - 1], i);
    }
  }

  /** `json.Unmarshal` only ever builds nil, booleans, numbers, strings, `[]interface{}` and
      `map[string]interface{}`: a value of a Go type of its own never reads back as itself. */
  lemma {:induction false} UnmarshalUntyped(j: JsonValue)
    ensures Untyped(Unmarshal(j)) && Writable(Unmarshal(j))
  {
    match j
    case JArray(items) =>
      forall i | 0 <= i < |items| ensures Untyped(Unmarshal(items[i])) && Writable(Unmarshal(items[i])) {
        UnmarshalUntyped(items[i]);
      }
    case JObject(ms) =>
      var m := MembersToMap(ms);
      forall k | k in m ensures Untyped(m[k]) && Writable(m[k]) {
        MembersToMapFrom(ms, k);
        var i :| 0 <= i < |ms| && m[k] == Unmarshal(ms[i].value);
        UnmarshalUntyped(ms[i].value);
      }
    case _ =>
  }

  /** Each value of the map read from members is the reading of one member's value. */
  lemma {:induction false} MembersToMapFrom(ms: seq<Member>, k: string)
    requires k in MembersToMap(ms)
    ensures exists i :: 0 <= i < |ms| && MembersToMap(ms)[k] == Unmarshal(ms[i].value)
  {
    var last := |ms| - 1;
    if ms[last].key != k {
      MembersToMapFrom(ms[..last], k);
      var i :| 0 <= i < last && MembersToMap(ms[..last])[k] == Unmarshal(ms[..last][i].value);
      assert MembersToMap(ms)[k] == Unmarshal(ms[i].value);
    } else {
      assert MembersToMap(ms)[k] == Unmarshal(ms[last].value);
    }
  }

  /** `d` can be written, and reading back what was written gives `d`. */
  ghost predicate RoundTrips(d: Dyn) {
    Representable(d) && Unmarshal(Marshal(d).value) == d
  }

  /** Reading back what `json.Marshal` wrote gives the original value. */
  lemma {:induction false} UnmarshalMarshal(d: Dyn)
    requires Representable(d)
    ensures Unmarshal(Marshal(d).value) == d
  {
    match d
    case Slice(items) =>
      forall i | 0 <= i < |items| ensures RoundTrips(items[i]) {
        UnmarshalMarshal(items[i]);
      }
      UnmarshalMarshalSlice(items);
    case Dict(entries) =>
      forall k | k in entries ensures RoundTrips(entries[k]) {
        UnmarshalMarshal(entries[k]);
      }
      UnmarshalMarshalDict(entries);
    case _ =>
  }

  lemma UnmarshalMarshalSlice(items: seq<Dyn>)
    requires forall i :: 0 <= i < |items| ==> RoundTrips(items[i])
    ensures RoundTrips(Slice(items))
  {
    var js := MarshalItems(items).value;
    assert Marshal(Slice(items)) == Success(JArray(js));
    assert forall i :: 0 <= i < |items| ==> Unmarshal(js[i]) == items[i];
  }

  lemma UnmarshalMarshalDict(entries: map<string, Dyn>)
    requires forall k :: k in entries ==> RoundTrips(entries[k])
    ensures Representable(Dict(entries))
    ensures Unmarshal(Marshal(Dict(entries)).value) == Dict(entries)
  {
    var d := Dict(entries);
    assert Representable(d) by {
      forall k | k in entries ensures Representable(entries[k]) { assert RoundTrips(entries[k]); }
    }
    var ks := Keys.SortedKeys(entries.Keys);
    var ms := MarshalMembers(d, ks).value;
    assert Marshal(d) == Success(JObject(ms));
    EncodedEntriesReadBack(entries, ks, ms);
    assert Unmarshal(JObject(ms)) == Dict(MembersToMap(ms));
  }

  lemma EncodedEntriesReadBack(entries: map<string, Dyn>, ks: seq<string>, ms: seq<Member>)
    requires forall k :: k in entries ==> RoundTrips(entries[k])
    requires ks == Keys.SortedKeys(entries.Keys)
    requires MarshalMembers(Dict(entries), ks) == Success(ms)
    ensures MembersToMap(ms) == entries
  {
    MarshalMembersShape(entries, ks, ms);
    forall i | 0 <= i < |ms| ensures ms[i].key in entries && Unmarshal(ms[i].value) == entries[ms[i].key] {
      assert RoundTrips(entries[ms[i].key]);
    }
    MembersToMapOfKeys(entries, ms);
  }

  /** The members written for a map: one per key, keys distinct, each holding its value's
      encoding. */
  lemma MarshalMembersShape(entries: map<string, Dyn>, ks: seq<string>, ms: seq<Member>)
    requires ks == Keys.SortedKeys(entries.Keys)
    requires MarshalMembers(Dict(entries), ks) == Success(ms)
    ensures forall a, b :: 0 <= a < b < |ms| ==> ms[a].key != ms[b].key
    ensures forall k :: k in entries ==> k in KeysOf(ms)
    ensures forall i :: 0 <= i < |ms| ==> ms[i].key in entries && Marshal(entries[ms[i].key]) == Success(ms[i].value)
  {
    assert KeysOf(ms) == ks;
    assert forall a :: 0 <= a < |ms| ==> ms[a].key == ks[a];
  }

  /** Members with distinct keys, one per key of a map and each holding what reads back as that
      key's value, read back as the map. */
  lemma MembersToMapOfKeys(entries: map<string, Dyn>, ms: seq<Member>)
    requires forall a, b :: 0 <= a < b < |ms| ==> ms[a].key != ms[b].key
    requires forall k :: k in entries ==> k in KeysOf(ms)
    requires forall i :: 0 <= i < |ms| ==> ms[i].key in entries && Unmarshal(ms[i].value) == entries[ms[i].key]
    ensures MembersToMap(ms) == entries
  {
    MembersToMapValues(entries, ms);
    MembersToMapKeys(entries, ms);
    SameValues(MembersToMap(ms), entries);
  }

  lemma MembersToMapValues(entries: map<string, Dyn>, ms: seq<Member>)
    requires forall a, b :: 0 <= a < b < |ms| ==> ms[a].key != ms[b].key
    requires forall k :: k in entries ==> k in KeysOf(ms)
    requires forall i :: 0 <= i < |ms| ==> ms[i].key in entries && Unmarshal(ms[i].value) == entries[ms[i].key]
    ensures forall k :: k in entries ==> k in MembersToMap(ms) && MembersToMap(ms)[k] == entries[k]
  {
    var ks := KeysOf(ms);
    var m := MembersToMap(ms);
    forall k | k in entries ensures k in m && m[k] == entries[k] {
      var i :| 0 <= i < |ks| && ks[i] == k;
      MembersToMapDistinct(ms, i);
    }
  }

  lemma MembersToMapKeys(entries: map<string, Dyn>, ms: seq<Member>)
    requires forall k :: k in entries ==> k in KeysOf(ms)
    requires forall i :: 0 <= i < |ms| ==> ms[i].key in entries
    ensures MembersToMap(ms).Keys == entries.Keys
  {
    var ks := KeysOf(ms);
    forall k | k in MembersToMap(ms) ensures k in entries {
      var i :| 0 <= i < |ks| && ks[i] == k;
    }
  }

  /** Reads an object's members into a map with `dec`, front to back, stopping at the first
      value `dec` rejects; of repeated keys the last one wins. */
  function DecodeMap<V>(ms: seq<Member>, dec: JsonValue -> Result<V, Error>): (r: Result<map<string, V>, Error>)
    ensures r.Success? <==> forall i :: 0 <= i < |ms| ==> dec(ms[i].value).Success?
    ensures r.Success? ==> forall k :: k in r.value <==> k in KeysOf(ms)
  {
    if ms == [] then Success(map[])
    else
      var init, last := ms[..|ms| - 1], ms[|ms| - 1];
      assert KeysOf(ms) == KeysOf(init) + [last.key];
      match (DecodeMap(init, dec), dec(last.value))
      case (Failure(e), _) => Failure(e)
      case (Success(_), Failure(e)) => Failure(e)
      case (Success(m), Success(v)) => Success(m[last.key := v])
  }

  lemma {:induction false} DecodeMapDistinct<V>(ms: seq<Member>, dec: JsonValue -> Result<V, Error>, i: int)
    requires 0 <= i < |ms|
    requires forall a, b :: 0 <= a < b < |ms| ==> ms[a].key != ms[b].key
    requires DecodeMap(ms, dec).Success?
    ensures DecodeMap(ms, dec).value[ms[i].key] == dec(ms[i].value).value
  {
    if i < |ms| - 1 {
      DecodeMapDistinct(ms[..|ms| - 1], dec, i);
    }
  }

  /** What `EncodeMap` wrote: one member per key, keys distinct, each holding its value's
      encoding. */
  lemma EncodeMapShape<V>(m: map<string, V>, enc: V -> Result<JsonValue, Error>)
    requires EncodeMap(m, enc).Success?
    ensures var ms := EncodeMap(m, enc).value;
      && (forall a, b :: 0 <= a < b < |ms| ==> ms[a].key != ms[b].key)
      && (forall i :: 0 <= i < |ms| ==> ms[i].key in m && ms[i].value == enc(m[ms[i].key]).value)
      && (forall k :: k in m <==> k in KeysOf(ms))
  {
    var ms := EncodeMap(m, enc).value;
    EncodeMapKeys(m, enc);
    forall i | 0 <= i < |ms| ensures ms[i].key in m && ms[i].value == enc(m[ms[i].key]).value {
      EncodeMapMembers(m, enc, i);
    }
  }

  /** The members `EncodeMap` wrote carry distinct keys, exactly the map's. */
  lemma EncodeMapKeys<V>(m: map<string, V>, enc: V -> Result<JsonValue, Error>)
    requires EncodeMap(m, enc).Success?
    ensures var ms := EncodeMap(m, enc).value;
      && (forall a, b :: 0 <= a < b < |ms| ==> ms[a].key != ms[b].key)
      && (forall k :: k in m <==> k in KeysOf(ms))
  {
    var ms := EncodeMap(m, enc).value;
    var ks := Keys.SortedKeys(m.Keys);
    assert KeysOf(ms) == ks;
    forall a, b | 0 <= a < b < |ms| ensures ms[a].key != ms[b].key {
      assert ms[a].key == ks[a] && ms[b].key == ks[b];
    }
  }

  /** Decoding what `EncodeMap` wrote with a decoder that inverts the encoder gives the map back. */
  lemma DecodeEncodeMap<V>(m: map<string, V>, enc: V -> Result<JsonValue, Error>, dec: JsonValue -> Result<V, Error>)
    requires forall k :: k in m ==> enc(m[k]).Success? && dec(enc(m[k]).value) == Success(m[k])
    ensures EncodeMap(m, enc).Success?
    ensures DecodeMap(EncodeMap(m, enc).value, dec) == Success(m)
  {
    var ms := EncodeMap(m, enc).value;
    EncodeMapShape(m, enc);
    DecodeMembers(m, ms, dec);
  }

  /** Distinct members, one per key of m, each decoding to that key's value, decode to m. */
  lemma DecodeMembers<V>(m: map<string, V>, ms: seq<Member>, dec: JsonValue -> Result<V, Error>)
    requires forall a, b :: 0 <= a < b < |ms| ==> ms[a].key != ms[b].key
    requires forall i :: 0 <= i < |ms| ==> ms[i].key in m && dec(ms[i].value) == Success(m[ms[i].key])
    requires forall k :: k in m <==> k in KeysOf(ms)
    ensures DecodeMap(ms, dec) == Success(m)
  {
    var r := DecodeMap(ms, dec).value;
    assert r.Keys == m.Keys;
    forall k | k in m ensures r[k] == m[k] {
      DecodeMemberOf(m, ms, dec, k);
    }
    SameValues(r, m);
  }

  lemma DecodeMemberOf<V>(m: map<string, V>, ms: seq<Member>, dec: JsonValue -> Result<V, Error>, k: string)
    requires forall a, b :: 0 <= a < b < |ms| ==> ms[a].key != ms[b].key
    requires forall i :: 0 <= i < |ms| ==> ms[i].key in m && dec(ms[i].value) == Success(m[ms[i].key])
    requires k in m && k in KeysOf(ms)
    ensures DecodeMap(ms, dec).Success? && k in DecodeMap(ms, dec).value
    ensures DecodeMap(ms, dec).value[k] == m[k]
  {
    var ks := KeysOf(ms);
    var i :| 0 <= i < |ks| && ks[i] == k;
    assert ms[i].key == k;
    DecodeMapDistinct(ms, dec, i);
  }

  lemma SameValues<V>(m: map<string, V>, e: map<string, V>)
    requires m.Keys == e.Keys
    requires forall k :: k in e ==> m[k] == e[k]
    ensures m == e
  {
  }

  /** The members of a Go struct, in field declaration order: each field comes with its encoding,
      or None when the field is tagged `omitempty` and holds its type's empty value. */
  function StructMembers(fs: seq<(string, Option<JsonValue>)>): (ms: seq<Member>)
  {
    if fs == [] then []
    else (if fs[0].1.Some? then [Member(fs[0].0, fs[0].1.value)] else []) + StructMembers(fs[1..])
  }

  /** Reading a field back from a struct's members finds the field's encoding, and finds nothing
      for an omitted field. */
  lemma {:induction false} GetStructMembers(fs: seq<(string, Option<JsonValue>)>, i: int)
    requires 0 <= i < |fs|
    requires forall a, b :: 0 <= a < b < |fs| ==> fs[a].0 != fs[b].0
    ensures Get(StructMembers(fs), fs[i].0) == fs[i].1
  {
    var tail := fs[1..];
    var rest := StructMembers(tail);
    var head := Member(fs[0].0, if fs[0].1.Some? then fs[0].1.value else JNull);
    assert StructMembers(fs) == if fs[0].1.Some? then [head] + rest else rest;
    if i == 0 {
      if fs[0].1.None? {
        forall j | 0 <= j < |tail| ensures tail[j].0 != fs[0].0 {
          assert tail[j] == fs[j + 1];
        }
        GetAbsent(tail, fs[0].0);
      } else {
        GetCons(head, rest, fs[0].0);
      }
    } else {
      forall a, b | 0 <= a < b < |tail| ensures tail[a].0 != tail[b].0 {
        assert tail[a] == fs[a + 1] && tail[b] == fs[b + 1];
      }
      GetStructMembers(tail, i - 1);
      assert tail[i - 1] == fs[i];
      if fs[0].1.Some? {
        GetCons(head, rest, fs[i].0);
      }
    }
  }

  /** Looking a key up in members with one more in front. */
  lemma GetCons(m: Member, rest: seq<Member>, key: string)
    ensures Get([m] + rest, key) == if m.key == key then Some(m.value) else Get(rest, key)
  {
    assert ([m] + rest)[1..] == rest;
  }

  lemma {:induction false} GetAbsent(fs: seq<(string, Option<JsonValue>)>, key: string)
    requires forall i :: 0 <= i < |fs| ==> fs[i].0 != key
    ensures Get(StructMembers(fs), key) == None
  {
    if fs != [] {
      GetAbsent(fs[1..], key);
      var rest := StructMembers(fs[1..]);
      if fs[0].1.Some? {
        assert StructMembers(fs)[1..] == rest;
      }
    }
  }

  /** `json.Marshal` of a slice: the elements' encodings in order, stopping at the first failure. */
  function EncodeList<V>(xs: seq<V>, enc: V -> Result<JsonValue, Error>): (r: Result<seq<JsonValue>, Error>)
    ensures r.Success? <==> forall i :: 0 <= i < |xs| ==> enc(xs[i]).Success?
    ensures r.Success? ==> |r.value| == |xs| && forall i :: 0 <= i < |xs| ==> r.value[i] == enc(xs[i]).value
  {
    if xs == [] then Success([])
    else
      match (enc(xs[0]), EncodeList(xs[1..], enc))
      case (Failure(e), _) => Failure(e)
      case (Success(_), Failure(e)) => Failure(e)
      case (Success(j), Success(js)) =>
        assert forall i :: 1 <= i < |xs| ==> xs[i] == xs[1..][i - 1];
        Success([j] + js)
  }

  /** Reads the items of an array with `dec`, stopping at the first item `dec` rejects. */
  function DecodeList<V>(items: seq<JsonValue>, dec: JsonValue -> Result<V, Error>): (r: Result<seq<V>, Error>)
    ensures r.Success? <==> forall i :: 0 <= i < |items| ==> dec(items[i]).Success?
    ensures r.Success? ==> |r.value| == |items| && forall i :: 0 <= i < |items| ==> r.value[i] == dec(items[i]).value
  {
    if items == [] then Success([])
    else
      match (dec(items[0]), DecodeList(items[1..], dec))
      case (Failure(e), _) => Failure(e)
      case (Success(_), Failure(e)) => Failure(e)
      case (Success(v), Success(vs)) =>
        assert forall i :: 1 <= i < |items| ==> items[i] == items[1..][i - 1];
        Success([v] + vs)
  }

  /** Decoding what `EncodeList` wrote with a decoder that inverts the encoder gives the slice back. */
  lemma DecodeEncodeList<V>(xs: seq<V>, enc: V -> Result<JsonValue, Error>, dec: JsonValue -> Result<V, Error>)
    requires forall i :: 0 <= i < |xs| ==> enc(xs[i]).Success? && dec(enc(xs[i]).value) == Success(xs[i])
    ensures EncodeList(xs, enc).Success?
    ensures DecodeList(EncodeList(xs, enc).value, dec) == Success(xs)
  {
    var js := EncodeList(xs, enc).value;
    assert forall i :: 0 <= i < |js| ==> dec(js[i]) == Success(xs[i]);
    var ys := DecodeList(js, dec).value;
    assert |ys| == |xs| && forall i :: 0 <= i < |xs| ==> ys[i] == xs[i];
    assert ys == xs;
    assert DecodeList(js, dec) == Success(ys);
  }
}
