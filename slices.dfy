/** `WithAttribute` (go-client/userup.go) as the Go runtime executes it. The params are copied by
    the value receiver, but the copy's `AttributeFilters` is a slice header that still names the
    caller's backing array, and `append` writes into that array whenever it has room. Two builders
    applied to the same params can therefore write the same slot. The rest of the model uses the
    value reading of `Users.WithAttribute`, in which every call gets its own sequence. */
module FilterSlices {
  import opened Wrappers
  import opened GoValues
  import opened Structpb
  import opened Users

  /** A slice header: the address of its backing array, its length and its capacity. */
  datatype Header = Header(addr: nat, len: nat, cap: nat)

  /** Backing arrays by address; a slot holds a filter pointer, nil as None. */
  type Arrays = map<nat, seq<Option<AttributeFilter>>>

  predicate Valid(arrays: Arrays, s: Header) {
    s.addr in arrays && s.len <= s.cap && |arrays[s.addr]| == s.cap
  }

  /** What a slice shows: the first `len` slots of its backing array. */
  function Elements(arrays: Arrays, s: Header): seq<Option<AttributeFilter>>
    requires Valid(arrays, s)
  {
    arrays[s.addr][..s.len]
  }

  /** `append(s, x)`: with room left, x is written into the backing array at index `len`, which
      other headers naming that array also see; without room, the elements are copied into a
      newAddr array of capacity `grown` at the unused address `newAddr`. */
  function Append(arrays: Arrays, s: Header, x: AttributeFilter, newAddr: nat, grown: nat): (r: (Arrays, Header))
    requires Valid(arrays, s) && newAddr !in arrays && grown > s.len
    ensures Valid(r.0, r.1) && Elements(r.0, r.1) == Elements(arrays, s) + [Some(x)]
    ensures s.len < s.cap ==> r.1.addr == s.addr && r.0 == arrays[s.addr := arrays[s.addr][s.len := Some(x)]]
    ensures s.len == s.cap ==> r.1.addr == newAddr && r.0.Keys == arrays.Keys + {newAddr}
    ensures forall a :: a in arrays && a != s.addr ==> a in r.0 && r.0[a] == arrays[a]
  {
    if s.len < s.cap then
      var slots := arrays[s.addr][s.len := Some(x)];
      assert slots[..s.len + 1] == arrays[s.addr][..s.len] + [Some(x)];
      (arrays[s.addr := slots], Header(s.addr, s.len + 1, s.cap))
    else
      var slots := arrays[s.addr][..s.len] + [Some(x)] + seq(grown - s.len - 1, _ => None);
      assert slots[..s.len + 1] == arrays[s.addr][..s.len] + [Some(x)];
      (arrays[newAddr := slots], Header(newAddr, s.len + 1, grown))
  }

  /** `UserSearchParams` with its attribute filters as a slice header. */
  datatype Params = Params(id: UserID, username: string, attributeFilters: Header, traitFilters: seq<TraitFilter>)

  /** The filter both readings of `WithAttribute` append. */
  function NewFilter(name: string, value: Dyn, operators: seq<Operator>): AttributeFilter {
    AttributeFilter(name, NewValue(value).ToOption(), ChosenOperator(operators))
  }

  /** `WithAttribute` as written: the receiver's header is copied, the filter appended to it. */
  function WithAttributeAsWritten(arrays: Arrays, usp: Params, name: string, value: Dyn, operators: seq<Operator>,
                                  newAddr: nat, grown: nat): (r: (Arrays, Params))
    requires Valid(arrays, usp.attributeFilters) && newAddr !in arrays && grown > usp.attributeFilters.len
    ensures Valid(r.0, r.1.attributeFilters)
    ensures Elements(r.0, r.1.attributeFilters) == Elements(arrays, usp.attributeFilters) + [Some(NewFilter(name, value, operators))]
    ensures r.1.id == usp.id && r.1.username == usp.username && r.1.traitFilters == usp.traitFilters
  {
    var (arrays', filters) := Append(arrays, usp.attributeFilters, NewFilter(name, value, operators), newAddr, grown);
    (arrays', usp.(attributeFilters := filters))
  }

  /** A value-model filter list as slots of a backing array: each filter present, none nil. */
  function Slots(fs: seq<AttributeFilter>): (ps: seq<Option<AttributeFilter>>)
    ensures |ps| == |fs| && forall i :: 0 <= i < |fs| ==> ps[i] == Some(fs[i])
  {
    seq(|fs|, i requires 0 <= i < |fs| => Some(fs[i]))
  }

  /** One call on its own shows what the value reading returns: the old filters and the new one. */
  lemma OneCallAgrees(arrays: Arrays, usp: Params, fs: seq<AttributeFilter>, name: string, value: Dyn,
                      operators: seq<Operator>, newAddr: nat, grown: nat)
    requires Valid(arrays, usp.attributeFilters) && newAddr !in arrays && grown > usp.attributeFilters.len
    requires Elements(arrays, usp.attributeFilters) == Slots(fs)
    ensures var r := WithAttributeAsWritten(arrays, usp, name, value, operators, newAddr, grown);
      Elements(r.0, r.1.attributeFilters)
        == Slots(WithAttribute(UserSearchParams(usp.id, usp.username, fs, usp.traitFilters), name, value, operators).attributeFilters)
  {
    var v := WithAttribute(UserSearchParams(usp.id, usp.username, fs, usp.traitFilters), name, value, operators);
    assert v.attributeFilters == fs + [NewFilter(name, value, operators)];
    assert Slots(fs + [NewFilter(name, value, operators)]) == Slots(fs) + [Some(NewFilter(name, value, operators))];
  }

  /** Two builders applied to the same params whose slice has room: the second writes the slot
      the first returned its filter in, so the first result now shows the second filter. */
  lemma ForkedBuildersShareSlot(arrays: Arrays, base: Params, name1: string, value1: Dyn, name2: string, value2: Dyn,
                                operators: seq<Operator>, newAddr: nat, grown: nat)
    requires Valid(arrays, base.attributeFilters) && base.attributeFilters.len < base.attributeFilters.cap
    requires newAddr !in arrays && grown > base.attributeFilters.len
    requires name1 != name2
    ensures var (arrays1, x) := WithAttributeAsWritten(arrays, base, name1, value1, operators, newAddr, grown);
      && newAddr !in arrays1
      && var (arrays2, y) := WithAttributeAsWritten(arrays1, base, name2, value2, operators, newAddr, grown);
      && Valid(arrays2, x.attributeFilters)
      && Elements(arrays2, x.attributeFilters) == Elements(arrays2, y.attributeFilters)
      && Elements(arrays2, x.attributeFilters)[base.attributeFilters.len] == Some(NewFilter(name2, value2, operators))
      && Elements(arrays2, x.attributeFilters)[base.attributeFilters.len].value.name != name1
  {
    var s := base.attributeFilters;
    var f1, f2 := NewFilter(name1, value1, operators), NewFilter(name2, value2, operators);
    var (arrays1, x) := WithAttributeAsWritten(arrays, base, name1, value1, operators, newAddr, grown);
    assert arrays1 == arrays[s.addr := arrays[s.addr][s.len := Some(f1)]];
    var (arrays2, y) := WithAttributeAsWritten(arrays1, base, name2, value2, operators, newAddr, grown);
    assert arrays2 == arrays1[s.addr := arrays1[s.addr][s.len := Some(f2)]];
    assert x.attributeFilters == y.attributeFilters == Header(s.addr, s.len + 1, s.cap);
  }

  /** A call on params whose slice is full moves the filters to a new array of capacity `grown`. */
  lemma FullSliceMoves(arrays: Arrays, usp: Params, name: string, value: Dyn, newAddr: nat, grown: nat)
    requires Valid(arrays, usp.attributeFilters) && usp.attributeFilters.len == usp.attributeFilters.cap
    requires newAddr !in arrays && grown > usp.attributeFilters.len
    ensures var (arrays', q) := WithAttributeAsWritten(arrays, usp, name, value, [], newAddr, grown);
      arrays'.Keys == arrays.Keys + {newAddr} && q.attributeFilters == Header(newAddr, usp.attributeFilters.len + 1, grown)
  {
  }

  /** The input that shows it: three filters added to empty params leave a slice of length 3 in
      an array of capacity 4 (Go grows a slice of pointers from capacity 0 to 1, 2 and then 4), so
      forking two builders from there makes the first show the second's filter. */
  lemma ThreeThenFork(v: Dyn)
    ensures var a0: Arrays := map[0 := []];
      var p0 := Params(ZeroUserID, "", Header(0, 0, 0), []);
      var (a1, p1) := WithAttributeAsWritten(a0, p0, "a", v, [], 1, 1);
      var (a2, p2) := WithAttributeAsWritten(a1, p1, "b", v, [], 2, 2);
      var (a3, p3) := WithAttributeAsWritten(a2, p2, "c", v, [], 3, 4);
      p3.attributeFilters == Header(3, 3, 4) && 4 !in a3
      && var (a4, x) := WithAttributeAsWritten(a3, p3, "d", v, [], 4, 8);
      4 !in a4
      && var (a5, y) := WithAttributeAsWritten(a4, p3, "e", v, [], 4, 8);
      Elements(a5, x.attributeFilters)[3].value.name == "e"
  {
    var a0: Arrays := map[0 := []];
    var p0 := Params(ZeroUserID, "", Header(0, 0, 0), []);
    FullSliceMoves(a0, p0, "a", v, 1, 1);
    var (a1, p1) := WithAttributeAsWritten(a0, p0, "a", v, [], 1, 1);
    FullSliceMoves(a1, p1, "b", v, 2, 2);
    var (a2, p2) := WithAttributeAsWritten(a1, p1, "b", v, [], 2, 2);
    FullSliceMoves(a2, p2, "c", v, 3, 4);
    var (a3, p3) := WithAttributeAsWritten(a2, p2, "c", v, [], 3, 4);
    ForkedBuildersShareSlot(a3, p3, "d", v, "e", v, [], 4, 8);
  }
}
