/** What encoding/json writes for a `[]byte`: a JSON string holding the standard base64 text of
    the bytes (section 4 of RFC 4648, with padding). */
module Base64 {
  import opened Wrappers
  import opened Hex

  /** The ASCII code of the character standing for the 6-bit value n. */
  function Symbol(n: int): (c: Byte)
    requires 0 <= n < 64
    ensures SymbolValue(c) == Some(n)
  {
    if n < 26 then 65 + n          // A-Z
    else if n < 52 then 97 + n - 26 // a-z
    else if n < 62 then 48 + n - 52 // 0-9
    else if n == 62 then 43         // +
    else 47                         // /
  }

  /** The 6-bit value of an alphabet character; None for anything else, the padding included. */
  function SymbolValue(c: Byte): (r: Option<int>)
    ensures r.Some? ==> 0 <= r.value < 64
  {
    if 65 <= c <= 90 then Some(c - 65)
    else if 97 <= c <= 122 then Some(c - 97 + 26)
    else if 48 <= c <= 57 then Some(c - 48 + 52)
    else if c == 43 then Some(62)
    else if c == 47 then Some(63)
    else None
  }

  const Pad: Byte := 61 // =

  /** The ASCII code of the double quote that delimits a JSON string. */
  const Quote: Byte := 34

  /** Three bytes become four characters; a final one or two bytes become two or three characters
      followed by padding. */
  function Encode(d: seq<Byte>): (s: seq<Byte>)
    ensures |s| == 4 * ((|d| + 2) / 3)
    ensures forall i :: 0 <= i < |s| ==> SymbolValue(s[i]).Some? || s[i] == Pad
  {
    if |d| == 0 then []
    else if |d| == 1 then
      [Symbol(d[0] / 4), Symbol(d[0] % 4 * 16), Pad, Pad]
    else if |d| == 2 then
      [Symbol(d[0] / 4), Symbol(d[0] % 4 * 16 + d[1] / 16), Symbol(d[1] % 16 * 4), Pad]
    else
      Group(d[0], d[1], d[2]) + Encode(d[3..])
  }

  function Group(b0: Byte, b1: Byte, b2: Byte): (s: seq<Byte>)
    ensures |s| == 4
  {
    [Symbol(b0 / 4), Symbol(b0 % 4 * 16 + b1 / 16), Symbol(b1 % 16 * 4 + b2 / 64), Symbol(b2 % 64)]
  }

  /** The reader's side: base64 text back to bytes; None on text `Encode` cannot produce the
      shape of. */
  function Decode(s: seq<Byte>): (r: Option<seq<Byte>>)
  {
    if |s| == 0 then Some([])
    else if |s| < 4 then None
    else
      match (SymbolValue(s[0]), SymbolValue(s[1]), SymbolValue(s[2]), SymbolValue(s[3]))
      case (Some(v0), Some(v1), Some(v2), Some(v3)) =>
        var rest :- Decode(s[4..]);
        Some([v0 * 4 + v1 / 16, v1 % 16 * 16 + v2 / 4, v2 % 4 * 64 + v3] + rest)
      case (Some(v0), Some(v1), Some(v2), None) =>
        if |s| == 4 && s[3] == Pad then Some([v0 * 4 + v1 / 16, v1 % 16 * 16 + v2 / 4]) else None
      case (Some(v0), Some(v1), None, None) =>
        if |s| == 4 && s[2] == Pad && s[3] == Pad then Some([v0 * 4 + v1 / 16]) else None
      case _ => None
  }

  /** The base64 text of any bytes decodes to those bytes. */
  lemma {:induction false} DecodeEncode(d: seq<Byte>)
    ensures Decode(Encode(d)) == Some(d)
  {
    if |d| == 1 {
      DecodeOne(d[0]);
      assert d == [d[0]];
    } else if |d| == 2 {
      DecodeTwo(d[0], d[1]);
      assert d == [d[0], d[1]];
    } else if |d| > 2 {
      DecodeEncode(d[3..]);
      DecodeGroup(d[0], d[1], d[2], Encode(d[3..]), d[3..]);
      assert d == [d[0], d[1], d[2]] + d[3..];
    }
  }

  lemma DecodeOne(b0: Byte)
    ensures Decode(Encode([b0])) == Some([b0])
  {
    var s := Encode([b0]);
    assert s == [Symbol(b0 / 4), Symbol(b0 % 4 * 16), Pad, Pad];
    assert SymbolValue(Pad) == None;
    SplitHigh(b0, 0);
  }

  lemma DecodeTwo(b0: Byte, b1: Byte)
    ensures Decode(Encode([b0, b1])) == Some([b0, b1])
  {
    var s := Encode([b0, b1]);
    assert s == [Symbol(b0 / 4), Symbol(b0 % 4 * 16 + b1 / 16), Symbol(b1 % 16 * 4), Pad];
    assert SymbolValue(Pad) == None;
    SplitHigh(b0, b1);
    SplitMiddle(b1, 0);
  }

  lemma DecodeGroup(b0: Byte, b1: Byte, b2: Byte, t: seq<Byte>, rest: seq<Byte>)
    requires Decode(t) == Some(rest)
    ensures Decode(Group(b0, b1, b2) + t) == Some([b0, b1, b2] + rest)
  {
    var s := Group(b0, b1, b2) + t;
    assert s[4..] == t;
    SplitHigh(b0, b1);
    SplitMiddle(b1, b2);
    SplitLow(b2);
  }

  /** The first byte comes back from the first character and the high bits of the second. */
  lemma SplitHigh(b0: Byte, b1: Byte)
    ensures (b0 / 4) * 4 + (b0 % 4 * 16 + b1 / 16) / 16 == b0
    ensures (b0 % 4 * 16 + b1 / 16) % 16 == b1 / 16
  {
  }

  /** The second byte comes back from the low bits of the second character and the high bits of
      the third. */
  lemma SplitMiddle(b1: Byte, b2: Byte)
    ensures (b1 / 16) * 16 + (b1 % 16 * 4 + b2 / 64) / 4 == b1
    ensures (b1 % 16 * 4 + b2 / 64) % 4 == b2 / 64
  {
  }

  lemma SplitLow(b2: Byte)
    ensures (b2 / 64) * 64 + b2 % 64 == b2
  {
  }

  /** `json.Marshal` of a `[]byte`: never fails, and the bytes travel as base64 text inside
      quotes, so the written form is always longer than the data. */
  function MarshalBytes(d: seq<Byte>): (r: seq<Byte>)
    ensures |r| == 2 + 4 * ((|d| + 2) / 3) && |r| > |d|
    ensures r[0] == Quote && r[|r| - 1] == Quote
    ensures forall i :: 0 < i < |r| - 1 ==> r[i] != Quote
  {
    [Quote] + Encode(d) + [Quote]
  }

  /** Unquoting and decoding what `MarshalBytes` wrote gives the bytes back. */
  lemma UnmarshalBytes(d: seq<Byte>)
    ensures var r := MarshalBytes(d); Decode(r[1..|r| - 1]) == Some(d)
  {
    var r := MarshalBytes(d);
    assert r[1..|r| - 1] == Encode(d);
    DecodeEncode(d);
  }

  /** The text `null`. */
  const NullText: seq<Byte> := [110, 117, 108, 108]

  /** `json.Marshal` of a `[]byte` that may be nil (None): a nil slice is written `null`, any other
      slice, the empty one included, as quoted base64 text. So nil and empty are told apart. */
  function MarshalByteSlice(d: Option<seq<Byte>>): (r: seq<Byte>)
    ensures |r| >= 2 && (r[0] == Quote <==> d.Some?)
    ensures d.None? ==> r == NullText
    ensures d.Some? ==> r == MarshalBytes(d.value)
  {
    match d
    case None => NullText
    case Some(bytes) => MarshalBytes(bytes)
  }

  /** `json.Unmarshal` into a `[]byte`: `null` leaves the slice nil, a quoted string is decoded as
      base64, and anything else is refused (None). */
  function UnmarshalByteSlice(r: seq<Byte>): Option<Option<seq<Byte>>> {
    if r == NullText then Some(None)
    else if |r| >= 2 && r[0] == Quote && r[|r| - 1] == Quote then
      match Decode(r[1..|r| - 1])
      case None => None
      case Some(d) => Some(Some(d))
    else None
  }

  /** What `MarshalByteSlice` writes reads back as the slice it was given, nil included. */
  lemma UnmarshalMarshalByteSlice(d: Option<seq<Byte>>)
    ensures UnmarshalByteSlice(MarshalByteSlice(d)) == Some(d)
  {
    if d.Some? {
      UnmarshalBytes(d.value);
      assert MarshalByteSlice(d)[0] != NullText[0];
    }
  }
}
