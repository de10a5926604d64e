/** Lower-case hexadecimal text, as produced by `fmt.Sprintf("%x", …)` and by the UUID formatter,
    and its parser. */
module Hex {
  import opened Wrappers

  type Byte = x: int | 0 <= x < 256

  const Digits: string := "0123456789abcdef"

  function Digit(n: int): (c: char)
    requires 0 <= n < 16
  {
    Digits[n]
  }

  /** The value of one hexadecimal digit; upper- and lower-case letters are both accepted. */
  function DigitValue(c: char): (r: Option<int>)
    ensures r.Some? ==> 0 <= r.value < 16
  {
    if '0' <= c <= '9' then Some(c as int - '0' as int)
    else if 'a' <= c <= 'f' then Some(c as int - 'a' as int + 10)
    else if 'A' <= c <= 'F' then Some(c as int - 'A' as int + 10)
    else None
  }

  predicate IsLowerDigit(c: char) {
    '0' <= c <= '9' || 'a' <= c <= 'f'
  }

  lemma DigitRoundTrip(n: int)
    requires 0 <= n < 16
    ensures DigitValue(Digit(n)) == Some(n)
    ensures IsLowerDigit(Digit(n))
  {
  }

  lemma ValueDigit(c: char)
    requires IsLowerDigit(c)
    ensures DigitValue(c).Some? && Digit(DigitValue(c).value) == c
  {
  }

  /** Two digits per byte, high nibble first. */
  function BytesText(bs: seq<Byte>): (s: string)
    ensures |s| == 2 * |bs|
    ensures forall i :: 0 <= i < |s| ==> IsLowerDigit(s[i])
  {
    if bs == [] then ""
    else
      DigitRoundTrip(bs[0] / 16);
      DigitRoundTrip(bs[0] % 16);
      [Digit(bs[0] / 16), Digit(bs[0] % 16)] + BytesText(bs[1..])
  }

  /** Reads pairs of hexadecimal digits back into bytes; None on an odd length or a non-digit. */
  function ParseBytes(s: string): (r: Option<seq<Byte>>)
    ensures r.Some? ==> 2 * |r.value| == |s|
  {
    if s == [] then Some([])
    else if |s| == 1 then None
    else
      match (DigitValue(s[0]), DigitValue(s[1]), ParseBytes(s[2..]))
      case (Some(hi), Some(lo), Some(rest)) => Some([hi * 16 + lo] + rest)
      case _ => None
  }

  lemma {:induction false} ParseBytesText(bs: seq<Byte>)
    ensures ParseBytes(BytesText(bs)) == Some(bs)
  {
    if bs != [] {
      var hi, lo := bs[0] / 16, bs[0] % 16;
      DigitRoundTrip(hi);
      DigitRoundTrip(lo);
      ParseBytesText(bs[1..]);
      ParsePair(Digit(hi), Digit(lo), BytesText(bs[1..]), hi, lo, bs[1..]);
      BytesTextCons(bs);
      assert [hi * 16 + lo] + bs[1..] == bs;
    }
  }

  lemma BytesTextCons(bs: seq<Byte>)
    requires bs != []
    ensures BytesText(bs) == [Digit(bs[0] / 16), Digit(bs[0] % 16)] + BytesText(bs[1..])
  {
  }

  /** One step of `ParseBytes`: two digits in front of text that parses. */
  lemma ParsePair(a: char, b: char, t: string, hi: int, lo: int, rest: seq<Byte>)
    requires DigitValue(a) == Some(hi) && DigitValue(b) == Some(lo) && ParseBytes(t) == Some(rest)
    ensures ParseBytes([a, b] + t) == Some([hi * 16 + lo] + rest)
  {
    var s := [a, b] + t;
    assert s[0] == a && s[1] == b && s[2..] == t;
  }

  /** Text that parses starts with two digits followed by text that parses. */
  lemma ParsedShape(s: string)
    requires s != [] && ParseBytes(s).Some?
    ensures |s| >= 2 && DigitValue(s[0]).Some? && DigitValue(s[1]).Some? && ParseBytes(s[2..]).Some?
  {
  }

  lemma SplitByte(hi: int, lo: int)
    requires 0 <= hi < 16 && 0 <= lo < 16
    ensures (hi * 16 + lo) / 16 == hi && (hi * 16 + lo) % 16 == lo
  {
  }

  lemma {:induction false} BytesTextParse(s: string)
    requires ParseBytes(s).Some?
    requires forall i :: 0 <= i < |s| ==> IsLowerDigit(s[i])
    ensures BytesText(ParseBytes(s).value) == s
  {
    if s != [] {
      ParsedShape(s);
      var a, b, t := s[0], s[1], s[2..];
      ValueDigit(a);
      ValueDigit(b);
      var hi, lo := DigitValue(a).value, DigitValue(b).value;
      var rest := ParseBytes(t).value;
      assert s == [a, b] + t;
      ParsePair(a, b, t, hi, lo, rest);
      BytesTextParse(t);
      TextOfPair(hi, lo, rest);
    }
  }

  /** One step of `BytesText` on the byte two digits make. */
  lemma TextOfPair(hi: int, lo: int, rest: seq<Byte>)
    requires 0 <= hi < 16 && 0 <= lo < 16
    ensures BytesText([hi * 16 + lo] + rest) == [Digit(hi), Digit(lo)] + BytesText(rest)
  {
    var bs := [hi * 16 + lo] + rest;
    assert bs[1..] == rest;
    SplitByte(hi, lo);
    BytesTextCons(bs);
  }

  /** `%x` of a non-negative integer: lower-case digits, most significant first, no leading zeros
      ("0" for zero). */
  function NatText(n: nat): (s: string)
    ensures |s| >= 1
    ensures forall i :: 0 <= i < |s| ==> IsLowerDigit(s[i])
    ensures n > 0 ==> s[0] != '0'
  {
    DigitRoundTrip(n % 16);
    if n < 16 then [Digit(n)] else NatText(n / 16) + [Digit(n % 16)]
  }

  function Pow16(k: nat): (p: nat)
    ensures p >= 1
  {
    if k == 0 then 1 else 16 * Pow16(k - 1)
  }

  /** A number with k hexadecimal digits prints as exactly k characters. */
  lemma {:induction false} NatTextLength(n: nat, k: nat)
    requires 1 <= k && Pow16(k - 1) <= n < Pow16(k)
    ensures |NatText(n)| == k
  {
    if k > 1 {
      var low := Pow16(k - 2);
      assert Pow16(k - 1) == 16 * low;
      assert Pow16(k) == 16 * (16 * low);
      assert low <= n / 16 < 16 * low;
      NatTextLength(n / 16, k - 1);
    }
  }

  /** The value of a string of hexadecimal digits, None when a character is not a digit. */
  function ParseNat(s: string): (r: Option<nat>)
  {
    if s == [] then Some(0)
    else
      match (ParseNat(s[..|s| - 1]), DigitValue(s[|s| - 1]))
      case (Some(high), Some(d)) => Some(high * 16 + d)
      case _ => None
  }

  lemma {:induction false} ParseNatText(n: nat)
    ensures ParseNat(NatText(n)) == Some(n)
  {
    var s := NatText(n);
    DigitRoundTrip(n % 16);
    if n < 16 {
      assert s[..0] == [];
    } else {
      ParseNatText(n / 16);
      assert s[..|s| - 1] == NatText(n / 16);
    }
  }

  /** Distinct numbers have distinct texts. */
  lemma NatTextInjective(m: nat, n: nat)
    requires NatText(m) == NatText(n)
    ensures m == n
  {
    ParseNatText(m);
    ParseNatText(n);
  }
}
