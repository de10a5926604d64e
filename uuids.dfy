/** The 16-byte UUID of github.com/google/uuid, its canonical text form (`String`) and the parser
    behind `MustParse`, restricted to the 36-character hyphenated form. */
module Uuids {
  import opened Wrappers
  import opened Hex

  type Uuid = s: seq<Byte> | |s| == 16 witness [0, 0, 0, 0, 0, 0, 0, 0, 0, 0, 0, 0, 0, 0, 0, 0]

  /** The zero value of `uuid.UUID`: sixteen zero bytes. */
  const NilUuid: Uuid := [0, 0, 0, 0, 0, 0, 0, 0, 0, 0, 0, 0, 0, 0, 0, 0]

  /** xxxxxxxx-xxxx-xxxx-xxxx-xxxxxxxxxxxx in lower-case hexadecimal. */
  function Text(u: Uuid): (s: string)
    ensures |s| == 36
  {
    BytesText(u[..4]) + "-" + BytesText(u[4..6]) + "-" + BytesText(u[6..8]) + "-"
    + BytesText(u[8..10]) + "-" + BytesText(u[10..])
  }

  /** Hyphens at offsets 8, 13, 18 and 23 and hexadecimal digit pairs everywhere else; digits of
      either case. None is the input on which `MustParse` panics. */
  function Parse(s: string): (r: Option<Uuid>)
  {
    if |s| != 36 || s[8] != '-' || s[13] != '-' || s[18] != '-' || s[23] != '-' then None
    else
      match (ParseBytes(s[..8]), ParseBytes(s[9..13]), ParseBytes(s[14..18]),
             ParseBytes(s[19..23]), ParseBytes(s[24..]))
      case (Some(a), Some(b), Some(c), Some(d), Some(e)) => Some(a + b + c + d + e)
      case _ => None
  }

  /** A string that `String` could have produced. */
  predicate IsCanonical(s: string) {
    && |s| == 36
    && s[8] == '-' && s[13] == '-' && s[18] == '-' && s[23] == '-'
    && forall i :: 0 <= i < 36 && i != 8 && i != 13 && i != 18 && i != 23 ==> IsLowerDigit(s[i])
  }

  lemma TextPieces(u: Uuid)
    ensures Text(u)[..8] == BytesText(u[..4])
    ensures Text(u)[9..13] == BytesText(u[4..6])
    ensures Text(u)[14..18] == BytesText(u[6..8])
    ensures Text(u)[19..23] == BytesText(u[8..10])
    ensures Text(u)[24..] == BytesText(u[10..])
    ensures Text(u)[8] == '-' && Text(u)[13] == '-' && Text(u)[18] == '-' && Text(u)[23] == '-'
  {
    JoinedGroups(BytesText(u[..4]), BytesText(u[4..6]), BytesText(u[6..8]), BytesText(u[8..10]), BytesText(u[10..]));
  }

  /** Five groups of the canonical lengths joined by hyphens sit at the canonical offsets. */
  lemma JoinedGroups(p1: string, p2: string, p3: string, p4: string, p5: string)
    requires |p1| == 8 && |p2| == 4 && |p3| == 4 && |p4| == 4 && |p5| == 12
    ensures var s := p1 + "-" + p2 + "-" + p3 + "-" + p4 + "-" + p5;
      && |s| == 36 && s[..8] == p1 && s[9..13] == p2 && s[14..18] == p3 && s[19..23] == p4 && s[24..] == p5
      && s[8] == '-' && s[13] == '-' && s[18] == '-' && s[23] == '-'
  {
  }

  /** Parsing what `String` produced gives the UUID back. */
  lemma ParseText(u: Uuid)
    ensures Parse(Text(u)) == Some(u)
  {
    TextPieces(u);
    ParseBytesText(u[..4]);
    ParseBytesText(u[4..6]);
    ParseBytesText(u[6..8]);
    ParseBytesText(u[8..10]);
    ParseBytesText(u[10..]);
    RegroupBytes(u);
  }

  lemma RegroupBytes(u: seq<Byte>)
    requires |u| == 16
    ensures u[..4] + u[4..6] + u[6..8] + u[8..10] + u[10..] == u
  {
  }

  /** `String` produces canonical text, and every canonical text is one UUID's text. */
  lemma TextIsCanonical(u: Uuid)
    ensures IsCanonical(Text(u))
  {
    TextPieces(u);
    var s := Text(u);
    forall i | 0 <= i < 36 && i != 8 && i != 13 && i != 18 && i != 23
      ensures IsLowerDigit(s[i])
    {
      if i < 8 { assert s[i] == s[..8][i]; }
      else if i < 13 { assert s[i] == s[9..13][i - 9]; }
      else if i < 18 { assert s[i] == s[14..18][i - 14]; }
      else if i < 23 { assert s[i] == s[19..23][i - 19]; }
      else { assert s[i] == s[24..][i - 24]; }
    }
  }

  lemma CanonicalText(s: string)
    requires IsCanonical(s)
    ensures Parse(s).Some? && Text(Parse(s).value) == s
  {
    CanonicalGroupsLower(s);
    var a := PieceParses(s[..8]);
    var b := PieceParses(s[9..13]);
    var c := PieceParses(s[14..18]);
    var d := PieceParses(s[19..23]);
    var e := PieceParses(s[24..]);
    assert Parse(s) == Some(a + b + c + d + e);
    TextOfGroups(a, b, c, d, e);
    CanonicalJoin(s);
  }

  predicate IsLowerText(p: string) {
    forall i :: 0 <= i < |p| ==> IsLowerDigit(p[i])
  }

  /** The five groups of canonical text are runs of lower-case digits. */
  lemma CanonicalGroupsLower(s: string)
    requires IsCanonical(s)
    ensures IsLowerText(s[..8]) && IsLowerText(s[9..13]) && IsLowerText(s[14..18])
    ensures IsLowerText(s[19..23]) && IsLowerText(s[24..])
  {
    forall i | 0 <= i < 8 ensures IsLowerDigit(s[..8][i]) { assert s[..8][i] == s[i]; }
    forall i | 0 <= i < 4 ensures IsLowerDigit(s[9..13][i]) { assert s[9..13][i] == s[i + 9]; }
    forall i | 0 <= i < 4 ensures IsLowerDigit(s[14..18][i]) { assert s[14..18][i] == s[i + 14]; }
    forall i | 0 <= i < 4 ensures IsLowerDigit(s[19..23][i]) { assert s[19..23][i] == s[i + 19]; }
    forall i | 0 <= i < 12 ensures IsLowerDigit(s[24..][i]) { assert s[24..][i] == s[i + 24]; }
  }

  /** An even-length run of lower-case digits parses, and prints back as itself. */
  lemma PieceParses(p: string) returns (bs: seq<Byte>)
    requires IsLowerText(p) && |p| % 2 == 0
    ensures ParseBytes(p) == Some(bs) && BytesText(bs) == p && |bs| == |p| / 2
  {
    LowerDigitsParse(p);
    BytesTextParse(p);
    bs := ParseBytes(p).value;
  }

  /** Text with hyphens at the four canonical offsets is its five groups joined by hyphens. */
  lemma CanonicalJoin(s: string)
    requires |s| == 36 && s[8] == '-' && s[13] == '-' && s[18] == '-' && s[23] == '-'
    ensures s == s[..8] + "-" + s[9..13] + "-" + s[14..18] + "-" + s[19..23] + "-" + s[24..]
  {
  }

  /** Even-length runs of lower-case digits always parse. */
  lemma {:induction false} LowerDigitsParse(s: string)
    requires |s| % 2 == 0
    requires forall i :: 0 <= i < |s| ==> IsLowerDigit(s[i])
    ensures ParseBytes(s).Some?
  {
    if s != [] {
      ValueDigit(s[0]);
      ValueDigit(s[1]);
      LowerDigitsParse(s[2..]);
    }
  }

  /** A zero byte prints as two zero digits. */
  lemma ZeroByteText(bs: seq<Byte>)
    ensures BytesText([0] + bs) == "00" + BytesText(bs)
  {
    assert ([0] + bs)[1..] == bs;
    assert Digit(0) == '0';
  }

  lemma ZeroBytesText()
    ensures BytesText([0, 0]) == "0000"
    ensures BytesText([0, 0, 0, 0]) == "00000000"
    ensures BytesText([0, 0, 0, 0, 0, 0]) == "000000000000"
  {
    ZeroByteText([]);
    ZeroByteText([0]);
    ZeroByteText([0, 0]);
    ZeroByteText([0, 0, 0]);
    ZeroByteText([0, 0, 0, 0]);
    ZeroByteText([0, 0, 0, 0, 0]);
  }

  /** The text of a UUID assembled from its five groups. */
  lemma TextOfGroups(a: seq<Byte>, b: seq<Byte>, c: seq<Byte>, d: seq<Byte>, e: seq<Byte>)
    requires |a| == 4 && |b| == 2 && |c| == 2 && |d| == 2 && |e| == 6
    ensures var u: Uuid := a + b + c + d + e;
      Text(u) == BytesText(a) + "-" + BytesText(b) + "-" + BytesText(c) + "-" + BytesText(d) + "-" + BytesText(e)
  {
    GroupSlices(a, b, c, d, e);
  }

  lemma GroupSlices(a: seq<Byte>, b: seq<Byte>, c: seq<Byte>, d: seq<Byte>, e: seq<Byte>)
    requires |a| == 4 && |b| == 2 && |c| == 2 && |d| == 2 && |e| == 6
    ensures var u := a + b + c + d + e;
      u[..4] == a && u[4..6] == b && u[6..8] == c && u[8..10] == d && u[10..] == e
  {
    var u := a + b + c + d + e;
    assert u[..4] == a;
    assert u[4..6] == b;
    assert u[6..8] == c;
    assert u[8..10] == d;
    assert u[10..] == e;
  }

  /** The text of the zero UUID, which every identity built by `UID` or `ExtID` carries. */
  lemma NilText()
    ensures Text(NilUuid) == "00000000-0000-0000-0000-000000000000"
  {
    var four: seq<Byte>, two: seq<Byte>, six: seq<Byte> := [0, 0, 0, 0], [0, 0], [0, 0, 0, 0, 0, 0];
    assert NilUuid == four + two + two + two + six;
    TextOfGroups(four, two, two, two, six);
    ZeroBytesText();
    NilTextGroups();
  }

  lemma NilTextGroups()
    ensures "00000000" + "-" + "0000" + "-" + "0000" + "-" + "0000" + "-" + "000000000000"
      == "00000000-0000-0000-0000-000000000000"
  {
  }
}
