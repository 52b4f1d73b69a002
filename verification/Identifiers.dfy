/** Server and deployment identifiers: 128-bit numbers, compared as numbers, carried on the wire as
    their hyphenated text. */
module Identifiers {
  import opened Wrappers
  import opened Numerals

  type Uuid = n: nat | n < 0x1_0000_0000_0000_0000_0000_0000_0000_0000

  lemma FourDigits(n: nat)
    ensures Pow(16, n + 4) == 0x1_0000 * Pow(16, n)
  {
    assert Pow(16, n + 2) == 0x100 * Pow(16, n);
    assert Pow(16, n + 4) == 0x100 * Pow(16, n + 2);
  }

  /** Thirty-two hexadecimal digits make a 128-bit number. */
  lemma SixteenToThe32()
    ensures Pow(16, 32) == 0x1_0000_0000_0000_0000_0000_0000_0000_0000
  {
    assert Pow(16, 0) == 1;
    FourDigits(0);
    FourDigits(4);
    FourDigits(8);
    FourDigits(12);
    FourDigits(16);
    FourDigits(20);
    FourDigits(24);
    FourDigits(28);
  }

  function Hyphenate(s: string): string
    requires |s| == 32
  {
    s[..8] + "-" + s[8..12] + "-" + s[12..16] + "-" + s[16..20] + "-" + s[20..]
  }

  /** `Uuid::to_string`. */
  function UuidText(u: Uuid): (s: string)
    ensures |s| == 36
  {
    Hyphenate(Fixed(u, 16, 32))
  }

  function ParseSimple(s: string): Option<Uuid> {
    if |s| == 32 && AllDigits(s, 16) then ValueBound(s, 16); SixteenToThe32(); Some(Value(s, 16)) else None
  }

  function ParseHyphenated(s: string): Option<Uuid> {
    if |s| == 36 && s[8] == s[13] == s[18] == s[23] == '-' then
      ParseSimple(s[..8] + s[9..13] + s[14..18] + s[19..23] + s[24..])
    else None
  }

  /** `Uuid::parse_str`: plain, hyphenated, braced and URN notation, in either letter case. */
  function ParseUuid(s: string): Option<Uuid> {
    if |s| == 32 then ParseSimple(s)
    else if |s| == 36 then ParseHyphenated(s)
    else if |s| == 38 && s[0] == '{' && s[37] == '}' then ParseHyphenated(s[1..37])
    else if |s| == 45 && s[..9] == "urn:uuid:" then ParseHyphenated(s[9..])
    else None
  }

  lemma DashesFall(d: string)
    requires |d| == 32
    ensures var s := Hyphenate(d);
            && |s| == 36 && s[8] == s[13] == s[18] == s[23] == '-'
            && s[..8] == d[..8] && s[9..13] == d[8..12] && s[14..18] == d[12..16]
            && s[19..23] == d[16..20] && s[24..] == d[20..]
  {
  }

  lemma PiecesJoin(d: string)
    requires |d| == 32
    ensures d[..8] + d[8..12] + d[12..16] + d[16..20] + d[20..] == d
  {
  }

  lemma ParseText(u: Uuid)
    ensures ParseUuid(UuidText(u)) == Some(u)
  {
    var d := Fixed(u, 16, 32);
    DashesFall(d);
    PiecesJoin(d);
    SixteenToThe32();
    ValueOfFixed(u, 16, 32);
  }

  lemma TextInjective(u: Uuid, v: Uuid)
    ensures UuidText(u) == UuidText(v) <==> u == v
  {
    ParseText(u);
    ParseText(v);
  }

  /** The four notations of 32 digits. */
  function Notations(d: string): seq<string>
    requires |d| == 32
  {
    [d, Hyphenate(d), "{" + Hyphenate(d) + "}", "urn:uuid:" + Hyphenate(d)]
  }

  lemma NotationsRead(d: string, n: nat)
    requires |d| == 32 && AllDigits(d, 16) && n < 4
    ensures ParseUuid(Notations(d)[n]).Some? && ParseUuid(Notations(d)[n]).value == Value(d, 16)
  {
    DashesFall(d);
    PiecesJoin(d);
    var h := Hyphenate(d);
    assert ("{" + h + "}")[1..37] == h;
    assert ("urn:uuid:" + h)[9..] == h;
  }

  lemma HyphenatedShape(s: string) returns (d: string)
    requires ParseHyphenated(s).Some?
    ensures |d| == 32 && AllDigits(d, 16) && s == Hyphenate(d) && ParseHyphenated(s).value == Value(d, 16)
  {
    d := s[..8] + s[9..13] + s[14..18] + s[19..23] + s[24..];
    assert d[..8] == s[..8] && d[8..12] == s[9..13] && d[12..16] == s[14..18];
    assert d[16..20] == s[19..23] && d[20..] == s[24..];
    assert s == s[..8] + [s[8]] + s[9..13] + [s[13]] + s[14..18] + [s[18]] + s[19..23] + [s[23]] + s[24..];
    assert s == Hyphenate(d);
  }

  /** A text is read as an identifier if and only if it is one of the notations of 32 digits, and it stands
      for their value. */
  lemma ParseIff(s: string)
    ensures ParseUuid(s).Some? <==>
            exists d, n: nat :: |d| == 32 && AllDigits(d, 16) && n < 4 && s == Notations(d)[n]
  {
    if ParseUuid(s).Some? {
      if |s| == 32 {
        assert s == Notations(s)[0];
      } else if |s| == 36 {
        var d := HyphenatedShape(s);
        assert s == Notations(d)[1];
      } else if |s| == 38 {
        var d := HyphenatedShape(s[1..37]);
        assert s == "{" + s[1..37] + "}" == Notations(d)[2];
      } else {
        var d := HyphenatedShape(s[9..]);
        assert s == s[..9] + s[9..] == Notations(d)[3];
      }
    }
    if d, n: nat :| |d| == 32 && AllDigits(d, 16) && n < 4 && s == Notations(d)[n] {
      NotationsRead(d, n);
    }
  }
}
