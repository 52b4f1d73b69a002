/** Which directory names are read: those of one spelling, and nothing else. */
module DirectoryTexts {
  import opened Wrappers
  import opened Numerals
  import opened Calendar
  import opened DirectoryNames

  /** A name spelled out: perhaps a plus sign, the digits of the second, a dash, the digits of the hash, and
      then nothing or whatever follows a further dash. */
  datatype NameText = NameText(plus: bool, seconds: string, hash: string, tail: string)

  function WithPlus(plus: bool, digits: string): string { if plus then "+" + digits else digits }

  function WriteName(t: NameText): string { WithPlus(t.plus, t.seconds) + ("-" + (t.hash + t.tail)) }

  predicate IsName(t: NameText) {
    && t.seconds != "" && AllDigits(t.seconds, 10) && Value(t.seconds, 10) <= MAX_SECONDS
    && |t.hash| == 2 * HASH_BYTES && AllDigits(t.hash, 16)
    && (t.tail == "" || t.tail[0] == '-')
  }

  function Meant(t: NameText): SavedDeployment
    requires IsName(t)
  {
    SavedDeployment(Value(t.seconds, 10), 0, HexDecode(t.hash))
  }

  lemma {:induction false} PieceEnds(a: string, t: string)
    requires NoDash(a) && (t == "" || t[0] == '-')
    ensures Piece(a + t) == a
  {
    if a == "" {
      assert a + t == t;
    } else {
      PieceEnds(a[1..], t);
      assert (a + t)[1..] == a[1..] + t;
      assert [a[0]] + a[1..] == a;
    }
  }

  lemma PlusReads(plus: bool, digits: string)
    requires digits != "" && AllDigits(digits, 10) && Value(digits, 10) <= MAX_SECONDS
    ensures NoDash(WithPlus(plus, digits))
    ensures ParseSeconds(WithPlus(plus, digits)) == Some(Value(digits, 10))
  {
    DigitsHaveNoDash(digits, 10);
    assert plus ==> ("+" + digits)[1..] == digits;
  }

  lemma NameReads(t: NameText)
    requires IsName(t)
    ensures ReadName(WriteName(t)) == Some(Meant(t))
  {
    PlusReads(t.plus, t.seconds);
    DigitsHaveNoDash(t.hash, 16);
    PieceOf(WithPlus(t.plus, t.seconds), t.hash + t.tail);
    PieceEnds(t.hash, t.tail);
  }

  lemma PlusShape(s: string) returns (plus: bool, digits: string)
    requires ParseSeconds(s).Some?
    ensures digits != "" && AllDigits(digits, 10)
    ensures s == WithPlus(plus, digits) && ParseSeconds(s) == Some(Value(digits, 10))
  {
    plus := s != "" && s[0] == '+';
    digits := if plus then s[1..] else s;
  }

  lemma PieceShape(s: string)
    requires AfterPiece(s).Some?
    ensures s == Piece(s) + ("-" + AfterPiece(s).value)
  {
    assert s == s[..|Piece(s)|] + ([s[|Piece(s)|]] + s[|Piece(s)| + 1..]);
  }

  lemma NameShape(name: string) returns (t: NameText)
    requires ReadName(name).Some?
    ensures IsName(t) && name == WriteName(t)
  {
    var rest := AfterPiece(name).value;
    var plus, seconds := PlusShape(Piece(name));
    PieceShape(name);
    t := NameText(plus, seconds, Piece(rest), rest[|Piece(rest)|..]);
    assert rest == t.hash + t.tail;
  }

  /** A directory name reads if and only if it is such a name. */
  lemma ReadsIff(name: string)
    ensures ReadName(name).Some? <==> exists t :: IsName(t) && name == WriteName(t)
  {
    if ReadName(name).Some? {
      var t := NameShape(name);
    }
    if t :| IsName(t) && name == WriteName(t) {
      NameReads(t);
    }
  }
}
