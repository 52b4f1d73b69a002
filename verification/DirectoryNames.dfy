/** The name of the directory that keeps one saved deployment: its time and its hash. */
module DirectoryNames {
  import opened Wrappers
  import opened MachineInts
  import opened Numerals
  import opened Calendar

  const HASH_BYTES := 32

  datatype SavedDeployment = SavedDeployment(seconds: int, nanos: nat, hash: seq<byte>)

  ghost predicate IsSaved(d: SavedDeployment) {
    MIN_SECONDS <= d.seconds <= MAX_SECONDS && |d.hash| == HASH_BYTES
  }

  /** Two lower-case digits for each byte. */
  function HexEncode(bytes: seq<byte>): (s: string)
    ensures |s| == 2 * |bytes| && AllDigits(s, 16)
  {
    seq(2 * |bytes|, i requires 0 <= i < 2 * |bytes| =>
      DigitChar(if i % 2 == 0 then bytes[i / 2] / 16 else bytes[i / 2] % 16))
  }

  function HexDecode(s: string): (bytes: seq<byte>)
    requires |s| % 2 == 0 && AllDigits(s, 16)
    ensures |bytes| == |s| / 2
  {
    seq(|s| / 2, i requires 0 <= i < |s| / 2 =>
      assert IsDigit(s[2 * i], 16) && IsDigit(s[2 * i + 1], 16);
      16 * DigitOf(s[2 * i]) + DigitOf(s[2 * i + 1]))
  }

  /** `Hash::from_hex`: exactly 64 digits of either case. */
  function HashFromHex(s: string): Option<seq<byte>> {
    if |s| == 2 * HASH_BYTES && AllDigits(s, 16) then Some(HexDecode(s)) else None
  }

  lemma DecodeEncode(bytes: seq<byte>)
    ensures HexDecode(HexEncode(bytes)) == bytes
  {
    var s := HexEncode(bytes);
    forall i | 0 <= i < |bytes| ensures HexDecode(s)[i] == bytes[i] {
      assert (2 * i) / 2 == i && (2 * i + 1) / 2 == i;
      assert s[2 * i] == DigitChar(bytes[i] / 16) && s[2 * i + 1] == DigitChar(bytes[i] % 16);
    }
  }

  function IntText(n: int): string { if n < 0 then "-" + Numeral(-n, 10) else Numeral(n, 10) }

  /** `dir_name`. The fraction of the second is not part of it. */
  function DirName(d: SavedDeployment): string { IntText(d.seconds) + ("-" + HexEncode(d.hash)) }

  /** The piece before the first dash, or everything. */
  function Piece(s: string): (p: string)
    ensures p <= s
    ensures |p| < |s| ==> s[|p|] == '-'
  {
    if s == "" || s[0] == '-' then "" else [s[0]] + Piece(s[1..])
  }

  /** What is left behind the first dash; without a dash there is no further piece. */
  function AfterPiece(s: string): Option<string> {
    if |Piece(s)| == |s| then None else Some(s[|Piece(s)| + 1..])
  }

  /** Parsing an `i64` from a piece without a minus sign. */
  function ParseSeconds(s: string): Option<nat> {
    var digits := if s != "" && s[0] == '+' then s[1..] else s;
    if digits != "" && AllDigits(digits, 10) && Value(digits, 10) <= I64_MAX then Some(Value(digits, 10))
    else None
  }

  /** `SavedDeployment::read`. Pieces after the second are not looked at. */
  function ReadName(name: string): Option<SavedDeployment> {
    match ParseSeconds(Piece(name))
    case None => None
    case Some(seconds) =>
      if seconds > MAX_SECONDS then None else
      match AfterPiece(name)
      case None => None
      case Some(rest) =>
        match HashFromHex(Piece(rest))
        case None => None
        case Some(hash) => Some(SavedDeployment(seconds, 0, hash))
  }

  lemma {:induction false} PieceAlone(a: string)
    requires NoDash(a)
    ensures Piece(a) == a
  {
    if a != "" {
      PieceAlone(a[1..]);
      assert [a[0]] + a[1..] == a;
    }
  }

  lemma {:induction false} PieceOf(a: string, t: string)
    requires NoDash(a)
    ensures Piece(a + ("-" + t)) == a && AfterPiece(a + ("-" + t)) == Some(t)
  {
    var s := a + ("-" + t);
    if a != "" {
      PieceOf(a[1..], t);
      assert s[1..] == a[1..] + ("-" + t);
      assert [a[0]] + a[1..] == a;
    }
    assert s[|a| + 1..] == t;
  }

  ghost predicate NoDash(s: string) { forall i :: 0 <= i < |s| ==> s[i] != '-' }

  lemma DigitsHaveNoDash(s: string, base: nat)
    requires AllDigits(s, base)
    ensures NoDash(s) && (s != "" ==> s[0] != '+')
  {
    forall i | 0 <= i < |s| ensures s[i] != '-' && s[i] != '+' {
      assert IsDigit(s[i], base);
    }
  }

  lemma SecondsRead(n: nat)
    requires n <= I64_MAX
    ensures NoDash(Numeral(n, 10)) && ParseSeconds(Numeral(n, 10)) == Some(n)
  {
    DigitsHaveNoDash(Numeral(n, 10), 10);
    ValueOfNumeral(n, 10);
  }

  lemma HashRead(hash: seq<byte>)
    requires |hash| == HASH_BYTES
    ensures Piece(HexEncode(hash)) == HexEncode(hash) && HashFromHex(HexEncode(hash)) == Some(hash)
  {
    DigitsHaveNoDash(HexEncode(hash), 16);
    PieceAlone(HexEncode(hash));
    DecodeEncode(hash);
  }

  lemma DashFirst(name: string)
    requires name != "" && name[0] == '-'
    ensures ReadName(name) == None
  {
  }

  /** A saved deployment's directory name reads back as the deployment, cut to the whole second, if and
      only if its time is not before 1970; before that it does not read at all. */
  lemma NameRoundTripIff(d: SavedDeployment)
    requires IsSaved(d)
    ensures ReadName(DirName(d)) == Some(d.(nanos := 0)) <==> d.seconds >= 0
    ensures ReadName(DirName(d)) == None <==> d.seconds < 0
  {
    if d.seconds >= 0 {
      SecondsRead(d.seconds);
      PieceOf(Numeral(d.seconds, 10), HexEncode(d.hash));
      HashRead(d.hash);
    } else {
      assert DirName(d)[0] == '-';
      DashFirst(DirName(d));
    }
  }

  lemma NumeralInjective(m: nat, n: nat)
    ensures Numeral(m, 10) == Numeral(n, 10) <==> m == n
  {
    ValueOfNumeral(m, 10);
    ValueOfNumeral(n, 10);
  }

  lemma TextOfTime(d: SavedDeployment)
    ensures d.seconds >= 0 ==> DirName(d)[0] != '-'
    ensures d.seconds < 0 ==>
      DirName(d)[0] == '-' && DirName(d)[1..] == Numeral(-d.seconds, 10) + ("-" + HexEncode(d.hash))
  {
    if d.seconds >= 0 {
      DigitsHaveNoDash(Numeral(d.seconds, 10), 10);
    } else {
      DashBefore(Numeral(-d.seconds, 10), "-" + HexEncode(d.hash));
    }
  }

  lemma DashBefore(a: string, t: string)
    ensures ("-" + a + t)[0] == '-' && ("-" + a + t)[1..] == a + t
  {
  }

  /** Two deployments share a directory exactly when they agree on the second and the hash. */
  lemma NamesInjective(d: SavedDeployment, e: SavedDeployment)
    requires IsSaved(d) && IsSaved(e)
    ensures DirName(d) == DirName(e) <==> d.seconds == e.seconds && d.hash == e.hash
  {
    TextOfTime(d);
    TextOfTime(e);
    if DirName(d) == DirName(e) {
      var m, n := if d.seconds < 0 then -d.seconds else d.seconds, if e.seconds < 0 then -e.seconds else e.seconds;
      DigitsHaveNoDash(Numeral(m, 10), 10);
      DigitsHaveNoDash(Numeral(n, 10), 10);
      PieceOf(Numeral(m, 10), HexEncode(d.hash));
      PieceOf(Numeral(n, 10), HexEncode(e.hash));
      NumeralInjective(m, n);
      DecodeEncode(d.hash);
      DecodeEncode(e.hash);
    }
  }
}
