/** Text of numbers in decimal and hexadecimal: the notations that identifiers, directory names and
    monitor lines share. */
module Numerals {

  predicate IsBase(base: nat) { base == 10 || base == 16 }

  /** 0..15 for a hexadecimal digit of either case, 16 for any other character. */
  function DigitOf(c: char): nat {
    if '0' <= c <= '9' then c as int - '0' as int
    else if 'a' <= c <= 'f' then c as int - 'a' as int + 10
    else if 'A' <= c <= 'F' then c as int - 'A' as int + 10
    else 16
  }

  function DigitChar(d: nat): (c: char)
    requires d < 16
    ensures DigitOf(c) == d
  {
    if d < 10 then ('0' as int + d) as char else ('a' as int + d - 10) as char
  }

  predicate IsDigit(c: char, base: nat) { DigitOf(c) < base <= 16 }

  predicate AllDigits(s: string, base: nat) {
    forall i :: 0 <= i < |s| ==> IsDigit(s[i], base)
  }

  function Pow(base: nat, e: nat): (r: nat)
    requires IsBase(base)
    ensures r > 0
  {
    if e == 0 then 1 else if base == 10 then 10 * Pow(base, e - 1) else 16 * Pow(base, e - 1)
  }

  /** One more digit at the right end of a numeral. */
  function Shift(high: nat, base: nat, low: nat): nat
    requires IsBase(base)
  {
    if base == 10 then 10 * high + low else 16 * high + low
  }

  function Value(s: string, base: nat): nat
    requires IsBase(base) && AllDigits(s, base)
  {
    if s == "" then 0 else Shift(Value(s[..|s| - 1], base), base, DigitOf(s[|s| - 1]))
  }

  /** The shortest numeral of n. */
  function Numeral(n: nat, base: nat): (s: string)
    requires IsBase(base)
    ensures |s| > 0 && AllDigits(s, base)
  {
    if n < base then [DigitChar(n)] else Numeral(n / base, base) + [DigitChar(n % base)]
  }

  /** The numeral of n in exactly `width` digits, leading zeros included; higher digits are cut. */
  function Fixed(n: nat, base: nat, width: nat): (s: string)
    requires IsBase(base)
    ensures |s| == width && AllDigits(s, base)
  {
    if width == 0 then "" else Fixed(n / base, base, width - 1) + [DigitChar(n % base)]
  }

  lemma ValueSnoc(s: string, c: char, base: nat)
    requires IsBase(base) && AllDigits(s, base) && IsDigit(c, base)
    ensures AllDigits(s + [c], base)
    ensures Value(s + [c], base) == Shift(Value(s, base), base, DigitOf(c))
  {
    assert (s + [c])[..|s|] == s;
  }

  lemma {:induction false} ValueOfNumeral(n: nat, base: nat)
    requires IsBase(base)
    ensures Value(Numeral(n, base), base) == n
  {
    if n >= base {
      ValueOfNumeral(n / base, base);
      ValueSnoc(Numeral(n / base, base), DigitChar(n % base), base);
    } else {
      ValueSnoc("", DigitChar(n), base);
      assert "" + [DigitChar(n)] == [DigitChar(n)];
    }
  }

  lemma {:induction false} ValueOfFixed(n: nat, base: nat, width: nat)
    requires IsBase(base)
    requires n < Pow(base, width)
    ensures Value(Fixed(n, base, width), base) == n
  {
    if width > 0 {
      ValueOfFixed(n / base, base, width - 1);
      ValueSnoc(Fixed(n / base, base, width - 1), DigitChar(n % base), base);
    }
  }

  lemma {:induction false} ValueBound(s: string, base: nat)
    requires IsBase(base) && AllDigits(s, base)
    ensures Value(s, base) < Pow(base, |s|)
  {
    if s != "" {
      ValueBound(s[..|s| - 1], base);
    }
  }
}
