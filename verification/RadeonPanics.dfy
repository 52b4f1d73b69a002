/** When a monitor line stops the program, and only then: a number with too many decimals where a share or an
    amount is read, or an identifier where a ratio is looked up. */
module RadeonPanics {
  import opened MachineInts
  import opened Numerals
  import opened RadeonParser
  import opened RadeonLines
  import opened RadeonPrinter

  /** A whole part, a dot and more than three decimals, each number within 64 bits. */
  predicate LongFraction(s: string) {
    var n := Span(s, Decimal);
    && n > 0 && Value(s[..n], 10) <= U64_MAX && Starts(s[n..], '.')
    && var m := Span(s[n + 1..], Decimal);
       m > 3 && Value(s[n + 1..][..m], 10) <= U64_MAX
  }

  ghost predicate IsLong(f: FractionText) {
    IsNumber(f.whole, 10) && IsNumber(f.part, 10) && |f.part| > 3
  }

  /** Such a number spelled out, in front of what follows it. */
  lemma LongFractionIff(s: string)
    ensures LongFraction(s) <==> exists f, t :: IsLong(f) && NoDigit(t) && s == WriteFraction(f, t)
  {
    if LongFraction(s) {
      var n := Span(s, Decimal);
      var rest := s[n + 1..];
      var m := Span(rest, Decimal);
      SplitAt(s, n, '.');
      assert rest == rest[..m] + rest[m..];
      assert s == WriteFraction(FractionText(s[..n], rest[..m]), rest[m..]);
    }
    if f, t :| IsLong(f) && NoDigit(t) && s == WriteFraction(f, t) {
      LongTextIsLong(f, t);
    }
  }

  lemma LongTextIsLong(f: FractionText, t: string)
    requires IsLong(f) && NoDigit(t)
    ensures LongFraction(WriteFraction(f, t))
  {
    var rest := f.part + t;
    SpanStops(f.whole, "." + rest, Decimal);
    Cut(f.whole, "." + rest);
    SpanStops(f.part, t, Decimal);
    Cut(f.part, t);
    assert (f.whole + ("." + rest))[|f.whole| + 1..] == rest;
  }

  /** A share that reads, and behind it such a number as its amount, in whatever unit. */
  predicate LongAmount(s: string) {
    && ParseFraction(s).Done?
    && var rest := ParseFraction(s).rest;
       Starts(rest, '%') && Starts(rest[1..], ' ') && LongFraction(rest[2..])
  }

  predicate LongValue(s: string) { LongFraction(s) || LongAmount(s) }

  /** An entry with such a number. */
  predicate LongEntry(s: string) { HasValue(s) && LongValue(s[Span(s, Letter) + 1..]) }

  lemma FractionPanicsIff(s: string)
    ensures ParseFraction(s) == Panic <==> LongFraction(s)
  {
    var n := Span(s, Decimal);
    if n < |s| {
      assert s[n..][1..] == s[n + 1..];
    }
  }

  lemma WithUnitPanicsIff(s: string, unit: string)
    ensures WithUnit(s, unit) == Panic <==> Starts(s, ' ') && LongFraction(s[1..])
  {
    if Starts(s, ' ') {
      FractionPanicsIff(s[1..]);
    }
  }

  lemma AbsolutePanicsIff(s: string)
    ensures ParseAbsolute(s) == Panic <==> Starts(s, ' ') && LongFraction(s[1..])
  {
    WithUnitPanicsIff(s, "mb");
    WithUnitPanicsIff(s, "ghz");
  }

  /** Behind a share that reads, its amount decides. */
  lemma AmountDecides(s: string)
    requires ParseFraction(s).Done? && Starts(ParseFraction(s).rest, '%')
    ensures ParsePercent(s) == Panic <==> ParseAbsolute(ParseFraction(s).rest[1..]) == Panic
  {
  }

  lemma AmountPanicsIff(s: string)
    requires ParseFraction(s).Done?
    ensures ParsePercent(s) == Panic <==> LongAmount(s)
  {
    var rest := ParseFraction(s).rest;
    if Starts(rest, '%') {
      AmountDecides(s);
      AbsolutePanicsIff(rest[1..]);
      assert Starts(rest[1..], ' ') ==> rest[1..][1..] == rest[2..];
    }
  }

  lemma UtilizationPanicsIff(s: string)
    ensures ParseUtilization(s) == Panic <==> LongValue(s)
  {
    FractionPanicsIff(s);
    if ParseFraction(s).Done? {
      AmountPanicsIff(s);
    }
  }

  /** A name and a blank, with a value behind them. */
  predicate HasValue(s: string) {
    var n := Span(s, Letter);
    n > 0 && Starts(s[n..], ' ')
  }

  lemma ValueDecides(s: string)
    requires HasValue(s)
    ensures ParseResource(s) == Panic <==> ParseUtilization(s[Span(s, Letter) + 1..]) == Panic
  {
  }

  /** An entry stops the program if and only if its share, or the amount behind a share that reads, has
      more than three decimals within 64 bits. More digits than that are an ordinary error. */
  lemma EntryPanicsIff(s: string)
    ensures ParseResource(s) == Panic <==> LongEntry(s)
  {
    if HasValue(s) {
      ValueDecides(s);
      UtilizationPanicsIff(s[Span(s, Letter) + 1..]);
    }
  }

  // ----- lists -----

  lemma ListPanics(rs: seq<ResourceText>, bad: string)
    requires AreResources(rs) && LongEntry(bad)
    ensures MoreResources(WriteMore(rs, ", " + bad)) == Panic
  {
    MoreReads(rs, ", " + bad);
    assert (", " + bad)[2..] == bad;
    EntryPanicsIff(bad);
  }

  /** A list that stops the program does so at its first entry with such a number, behind well-formed ones. */
  lemma {:induction false} ListPanicsAt(s: string) returns (rs: seq<ResourceText>, bad: string)
    requires MoreResources(s) == Panic
    ensures AreResources(rs) && LongEntry(bad) && s == WriteMore(rs, ", " + bad)
    decreases |s|
  {
    HeadBlank(s, ',');
    if ParseResource(s[2..]) == Panic {
      EntryPanicsIff(s[2..]);
      rs, bad := [], s[2..];
    } else {
      var r := ResourceShape(s[2..]);
      var tail;
      tail, bad := ListPanicsAt(ParseResource(s[2..]).rest);
      rs := [r] + tail;
      assert rs[1..] == tail;
    }
  }

  // ----- lines -----

  /** Where a line stops the program: a time stamp, well-formed entries, and then such an entry. */
  ghost predicate StopsAt(s: string, w: StampText, rs: seq<ResourceText>, bad: string) {
    && IsStamp(w) && AreResources(rs) && LongEntry(bad)
    && s == if rs == [] then WriteStamp(w, ": " + bad) else WriteLine(w, rs, ", " + bad)
  }

  ghost predicate StopsReading(s: string) { exists w, rs, bad :: StopsAt(s, w, rs, bad) }

  lemma FirstEntryPanics(w: StampText, bad: string)
    requires IsStamp(w) && ParseResource(bad) == Panic
    ensures ReadLine(WriteStamp(w, ": " + bad)) == Panic
  {
    StampReads(w, ": " + bad);
    assert (": " + bad)[2..] == bad;
  }

  lemma LinePanics(s: string, w: StampText, rs: seq<ResourceText>, bad: string)
    requires StopsAt(s, w, rs, bad)
    ensures ReadLine(s) == Panic
  {
    if rs == [] {
      EntryPanicsIff(bad);
      FirstEntryPanics(w, bad);
    } else {
      LineReads(w, rs, ", " + bad);
      ListPanics([], bad);
    }
  }

  lemma EntriesPanicAt(s: string) returns (rs: seq<ResourceText>, bad: string)
    requires Resources(s) == Panic
    ensures AreResources(rs) && LongEntry(bad)
    ensures s == if rs == [] then bad else WriteResource(rs[0], WriteMore(rs[1..], ", " + bad))
  {
    if ParseResource(s) == Panic {
      EntryPanicsIff(s);
      rs, bad := [], s;
    } else {
      var r := ResourceShape(s);
      var tail;
      tail, bad := ListPanicsAt(ParseResource(s).rest);
      rs := [r] + tail;
      assert rs[1..] == tail;
    }
  }

  /** Reading a line stops the program if and only if, behind its time stamp and well-formed entries, an
      entry with such a number follows. */
  lemma ReadLinePanicsIff(s: string)
    ensures ReadLine(s) == Panic <==> StopsReading(s)
  {
    if ReadLine(s) == Panic {
      var w := StampShape(s);
      var rest := ParseStamp(s).rest;
      HeadBlank(rest, ':');
      var rs, bad := EntriesPanicAt(rest[2..]);
      assert StopsAt(s, w, rs, bad);
    }
    if StopsReading(s) {
      var w, rs, bad :| StopsAt(s, w, rs, bad);
      LinePanics(s, w, rs, bad);
    }
  }

  /** The first key without a ratio is there, as an identifier. */
  ghost predicate IdFault(m: map<string, Utilization>) {
    exists i: nat :: FirstFault(m, i) && KEYS[i] in m
  }

  lemma RatiosPanicIff(m: map<string, Utilization>)
    ensures Ratios(m, |KEYS|) == Panic <==> IdFault(m)
  {
    RatiosOutcome(m, |KEYS|);
  }

  /** A line stops the program if and only if reading it does, or it reads and the first of the thirteen
      keys without a ratio was last given as an identifier. */
  lemma MetricsPanicIff(s: string)
    ensures MetricsLine(s) == Panic <==>
            StopsReading(s) || (ReadLine(s).Done? && IdFault(ByName(ReadLine(s).value.list)))
  {
    ReadLinePanicsIff(s);
    if ReadLine(s).Done? {
      RatiosPanicIff(ByName(ReadLine(s).value.list));
    }
  }
}
