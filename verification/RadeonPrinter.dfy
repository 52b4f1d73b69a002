/** Printing readings in radeontop's format, and reading them back. */
module RadeonPrinter {
  import opened MachineInts
  import opened Numerals
  import opened RadeonParser
  import opened RadeonLines

  /** A number with its decimals, printed in a given number of places. */
  datatype Amount = Amount(whole: nat, decimals: nat, places: nat)
  datatype AbsoluteReading = Plain | InMb(amount: Amount) | InGhz(amount: Amount)
  datatype Reading =
    | Share(name: string, ratio: Amount, abs: AbsoluteReading)
    | Bus(name: string, id: nat, places: nat)

  ghost predicate IsAmount(a: Amount) {
    a.whole <= U64_MAX && 1 <= a.places <= 3 && a.decimals < Pow(10, a.places)
  }

  ghost predicate IsReading(r: Reading) {
    && r.name != "" && All(r.name, Letter)
    && match r
       case Share(_, ratio, abs) => IsAmount(ratio) && (abs.Plain? || IsAmount(abs.amount))
       case Bus(_, id, places) => id <= U64_MAX && places >= 1 && id < Pow(16, places)
  }

  function PrintAmount(a: Amount): FractionText {
    FractionText(Numeral(a.whole, 10), Fixed(a.decimals, 10, a.places))
  }

  function PrintReading(r: Reading): ResourceText {
    match r
    case Bus(name, id, places) => ResourceText(name, IdText(Fixed(id, 16, places)))
    case Share(name, ratio, abs) =>
      var absText := match abs
        case Plain => NoText
        case InMb(a) => MbText(PrintAmount(a))
        case InGhz(a) => GhzText(PrintAmount(a));
      ResourceText(name, PercentText(PrintAmount(ratio), absText))
  }

  function PrintReadings(rs: seq<Reading>): seq<ResourceText> {
    seq(|rs|, i requires 0 <= i < |rs| => PrintReading(rs[i]))
  }

  /** The microseconds are printed with leading zeros and read as a plain number. */
  function PrintStamp(t: Stamp, places: nat): StampText {
    StampText(if t.seconds < 0 then Minus else Bare,
              Numeral(if t.seconds < 0 then Negated(t.seconds) else t.seconds, 10),
              Fixed(t.nanos, 10, places))
  }

  function PrintLine(t: Stamp, places: nat, rs: seq<Reading>): string
    requires rs != []
  {
    WriteLine(PrintStamp(t, places), PrintReadings(rs), "")
  }

  // ----- what was printed is what is read -----

  /** Two decimals are hundredths; a third one is dropped. */
  function AmountRead(a: Amount): Fraction {
    Fraction(a.whole, if a.places == 1 then a.decimals * 10
                      else if a.places == 2 then a.decimals else a.decimals / 10)
  }

  function UtilRead(r: Reading): Utilization {
    match r
    case Bus(_, id, _) => Id(id)
    case Share(_, ratio, abs) =>
      Percent(AmountRead(ratio), match abs
                                 case Plain => NoAbsolute
                                 case InMb(a) => Mb(AmountRead(a))
                                 case InGhz(a) => Ghz(AmountRead(a)))
  }

  function ReadingsRead(rs: seq<Reading>): seq<Resource> {
    seq(|rs|, i requires 0 <= i < |rs| => Resource(rs[i].name, UtilRead(rs[i])))
  }

  lemma AmountPrinted(a: Amount)
    requires IsAmount(a)
    ensures IsFraction(PrintAmount(a)) && FractionOf(PrintAmount(a)) == AmountRead(a)
  {
    ValueOfNumeral(a.whole, 10);
    ValueOfFixed(a.decimals, 10, a.places);
    assert Pow(10, 1) == 10 && Pow(10, 2) == 100 && Pow(10, 3) == 1000;
  }

  lemma ReadingPrinted(r: Reading)
    requires IsReading(r)
    ensures IsResource(PrintReading(r)) && ResourceOf(PrintReading(r)) == Resource(r.name, UtilRead(r))
  {
    match r {
      case Bus(_, id, places) => ValueOfFixed(id, 16, places);
      case Share(_, ratio, abs) =>
        AmountPrinted(ratio);
        if !abs.Plain? {
          AmountPrinted(abs.amount);
        }
    }
  }

  lemma ReadingsPrinted(rs: seq<Reading>)
    requires forall r :: r in rs ==> IsReading(r)
    ensures AreResources(PrintReadings(rs)) && ResourcesOf(PrintReadings(rs)) == ReadingsRead(rs)
  {
    forall i | 0 <= i < |rs|
      ensures IsResource(PrintReading(rs[i]))
      ensures ResourceOf(PrintReading(rs[i])) == Resource(rs[i].name, UtilRead(rs[i]))
    {
      ReadingPrinted(rs[i]);
    }
  }

  lemma StampPrinted(t: Stamp, places: nat)
    requires IsTime(t) && places >= 1 && t.nanos < Pow(10, places)
    ensures IsStamp(PrintStamp(t, places)) && StampOf(PrintStamp(t, places)) == t
  {
    ValueOfNumeral(if t.seconds < 0 then Negated(t.seconds) else t.seconds, 10);
    ValueOfFixed(t.nanos, 10, places);
  }

  /** A printed line reads as its time stamp and its readings, to the end. */
  lemma PrintedLineReads(t: Stamp, places: nat, rs: seq<Reading>)
    requires IsTime(t) && places >= 1 && t.nanos < Pow(10, places)
    requires rs != [] && forall r :: r in rs ==> IsReading(r)
    ensures ReadLine(PrintLine(t, places, rs)) == Done("", Line(t, ReadingsRead(rs)))
  {
    StampPrinted(t, places);
    ReadingsPrinted(rs);
    LineReads(PrintStamp(t, places), PrintReadings(rs), "");
    assert ReadingsRead(rs) + [] == ReadingsRead(rs);
  }

  // ----- the metrics of a list -----

  ghost predicate IsLast(xs: seq<Resource>, i: nat) {
    i < |xs| && forall j :: i < j < |xs| ==> xs[j].name != xs[i].name
  }

  /** The map holds, for each name, the value of its last entry. */
  lemma {:induction false} ByNameIsLast(xs: seq<Resource>, i: nat)
    requires IsLast(xs, i)
    ensures xs[i].name in ByName(xs) && ByName(xs)[xs[i].name] == xs[i].util
  {
    if i < |xs| - 1 {
      ByNameIsLast(xs[..|xs| - 1], i);
    }
  }

  lemma {:induction false} ByNameHasLast(xs: seq<Resource>, name: string) returns (i: nat)
    requires name in ByName(xs)
    ensures IsLast(xs, i) && xs[i].name == name
  {
    if xs[|xs| - 1].name == name {
      i := |xs| - 1;
    } else {
      i := ByNameHasLast(xs[..|xs| - 1], name);
    }
  }

  ghost predicate HasRatio(m: map<string, Utilization>, key: string) {
    key in m && m[key].Percent?
  }

  ghost predicate FirstFault(m: map<string, Utilization>, i: nat) {
    i < |KEYS| && !HasRatio(m, KEYS[i]) && forall j :: 0 <= j < i ==> HasRatio(m, KEYS[j])
  }

  /** A ratio of so many whole percent and hundredths. */
  predicate IsRatio(r: real, f: Fraction) { 100.0 * r == (100 * f.whole + f.frac) as real }

  lemma RealIsRatio(f: Fraction)
    ensures IsRatio(f.Real(), f)
  {
  }

  /** The lookup of the keys succeeds when all have ratios; else the first that has none decides whether it
      is an error, for a missing key, or stops the program, for an id. */
  lemma {:induction false} RatiosOutcome(m: map<string, Utilization>, n: nat)
    requires n <= |KEYS|
    ensures match Ratios(m, n)
            case Done(_, ratios) =>
              && (forall i :: 0 <= i < n ==> HasRatio(m, KEYS[i]))
              && ratios.Keys == (set i | 0 <= i < n :: KEYS[i])
              && (forall k :: k in ratios ==> k in m && IsRatio(ratios[k], m[k].ratio))
            case Error => exists i: nat :: i < n && FirstFault(m, i) && KEYS[i] !in m
            case Panic => exists i: nat :: i < n && FirstFault(m, i) && KEYS[i] in m
  {
    if n > 0 {
      RatiosOutcome(m, n - 1);
      if HasRatio(m, KEYS[n - 1]) {
        RealIsRatio(m[KEYS[n - 1]].ratio);
      }
      assert (set i | 0 <= i < n :: KEYS[i]) == (set i | 0 <= i < n - 1 :: KEYS[i]) + {KEYS[n - 1]};
      if Ratios(m, n - 1).Done? && !HasRatio(m, KEYS[n - 1]) {
        assert FirstFault(m, n - 1);
      }
    }
  }

  lemma AllRatios(m: map<string, Utilization>)
    ensures Ratios(m, |KEYS|).Done? <==> forall k :: k in KEYS ==> HasRatio(m, k)
    ensures Ratios(m, |KEYS|).Done? ==>
      var ratios := Ratios(m, |KEYS|).value;
      && ratios.Keys == (set k | k in KEYS)
      && forall k :: k in KEYS ==> k in ratios && HasRatio(m, k) && IsRatio(ratios[k], m[k].ratio)
  {
    var n := |KEYS|;
    RatiosOutcome(m, n);
    assert (set i | 0 <= i < n :: KEYS[i]) == (set k | k in KEYS);
    if forall k :: k in KEYS ==> HasRatio(m, k) {
      assert forall i: nat :: i < n ==> HasRatio(m, KEYS[i]);
    }
  }

  ghost predicate LastIsShare(rs: seq<Reading>, key: string) {
    exists i: nat :: IsLast(ReadingsRead(rs), i) && rs[i].name == key && rs[i].Share?
  }

  lemma LastDecides(rs: seq<Reading>, key: string)
    ensures HasRatio(ByName(ReadingsRead(rs)), key) <==> LastIsShare(rs, key)
  {
    var xs := ReadingsRead(rs);
    if key in ByName(xs) {
      var i := ByNameHasLast(xs, key);
      ByNameIsLast(xs, i);
    }
    if LastIsShare(rs, key) {
      var i: nat :| IsLast(xs, i) && rs[i].name == key && rs[i].Share?;
      ByNameIsLast(xs, i);
    }
  }

  /** A printed number in hundredths: with one decimal, two, or three, the third cut off. */
  function Hundredths(a: Amount): nat {
    100 * a.whole + if a.places == 1 then 10 * a.decimals
                    else if a.places == 2 then a.decimals else a.decimals / 10
  }

  lemma ReadInHundredths(a: Amount, r: real)
    requires IsRatio(r, AmountRead(a))
    ensures 100.0 * r == Hundredths(a) as real
  {
  }

  /** The metrics of a key are those of its last reading. */
  lemma RatioOfLast(rs: seq<Reading>, ratios: map<string, real>, i: nat)
    requires IsLast(ReadingsRead(rs), i) && rs[i].name in ratios
    requires var m := ByName(ReadingsRead(rs));
             HasRatio(m, rs[i].name) && IsRatio(ratios[rs[i].name], m[rs[i].name].ratio)
    ensures rs[i].Share? && 100.0 * ratios[rs[i].name] == Hundredths(rs[i].ratio) as real
  {
    ByNameIsLast(ReadingsRead(rs), i);
    assert rs[i].Share?;
    ReadInHundredths(rs[i].ratio, ratios[rs[i].name]);
  }

  /** The round trip: a printed line yields metrics if and only if each of the thirteen keys was printed
      and its last reading is a percentage; then the metrics are exactly those last readings, whatever the
      order of the entries and whatever else was printed. */
  lemma RoundTrip(t: Stamp, places: nat, rs: seq<Reading>)
    requires IsTime(t) && places >= 1 && t.nanos < Pow(10, places)
    requires rs != [] && forall r :: r in rs ==> IsReading(r)
    ensures MetricsLine(PrintLine(t, places, rs)).Done? <==> forall k :: k in KEYS ==> LastIsShare(rs, k)
    ensures MetricsLine(PrintLine(t, places, rs)).Done? ==>
      var d := MetricsLine(PrintLine(t, places, rs));
      && d.rest == "" && d.value.stamp == t
      && d.value.ratios.Keys == (set k | k in KEYS)
      && forall i: nat :: IsLast(ReadingsRead(rs), i) && rs[i].name in KEYS ==>
           rs[i].Share? && rs[i].name in d.value.ratios
           && 100.0 * d.value.ratios[rs[i].name] == Hundredths(rs[i].ratio) as real
  {
    PrintedLineReads(t, places, rs);
    var xs := ReadingsRead(rs);
    AllRatios(ByName(xs));
    forall k | k in KEYS ensures HasRatio(ByName(xs), k) <==> LastIsShare(rs, k) {
      LastDecides(rs, k);
    }
    var outcome := MetricsLine(PrintLine(t, places, rs));
    if outcome.Done? {
      forall i: nat | IsLast(xs, i) && rs[i].name in KEYS
        ensures rs[i].Share? && rs[i].name in outcome.value.ratios
        ensures 100.0 * outcome.value.ratios[rs[i].name] == Hundredths(rs[i].ratio) as real
      {
        RatioOfLast(rs, outcome.value.ratios, i);
      }
    }
  }
}
