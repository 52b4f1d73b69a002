/** What the line parser reads. A text tree spells out an entry character by character; the parser reads
    back exactly the entries that were written, and it reads nothing else. */
module RadeonLines {
  import opened MachineInts
  import opened Numerals
  import opened RadeonParser

  // ----- texts -----

  datatype FractionText = FractionText(whole: string, part: string)
  datatype AbsoluteText = NoText | MbText(amount: FractionText) | GhzText(amount: FractionText)
  datatype UtilText = IdText(digits: string) | PercentText(ratio: FractionText, abs: AbsoluteText)
  datatype ResourceText = ResourceText(name: string, util: UtilText)

  /** Each text is written in front of what follows it. */
  function WriteFraction(f: FractionText, t: string): string { f.whole + ("." + (f.part + t)) }

  function WriteAbsolute(a: AbsoluteText, t: string): string {
    match a
    case NoText => t
    case MbText(f) => " " + WriteFraction(f, "mb" + t)
    case GhzText(f) => " " + WriteFraction(f, "ghz" + t)
  }

  function WriteUtil(u: UtilText, t: string): string {
    match u
    case IdText(digits) => digits + t
    case PercentText(ratio, abs) => WriteFraction(ratio, "%" + WriteAbsolute(abs, t))
  }

  function WriteResource(r: ResourceText, t: string): string {
    r.name + (" " + WriteUtil(r.util, t))
  }

  function WriteMore(rs: seq<ResourceText>, t: string): string {
    if rs == [] then t else ", " + WriteResource(rs[0], WriteMore(rs[1..], t))
  }

  // ----- what the texts stand for -----

  ghost predicate All(s: string, k: Class) { forall i :: 0 <= i < |s| ==> In(s[i], k) }

  ghost predicate IsNumber(s: string, base: nat) {
    IsBase(base) && s != "" && AllDigits(s, base) && Value(s, base) <= U64_MAX
  }

  /** One to three decimals. */
  ghost predicate IsFraction(f: FractionText) {
    IsNumber(f.whole, 10) && IsNumber(f.part, 10) && |f.part| <= 3
  }

  /** The decimals as hundredths: a single one counts tenfold, a third one is cut. */
  ghost function FractionOf(f: FractionText): Fraction
    requires IsFraction(f)
  {
    var v := Value(f.part, 10);
    Fraction(Value(f.whole, 10), if |f.part| == 1 then v * 10 else if |f.part| == 2 then v else v / 10)
  }

  ghost predicate IsAbsolute(a: AbsoluteText) { a.NoText? || IsFraction(a.amount) }

  ghost function AbsoluteOf(a: AbsoluteText): Absolute
    requires IsAbsolute(a)
  {
    match a
    case NoText => NoAbsolute
    case MbText(f) => Mb(FractionOf(f))
    case GhzText(f) => Ghz(FractionOf(f))
  }

  ghost predicate IsUtil(u: UtilText) {
    match u
    case IdText(digits) => IsNumber(digits, 16)
    case PercentText(ratio, abs) => IsFraction(ratio) && IsAbsolute(abs)
  }

  ghost function UtilOf(u: UtilText): Utilization
    requires IsUtil(u)
  {
    match u
    case IdText(digits) => Id(Value(digits, 16))
    case PercentText(ratio, abs) => Percent(FractionOf(ratio), AbsoluteOf(abs))
  }

  ghost predicate IsResource(r: ResourceText) { r.name != "" && All(r.name, Letter) && IsUtil(r.util) }

  ghost function ResourceOf(r: ResourceText): Resource
    requires IsResource(r)
  {
    Resource(r.name, UtilOf(r.util))
  }

  ghost predicate AreResources(rs: seq<ResourceText>) { forall r :: r in rs ==> IsResource(r) }

  ghost function ResourcesOf(rs: seq<ResourceText>): (xs: seq<Resource>)
    requires AreResources(rs)
    ensures |xs| == |rs|
    ensures forall i :: 0 <= i < |rs| ==> IsResource(rs[i]) && xs[i] == ResourceOf(rs[i])
  {
    if rs == [] then [] else [ResourceOf(rs[0])] + ResourcesOf(rs[1..])
  }

  // ----- what is written is read -----

  /** Texts that cannot lengthen a number, or an entry, that comes before them. */
  predicate NoDigit(t: string) { t == "" || !In(t[0], Decimal) }

  predicate Boundary(t: string) { t == "" || t[0] == ',' }

  lemma {:induction false} SpanStops(a: string, t: string, k: Class)
    requires All(a, k) && (t == "" || !In(t[0], k))
    ensures Span(a + t, k) == |a|
  {
    if a == "" {
      assert a + t == t;
    } else {
      SpanStops(a[1..], t, k);
      assert (a + t)[1..] == a[1..] + t;
    }
  }

  lemma Cut(a: string, t: string)
    ensures (a + t)[..|a|] == a && (a + t)[|a|..] == t
  {
  }

  lemma UnsignedReads(digits: string, t: string, max: nat)
    requires digits != "" && AllDigits(digits, 10) && Value(digits, 10) <= max && NoDigit(t)
    ensures Unsigned(digits + t, max) == Done(t, Value(digits, 10))
  {
    SpanStops(digits, t, Decimal);
    Cut(digits, t);
  }

  /** Behind its whole part and the dot, a fraction goes on with its decimals. */
  lemma DottedReads(whole: string, s: string)
    requires IsNumber(whole, 10)
    ensures ParseFraction(whole + ("." + s)) ==
            match FractionalPart(s)
            case Error => Error
            case Panic => Panic
            case Done(rest, frac) => Done(rest, Fraction(Value(whole, 10), frac))
  {
    UnsignedReads(whole, "." + s, U64_MAX);
    assert ("." + s)[1..] == s;
  }

  lemma FractionReads(f: FractionText, t: string)
    requires IsFraction(f) && NoDigit(t)
    ensures ParseFraction(WriteFraction(f, t)) == Done(t, FractionOf(f))
  {
    DottedReads(f.whole, f.part + t);
    UnsignedReads(f.part, t, U64_MAX);
  }

  lemma WithUnitReads(f: FractionText, unit: string, t: string)
    requires IsFraction(f) && NoDigit(unit + t)
    ensures WithUnit(" " + WriteFraction(f, unit + t), unit) == Done(t, FractionOf(f))
  {
    var s1 := WriteFraction(f, unit + t);
    assert (" " + s1)[1..] == s1;
    FractionReads(f, unit + t);
    Cut(unit, t);
  }

  /** An amount in one unit is an error where another unit is expected. */
  lemma WithOtherUnit(f: FractionText, t: string)
    requires IsFraction(f)
    ensures WithUnit(" " + WriteFraction(f, "ghz" + t), "mb") == Error
  {
    var s1 := WriteFraction(f, "ghz" + t);
    assert (" " + s1)[1..] == s1;
    FractionReads(f, "ghz" + t);
    assert ("ghz" + t)[0] == 'g';
  }

  lemma AbsoluteReads(a: AbsoluteText, t: string)
    requires IsAbsolute(a) && Boundary(t)
    ensures ParseAbsolute(WriteAbsolute(a, t)) == Done(t, AbsoluteOf(a))
  {
    match a {
      case NoText =>
      case MbText(f) => WithUnitReads(f, "mb", t);
      case GhzText(f) =>
        WithOtherUnit(f, t);
        WithUnitReads(f, "ghz", t);
    }
  }

  lemma PercentReads(ratio: FractionText, abs: AbsoluteText, t: string)
    requires IsFraction(ratio) && IsAbsolute(abs) && Boundary(t)
    ensures ParsePercent(WriteUtil(PercentText(ratio, abs), t))
         == Done(t, Percent(FractionOf(ratio), AbsoluteOf(abs)))
  {
    var s1 := "%" + WriteAbsolute(abs, t);
    FractionReads(ratio, s1);
    assert s1[1..] == WriteAbsolute(abs, t);
    AbsoluteReads(abs, t);
  }

  lemma NoDotErrs(s: string)
    requires var n := Span(s, Decimal); n == |s| || s[n] != '.'
    ensures ParsePercent(s) == Error
  {
    var n := Span(s, Decimal);
    assert !Starts(s[n..], '.');
  }

  /** Hexadecimal digits alone are never a percentage: no dot can follow their decimal part. */
  lemma IdNotPercent(digits: string, t: string)
    requires AllDigits(digits, 16) && Boundary(t)
    ensures ParsePercent(digits + t) == Error
  {
    var s := digits + t;
    var n := Span(s, Decimal);
    if n < |digits| {
      assert s[n] == digits[n] && IsDigit(digits[n], 16);
    } else if n < |s| {
      assert s[|digits|] == t[0];
    }
    NoDotErrs(s);
  }

  lemma IdReads(digits: string, t: string)
    requires IsNumber(digits, 16) && Boundary(t)
    ensures ParseUtilization(digits + t) == Done(t, Id(Value(digits, 16)))
  {
    IdNotPercent(digits, t);
    SpanStops(digits, t, Hexadecimal);
    Cut(digits, t);
  }

  lemma UtilReads(u: UtilText, t: string)
    requires IsUtil(u) && Boundary(t)
    ensures ParseUtilization(WriteUtil(u, t)) == Done(t, UtilOf(u))
  {
    match u {
      case IdText(digits) => IdReads(digits, t);
      case PercentText(ratio, abs) => PercentReads(ratio, abs, t);
    }
  }

  /** An entry is read as far as it was written, and no further. */
  lemma ResourceReads(r: ResourceText, t: string)
    requires IsResource(r) && Boundary(t)
    ensures ParseResource(WriteResource(r, t)) == Done(t, ResourceOf(r))
  {
    var s1 := " " + WriteUtil(r.util, t);
    SpanStops(r.name, s1, Letter);
    Cut(r.name, s1);
    assert (r.name + s1)[|r.name| + 1..] == s1[1..] == WriteUtil(r.util, t);
    UtilReads(r.util, t);
  }

  /** A list parse put behind entries that were read before. */
  function Prepend(xs: seq<Resource>, p: Parsed<seq<Resource>>): Parsed<seq<Resource>> {
    match p
    case Done(rest, ys) => Done(rest, xs + ys)
    case other => other
  }

  lemma PrependTwice(x: Resource, xs: seq<Resource>, p: Parsed<seq<Resource>>)
    ensures Prepend([x], Prepend(xs, p)) == Prepend([x] + xs, p)
    ensures Prepend([], p) == p
  {
    if p.Done? {
      assert [x] + (xs + p.value) == [x] + xs + p.value && [] + p.value == p.value;
    }
  }

  lemma MoreStep(r: ResourceText, t: string)
    requires IsResource(r) && Boundary(t)
    ensures MoreResources(", " + WriteResource(r, t)) == Prepend([ResourceOf(r)], MoreResources(t))
  {
    var s := ", " + WriteResource(r, t);
    assert s[2..] == WriteResource(r, t);
    ResourceReads(r, t);
  }

  /** Entries that were written are read one by one, and then reading goes on with what follows. */
  lemma {:induction false} MoreReads(rs: seq<ResourceText>, t: string)
    requires AreResources(rs) && Boundary(t)
    ensures Boundary(WriteMore(rs, t))
    ensures MoreResources(WriteMore(rs, t)) == Prepend(ResourcesOf(rs), MoreResources(t))
  {
    if rs == [] {
      PrependTwice(Resource("", Id(0)), [], MoreResources(t));
    } else {
      MoreReads(rs[1..], t);
      MoreStep(rs[0], WriteMore(rs[1..], t));
      PrependTwice(ResourceOf(rs[0]), ResourcesOf(rs[1..]), MoreResources(t));
    }
  }

  lemma ResourcesRead(rs: seq<ResourceText>, t: string)
    requires rs != [] && AreResources(rs) && Boundary(t)
    ensures Resources(WriteResource(rs[0], WriteMore(rs[1..], t)))
         == Prepend(ResourcesOf(rs), MoreResources(t))
  {
    MoreReads(rs[1..], t);
    ResourceReads(rs[0], WriteMore(rs[1..], t));
    PrependTwice(ResourceOf(rs[0]), ResourcesOf(rs[1..]), MoreResources(t));
  }

  // ----- nothing else is read -----

  lemma SplitAt(s: string, n: nat, c: char)
    requires n < |s| && s[n] == c
    ensures s == s[..n] + ([c] + s[n + 1..])
  {
  }

  lemma Head(s: string, c: char)
    requires Starts(s, c)
    ensures s == [c] + s[1..]
  {
  }

  lemma HeadBlank(s: string, c: char)
    requires StartsBlank(s, c)
    ensures s == [c, ' '] + s[2..]
  {
  }

  lemma UnsignedShape(s: string, max: nat) returns (digits: string)
    requires Unsigned(s, max).Done?
    ensures digits != "" && AllDigits(digits, 10) && Value(digits, 10) <= max
    ensures s == digits + Unsigned(s, max).rest && Unsigned(s, max).value == Value(digits, 10)
    ensures |digits| == |s| - |Unsigned(s, max).rest|
  {
    digits := s[..Span(s, Decimal)];
  }

  lemma PartShape(s: string) returns (part: string)
    requires FractionalPart(s).Done?
    ensures IsNumber(part, 10) && |part| <= 3 && s == part + FractionalPart(s).rest
    ensures FractionalPart(s).value == FractionOf(FractionText("0", part)).frac
  {
    part := UnsignedShape(s, U64_MAX);
  }

  lemma FractionShape(s: string) returns (f: FractionText)
    requires ParseFraction(s).Done?
    ensures IsFraction(f) && s == WriteFraction(f, ParseFraction(s).rest)
    ensures ParseFraction(s).value == FractionOf(f)
  {
    var whole := UnsignedShape(s, U64_MAX);
    var s1 := Unsigned(s, U64_MAX).rest;
    Head(s1, '.');
    var part := PartShape(s1[1..]);
    f := FractionText(whole, part);
  }

  lemma WithUnitShape(s: string, unit: string) returns (f: FractionText)
    requires WithUnit(s, unit).Done?
    ensures IsFraction(f) && s == " " + WriteFraction(f, unit + WithUnit(s, unit).rest)
    ensures WithUnit(s, unit).value == FractionOf(f)
  {
    f := FractionShape(s[1..]);
    assert ParseFraction(s[1..]).rest == unit + WithUnit(s, unit).rest;
    Head(s, ' ');
  }

  lemma AbsoluteShape(s: string) returns (a: AbsoluteText)
    requires ParseAbsolute(s).Done?
    ensures IsAbsolute(a) && s == WriteAbsolute(a, ParseAbsolute(s).rest)
    ensures ParseAbsolute(s).value == AbsoluteOf(a)
  {
    if WithUnit(s, "mb").Done? {
      var f := WithUnitShape(s, "mb");
      a := MbText(f);
    } else if WithUnit(s, "ghz").Done? {
      var f := WithUnitShape(s, "ghz");
      a := GhzText(f);
    } else {
      a := NoText;
    }
  }

  lemma UtilShape(s: string) returns (u: UtilText)
    requires ParseUtilization(s).Done?
    ensures IsUtil(u) && s == WriteUtil(u, ParseUtilization(s).rest)
    ensures ParseUtilization(s).value == UtilOf(u)
  {
    if ParsePercent(s).Done? {
      var ratio := FractionShape(s);
      var s1 := ParseFraction(s).rest;
      var abs := AbsoluteShape(s1[1..]);
      Head(s1, '%');
      u := PercentText(ratio, abs);
    } else {
      u := IdText(s[..Span(s, Hexadecimal)]);
    }
  }

  /** An accepted entry is a well-formed text of its value. */
  lemma ResourceShape(s: string) returns (r: ResourceText)
    requires ParseResource(s).Done?
    ensures IsResource(r) && s == WriteResource(r, ParseResource(s).rest)
    ensures ParseResource(s).value == ResourceOf(r)
  {
    var n := Span(s, Letter);
    var u := UtilShape(s[n + 1..]);
    r := ResourceText(s[..n], u);
    SplitAt(s, n, ' ');
  }

  lemma {:induction false} MoreShape(s: string) returns (rs: seq<ResourceText>)
    requires MoreResources(s).Done?
    ensures AreResources(rs) && s == WriteMore(rs, MoreResources(s).rest)
    ensures MoreResources(s).value == ResourcesOf(rs)
    decreases |s|
  {
    if StartsBlank(s, ',') && ParseResource(s[2..]).Done? {
      var r := ResourceShape(s[2..]);
      var tail := MoreShape(ParseResource(s[2..]).rest);
      rs := [r] + tail;
      assert rs[1..] == tail;
      HeadBlank(s, ',');
    } else {
      rs := [];
    }
  }

  // ----- lines -----

  datatype Sign = Bare | Minus | Plus
  datatype StampText = StampText(sign: Sign, seconds: string, nanos: string)

  function WriteSign(sign: Sign, t: string): string {
    match sign
    case Bare => t
    case Minus => "-" + t
    case Plus => "+" + t
  }

  /** The largest magnitude that fits behind the sign. */
  function Limit(sign: Sign): nat { if sign.Minus? then I64_MAX + 1 else I64_MAX }

  function WithSign(sign: Sign, v: nat): int { if sign.Minus? then Negated(v) else v }

  function WriteStamp(w: StampText, t: string): string {
    WriteSign(w.sign, w.seconds + ("." + (w.nanos + t)))
  }

  function WriteLine(w: StampText, rs: seq<ResourceText>, t: string): string
    requires rs != []
  {
    WriteStamp(w, ": " + WriteResource(rs[0], WriteMore(rs[1..], t)))
  }

  ghost predicate IsStamp(w: StampText) {
    && w.seconds != "" && AllDigits(w.seconds, 10) && Value(w.seconds, 10) <= Limit(w.sign)
    && w.nanos != "" && AllDigits(w.nanos, 10) && Value(w.nanos, 10) <= U32_MAX
    && IsTime(StampOf(w))
  }

  ghost function StampOf(w: StampText): Stamp
    requires AllDigits(w.seconds, 10) && AllDigits(w.nanos, 10)
  {
    Stamp(WithSign(w.sign, Value(w.seconds, 10)), Value(w.nanos, 10))
  }

  lemma SignedReads(sign: Sign, digits: string, t: string)
    requires digits != "" && AllDigits(digits, 10) && Value(digits, 10) <= Limit(sign) && NoDigit(t)
    ensures Signed(WriteSign(sign, digits + t)) == Done(t, WithSign(sign, Value(digits, 10)))
  {
    var s := digits + t;
    assert s[0] == digits[0] && IsDigit(digits[0], 10);
    UnsignedReads(digits, t, Limit(sign));
    assert ("-" + s)[1..] == s && ("+" + s)[1..] == s;
  }

  lemma StampReads(w: StampText, t: string)
    requires IsStamp(w) && NoDigit(t)
    ensures ParseStamp(WriteStamp(w, t)) == Done(t, StampOf(w))
  {
    var s1 := "." + (w.nanos + t);
    SignedReads(w.sign, w.seconds, s1);
    assert s1[1..] == w.nanos + t;
    UnsignedReads(w.nanos, t, U32_MAX);
  }

  /** A written line is read as its time stamp and its entries, and reading goes on with what follows:
      nothing, an entry that does not parse and ends the list, or one that stops the program. */
  lemma LineReads(w: StampText, rs: seq<ResourceText>, t: string)
    requires IsStamp(w) && rs != [] && AreResources(rs) && Boundary(t)
    ensures ReadLine(WriteLine(w, rs, t))
         == WithStamp(StampOf(w), Prepend(ResourcesOf(rs), MoreResources(t)))
  {
    var list := WriteResource(rs[0], WriteMore(rs[1..], t));
    var s1 := ": " + list;
    StampReads(w, s1);
    assert s1[2..] == list;
    ResourcesRead(rs, t);
  }

  lemma SignedShape(s: string) returns (sign: Sign, digits: string)
    requires Signed(s).Done?
    ensures digits != "" && AllDigits(digits, 10) && Value(digits, 10) <= Limit(sign)
    ensures s == WriteSign(sign, digits + Signed(s).rest)
    ensures Signed(s).value == WithSign(sign, Value(digits, 10))
  {
    if Starts(s, '-') {
      sign := Minus;
      digits := UnsignedShape(s[1..], I64_MAX + 1);
      Head(s, '-');
    } else if Starts(s, '+') {
      sign := Plus;
      digits := UnsignedShape(s[1..], I64_MAX);
      Head(s, '+');
    } else {
      sign := Bare;
      digits := UnsignedShape(s, I64_MAX);
    }
  }

  lemma StampShape(s: string) returns (w: StampText)
    requires ParseStamp(s).Done?
    ensures IsStamp(w) && ParseStamp(s).value == StampOf(w)
    ensures s == WriteStamp(w, ParseStamp(s).rest)
  {
    var sign, seconds := SignedShape(s);
    var s1 := Signed(s).rest;
    Head(s1, '.');
    var nanos := UnsignedShape(s1[1..], U32_MAX);
    w := StampText(sign, seconds, nanos);
  }

  lemma ResourcesShape(s: string) returns (rs: seq<ResourceText>)
    requires Resources(s).Done?
    ensures rs != [] && AreResources(rs) && Resources(s).value == ResourcesOf(rs)
    ensures s == WriteResource(rs[0], WriteMore(rs[1..], Resources(s).rest))
  {
    var r := ResourceShape(s);
    var tail := MoreShape(ParseResource(s).rest);
    rs := [r] + tail;
    assert rs[1..] == tail;
  }

  /** A line that reads is a written one: a time stamp, at least one entry, and the rest it leaves. */
  lemma LineShape(s: string) returns (w: StampText, rs: seq<ResourceText>)
    requires ReadLine(s).Done?
    ensures IsStamp(w) && rs != [] && AreResources(rs)
    ensures s == WriteLine(w, rs, ReadLine(s).rest)
    ensures ReadLine(s).value == Line(StampOf(w), ResourcesOf(rs))
  {
    w := StampShape(s);
    var s1 := ParseStamp(s).rest;
    rs := ResourcesShape(s1[2..]);
    HeadBlank(s1, ':');
  }

  /** What follows the place where reading stopped decides how reading goes on, and nothing else does. */
  lemma ReadOn(s: string, t: string)
    requires ReadLine(s).Done? && Boundary(t)
    ensures |ReadLine(s).rest| <= |s|
    ensures var line := ReadLine(s).value;
            ReadLine(Used(s, ReadLine(s).rest) + t)
            == WithStamp(line.stamp, Prepend(line.list, MoreResources(t)))
  {
    var w, rs := LineShape(s);
    var rest := ReadLine(s).rest;
    WriteLineTail(w, rs, rest);
    WriteLineTail(w, rs, t);
    assert Used(s, rest) == WriteLine(w, rs, "");
    LineReads(w, rs, t);
  }

  /** The part of the input that was used up. */
  function Used(s: string, rest: string): string
    requires |rest| <= |s|
  {
    s[..|s| - |rest|]
  }

  /** For every line that reads: cut where reading stopped, it gives the same metrics; so it does when an
      entry that does not parse follows the cut; and an entry that stops the program there stops it. */
  lemma CutLine(s: string, bad: string)
    requires ReadLine(s).Done?
    ensures |ReadLine(s).rest| <= |s|
    ensures var used, line := Used(s, ReadLine(s).rest), ReadLine(s).value;
            && MetricsLine(used) == Finish(Done("", line))
            && (ParseResource(bad) == Error ==>
                MetricsLine(used + (", " + bad)) == Finish(Done(", " + bad, line)))
            && (ParseResource(bad) == Panic ==> MetricsLine(used + (", " + bad)) == Panic)
  {
    ReadOn(s, "");
    ReadOn(s, ", " + bad);
    var used, line := Used(s, ReadLine(s).rest), ReadLine(s).value;
    assert used + "" == used && line.list + [] == line.list;
    assert (", " + bad)[2..] == bad;
  }

  /** Such as an entry whose value does not begin with a hexadecimal digit: `mclk inf%`. */
  lemma NoNumberErrs(name: string, value: string)
    requires All(name, Letter) && (value == "" || !In(value[0], Hexadecimal))
    ensures ParseResource(name + (" " + value)) == Error
  {
    SpanStops(name, " " + value, Letter);
    assert (name + (" " + value))[|name| + 1..] == value;
    assert Span(value, Decimal) == 0;
  }

  lemma {:induction false} WriteMoreTail(rs: seq<ResourceText>, t: string)
    ensures WriteMore(rs, t) == WriteMore(rs, "") + t
  {
    if rs != [] {
      WriteMoreTail(rs[1..], t);
      WriteResourceTail(rs[0], WriteMore(rs[1..], ""), t);
    }
  }

  lemma WriteFractionTail(f: FractionText, a: string, t: string)
    ensures WriteFraction(f, a + t) == WriteFraction(f, a) + t
  {
  }

  lemma WriteAbsoluteTail(x: AbsoluteText, a: string, t: string)
    ensures WriteAbsolute(x, a + t) == WriteAbsolute(x, a) + t
  {
    if x.MbText? {
      WriteFractionTail(x.amount, "mb" + a, t);
      assert "mb" + (a + t) == ("mb" + a) + t;
    } else if x.GhzText? {
      WriteFractionTail(x.amount, "ghz" + a, t);
      assert "ghz" + (a + t) == ("ghz" + a) + t;
    }
  }

  lemma WriteResourceTail(r: ResourceText, a: string, t: string)
    ensures WriteResource(r, a + t) == WriteResource(r, a) + t
  {
    match r.util {
      case IdText(digits) =>
      case PercentText(ratio, abs) =>
        WriteAbsoluteTail(abs, a, t);
        var b := "%" + WriteAbsolute(abs, a);
        assert "%" + (WriteAbsolute(abs, a) + t) == b + t;
        WriteFractionTail(ratio, b, t);
    }
  }

  lemma WriteStampTail(w: StampText, a: string, t: string)
    ensures WriteStamp(w, a + t) == WriteStamp(w, a) + t
  {
    var s := w.seconds + ("." + (w.nanos + a));
    assert w.seconds + ("." + (w.nanos + (a + t))) == s + t;
    assert "-" + (s + t) == ("-" + s) + t && "+" + (s + t) == ("+" + s) + t;
  }

  lemma Associative(a: string, b: string, c: string)
    ensures a + (b + c) == (a + b) + c
  {
  }

  lemma WriteLineTail(w: StampText, rs: seq<ResourceText>, t: string)
    requires rs != []
    ensures WriteLine(w, rs, t) == WriteLine(w, rs, "") + t
  {
    var more := WriteMore(rs[1..], "");
    WriteMoreTail(rs[1..], t);
    WriteResourceTail(rs[0], more, t);
    Associative(": ", WriteResource(rs[0], more), t);
    WriteStampTail(w, ": " + WriteResource(rs[0], more), t);
  }
}
