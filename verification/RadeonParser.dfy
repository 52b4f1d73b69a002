/** The parser of radeontop's lines. Tokens are greedy, alternatives are ordered, and a list ends before
    the first separator that no element follows. */
module RadeonParser {
  import opened MachineInts
  import opened Numerals
  import opened Calendar

  /** A parse fails, or stops the program, or leaves a rest. */
  datatype Parsed<+T> = Done(rest: string, value: T) | Error | Panic

  /** Whole part and hundredths. */
  datatype Fraction = Fraction(whole: nat, frac: nat) {
    function Real(): real { whole as real + frac as real * 0.01 }
  }

  datatype Absolute = NoAbsolute | Mb(amount: Fraction) | Ghz(amount: Fraction)
  datatype Utilization = Id(id: nat) | Percent(ratio: Fraction, abs: Absolute)
  datatype Resource = Resource(name: string, util: Utilization)
  datatype Stamp = Stamp(seconds: int, nanos: nat)
  datatype Metrics = Metrics(stamp: Stamp, ratios: map<string, real>)

  // ----- tokens -----

  datatype Class = Decimal | Hexadecimal | Letter

  predicate In(c: char, k: Class) {
    match k
    case Decimal => IsDigit(c, 10)
    case Hexadecimal => IsDigit(c, 16)
    case Letter => 'a' <= c <= 'z' || 'A' <= c <= 'Z'
  }

  /** How many characters at the start are of the class. */
  function Span(s: string, k: Class): (n: nat)
    ensures n <= |s|
    ensures forall i :: 0 <= i < n ==> In(s[i], k)
    ensures n < |s| ==> !In(s[n], k)
  {
    if s == "" || !In(s[0], k) then 0 else 1 + Span(s[1..], k)
  }

  predicate Starts(s: string, c: char) { s != "" && s[0] == c }

  predicate StartsBlank(s: string, c: char) { |s| >= 2 && s[0] == c && s[1] == ' ' }

  /** The unsigned numbers: a value beyond the type's range is an error. */
  function Unsigned(s: string, max: nat): (r: Parsed<nat>)
    ensures r.Done? ==> |r.rest| < |s|
  {
    var n := Span(s, Decimal);
    if n == 0 || Value(s[..n], 10) > max then Error else Done(s[n..], Value(s[..n], 10))
  }

  function Negated(v: int): int { -v }

  /** The signed number: a sign of either kind may come first. */
  function Signed(s: string): (r: Parsed<int>)
    ensures r.Done? ==> |r.rest| <= |s|
  {
    if Starts(s, '-') then
      (match Unsigned(s[1..], I64_MAX + 1)
       case Done(rest, v) => Done(rest, Negated(v))
       case Error => Error
       case Panic => Panic)
    else Unsigned(if Starts(s, '+') then s[1..] else s, I64_MAX)
  }

  // ----- fractions -----

  /** One to three decimals, read as hundredths; more than three stop the program. */
  function FractionalPart(s: string): (r: Parsed<nat>)
    ensures r.Done? ==> |r.rest| <= |s|
  {
    match Unsigned(s, U64_MAX)
    case Error => Error
    case Panic => Panic
    case Done(rest, v) =>
      match |s| - |rest|
      case 1 => Done(rest, v * 10)
      case 2 => Done(rest, v)
      case 3 => Done(rest, v / 10)
      case _ => Panic
  }

  function ParseFraction(s: string): (r: Parsed<Fraction>)
    ensures r.Done? ==> |r.rest| <= |s|
  {
    match Unsigned(s, U64_MAX)
    case Error => Error
    case Panic => Panic
    case Done(s1, whole) =>
      if !Starts(s1, '.') then Error else
      match FractionalPart(s1[1..])
      case Error => Error
      case Panic => Panic
      case Done(s2, frac) => Done(s2, Fraction(whole, frac))
  }

  // ----- entries -----

  function WithUnit(s: string, unit: string): (r: Parsed<Fraction>)
    ensures r.Done? ==> |r.rest| <= |s|
  {
    if !Starts(s, ' ') then Error else
    match ParseFraction(s[1..])
    case Error => Error
    case Panic => Panic
    case Done(s1, f) => if unit <= s1 then Done(s1[|unit|..], f) else Error
  }

  function ParseAbsolute(s: string): (r: Parsed<Absolute>)
    ensures r.Done? ==> |r.rest| <= |s|
  {
    match WithUnit(s, "mb")
    case Done(rest, f) => Done(rest, Mb(f))
    case Panic => Panic
    case Error =>
      match WithUnit(s, "ghz")
      case Done(rest, f) => Done(rest, Ghz(f))
      case Panic => Panic
      case Error => Done(s, NoAbsolute)
  }

  function ParsePercent(s: string): (r: Parsed<Utilization>)
    ensures r.Done? ==> |r.rest| <= |s|
  {
    match ParseFraction(s)
    case Error => Error
    case Panic => Panic
    case Done(s1, ratio) =>
      if !Starts(s1, '%') then Error else
      match ParseAbsolute(s1[1..])
      case Error => Error
      case Panic => Panic
      case Done(s2, abs) => Done(s2, Percent(ratio, abs))
  }

  function ParseId(s: string): (r: Parsed<Utilization>)
    ensures r.Done? ==> |r.rest| <= |s|
  {
    var n := Span(s, Hexadecimal);
    if n == 0 || Value(s[..n], 16) > U64_MAX then Error else Done(s[n..], Id(Value(s[..n], 16)))
  }

  function ParseUtilization(s: string): (r: Parsed<Utilization>)
    ensures r.Done? ==> |r.rest| <= |s|
  {
    match ParsePercent(s)
    case Error => ParseId(s)
    case other => other
  }

  function ParseResource(s: string): (r: Parsed<Resource>)
    ensures r.Done? ==> |r.rest| < |s|
  {
    var n := Span(s, Letter);
    if n == 0 || !Starts(s[n..], ' ') then Error else
    match ParseUtilization(s[n + 1..])
    case Error => Error
    case Panic => Panic
    case Done(rest, util) => Done(rest, Resource(s[..n], util))
  }

  // ----- the list -----

  /** Any number of separator and entry. It never fails: it ends where the next one does not parse. */
  function MoreResources(s: string): (r: Parsed<seq<Resource>>)
    ensures r.Done? ==> |r.rest| <= |s|
    ensures r != Error
    decreases |s|
  {
    if !StartsBlank(s, ',') then Done(s, []) else
    match ParseResource(s[2..])
    case Error => Done(s, [])
    case Panic => Panic
    case Done(s1, x) =>
      match MoreResources(s1)
      case Done(s2, xs) => Done(s2, [x] + xs)
      case _ => Panic
  }

  function Resources(s: string): (r: Parsed<seq<Resource>>)
    ensures r.Done? ==> |r.rest| <= |s|
  {
    match ParseResource(s)
    case Error => Error
    case Panic => Panic
    case Done(s1, x) =>
      match MoreResources(s1)
      case Done(s2, xs) => Done(s2, [x] + xs)
      case _ => Panic
  }

  /** Collected into a hash map by name: the last duplicate wins. */
  function ByName(xs: seq<Resource>): map<string, Utilization> {
    if xs == [] then map[] else ByName(xs[..|xs| - 1])[xs[|xs| - 1].name := xs[|xs| - 1].util]
  }

  // ----- the line -----

  const KEYS: seq<string> := ["gpu", "ee", "vgt", "ta", "sx", "sh", "spi", "sc", "pa", "db", "cb", "vram", "gtt"]

  /** The ratios of the first n keys, looked up in order: a missing one is an error, an id stops the
      program. */
  function Ratios(m: map<string, Utilization>, n: nat): (r: Parsed<map<string, real>>)
    requires n <= |KEYS|
  {
    if n == 0 then Done("", map[]) else
    match Ratios(m, n - 1)
    case Error => Error
    case Panic => Panic
    case Done(_, front) =>
      if KEYS[n - 1] !in m then Error
      else match m[KEYS[n - 1]]
           case Id(_) => Panic
           case Percent(ratio, _) => Done("", front[KEYS[n - 1] := ratio.Real()])
  }

  predicate IsTime(t: Stamp) {
    && MIN_SECONDS <= t.seconds <= MAX_SECONDS
    && (t.nanos < 1_000_000_000 || (t.nanos < 2_000_000_000 && t.seconds % 60 == 59))
  }

  function ParseStamp(s: string): (r: Parsed<Stamp>)
    ensures r.Done? ==> |r.rest| <= |s|
  {
    match Signed(s)
    case Error => Error
    case Panic => Panic
    case Done(s1, seconds) =>
      if !Starts(s1, '.') then Error else
      match Unsigned(s1[1..], U32_MAX)
      case Error => Error
      case Panic => Panic
      case Done(s2, nanos) =>
        if IsTime(Stamp(seconds, nanos)) then Done(s2, Stamp(seconds, nanos)) else Error
  }

  /** A line's time stamp and list. */
  datatype Line = Line(stamp: Stamp, list: seq<Resource>)

  function WithStamp(stamp: Stamp, p: Parsed<seq<Resource>>): Parsed<Line> {
    match p
    case Error => Error
    case Panic => Panic
    case Done(rest, xs) => Done(rest, Line(stamp, xs))
  }

  function ReadLine(s: string): Parsed<Line> {
    match ParseStamp(s)
    case Error => Error
    case Panic => Panic
    case Done(s1, stamp) =>
      if !StartsBlank(s1, ':') then Error else WithStamp(stamp, Resources(s1[2..]))
  }

  /** The metrics are looked up once the line has been read. */
  function Finish(p: Parsed<Line>): Parsed<Metrics> {
    match p
    case Error => Error
    case Panic => Panic
    case Done(rest, line) =>
      match Ratios(ByName(line.list), |KEYS|)
      case Error => Error
      case Panic => Panic
      case Done(_, ratios) => Done(rest, Metrics(line.stamp, ratios))
  }

  /** `metrics_line`. */
  function MetricsLine(s: string): Parsed<Metrics> { Finish(ReadLine(s)) }
}
