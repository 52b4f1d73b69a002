/** Choosing a server by its share of busy time. Numbers are exact; a division by zero has the IEEE
    outcome, because the comparison that follows depends on it. */
module MeanScheduler {
  import opened Wrappers
  import opened Identifiers
  import opened Entities
  import opened MachineInts

  datatype Rate = Finite(value: real) | PosInf | NegInf | NaN

  const ZERO := Finite(0.0)
  const SCALEOUT_THRESHOLD := 70

  predicate Less(a: Rate, b: Rate) {
    match (a, b)
    case (Finite(x), Finite(y)) => x < y
    case (Finite(_), PosInf) => true
    case (NegInf, Finite(_)) => true
    case (NegInf, PosInf) => true
    case (_, _) => false
  }

  function Divide(n: int, d: int): Rate {
    if d != 0 then Finite(n as real / d as real)
    else if n > 0 then PosInf
    else if n < 0 then NegInf
    else NaN
  }

  /** `subtract_window`: both sides add the end's seconds, shifted. */
  function WindowLength(w: MonitorWindow): int {
    (w.end.nanos + w.end.seconds * TWO_32) - (w.start.nanos + w.end.seconds * TWO_32)
  }

  /** `mul_as_percent`: the product is cut towards zero. */
  function MulAsPercent(x: int, percent: int): int {
    if x * percent >= 0 then x * percent / 100 else -(-(x * percent) / 100)
  }

  function Usage(w: MonitorWindow): int { MulAsPercent(WindowLength(w), w.cpu) }

  function TotalLength(ws: seq<MonitorWindow>): int {
    if ws == [] then 0 else TotalLength(ws[..|ws| - 1]) + WindowLength(ws[|ws| - 1])
  }

  function TotalUsage(ws: seq<MonitorWindow>): int {
    if ws == [] then 0 else TotalUsage(ws[..|ws| - 1]) + Usage(ws[|ws| - 1])
  }

  function CpuRate(s: ServerStats): Rate {
    Divide(TotalUsage(s.windows), TotalLength(s.windows))
  }

  /** `needs_scale_out`: only the newest window is looked at. */
  function NeedsScaleOut(s: ServerStats): bool {
    s.windows != [] && s.windows[|s.windows| - 1].cpu > SCALEOUT_THRESHOLD
  }

  // ----- the choice -----

  predicate Covers(listing: seq<Uuid>, stats: StatsMap) {
    forall k :: k in listing ==> k in stats
  }

  function RateAt(stats: StatsMap, listing: seq<Uuid>, i: nat): Rate
    requires Covers(listing, stats) && i < |listing|
  {
    assert listing[i] in listing;
    CpuRate(stats[listing[i]])
  }

  /** Position and rate of the best candidate among the first n, when a candidate must be below 0 to
      replace the first one. */
  function BestOf(stats: StatsMap, listing: seq<Uuid>, n: nat): (r: (nat, Rate))
    requires Covers(listing, stats) && n <= |listing|
    ensures r.0 < n || r == (0, ZERO)
  {
    if n == 0 then (0, ZERO)
    else
      var best := BestOf(stats, listing, n - 1);
      var rate := RateAt(stats, listing, n - 1);
      if Less(rate, best.1) then (n - 1, rate) else best
  }

  function ChosenIndex(stats: StatsMap, listing: seq<Uuid>): (i: nat)
    requires Covers(listing, stats) && listing != []
    ensures i < |listing|
  {
    BestOf(stats, listing, |listing|).0
  }

  /** `schedule`, for one order in which the statistics are walked. */
  function Choice(stats: StatsMap, listing: seq<Uuid>): Option<ServerInfo>
    requires Covers(listing, stats)
  {
    if listing == [] then None
    else
      assert listing[ChosenIndex(stats, listing)] in listing;
      Some(stats[listing[ChosenIndex(stats, listing)]].server)
  }

  method Schedule(stats: StatsMap, listing: seq<Uuid>) returns (r: Option<ServerInfo>)
    requires IsListing(listing, stats.Keys)
    ensures r == Choice(stats, listing)
    ensures r == None <==> stats == map[]
    ensures listing != [] ==> exists i ::
      0 <= i < |listing| && Chosen(Loads(stats, listing), i) && listing[i] in stats
      && r == Some(stats[listing[i]].server)
  {
    if listing == [] {
      assert stats.Keys == {};
      return None;
    }
    assert listing[0] in stats;
    var leastUtilized := stats[listing[0]];
    var leastRate := ZERO;
    for n := 0 to |listing|
      invariant leastUtilized == stats[listing[BestOf(stats, listing, n).0]]
      invariant leastRate == BestOf(stats, listing, n).1
    {
      var rate := CpuRate(stats[listing[n]]);
      if Less(rate, leastRate) {
        leastUtilized, leastRate := stats[listing[n]], rate;
      }
    }
    ChoiceByLoad(stats, listing);
    assert listing[ChosenIndex(stats, listing)] in listing;
    return Some(leastUtilized.server);
  }

  ghost predicate SomeBelowZero(stats: StatsMap, listing: seq<Uuid>, n: nat)
    requires Covers(listing, stats) && n <= |listing|
  {
    exists j: nat :: j < n && Less(RateAt(stats, listing, j), ZERO)
  }

  lemma {:induction false} BestOfIsLeast(stats: StatsMap, listing: seq<Uuid>, n: nat)
    requires Covers(listing, stats) && n <= |listing|
    ensures var best := BestOf(stats, listing, n);
            if SomeBelowZero(stats, listing, n) then
              && best.0 < n && best.1 == RateAt(stats, listing, best.0) && Less(best.1, ZERO)
              && (forall j: nat :: j < n ==> !Less(RateAt(stats, listing, j), best.1))
              && (forall j: nat :: j < best.0 ==> RateAt(stats, listing, j) != best.1)
            else best == (0, ZERO)
  {
    if n > 0 {
      BestOfIsLeast(stats, listing, n - 1);
      var below := SomeBelowZero(stats, listing, n - 1);
      var rate := RateAt(stats, listing, n - 1);
      if Less(rate, BestOf(stats, listing, n - 1).1) {
        assert SomeBelowZero(stats, listing, n);
      } else if below {
        var j: nat :| j < n - 1 && Less(RateAt(stats, listing, j), ZERO);
        assert j < n;
        assert SomeBelowZero(stats, listing, n);
      } else {
        assert !SomeBelowZero(stats, listing, n);
      }
    }
  }

  // ----- the rates -----

  /** Windows a well-behaved monitor reports. */
  ghost predicate Measured(ws: seq<MonitorWindow>) {
    forall i :: 0 <= i < |ws| ==> WindowLength(ws[i]) >= 0 && 0 <= ws[i].cpu <= 100
  }

  /** A hundred times the time the processors were busy. */
  function WeightedLength(ws: seq<MonitorWindow>): int {
    if ws == [] then 0
    else WeightedLength(ws[..|ws| - 1]) + WindowLength(ws[|ws| - 1]) * ws[|ws| - 1].cpu
  }

  const SECOND := 1_000_000_000

  /** The time that really passed in a window. */
  function Elapsed(w: MonitorWindow): int {
    SECOND * (w.end.seconds - w.start.seconds) + w.end.nanos - w.start.nanos
  }

  /** A window's length misses the whole seconds, so it is the time that passed if and only if the window ends
      in the second in which it began. */
  lemma LengthMissesSeconds(w: MonitorWindow)
    ensures WindowLength(w) == Elapsed(w) - SECOND * (w.end.seconds - w.start.seconds)
    ensures WindowLength(w) == Elapsed(w) <==> w.end.seconds == w.start.seconds
  {
  }

  /** Cutting towards zero: the percentage of any number, with its sign, and less than one away from it. */
  lemma PercentCut(x: int, percent: int)
    ensures var r, exact := MulAsPercent(x, percent), x * percent;
            if exact >= 0 then 0 <= 100 * r <= exact < 100 * r + 100
            else 100 * r - 100 < exact <= 100 * r <= 0
  {
  }

  /** Lengths and usages add up over the windows. */
  lemma {:induction false} TotalsAdd(v: seq<MonitorWindow>, w: seq<MonitorWindow>)
    ensures TotalLength(v + w) == TotalLength(v) + TotalLength(w)
    ensures TotalUsage(v + w) == TotalUsage(v) + TotalUsage(w)
  {
    if w == [] {
      assert v + w == v;
    } else {
      TotalsAdd(v, w[..|w| - 1]);
      assert (v + w)[..|v + w| - 1] == v + w[..|w| - 1];
    }
  }

  lemma TotalsOfOne(w: MonitorWindow)
    ensures TotalLength([w]) == WindowLength(w) && TotalUsage([w]) == Usage(w)
  {
    assert [w][..0] == [];
  }

  /** Whatever the windows, cutting each loses less than one nanosecond per window. */
  lemma {:induction false} TotalUsageNear(ws: seq<MonitorWindow>)
    ensures -99 * |ws| <= WeightedLength(ws) - 100 * TotalUsage(ws) <= 99 * |ws|
  {
    if ws != [] {
      TotalUsageNear(ws[..|ws| - 1]);
      var w := ws[|ws| - 1];
      PercentCut(WindowLength(w), w.cpu);
    }
  }

  lemma UsageBounds(w: MonitorWindow)
    requires WindowLength(w) >= 0 && 0 <= w.cpu <= 100
    ensures 0 <= Usage(w) <= WindowLength(w)
    ensures 100 * Usage(w) <= WindowLength(w) * w.cpu < 100 * Usage(w) + 100
  {
    var x, p := WindowLength(w), w.cpu;
    assert 0 <= x * p <= x * 100;
  }

  /** Cutting each window loses less than one nanosecond per window, and the sum stays within the total. */
  lemma {:induction false} TotalUsageBounds(ws: seq<MonitorWindow>)
    requires Measured(ws)
    ensures 0 <= TotalUsage(ws) <= TotalLength(ws)
    ensures 100 * TotalUsage(ws) <= WeightedLength(ws) <= 100 * TotalUsage(ws) + 99 * |ws|
  {
    if ws != [] {
      TotalUsageBounds(ws[..|ws| - 1]);
      UsageBounds(ws[|ws| - 1]);
    }
  }

  lemma MeasuredRate(s: ServerStats)
    requires Measured(s.windows)
    ensures if TotalLength(s.windows) == 0 then CpuRate(s) == NaN
            else CpuRate(s).Finite? && 0.0 <= CpuRate(s).value <= 1.0
  {
    TotalUsageBounds(s.windows);
    var u, t := TotalUsage(s.windows) as real, TotalLength(s.windows) as real;
    if t != 0.0 {
      assert u / t <= t / t;
    }
  }

  // ----- the choice in terms of the windows -----

  /** Usage over length, where there is a length. */
  function Quotient(ws: seq<MonitorWindow>): real
    requires TotalLength(ws) != 0
  {
    TotalUsage(ws) as real / TotalLength(ws) as real
  }

  /** The rate of v is less than that of w: between two quotients as numbers; where a length is 0, a positive
      usage counts as plus infinity, a negative one as minus infinity, and no usage compares with nothing. */
  predicate RateBelow(v: seq<MonitorWindow>, w: seq<MonitorWindow>) {
    if TotalLength(v) != 0 && TotalLength(w) != 0 then Quotient(v) < Quotient(w)
    else if TotalLength(v) != 0 then TotalUsage(w) > 0
    else if TotalLength(w) != 0 then TotalUsage(v) < 0
    else TotalUsage(v) < 0 && TotalUsage(w) > 0
  }

  /** The comparison that the loop makes is that one. */
  lemma LessMeans(v: ServerStats, w: ServerStats)
    ensures Less(CpuRate(v), CpuRate(w)) <==> RateBelow(v.windows, w.windows)
  {
  }

  /** The sums have opposite signs, or the usage is negative and the total is 0. */
  predicate Opposed(ws: seq<MonitorWindow>) {
    var u, t := TotalUsage(ws), TotalLength(ws);
    (u > 0 && t < 0) || (u < 0 && t >= 0)
  }

  lemma SignOfQuotient(u: real, t: real)
    requires t != 0.0
    ensures u / t < 0.0 <==> (u > 0.0 && t < 0.0) || (u < 0.0 && t > 0.0)
  {
    var q := u / t;
    assert q * t == u;
    if q < 0.0 {
      assert if t > 0.0 then q * t < 0.0 else q * t > 0.0;
    } else {
      assert if t > 0.0 then q * t >= 0.0 else q * t <= 0.0;
    }
  }

  /** A rate is below 0 if and only if the sums are so. */
  lemma BelowZeroIff(s: ServerStats)
    ensures Less(CpuRate(s), ZERO) <==> Opposed(s.windows)
  {
    var u, t := TotalUsage(s.windows), TotalLength(s.windows);
    if t != 0 {
      SignOfQuotient(u as real, t as real);
    }
  }

  /** What each listed server has reported. */
  function Loads(stats: StatsMap, listing: seq<Uuid>): (loads: seq<seq<MonitorWindow>>)
    requires Covers(listing, stats)
    ensures |loads| == |listing|
  {
    seq(|listing|, i requires 0 <= i < |listing| => assert listing[i] in listing; stats[listing[i]].windows)
  }

  /** The position that load decides: if the sums of some server are opposed, the first one among those with
      the least rate; if those of none are, the first one listed, whatever its load. */
  ghost predicate Chosen(loads: seq<seq<MonitorWindow>>, i: nat)
    requires i < |loads|
  {
    if exists j :: 0 <= j < |loads| && Opposed(loads[j]) then
      && Opposed(loads[i])
      && (forall j :: 0 <= j < |loads| ==> !RateBelow(loads[j], loads[i]))
      && (forall j :: 0 <= j < i && Opposed(loads[j]) ==> RateBelow(loads[i], loads[j]))
    else i == 0
  }

  /** It is one position only. */
  lemma ChosenOnce(loads: seq<seq<MonitorWindow>>, i: nat, j: nat)
    requires i < |loads| && j < |loads| && Chosen(loads, i) && Chosen(loads, j)
    ensures i == j
  {
  }

  lemma LoadAt(stats: StatsMap, listing: seq<Uuid>, i: nat)
    requires Covers(listing, stats) && i < |listing|
    ensures Less(RateAt(stats, listing, i), ZERO) <==> Opposed(Loads(stats, listing)[i])
    ensures RateAt(stats, listing, i) == NaN ==> !Opposed(Loads(stats, listing)[i])
  {
    assert listing[i] in listing;
    BelowZeroIff(stats[listing[i]]);
  }

  lemma LoadsCompared(stats: StatsMap, listing: seq<Uuid>, i: nat, j: nat)
    requires Covers(listing, stats) && i < |listing| && j < |listing|
    ensures Less(RateAt(stats, listing, i), RateAt(stats, listing, j)) <==>
            RateBelow(Loads(stats, listing)[i], Loads(stats, listing)[j])
  {
    assert listing[i] in listing && listing[j] in listing;
    LessMeans(stats[listing[i]], stats[listing[j]]);
  }

  lemma BelowZeroTotal(a: Rate, b: Rate)
    requires Less(a, ZERO) && Less(b, ZERO)
    ensures Less(a, b) || Less(b, a) || a == b
  {
  }

  /** In any order of the statistics, the server at that position is chosen. */
  lemma ChoiceByLoad(stats: StatsMap, listing: seq<Uuid>)
    requires Covers(listing, stats) && listing != []
    ensures Chosen(Loads(stats, listing), ChosenIndex(stats, listing))
  {
    var loads, i := Loads(stats, listing), ChosenIndex(stats, listing);
    forall j: nat | j < |listing|
      ensures Less(RateAt(stats, listing, j), ZERO) <==> Opposed(loads[j])
      ensures Less(RateAt(stats, listing, j), RateAt(stats, listing, i)) <==> RateBelow(loads[j], loads[i])
      ensures Less(RateAt(stats, listing, i), RateAt(stats, listing, j)) <==> RateBelow(loads[i], loads[j])
    {
      LoadAt(stats, listing, j);
      LoadsCompared(stats, listing, j, i);
      LoadsCompared(stats, listing, i, j);
    }
    BestOfIsLeast(stats, listing, |listing|);
    if SomeBelowZero(stats, listing, |listing|) {
      var q: nat :| q < |listing| && Less(RateAt(stats, listing, q), ZERO);
      assert Opposed(loads[q]);
      forall j | 0 <= j < i && Opposed(loads[j]) ensures RateBelow(loads[i], loads[j]) {
        BelowZeroTotal(RateAt(stats, listing, j), RateAt(stats, listing, i));
      }
    } else {
      forall j | 0 <= j < |loads| ensures !Opposed(loads[j]) {
        LoadAt(stats, listing, j);
      }
    }
  }

  ghost predicate Undercut(loads: seq<seq<MonitorWindow>>, i: nat)
    requires i < |loads|
  {
    exists j :: 0 <= j < |loads| && RateBelow(loads[j], loads[i])
  }

  ghost predicate SomeOpposed(loads: seq<seq<MonitorWindow>>) {
    exists j :: 0 <= j < |loads| && Opposed(loads[j])
  }

  /** The choice is a least utilised server if and only if the sums of some server are opposed or the first
      server listed happens to be least utilised. */
  lemma ChoiceIsLeastIff(stats: StatsMap, listing: seq<Uuid>)
    requires Covers(listing, stats) && listing != []
    ensures var loads := Loads(stats, listing);
            !Undercut(loads, ChosenIndex(stats, listing)) <==> SomeOpposed(loads) || !Undercut(loads, 0)
  {
    ChoiceByLoad(stats, listing);
  }

  /** Percentages between 0 and 100 do not rule that out: the seconds cancel, so a window that crosses into
      the next second can measure negative. Of two servers, the second listed is chosen for such a window. */
  lemma CrossingWindowChosen(a: ServerInfo, b: ServerInfo)
    requires a.id != b.id
    ensures var idle := MonitorWindow(Timestamp(0, 0), Timestamp(0, 1000), 0, 0);
            var busy := MonitorWindow(Timestamp(0, 900), Timestamp(1, 400), 100, 0);
            var stats := map[a.id := ServerStats(a, []), b.id := ServerStats(b, [idle, busy])];
            Choice(stats, [a.id, b.id]) == Some(b)
  {
    var idle := MonitorWindow(Timestamp(0, 0), Timestamp(0, 1000), 0, 0);
    var busy := MonitorWindow(Timestamp(0, 900), Timestamp(1, 400), 100, 0);
    var stats := map[a.id := ServerStats(a, []), b.id := ServerStats(b, [idle, busy])];
    TotalsOfTwo(idle, busy);
    var listing := [a.id, b.id];
    assert listing[0] == a.id && listing[1] == b.id;
    var loads := Loads(stats, listing);
    assert loads[0] == [] && loads[1] == [idle, busy];
    assert Opposed(loads[1]) && !Opposed(loads[0]);
    ChoiceByLoad(stats, listing);
  }

  lemma TotalsOfTwo(v: MonitorWindow, w: MonitorWindow)
    ensures TotalLength([v, w]) == WindowLength(v) + WindowLength(w)
    ensures TotalUsage([v, w]) == Usage(v) + Usage(w)
  {
    assert [v, w] == [v] + [w];
    TotalsAdd([v], [w]);
    TotalsOfOne(v);
    TotalsOfOne(w);
  }

  /** With percentages between 0 and 100 and no window that measures negative, no rate is ever below zero, so
      load plays no part: the first server listed is taken. */
  lemma MeasuredLoadIsIgnored(stats: StatsMap, listing: seq<Uuid>)
    requires Covers(listing, stats) && listing != []
    requires forall k :: k in listing ==> Measured(stats[k].windows)
    ensures listing[0] in stats && Choice(stats, listing) == Some(stats[listing[0]].server)
  {
    forall j | 0 <= j < |listing| ensures !Opposed(Loads(stats, listing)[j]) {
      assert listing[j] in listing;
      TotalUsageBounds(stats[listing[j]].windows);
    }
    ChoiceByLoad(stats, listing);
    assert listing[0] in listing;
  }

  // ----- the radeontop monitor -----

  /** `datetime_to_prost`: the second within the minute and the nanosecond. */
  function ToProst(seconds: int, nanos: nat): Timestamp { Timestamp(seconds % 60, nanos) }

  const SECOND_PERCENT := 10_000_000

  /** The window made from a radeontop line: one second long, processor share unknown. A time within a leap
      second has more than a second's nanoseconds, and adding a second leaves the leap second. */
  function RadeonWindow(seconds: int, nanos: nat, gpu: int): MonitorWindow {
    MonitorWindow(ToProst(seconds, nanos),
                  ToProst(seconds + 1, if nanos >= SECOND then nanos - SECOND else nanos), -1, gpu)
  }

  ghost predicate IsRadeonWindow(w: MonitorWindow) {
    exists s, n, g :: w == RadeonWindow(s, n, g)
  }

  ghost predicate FromRadeon(ws: seq<MonitorWindow>) {
    forall i :: 0 <= i < |ws| ==> IsRadeonWindow(ws[i])
  }

  /** How many windows begin within a leap second. */
  function Leaps(ws: seq<MonitorWindow>): nat {
    if ws == [] then 0
    else Leaps(ws[..|ws| - 1]) + if ws[|ws| - 1].start.nanos >= SECOND then 1 else 0
  }

  lemma RadeonMeasures(w: MonitorWindow)
    requires IsRadeonWindow(w)
    ensures if w.start.nanos >= SECOND then WindowLength(w) == -SECOND && Usage(w) == SECOND_PERCENT
            else WindowLength(w) == 0 && Usage(w) == 0
  {
  }

  /** Radeontop's windows measure as zero, except that each one that begins within a leap second measures as
      minus one second, with ten milliseconds in use. */
  lemma {:induction false} RadeonTotals(ws: seq<MonitorWindow>)
    requires FromRadeon(ws)
    ensures TotalLength(ws) == -SECOND * Leaps(ws) && TotalUsage(ws) == SECOND_PERCENT * Leaps(ws)
  {
    if ws != [] {
      RadeonTotals(ws[..|ws| - 1]);
      RadeonMeasures(ws[|ws| - 1]);
    }
  }

  const LEAP_RATE := Finite(-0.01)

  lemma QuotientOf(n: real, d: real, q: real)
    requires d != 0.0 && n == q * d
    ensures n / d == q
  {
  }

  lemma RadeonRate(s: ServerStats)
    requires FromRadeon(s.windows)
    ensures CpuRate(s) == if Leaps(s.windows) > 0 then LEAP_RATE else NaN
  {
    RadeonTotals(s.windows);
    var k := Leaps(s.windows);
    if k > 0 {
      QuotientOf((SECOND_PERCENT * k) as real, (-SECOND * k) as real, -0.01);
    }
  }

  ghost predicate HasLeap(stats: StatsMap, listing: seq<Uuid>, i: nat)
    requires Covers(listing, stats) && i < |listing|
  {
    assert listing[i] in listing;
    Leaps(stats[listing[i]].windows) > 0
  }

  /** With windows from radeontop the load plays no part either: the first server listed that ever began a
      window within a leap second is taken, and the first server listed when none did. */
  lemma RadeonChoice(stats: StatsMap, listing: seq<Uuid>)
    requires Covers(listing, stats) && listing != []
    requires forall k :: k in listing ==> FromRadeon(stats[k].windows)
    ensures var i := ChosenIndex(stats, listing);
            if exists j: nat :: j < |listing| && HasLeap(stats, listing, j)
            then HasLeap(stats, listing, i) && forall j: nat :: j < i ==> !HasLeap(stats, listing, j)
            else i == 0
  {
    forall j: nat | j < |listing|
      ensures RateAt(stats, listing, j) == if HasLeap(stats, listing, j) then LEAP_RATE else NaN
      ensures Less(RateAt(stats, listing, j), ZERO) <==> HasLeap(stats, listing, j)
    {
      assert listing[j] in listing;
      RadeonRate(stats[listing[j]]);
    }
    BestOfIsLeast(stats, listing, |listing|);
    if j: nat :| j < |listing| && HasLeap(stats, listing, j) {
      assert Less(RateAt(stats, listing, j), ZERO);
      assert SomeBelowZero(stats, listing, |listing|);
    }
  }
}
