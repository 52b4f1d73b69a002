/** Runs in which the elections agree, runs in which they do not, and runs that leave nobody in charge. */
module ElectionRuns {
  import opened Wrappers
  import opened Identifiers
  import opened Entities
  import opened ClusterDiff
  import opened Clusters
  import opened SchedulerRuns
  import opened SchedulerInvariants
  import opened Failover
  import opened Elections

  lemma Extend(s: System, es: seq<Event>, e: Event)
    requires IsRun(s, es) && Enabled(After(s, es), e)
    ensures IsRun(s, es + [e]) && After(s, es + [e]) == Apply(After(s, es), e)
    ensures Joined(es + [e]) == Joined(es) + JoinOf(e)
    ensures IsEpoch(s, es) && (e.PushServer? ==>
              forall t :: t in After(s, es).cluster.servers ==> t.id != e.info.id)
            ==> IsEpoch(s, es + [e])
  {
    assert (es + [e])[..|es|] == es;
  }

  // ----- joining, starting, being told -----

  /** A server that has joined and whose service has started a reporter. */
  ghost function Welcomed(s: System, info: ServerInfo, r: nat): System {
    s.(cluster := WithServer(s.cluster, info),
       members := s.members[info.id := Member(info, Some(s.cluster.group))],
       reporters := s.reporters[r := Reporter(info, None, None, [])])
  }

  /** The present state as a reporter caches it when it hears of nothing before it. */
  ghost function Told(s: System, info: ServerInfo, listing: seq<Uuid>): Reporter
    requires forall k :: k in listing ==> k in s.cluster.instances
  {
    var w := Some(ClusterToWire(s.cluster, listing));
    Reporter(info, None, w, [w])
  }

  /** A reporter r that has reported without windows and cached what it was told. */
  ghost function Informed(s: System, info: ServerInfo, r: nat, listing: seq<Uuid>): System
    requires forall k :: k in listing ==> k in s.cluster.instances
  {
    s.(cluster := WithStats(s.cluster, ServerStats(info, [])),
       reporters := s.reporters[r := Told(s, info, listing)])
  }

  lemma JoinAcknowledgeStart(s: System, info: ServerInfo, r: nat)
    requires r !in s.reporters
    ensures Enabled(Apply(s, PushServer(info)), AcknowledgeJoin(info.id))
    ensures var s2 := Apply(Apply(s, PushServer(info)), AcknowledgeJoin(info.id));
            Enabled(s2, StartReporter(r, info.id)) && Apply(s2, StartReporter(r, info.id)) == Welcomed(s, info, r)
  {
    var s2 := Apply(Apply(s, PushServer(info)), AcknowledgeJoin(info.id));
    assert s2.members == Welcomed(s, info, r).members;
  }

  lemma Welcome(s: System, es: seq<Event>, info: ServerInfo, r: nat) returns (longer: seq<Event>)
    requires IsRun(s, es) && IsEpoch(s, es) && r !in After(s, es).reporters
    requires forall t :: t in After(s, es).cluster.servers ==> t.id != info.id
    ensures IsRun(s, longer) && IsEpoch(s, longer)
    ensures After(s, longer) == Welcomed(After(s, es), info, r)
  {
    JoinAcknowledgeStart(After(s, es), info, r);
    Extend(s, es, PushServer(info));
    longer := es + [PushServer(info)];
    Extend(s, longer, AcknowledgeJoin(info.id));
    longer := longer + [AcknowledgeJoin(info.id)];
    Extend(s, longer, StartReporter(r, info.id));
    longer := longer + [StartReporter(r, info.id)];
  }

  lemma ReportAndDeliver(s: System, info: ServerInfo, r: nat, listing: seq<Uuid>)
    requires IsListing(listing, s.cluster.instances.Keys)
    requires r in s.reporters && s.reporters[r] == Reporter(info, None, None, [])
    ensures Enabled(s, Report(r, info, [], listing))
    ensures Enabled(Apply(s, Report(r, info, [], listing)), Deliver(r))
    ensures Apply(Apply(s, Report(r, info, [], listing)), Deliver(r)) == Informed(s, info, r, listing)
  {
    var now := Apply(Apply(s, Report(r, info, [], listing)), Deliver(r));
    assert now.reporters[r] == Told(s, info, listing);
    assert now.reporters == Informed(s, info, r, listing).reporters;
  }

  lemma Inform(s: System, es: seq<Event>, info: ServerInfo, r: nat, listing: seq<Uuid>)
    returns (longer: seq<Event>)
    requires IsRun(s, es) && IsListing(listing, After(s, es).cluster.instances.Keys)
    requires r in After(s, es).reporters && After(s, es).reporters[r] == Reporter(info, None, None, [])
    ensures IsRun(s, longer) && Joined(longer) == Joined(es)
    ensures IsEpoch(s, es) ==> IsEpoch(s, longer)
    ensures After(s, longer) == Informed(After(s, es), info, r, listing)
  {
    ReportAndDeliver(After(s, es), info, r, listing);
    Extend(s, es, Report(r, info, [], listing));
    longer := es + [Report(r, info, [], listing)];
    Extend(s, longer, Deliver(r));
    longer := longer + [Deliver(r)];
  }

  /** The reporter that the service of a member starts once its join has been answered. */
  ghost function Started(s: System, id: Uuid, r: nat): System
    requires id in s.members
  {
    s.(members := s.members[id := s.members[id].(group := Some(s.cluster.group))],
       reporters := s.reporters[r := Reporter(s.members[id].info, None, None, [])])
  }

  /** A member is answered, starts a reporter, reports and is told. */
  lemma Tell(s: System, es: seq<Event>, id: Uuid, r: nat, listing: seq<Uuid>) returns (longer: seq<Event>)
    requires IsRun(s, es) && IsListing(listing, After(s, es).cluster.instances.Keys)
    requires id in After(s, es).members && r !in After(s, es).reporters
    ensures IsRun(s, longer) && Joined(longer) == Joined(es)
    ensures After(s, longer)
         == Informed(Started(After(s, es), id, r), After(s, es).members[id].info, r, listing)
  {
    Extend(s, es, AcknowledgeJoin(id));
    var mid := es + [AcknowledgeJoin(id)];
    Extend(s, mid, StartReporter(r, id));
    mid := mid + [StartReporter(r, id)];
    longer := Inform(s, mid, After(s, es).members[id].info, r, listing);
  }

  // ----- all have joined, and some have been told -----

  ghost predicate HasToldReporter(s: System, info: ServerInfo, r: nat)
    requires s.cluster.instances == map[]
  {
    r in s.reporters && s.reporters[r] == Told(s, info, [])
  }

  ghost predicate HasNewReporter(s: System, info: ServerInfo, r: nat) {
    r in s.reporters && s.reporters[r] == Reporter(info, None, None, [])
  }

  /** The founder a and the others have joined, each with one reporter, under the number of its place; those
      of the first m have cached the present state. */
  ghost predicate Gathered(s: System, a: ServerInfo, others: seq<ServerInfo>, m: nat) {
    && s.cluster.servers == [a] + others && s.cluster.group == GroupInfo(0, a)
    && s.cluster.instances == map[]
    && (forall r :: r in s.reporters ==> r < |others|)
    && (forall r :: 0 <= r < m && r < |others| ==> HasToldReporter(s, others[r], r))
    && (forall r :: m <= r < |others| ==> HasNewReporter(s, others[r], r))
  }

  lemma LastDiffers(a: ServerInfo, others: seq<ServerInfo>, info: ServerInfo)
    requires Distinct([a] + (others + [info]))
    ensures a.id != info.id && forall i :: 0 <= i < |others| ==> others[i].id != info.id
  {
    var all := [a] + (others + [info]);
    assert all[0] == a && all[|others| + 1] == info;
    forall i | 0 <= i < |others| ensures others[i].id != info.id {
      assert all[i + 1] == others[i];
    }
  }

  lemma WelcomedGathers(s: System, a: ServerInfo, others: seq<ServerInfo>, info: ServerInfo)
    requires Gathered(s, a, others, 0) && Distinct([a] + (others + [info]))
    ensures Gathered(Welcomed(s, info, |others|), a, others + [info], 0)
    ensures forall t :: t in s.cluster.servers ==> t.id != info.id
  {
    var now, all := Welcomed(s, info, |others|), others + [info];
    LastDiffers(a, others, info);
    assert ([a] + others) + [info] == [a] + all;
    forall r | 0 <= r < |all| ensures HasNewReporter(now, all[r], r) {
      assert r < |others| ==> HasNewReporter(s, others[r], r);
    }
  }

  lemma InformedGathers(s: System, a: ServerInfo, others: seq<ServerInfo>, m: nat)
    requires m < |others| && Gathered(s, a, others, m)
    ensures Gathered(Informed(s, others[m], m, []), a, others, m + 1)
  {
    var now := Informed(s, others[m], m, []);
    forall r | 0 <= r < m + 1 ensures HasToldReporter(now, others[r], r) {
      assert r < m ==> HasToldReporter(s, others[r], r);
    }
    forall r | m + 1 <= r < |others| ensures HasNewReporter(now, others[r], r) {
      assert HasNewReporter(s, others[r], r);
    }
  }

  lemma {:induction false} AllJoin(a: ServerInfo, others: seq<ServerInfo>) returns (es: seq<Event>)
    requires Distinct([a] + others)
    ensures IsRun(StartFresh(a), es) && IsEpoch(StartFresh(a), es)
    ensures Gathered(After(StartFresh(a), es), a, others, 0)
  {
    if others == [] {
      es := [];
    } else {
      var front, last := others[..|others| - 1], others[|others| - 1];
      assert others == front + [last];
      assert [a] + front == ([a] + others)[..|others|];
      var before := AllJoin(a, front);
      WelcomedGathers(After(StartFresh(a), before), a, front, last);
      es := Welcome(StartFresh(a), before, last, |front|);
    }
  }

  lemma {:induction false} SomeReport(a: ServerInfo, others: seq<ServerInfo>, m: nat) returns (es: seq<Event>)
    requires Distinct([a] + others) && m <= |others|
    ensures IsRun(StartFresh(a), es) && IsEpoch(StartFresh(a), es)
    ensures Gathered(After(StartFresh(a), es), a, others, m)
  {
    if m == 0 {
      es := AllJoin(a, others);
    } else {
      var before := SomeReport(a, others, m - 1);
      InformedGathers(After(StartFresh(a), before), a, others, m - 1);
      assert HasNewReporter(After(StartFresh(a), before), others[m - 1], m - 1);
      es := Inform(StartFresh(a), before, others[m - 1], m - 1, []);
    }
  }

  /** Who is who in such a state. */
  lemma GatheredReporters(s: System, a: ServerInfo, others: seq<ServerInfo>, m: nat)
    requires Distinct([a] + others) && m <= |others| && Gathered(s, a, others, m)
    ensures forall r: nat :: r < |others| ==>
      && Alive(s, r) && Of(s, r) == others[r] && Survivor(s, others[r])
      && (HasCache(s, r) <==> r < m)
    ensures forall r :: r in s.reporters ==> r < |others|
    ensures IsListing([], s.cluster.instances.Keys)
    ensures forall r :: Ready(s, r) ==> Current(s, r, [])
  {
    DiffersFromItself(ClusterToWire(s.cluster, []));
    forall r: nat | r < |others|
      ensures Alive(s, r) && Of(s, r) == others[r] && Survivor(s, others[r])
      ensures HasCache(s, r) <==> r < m
      ensures Ready(s, r) ==> Current(s, r, [])
    {
      assert ([a] + others)[0] == a && ([a] + others)[r + 1] == others[r];
      assert if r < m then HasToldReporter(s, others[r], r) else HasNewReporter(s, others[r], r);
    }
  }

  ghost predicate LowestAt(others: seq<ServerInfo>, low: nat) {
    low < |others| && forall i :: 0 <= i < |others| ==> others[low].id <= others[i].id
  }

  lemma LowestWins(a: ServerInfo, others: seq<ServerInfo>, low: nat)
    requires Distinct([a] + others) && LowestAt(others, low)
    ensures RemoveFirst([a] + others, a.id) != [] && Winner([a] + others, a.id) == others[low]
  {
    var all := [a] + others;
    assert all[0] == a && all[low + 1] == others[low];
    WinnerUnique(all, a.id, others[low]);
    forall u | u in all && u.id != a.id ensures others[low].id <= u.id {
      var i :| 0 <= i < |all| && all[i] == u;
      assert u == others[i - 1];
    }
  }

  lemma OthersDiffer(a: ServerInfo, others: seq<ServerInfo>, i: nat, j: nat)
    requires Distinct([a] + others) && i < |others| && j < |others| && i != j
    ensures others[i].id != others[j].id
  {
    assert ([a] + others)[i + 1] == others[i] && ([a] + others)[j + 1] == others[j];
  }

  /** Both outcomes happen, in clusters of every size: all others have joined a, the first m of them have
      been told of the present state, and a is lost. If the lowest is among those m, it takes over and all
      others who can elect join it. If it is not, nobody becomes scheduler: the m send a join to a server
      whose reporter has ended with an error, as those of the rest have. */
  lemma GatheredOutcome(a: ServerInfo, others: seq<ServerInfo>, m: nat, low: nat) returns (es: seq<Event>)
    requires Distinct([a] + others) && m <= |others| && LowestAt(others, low)
    ensures IsRun(StartFresh(a), es) && IsEpoch(StartFresh(a), es)
    ensures var s := After(StartFresh(a), es);
            EpochInv(s) && Gathered(s, a, others, m) && Outcome(s, others, m, low)
  {
    es := SomeReport(a, others, m);
    EpochKeeps(a, es);
    OutcomeOf(After(StartFresh(a), es), a, others, m, low);
  }

  ghost predicate CommandAt(s: System, others: seq<ServerInfo>, m: nat, low: nat, r: nat)
    requires low < |others|
  {
    && r in s.reporters
    && Command(s, r) == if r < m then Success(Update(Joining(others[low].addr))) else Failure(NothingCached)
  }

  ghost predicate Outcome(s: System, others: seq<ServerInfo>, m: nat, low: nat)
    requires low < |others|
  {
    if low < m then HandedOver(s, others[low])
    else
      && (forall t :: !IsSuccessor(s, t))
      && (forall r: nat :: r < |others| ==> CommandAt(s, others, m, low, r))
  }

  lemma LowTakesOver(s: System, a: ServerInfo, others: seq<ServerInfo>, m: nat, low: nat)
    requires Distinct([a] + others) && low < m <= |others| && Gathered(s, a, others, m)
    requires EpochInv(s) && LowestAt(others, low)
    ensures HandedOver(s, others[low])
  {
    GatheredReporters(s, a, others, m);
    LowestWins(a, others, low);
    assert ReadyFor(s, low, others[low]);
    CurrentHandedOverIff(s, [], others[low]);
  }

  lemma JoinsTheUntold(s: System, a: ServerInfo, others: seq<ServerInfo>, m: nat, low: nat, r: nat)
    requires Distinct([a] + others) && m <= low && r < |others| && m <= |others| && Gathered(s, a, others, m)
    requires EpochInv(s) && LowestAt(others, low)
    ensures CommandAt(s, others, m, low, r)
  {
    GatheredReporters(s, a, others, m);
    if r < m {
      LowestWins(a, others, low);
      OthersDiffer(a, others, r, low);
      CurrentFollower(s, r, others[low]);
    } else {
      ReporterClaimsIff(s, r);
    }
  }

  lemma NoneClaims(s: System, others: seq<ServerInfo>, m: nat, low: nat)
    requires low < |others| && forall r :: r in s.reporters ==> r < |others|
    requires forall r: nat :: r < |others| ==> CommandAt(s, others, m, low, r)
    ensures forall t :: !IsSuccessor(s, t)
  {
    forall r | r in s.reporters ensures !Claims(s, r) {
      assert CommandAt(s, others, m, low, r);
    }
  }

  lemma OutcomeOf(s: System, a: ServerInfo, others: seq<ServerInfo>, m: nat, low: nat)
    requires Distinct([a] + others) && m <= |others| && Gathered(s, a, others, m)
    requires EpochInv(s) && LowestAt(others, low)
    ensures Outcome(s, others, m, low)
  {
    if low < m {
      LowTakesOver(s, a, others, m, low);
    } else {
      forall r: nat | r < |others| ensures CommandAt(s, others, m, low, r) {
        JoinsTheUntold(s, a, others, m, low, r);
      }
      NoneClaims(s, others, m, low);
    }
  }

  lemma CurrentFollower(s: System, r: nat, leader: ServerInfo)
    requires EpochInv(s) && Ready(s, r) && IsListing([], s.cluster.instances.Keys) && Current(s, r, [])
    requires RemoveFirst(s.cluster.servers, Lost(s)) != [] && leader == Leader(s) && Of(s, r).id != leader.id
    ensures Command(s, r) == Success(Update(Joining(leader.addr)))
  {
    FailoverAgreement(s, [], r);
  }

  lemma {:induction false} LowestExists(others: seq<ServerInfo>) returns (low: nat)
    requires others != []
    ensures LowestAt(others, low)
  {
    var n := |others| - 1;
    if n == 0 {
      low := 0;
    } else {
      low := LowestExists(others[..n]);
      assert forall i :: 0 <= i < n ==> others[..n][i] == others[i];
      if others[n].id < others[low].id {
        low := n;
      }
    }
  }

  /** Agreement happens, in clusters of every size: once all others have reported after the last join,
      no cache differs from the present state, and the lowest of them takes over with all others. */
  lemma AgreementHappens(a: ServerInfo, others: seq<ServerInfo>) returns (es: seq<Event>, low: nat)
    requires Distinct([a] + others) && others != []
    ensures IsRun(StartFresh(a), es) && IsEpoch(StartFresh(a), es) && LowestAt(others, low)
    ensures var s := After(StartFresh(a), es);
            && EpochInv(s) && Gathered(s, a, others, |others|) && IsListing([], s.cluster.instances.Keys)
            && (forall r: nat :: r < |others| ==> Ready(s, r) && Of(s, r) == others[r])
            && (forall r :: Ready(s, r) ==> Current(s, r, []))
            && HandedOver(s, others[low])
  {
    low := LowestExists(others);
    es := GatheredOutcome(a, others, |others|, low);
    GatheredReporters(After(StartFresh(a), es), a, others, |others|);
  }

  /** Nobody takes over: whatever three servers there are, if the lower of the two survivors has joined and
      the other one knows it, but no reply has reached it, there is no successor. */
  lemma NobodyHappens(a: ServerInfo, b: ServerInfo, c: ServerInfo) returns (es: seq<Event>)
    requires a.id != b.id && a.id != c.id && c.id < b.id
    ensures IsRun(StartFresh(a), es) && IsEpoch(StartFresh(a), es)
    ensures var s := After(StartFresh(a), es);
            && EpochInv(s) && Gathered(s, a, [b, c], 1) && 0 in s.reporters && 1 in s.reporters
            && Command(s, 0) == Success(Update(Joining(c.addr)))
            && Command(s, 1) == Failure(NothingCached)
            && forall t :: !IsSuccessor(s, t)
  {
    assert [b, c][0] == b && [b, c][1] == c;
    es := GatheredOutcome(a, [b, c], 1, 1);
    OutcomeOfTwo(After(StartFresh(a), es), b, c);
  }

  lemma OutcomeOfTwo(s: System, b: ServerInfo, c: ServerInfo)
    requires Outcome(s, [b, c], 1, 1)
    ensures 0 in s.reporters && Command(s, 0) == Success(Update(Joining(c.addr)))
    ensures 1 in s.reporters && Command(s, 1) == Failure(NothingCached)
    ensures forall t :: !IsSuccessor(s, t)
  {
    assert CommandAt(s, [b, c], 1, 1, 0) && CommandAt(s, [b, c], 1, 1, 1);
  }

  // ----- a split -----

  /** The reporter r of t cached the cluster while its list was `list`. */
  ghost predicate Cached(s: System, r: nat, t: ServerInfo, list: seq<ServerInfo>) {
    && CachedFor(s, r, t) && ClusterFromWire(s.reporters[r].cache.value).Success?
    && Seen(s, r).servers == list
  }

  lemma ToldSees(s: System, a: ServerInfo, others: seq<ServerInfo>, m: nat, r: nat)
    requires m <= |others| && Gathered(s, a, others, m) && r < m
    ensures Cached(s, r, others[r], [a] + others)
  {
    assert HasToldReporter(s, others[r], r);
    ClusterRoundTrip(s.cluster, []);
  }

  lemma RoomForThird(s: System, a: ServerInfo, b: ServerInfo, c: ServerInfo)
    requires Gathered(s, a, [b], 1) && a.id != c.id && b.id != c.id
    ensures 1 !in s.reporters && s.cluster.instances == map[] && s.cluster.servers == [a] + [b]
    ensures s.cluster.group.scheduler == a && forall t :: t in s.cluster.servers ==> t.id != c.id
    ensures Cached(s, 0, b, [a, b])
  {
    ToldSees(s, a, [b], 1, 0);
    assert [a] + [b] == [a, b];
  }

  /** A further server joins and is told, and the others hear nothing of it. */
  lemma LateServer(a: ServerInfo, b: ServerInfo, c: ServerInfo, first: seq<Event>) returns (es: seq<Event>)
    requires Distinct([a] + [b]) && a.id != c.id && b.id != c.id
    requires IsRun(StartFresh(a), first) && IsEpoch(StartFresh(a), first)
    requires Gathered(After(StartFresh(a), first), a, [b], 1)
    ensures IsRun(StartFresh(a), es) && IsEpoch(StartFresh(a), es)
    ensures var s := After(StartFresh(a), es);
            && s.cluster.group.scheduler == a
            && Cached(s, 0, b, [a, b]) && Cached(s, 1, c, [a, b, c])
  {
    var s := After(StartFresh(a), first);
    RoomForThird(s, a, b, c);
    var mid := Welcome(StartFresh(a), first, c, 1);
    es := Inform(StartFresh(a), mid, c, 1, []);
    LateSees(s, a, b, c);
  }

  lemma InformedSees(s: System, info: ServerInfo, r: nat)
    requires s.cluster.instances == map[]
    ensures Cached(Informed(s, info, r, []), r, info, s.cluster.servers)
  {
    ClusterRoundTrip(s.cluster, []);
  }

  lemma KeptSees(s: System, now: System, r: nat, t: ServerInfo, list: seq<ServerInfo>)
    requires Cached(s, r, t, list) && r in now.reporters && now.reporters[r] == s.reporters[r]
    ensures Cached(now, r, t, list)
  {
  }

  lemma LateSees(s: System, a: ServerInfo, b: ServerInfo, c: ServerInfo)
    requires s.cluster.instances == map[] && s.cluster.servers == [a] + [b] && Cached(s, 0, b, [a, b])
    ensures var now := Informed(Welcomed(s, c, 1), c, 1, []);
            Cached(now, 0, b, [a, b]) && Cached(now, 1, c, [a, b, c])
  {
    assert ([a] + [b]) + [c] == [a, b, c];
    InformedSees(Welcomed(s, c, 1), c, 1);
    KeptSees(s, Informed(Welcomed(s, c, 1), c, 1, []), 0, b, [a, b]);
  }

  /** Nobody in the cached list undercuts its owner. */
  lemma ClaimsFromList(s: System, r: nat, t: ServerInfo, list: seq<ServerInfo>)
    requires EpochInv(s) && Cached(s, r, t, list) && t.id != Lost(s)
    requires forall u :: u in list && u.id != Lost(s) ==> t.id <= u.id
    ensures IsSuccessor(s, t)
  {
    ClaimsIff(s, r);
    assert ClaimsFor(s, r, t);
  }

  /** A split happens: whatever three servers there are, if the lower of the two survivors arrives after
      the other one's last report, both become scheduler. */
  lemma SplitHappens(a: ServerInfo, b: ServerInfo, c: ServerInfo) returns (es: seq<Event>)
    requires a.id != b.id && a.id != c.id && c.id < b.id
    ensures IsRun(StartFresh(a), es) && IsEpoch(StartFresh(a), es)
    ensures var s := After(StartFresh(a), es);
            EpochInv(s) && b != c && IsSuccessor(s, b) && IsSuccessor(s, c)
  {
    var first := SomeReport(a, [b], 1);
    es := LateServer(a, b, c, first);
    EpochKeeps(a, es);
    SplitOf(After(StartFresh(a), es), a, b, c);
  }

  lemma SplitOf(s: System, a: ServerInfo, b: ServerInfo, c: ServerInfo)
    requires EpochInv(s) && Lost(s) == a.id && a.id != b.id && a.id != c.id && c.id < b.id
    requires Cached(s, 0, b, [a, b]) && Cached(s, 1, c, [a, b, c])
    ensures IsSuccessor(s, b) && IsSuccessor(s, c)
  {
    ClaimsFromList(s, 0, b, [a, b]);
    ClaimsFromList(s, 1, c, [a, b, c]);
  }
}
