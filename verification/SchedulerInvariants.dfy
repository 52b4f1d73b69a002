/** What every run of the scheduler keeps, and what its state is in terms of the events so far. */
module SchedulerInvariants {
  import opened Wrappers
  import opened Identifiers
  import opened Entities
  import opened MeanScheduler
  import opened ClusterDiff
  import opened Clusters
  import opened SchedulerRuns

  // ----- the invariant -----

  ghost predicate StatsMatch(m: StatsMap) {
    forall k :: k in m ==> m[k].server.id == k
  }

  ghost predicate ClusterInv(c: ClusterValue) {
    c.servers != [] && KeysMatch(c.instances) && StatsMatch(c.stats)
  }

  /** A message made from some earlier state of the cluster. */
  ghost predicate SnapshotOf(w: ClusterState, source: ClusterValue, listing: seq<Uuid>, c: ClusterValue) {
    && IsListing(listing, source.instances.Keys) && w == ClusterToWire(source, listing)
    && Earlier(source, c) && ClusterInv(source)
  }

  ghost predicate Snapshot(w: ClusterState, c: ClusterValue) {
    exists source, listing :: SnapshotOf(w, source, listing, c)
  }

  /** A response a server got: a snapshot that lists the server itself. */
  ghost predicate ResponseInv(r: Option<ClusterState>, info: ServerInfo, c: ClusterValue) {
    r.Some? && Snapshot(r.value, c) && ServerToWire(info) in r.value.servers
  }

  ghost predicate MemberInv(m: Member, id: Uuid, c: ClusterValue) {
    && m.info.id == id && m.info in c.servers
    && (m.group.Some? ==> m.group.value == c.group)
  }

  ghost predicate ReporterInv(n: Reporter, c: ClusterValue) {
    && n.info in c.servers
    && (n.inbox.Some? ==> ResponseInv(n.inbox, n.info, c))
    && (forall r :: r in n.delivered ==> ResponseInv(r, n.info, c))
    && n.cache == CacheAfter(n.delivered)
  }

  ghost predicate QueryInv(q: Query, c: ClusterValue) {
    ClusterInv(q.seen) && Earlier(q.seen, c)
  }

  ghost predicate Inv(s: System) {
    && ClusterInv(s.cluster)
    && s.deployments.Keys <= s.cluster.instances.Keys
    && (forall k :: k in s.members ==> MemberInv(s.members[k], k, s.cluster))
    && (forall r :: r in s.reporters ==> ReporterInv(s.reporters[r], s.cluster))
    && (forall t :: t in s.queries ==> QueryInv(s.queries[t], s.cluster))
    && (forall t :: t in s.answers ==> t in s.queries)
  }

  lemma StartInv(c: ClusterValue)
    requires c.group.scheduler in c.servers && KeysMatch(c.instances)
    ensures Inv(StartWith(c))
  {
  }

  lemma StartFreshInv(info: ServerInfo)
    ensures Inv(StartFresh(info))
  {
  }

  lemma SnapshotLater(w: ClusterState, c: ClusterValue, d: ClusterValue)
    requires Snapshot(w, c) && Earlier(c, d)
    ensures Snapshot(w, d)
  {
    var source, listing :| SnapshotOf(w, source, listing, c);
    EarlierTransitive(source, c, d);
    assert SnapshotOf(w, source, listing, d);
  }

  lemma ListedLater(info: ServerInfo, c: ClusterValue, d: ClusterValue)
    requires info in c.servers && Earlier(c, d)
    ensures info in d.servers
  {
    var i :| 0 <= i < |c.servers| && c.servers[i] == info;
    assert d.servers[i] == info;
  }

  lemma ReporterLater(n: Reporter, c: ClusterValue, d: ClusterValue)
    requires ReporterInv(n, c) && Earlier(c, d)
    ensures ReporterInv(n, d)
  {
    ListedLater(n.info, c, d);
    if n.inbox.Some? {
      SnapshotLater(n.inbox.value, c, d);
    }
    forall r | r in n.delivered ensures ResponseInv(r, n.info, d) {
      SnapshotLater(r.value, c, d);
    }
  }

  lemma QueryLater(q: Query, c: ClusterValue, d: ClusterValue)
    requires QueryInv(q, c) && Earlier(c, d)
    ensures QueryInv(q, d)
  {
    EarlierTransitive(q.seen, c, d);
  }

  /** The message made in a report's critical section lists the reporting server. */
  lemma ReportedSnapshot(c: ClusterValue, info: ServerInfo, listing: seq<Uuid>)
    requires ClusterInv(c) && info in c.servers && IsListing(listing, c.instances.Keys)
    ensures ResponseInv(Some(ClusterToWire(c, listing)), info, c)
  {
    var i :| 0 <= i < |c.servers| && c.servers[i] == info;
    assert ClusterToWire(c, listing).servers[i] == ServerToWire(info);
    assert SnapshotOf(ClusterToWire(c, listing), c, listing, c);
  }

  lemma DeliverReporterInv(n: Reporter, c: ClusterValue)
    requires ReporterInv(n, c) && n.inbox.Some?
    ensures ReporterInv(n.(inbox := None, cache := Put(n.cache, n.inbox),
                           delivered := n.delivered + [n.inbox]), c)
  {
    assert (n.delivered + [n.inbox])[..|n.delivered|] == n.delivered;
  }

  lemma JoinListed(s: System, info: ServerInfo)
    ensures info in Apply(s, PushServer(info)).cluster.servers
  {
    assert Apply(s, PushServer(info)).cluster.servers[|s.cluster.servers|] == info;
  }

  lemma MemberKept(s: System, e: Event, k: Uuid)
    requires Enabled(s, e) && k in Apply(s, e).members && !(e.PushServer? && e.info.id == k)
    ensures k in s.members && Apply(s, e).members[k].info == s.members[k].info
    ensures Apply(s, e).members[k].group == s.members[k].group
         || Apply(s, e).members[k].group == Some(s.cluster.group)
  {
  }

  lemma StepMember(s: System, e: Event, k: Uuid)
    requires Inv(s) && Enabled(s, e) && k in Apply(s, e).members
    ensures MemberInv(Apply(s, e).members[k], k, Apply(s, e).cluster)
  {
    if e.PushServer? && e.info.id == k {
      JoinListed(s, e.info);
    } else {
      MemberKept(s, e, k);
      StepEarlier(s, e);
      ListedLater(s.members[k].info, s.cluster, Apply(s, e).cluster);
    }
  }

  /** Which reporter a step concerns. */
  predicate Concerns(e: Event, r: nat) {
    (e.StartReporter? || e.Report? || e.Deliver?) && e.reporter == r
  }

  lemma OthersKept(s: System, e: Event, r: nat)
    requires Enabled(s, e) && !Concerns(e, r)
    ensures r in Apply(s, e).reporters <==> r in s.reporters
    ensures r in s.reporters ==> Apply(s, e).reporters[r] == s.reporters[r]
  {
  }

  lemma StepReporter(s: System, e: Event, r: nat)
    requires Inv(s) && Enabled(s, e) && r in Apply(s, e).reporters
    ensures ReporterInv(Apply(s, e).reporters[r], Apply(s, e).cluster)
  {
    if !Concerns(e, r) {
      OthersKept(s, e, r);
      StepEarlier(s, e);
      ReporterLater(s.reporters[r], s.cluster, Apply(s, e).cluster);
    } else {
      StepConcerned(s, e);
    }
  }

  lemma StepConcerned(s: System, e: Event)
    requires Inv(s) && Enabled(s, e) && (e.StartReporter? || e.Report? || e.Deliver?)
    ensures ReporterInv(Apply(s, e).reporters[e.reporter], Apply(s, e).cluster)
  {
    var d := Apply(s, e).cluster;
    match e {
      case StartReporter(r, id) =>
        assert MemberInv(s.members[id], id, d);
      case Report(r, info, windows, listing) =>
        StatsEarlier(s.cluster, ServerStats(info, windows));
        ReporterLater(s.reporters[r], s.cluster, d);
        ReportedSnapshot(d, info, listing);
      case Deliver(r) =>
        DeliverReporterInv(s.reporters[r], d);
      case _ =>
    }
  }

  lemma QueryKept(s: System, e: Event, t: nat)
    requires Enabled(s, e) && t in Apply(s, e).queries
    ensures if t in s.queries then Apply(s, e).queries[t] == s.queries[t]
            else Apply(s, e).queries[t].seen == s.cluster == Apply(s, e).cluster
  {
  }

  lemma StepQuery(s: System, e: Event, t: nat)
    requires Inv(s) && Enabled(s, e) && t in Apply(s, e).queries
    ensures QueryInv(Apply(s, e).queries[t], Apply(s, e).cluster)
  {
    QueryKept(s, e, t);
    if t in s.queries {
      StepEarlier(s, e);
      QueryLater(s.queries[t], s.cluster, Apply(s, e).cluster);
    }
  }

  lemma StepCluster(s: System, e: Event)
    requires ClusterInv(s.cluster) && Enabled(s, e)
    ensures ClusterInv(Apply(s, e).cluster)
  {
  }

  lemma StepDeployments(s: System, e: Event)
    requires s.deployments.Keys <= s.cluster.instances.Keys && Enabled(s, e)
    ensures Apply(s, e).deployments.Keys <= Apply(s, e).cluster.instances.Keys
  {
  }

  lemma StepAnswers(s: System, e: Event)
    requires Enabled(s, e) && forall t :: t in s.answers ==> t in s.queries
    ensures forall t :: t in Apply(s, e).answers ==> t in Apply(s, e).queries
  {
  }

  lemma StepInv(s: System, e: Event)
    requires Inv(s) && Enabled(s, e)
    ensures Inv(Apply(s, e))
  {
    var now := Apply(s, e);
    StepCluster(s, e);
    StepDeployments(s, e);
    StepAnswers(s, e);
    forall k | k in now.members ensures MemberInv(now.members[k], k, now.cluster) {
      StepMember(s, e, k);
    }
    forall r | r in now.reporters ensures ReporterInv(now.reporters[r], now.cluster) {
      StepReporter(s, e, r);
    }
    forall t | t in now.queries ensures QueryInv(now.queries[t], now.cluster) {
      StepQuery(s, e, t);
    }
  }

  lemma {:induction false} RunInv(s: System, es: seq<Event>)
    requires Inv(s) && IsRun(s, es)
    ensures Inv(After(s, es))
  {
    if es != [] {
      RunInv(s, es[..|es| - 1]);
      StepInv(After(s, es[..|es| - 1]), es[|es| - 1]);
    }
  }

  // ----- the state in terms of the events -----

  function JoinOf(e: Event): seq<ServerInfo> {
    if e.PushServer? then [e.info] else []
  }

  /** Servers pushed by the events, in order. */
  function Joined(es: seq<Event>): seq<ServerInfo> {
    if es == [] then [] else Joined(es[..|es| - 1]) + JoinOf(es[|es| - 1])
  }

  predicate ReportsFor(e: Event, id: Uuid) { (e.Report? || e.StrayReport?) && e.info.id == id }

  function WindowsOf(e: Event, id: Uuid): seq<MonitorWindow> {
    if ReportsFor(e, id) then e.windows else []
  }

  /** Windows reported under the id, in order. */
  function Reported(es: seq<Event>, id: Uuid): seq<MonitorWindow> {
    if es == [] then [] else Reported(es[..|es| - 1], id) + WindowsOf(es[|es| - 1], id)
  }

  predicate HasReported(es: seq<Event>, id: Uuid) {
    es != [] &&
    (HasReported(es[..|es| - 1], id) || ReportsFor(es[|es| - 1], id))
  }

  /** The server that sent the first report under the id. */
  function FirstReporter(es: seq<Event>, id: Uuid): Option<ServerInfo> {
    if es == [] then None
    else if FirstReporter(es[..|es| - 1], id).Some? then FirstReporter(es[..|es| - 1], id)
    else if ReportsFor(es[|es| - 1], id) then Some(es[|es| - 1].info)
    else None
  }

  /** The deployment asked for under a ticket, with the target it got at that moment, until the spawn ends. */
  ghost function Pending(s: System, es: seq<Event>, ticket: nat): Option<Placement>
    requires IsRun(s, es)
  {
    if es == [] then (if ticket in s.placements then Some(s.placements[ticket]) else None)
    else
      var front, last := es[..|es| - 1], es[|es| - 1];
      if last.PickTarget? && last.ticket == ticket then
        match SpawnTarget(After(s, front).cluster, last.listing)
        case Some(target) => Some(Placement(last.deployment, target))
        case None => None
      else if (last.CommitSpawn? || last.FailSpawn?) && last.ticket == ticket then None
      else Pending(s, front, ticket)
  }

  /** The host that the last event gives to the deployment. */
  ghost function SpawnOf(s: System, es: seq<Event>, deployment: Uuid): seq<ServerInfo>
    requires IsRun(s, es) && es != []
  {
    var front, last := es[..|es| - 1], es[|es| - 1];
    if last.CommitSpawn? then
      match Pending(s, front, last.ticket)
      case Some(p) => if p.deployment.id == deployment then [p.target] else []
      case None => []
    else []
  }

  /** Targets on which the deployment was spawned, in order. */
  ghost function Spawned(s: System, es: seq<Event>, deployment: Uuid): seq<ServerInfo>
    requires IsRun(s, es)
  {
    if es == [] then [] else Spawned(s, es[..|es| - 1], deployment) + SpawnOf(s, es, deployment)
  }

  lemma StepPlacement(s: System, e: Event, t: nat)
    requires Enabled(s, e)
    ensures if e.PickTarget? && e.ticket == t then
              var target := SpawnTarget(s.cluster, e.listing);
              && (t in Apply(s, e).placements <==> target.Some?)
              && (target.Some? ==> Apply(s, e).placements[t] == Placement(e.deployment, target.value))
            else if (e.CommitSpawn? || e.FailSpawn?) && e.ticket == t then t !in Apply(s, e).placements
            else
              && (t in Apply(s, e).placements <==> t in s.placements)
              && (t in s.placements ==> Apply(s, e).placements[t] == s.placements[t])
  {
  }

  /** What is being spawned is what was asked for. */
  lemma {:induction false} PlacementsArePending(s: System, es: seq<Event>, t: nat)
    requires IsRun(s, es)
    ensures t in After(s, es).placements <==> Pending(s, es, t).Some?
    ensures t in After(s, es).placements ==> Pending(s, es, t) == Some(After(s, es).placements[t])
  {
    if es != [] {
      PlacementsArePending(s, es[..|es| - 1], t);
      StepPlacement(After(s, es[..|es| - 1]), es[|es| - 1], t);
    }
  }

  lemma StepServers(s: System, e: Event)
    requires Enabled(s, e)
    ensures Apply(s, e).cluster.servers == s.cluster.servers + JoinOf(e)
  {
  }

  /** The server list is the inherited one followed by the joins, in order. */
  lemma {:induction false} ServersAreJoins(s: System, es: seq<Event>)
    requires IsRun(s, es)
    ensures After(s, es).cluster.servers == s.cluster.servers + Joined(es)
  {
    if es != [] {
      ServersAreJoins(s, es[..|es| - 1]);
      StepServers(After(s, es[..|es| - 1]), es[|es| - 1]);
    }
  }

  function HostGained(s: System, e: Event, d: Uuid): seq<ServerInfo> {
    if e.CommitSpawn? && e.ticket in s.placements && s.placements[e.ticket].deployment.id == d
    then [s.placements[e.ticket].target] else []
  }

  lemma StepHosts(s: System, e: Event, d: Uuid)
    requires Enabled(s, e)
    ensures var now := Apply(s, e);
            && Hosts(now.cluster.instances, d) == Hosts(s.cluster.instances, d) + HostGained(s, e, d)
            && (d in now.deployments <==> d in s.deployments || HostGained(s, e, d) != [])
            && (d in now.cluster.instances <==> d in s.cluster.instances || HostGained(s, e, d) != [])
  {
  }

  lemma Associative<T>(a: seq<T>, b: seq<T>, c: seq<T>)
    ensures (a + b) + c == a + (b + c)
  {
  }

  lemma SpawnedSnoc(s: System, es: seq<Event>, d: Uuid)
    requires IsRun(s, es) && es != []
    ensures var front, last := es[..|es| - 1], es[|es| - 1];
            && SpawnOf(s, es, d) == HostGained(After(s, front), last, d)
            && Spawned(s, es, d) == Spawned(s, front, d) + HostGained(After(s, front), last, d)
            && After(s, es) == Apply(After(s, front), last)
  {
    if es[|es| - 1].CommitSpawn? {
      PlacementsArePending(s, es[..|es| - 1], es[|es| - 1].ticket);
    }
  }

  /** Each deployment's host list is the inherited one followed by its completed spawns, in order; the
      scheduler knows the deployment itself exactly when one completed under its own watch. */
  lemma {:induction false} HostsAreSpawns(s: System, es: seq<Event>, d: Uuid)
    requires IsRun(s, es)
    ensures var now := After(s, es);
            && Hosts(now.cluster.instances, d) == Hosts(s.cluster.instances, d) + Spawned(s, es, d)
            && (d in now.deployments <==> d in s.deployments || Spawned(s, es, d) != [])
            && (d in now.cluster.instances <==> d in s.cluster.instances || Spawned(s, es, d) != [])
  {
    if es != [] {
      var before := After(s, es[..|es| - 1]);
      HostsAreSpawns(s, es[..|es| - 1], d);
      SpawnedSnoc(s, es, d);
      StepHosts(before, es[|es| - 1], d);
      Associative(Hosts(s.cluster.instances, d), Spawned(s, es[..|es| - 1], d),
                  HostGained(before, es[|es| - 1], d));
    }
  }

  /** A scheduler that began without deployments knows exactly those it has instances of if and only if
      each instance record it inherited has had a spawn since: a fresh one always does. */
  lemma DeploymentsKnown(s: System, es: seq<Event>)
    requires IsRun(s, es) && s.deployments == map[]
    ensures var now := After(s, es);
            && now.deployments.Keys <= now.cluster.instances.Keys
            && (now.deployments.Keys == now.cluster.instances.Keys <==>
                forall d :: d in s.cluster.instances ==> Spawned(s, es, d) != [])
  {
    var now := After(s, es);
    forall d: Uuid ensures d in now.deployments <==> Spawned(s, es, d) != []
                   ensures d in now.cluster.instances <==> d in s.cluster.instances || d in now.deployments {
      HostsAreSpawns(s, es, d);
    }
    if now.deployments.Keys == now.cluster.instances.Keys {
      forall d | d in s.cluster.instances ensures Spawned(s, es, d) != [] {
        assert d in now.cluster.instances.Keys;
      }
    }
  }

  lemma StepWindows(s: System, e: Event, id: Uuid)
    requires Enabled(s, e)
    ensures var now := Apply(s, e).cluster.stats;
            && Windows(now, id) == Windows(s.cluster.stats, id) + WindowsOf(e, id)
            && (id in now <==> id in s.cluster.stats || ReportsFor(e, id))
  {
  }

  lemma LastWindows(s: System, es: seq<Event>, id: Uuid)
    requires IsRun(s, es) && es != []
    ensures var before, now := After(s, es[..|es| - 1]).cluster.stats, After(s, es).cluster.stats;
            && Windows(now, id) == Windows(before, id) + WindowsOf(es[|es| - 1], id)
            && (id in now <==> id in before || ReportsFor(es[|es| - 1], id))
  {
    StepWindows(After(s, es[..|es| - 1]), es[|es| - 1], id);
  }

  /** Each server's window list is the concatenation of its reports, in order. */
  lemma {:induction false} WindowsAreReports(s: System, es: seq<Event>, id: Uuid)
    requires IsRun(s, es)
    ensures Windows(After(s, es).cluster.stats, id) == Windows(s.cluster.stats, id) + Reported(es, id)
  {
    if es != [] {
      WindowsAreReports(s, es[..|es| - 1], id);
      LastWindows(s, es, id);
      Associative(Windows(s.cluster.stats, id), Reported(es[..|es| - 1], id),
                  WindowsOf(es[|es| - 1], id));
    }
  }

  lemma StepReporterOf(s: System, e: Event, id: Uuid)
    requires Enabled(s, e) && id in Apply(s, e).cluster.stats
    ensures var now := Apply(s, e).cluster.stats[id].server;
            if id in s.cluster.stats then now == s.cluster.stats[id].server
            else ReportsFor(e, id) && now == e.info
  {
  }

  /** The statistics under an id name the server that reported first. */
  lemma {:induction false} StatsNameFirst(s: System, es: seq<Event>, id: Uuid)
    requires IsRun(s, es) && s.cluster.stats == map[]
    ensures id in After(s, es).cluster.stats <==> FirstReporter(es, id).Some?
    ensures id in After(s, es).cluster.stats ==>
      FirstReporter(es, id) == Some(After(s, es).cluster.stats[id].server)
  {
    if es != [] {
      var front, last := es[..|es| - 1], es[|es| - 1];
      StatsNameFirst(s, front, id);
      LastWindows(s, es, id);
      if id in After(s, es).cluster.stats {
        StepReporterOf(After(s, front), last, id);
      }
    }
  }

  /** A server has statistics exactly when it has reported, even if it sent no window. */
  lemma {:induction false} StatsAreReporters(s: System, es: seq<Event>, id: Uuid)
    requires IsRun(s, es)
    ensures id in After(s, es).cluster.stats <==> id in s.cluster.stats || HasReported(es, id)
  {
    if es != [] {
      StatsAreReporters(s, es[..|es| - 1], id);
      LastWindows(s, es, id);
    }
  }

  /** Whether a server needs scaling out depends only on the last window it ever reported. */
  lemma ScaleOutByLastReport(s: System, es: seq<Event>, id: Uuid)
    requires s.cluster.stats == map[] && IsRun(s, es)
    requires HasReported(es, id)
    ensures var now := After(s, es).cluster.stats;
            id in now && (NeedsScaleOut(now[id]) <==>
              Reported(es, id) != [] && Reported(es, id)[|Reported(es, id)| - 1].cpu > 70)
  {
    WindowsAreReports(s, es, id);
    StatsAreReporters(s, es, id);
  }

  /** The decision of the task that a lookup starts: taken in a section of its own, on the statistics and
      the deployments of that moment. */
  predicate DecidesScaleOut(s: System, target: Uuid, deployment: Uuid) {
    target in s.cluster.stats && NeedsScaleOut(s.cluster.stats[target]) && deployment in s.deployments
  }

  /** When a lookup's task scales out: after any run of a new scheduler, for whichever target and at
      whichever moment, exactly when the last window that the target ever reported to it is above the
      threshold and the deployment was spawned under it. A deployment inherited in a takeover never scales
      out until it is spawned again. */
  lemma ScaleOutDecidedIff(c: ClusterValue, es: seq<Event>, target: Uuid, deployment: Uuid)
    requires IsRun(StartWith(c), es)
    ensures DecidesScaleOut(After(StartWith(c), es), target, deployment) <==>
            && Reported(es, target) != []
            && Reported(es, target)[|Reported(es, target)| - 1].cpu > 70
            && Spawned(StartWith(c), es, deployment) != []
  {
    HostsAreSpawns(StartWith(c), es, deployment);
    WindowsAreReports(StartWith(c), es, target);
  }

  lemma ChoiceFrom(stats: StatsMap, listing: seq<Uuid>)
    requires IsListing(listing, stats.Keys) && StatsMatch(stats)
    ensures Choice(stats, listing) == None <==> stats == map[]
    ensures Choice(stats, listing).Some? ==>
      var s := Choice(stats, listing).value; s.id in stats && stats[s.id].server == s
  {
    if listing == [] {
      assert stats.Keys == {};
    } else {
      var k := listing[ChosenIndex(stats, listing)];
      assert k in listing;
    }
  }
}
