/** One scheduler and the servers that report to it, as a state machine whose steps are the critical
    sections of the handlers: `join` has two, `deploy_in_us` two around the spawn call, `lookup` one
    and a reply, `report` one and the delivery of its response. Each start of a server's service starts a
    reporter with a cache of its own; those of earlier starts go on beside it. */
module SchedulerRuns {
  import opened Wrappers
  import opened Identifiers
  import opened Entities
  import opened MeanScheduler
  import opened ClusterDiff
  import opened Clusters

  /** A deployment between the choice of its target and the end of the spawn call. */
  datatype Placement = Placement(deployment: DeploymentInfo, target: ServerInfo)

  /** A lookup works on the copy of the cluster it took. */
  datatype Query = Query(deployment: Uuid, seen: ClusterValue)

  datatype Answer = NotFound | CannotSchedule | Target(server: ServerInfo)

  /** A server that has joined, and the group once the answer to its join was made. */
  datatype Member = Member(info: ServerInfo, group: Option<GroupInfo>)

  /** A task that reports for a server. `delivered` is a history of the responses it received. */
  datatype Reporter = Reporter(info: ServerInfo, inbox: Option<ClusterState>,
                               cache: Option<ClusterState>, delivered: seq<Option<ClusterState>>)

  datatype System = System(
    cluster: ClusterValue,
    deployments: map<Uuid, DeploymentInfo>,
    placements: map<nat, Placement>,
    queries: map<nat, Query>,
    answers: map<nat, Answer>,
    members: map<Uuid, Member>,
    reporters: map<nat, Reporter>)

  datatype Event =
    | PushServer(info: ServerInfo)
    | AcknowledgeJoin(id: Uuid)
    | StartReporter(reporter: nat, id: Uuid)
    | Report(reporter: nat, info: ServerInfo, windows: seq<MonitorWindow>, listing: seq<Uuid>)
    | StrayReport(info: ServerInfo, windows: seq<MonitorWindow>)
    | Deliver(reporter: nat)
    | PickTarget(ticket: nat, deployment: DeploymentInfo, listing: seq<Uuid>)
    | CommitSpawn(ticket: nat)
    | FailSpawn(ticket: nat)
    | ReadLookup(ticket: nat, deploymentId: Uuid)
    | ReplyLookup(ticket: nat, listing: seq<Uuid>)

  /** A scheduler that takes over a cluster: no statistics, no deployments of its own yet, nobody who
      reports to it yet, and a group that it knows without joining it. */
  function StartWith(c: ClusterValue): System {
    var own := Member(c.group.scheduler, Some(c.group));
    System(c.(stats := map[]), map[], map[], map[], map[], map[own.info.id := own], map[])
  }

  /** `from_server`: a cluster of one. */
  function StartFresh(info: ServerInfo): System { StartWith(NewCluster(info)) }

  /** The target of a deployment; the first server is looked up even when it is not needed. */
  function SpawnTarget(c: ClusterValue, listing: seq<Uuid>): Option<ServerInfo>
    requires Covers(listing, c.stats)
  {
    if c.servers == [] then None
    else if Choice(c.stats, listing).Some? then Choice(c.stats, listing)
    else Some(c.servers[0])
  }

  /** The statistics a lookup chooses from: those of the servers that host the deployment. */
  function Candidates(q: Query): StatsMap {
    CloneByIds(q.seen.stats, Ids(Hosts(q.seen.instances, q.deployment)))
  }

  function AnswerTo(q: Query, listing: seq<Uuid>): Answer
    requires Covers(listing, Candidates(q))
  {
    if q.deployment !in q.seen.instances then NotFound
    else match Choice(Candidates(q), listing)
         case None => CannotSchedule
         case Some(s) => Target(s)
  }

  ghost predicate Enabled(s: System, e: Event) {
    match e
    case PushServer(_) => true
    case AcknowledgeJoin(id) => id in s.members
    case StartReporter(r, id) => r !in s.reporters && id in s.members && s.members[id].group.Some?
    case Report(r, info, _, listing) =>
      && r in s.reporters && s.reporters[r].info == info && s.reporters[r].inbox.None?
      && IsListing(listing, s.cluster.instances.Keys)
    case StrayReport(_, _) => true
    case Deliver(r) => r in s.reporters && s.reporters[r].inbox.Some?
    case PickTarget(t, _, listing) => t !in s.placements && IsListing(listing, s.cluster.stats.Keys)
    case CommitSpawn(t) => t in s.placements
    case FailSpawn(t) => t in s.placements
    case ReadLookup(t, _) => t !in s.queries
    case ReplyLookup(t, listing) =>
      t in s.queries && t !in s.answers && IsListing(listing, Candidates(s.queries[t]).Keys)
  }

  ghost function ApplyReport(s: System, r: nat, info: ServerInfo, windows: seq<MonitorWindow>,
                             listing: seq<Uuid>): System
    requires Enabled(s, Report(r, info, windows, listing))
  {
    var cluster := WithStats(s.cluster, ServerStats(info, windows));
    s.(cluster := cluster,
       reporters := s.reporters[r := s.reporters[r].(inbox := Some(ClusterToWire(cluster, listing)))])
  }

  ghost function ApplyCommit(s: System, t: nat): System
    requires t in s.placements
  {
    var p := s.placements[t];
    s.(cluster := WithInstance(s.cluster, p.deployment, [p.target]),
       deployments := s.deployments[p.deployment.id := p.deployment],
       placements := s.placements - {t})
  }

  ghost function Apply(s: System, e: Event): System
    requires Enabled(s, e)
  {
    match e
    case PushServer(info) =>
      s.(cluster := WithServer(s.cluster, info), members := s.members[info.id := Member(info, None)])
    case AcknowledgeJoin(id) =>
      s.(members := s.members[id := s.members[id].(group := Some(s.cluster.group))])
    case StartReporter(r, id) =>
      s.(reporters := s.reporters[r := Reporter(s.members[id].info, None, None, [])])
    case Report(r, info, windows, listing) => ApplyReport(s, r, info, windows, listing)
    case StrayReport(info, windows) =>
      s.(cluster := WithStats(s.cluster, ServerStats(info, windows)))
    case Deliver(r) =>
      var n := s.reporters[r];
      s.(reporters := s.reporters[r := n.(inbox := None, cache := Put(n.cache, n.inbox),
                                          delivered := n.delivered + [n.inbox])])
    case PickTarget(t, d, listing) =>
      (match SpawnTarget(s.cluster, listing)
       case None => s
       case Some(target) => s.(placements := s.placements[t := Placement(d, target)]))
    case CommitSpawn(t) => ApplyCommit(s, t)
    case FailSpawn(t) => s.(placements := s.placements - {t})
    case ReadLookup(t, d) => s.(queries := s.queries[t := Query(d, s.cluster)])
    case ReplyLookup(t, listing) =>
      s.(answers := s.answers[t := AnswerTo(s.queries[t], listing)])
  }

  ghost predicate IsRun(s: System, es: seq<Event>)
    decreases |es|, 0
  {
    es == [] ||
    (IsRun(s, es[..|es| - 1]) && Enabled(After(s, es[..|es| - 1]), es[|es| - 1]))
  }

  ghost function After(s: System, es: seq<Event>): System
    requires IsRun(s, es)
    decreases |es|, 1
  {
    if es == [] then s else Apply(After(s, es[..|es| - 1]), es[|es| - 1])
  }

  // ----- states along a run only grow -----

  ghost predicate Extends(a: InstanceMap, b: InstanceMap) {
    forall k :: k in a ==>
      k in b && b[k].deployment == a[k].deployment && a[k].servers <= b[k].servers
  }

  ghost predicate StatsExtend(a: StatsMap, b: StatsMap) {
    forall k :: k in a ==> k in b && b[k].server == a[k].server && a[k].windows <= b[k].windows
  }

  ghost predicate Earlier(a: ClusterValue, b: ClusterValue) {
    && a.group == b.group && a.servers <= b.servers
    && Extends(a.instances, b.instances) && StatsExtend(a.stats, b.stats)
  }

  lemma EarlierTransitive(a: ClusterValue, b: ClusterValue, c: ClusterValue)
    requires Earlier(a, b) && Earlier(b, c)
    ensures Earlier(a, c)
  {
  }

  ghost predicate Kept<T(!new)>(a: map<nat, T>, b: map<nat, T>) {
    forall t :: t in a ==> t in b && b[t] == a[t]
  }

  /** Nothing of `a` is lost in `b`: lists only gained at their ends, and lookups and answers stayed. */
  ghost predicate OnlyGrown(a: System, b: System) {
    Earlier(a.cluster, b.cluster) && Kept(a.queries, b.queries) && Kept(a.answers, b.answers)
  }

  lemma StatsEarlier(c: ClusterValue, stats: ServerStats)
    ensures Earlier(c, WithStats(c, stats))
  {
  }

  lemma InstanceEarlier(c: ClusterValue, d: DeploymentInfo, hosts: seq<ServerInfo>)
    ensures Earlier(c, WithInstance(c, d, hosts))
  {
  }

  lemma StepEarlier(s: System, e: Event)
    requires Enabled(s, e)
    ensures Earlier(s.cluster, Apply(s, e).cluster)
  {
    match e {
      case Report(_, info, windows, _) => StatsEarlier(s.cluster, ServerStats(info, windows));
      case StrayReport(info, windows) => StatsEarlier(s.cluster, ServerStats(info, windows));
      case CommitSpawn(t) =>
        InstanceEarlier(s.cluster, s.placements[t].deployment, [s.placements[t].target]);
      case _ =>
    }
  }

  lemma StepGrown(s: System, e: Event)
    requires Enabled(s, e)
    ensures OnlyGrown(s, Apply(s, e))
  {
    StepEarlier(s, e);
  }

  lemma GrownTransitive(a: System, b: System, c: System)
    requires OnlyGrown(a, b) && OnlyGrown(b, c)
    ensures OnlyGrown(a, c)
  {
    EarlierTransitive(a.cluster, b.cluster, c.cluster);
  }

  /** Nothing is forgotten while one scheduler is in charge: along a run the server list, every host
      list and every window list only gain at their ends, and lookups and answers stay as they are. */
  lemma {:induction false} RunGrows(s: System, es: seq<Event>, n: nat)
    requires IsRun(s, es) && n <= |es|
    ensures IsRun(s, es[..n]) && OnlyGrown(After(s, es[..n]), After(s, es))
  {
    if n == |es| {
      assert es[..n] == es;
    } else {
      var front := es[..|es| - 1];
      RunGrows(s, front, n);
      assert front[..n] == es[..n];
      StepGrown(After(s, front), es[|es| - 1]);
      GrownTransitive(After(s, es[..n]), After(s, front), After(s, es));
    }
  }
}
