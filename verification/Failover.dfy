/** What the servers do when their scheduler can no longer be reached: each elects a successor from its
    own cached copy of the cluster, without talking to anyone. */
module Failover {
  import opened Wrappers
  import opened Identifiers
  import opened Entities
  import opened ClusterDiff
  import opened Clusters
  import opened SchedulerRuns
  import opened SchedulerInvariants

  datatype DaemonState =
    | Running(group: GroupInfo)
    | Joining(addr: string)
    | Authoritative(cluster: ClusterValue)
    | Failed

  datatype StateCommand =
    | Update(state: DaemonState)
    | BecomeScheduler(cluster: ClusterValue)
    | Keep

  /** An empty list stops the program, which looks at its first server. */
  datatype LossError = NothingCached | Unreadable(error: Error) | EmptyListPanic

  /** The command a reporter sends when the scheduler is unreachable. */
  function LossCommand(self: ServerInfo, cache: Option<ClusterState>): Result<StateCommand, LossError> {
    match cache
    case None => Failure(NothingCached)
    case Some(w) =>
      match ClusterFromWire(w)
      case Failure(e) => Failure(Unreadable(e))
      case Success(c) =>
        match AfterLoss(c)
        case None => Failure(EmptyListPanic)
        case Some(next) =>
          if next.group.scheduler.id == self.id then Success(BecomeScheduler(next))
          else Success(Update(Joining(next.group.scheduler.addr)))
  }

  /** What a command made on a loss can be: a cluster headed by the sender itself, or a join. */
  lemma LossCommandShape(self: ServerInfo, cache: Option<ClusterState>)
    requires LossCommand(self, cache).Success?
    ensures match LossCommand(self, cache).value
            case BecomeScheduler(c) => c.group.scheduler in c.servers && c.group.scheduler.id == self.id
            case Update(state) => state.Joining?
            case Keep => false
  {
  }

  class MetricsReporter {
    const server: ServerInfo
    var lastClusterState: Option<ClusterState>

    constructor (server: ServerInfo)
      ensures this.server == server && lastClusterState == None
    {
      this.server := server;
      lastClusterState := None;
    }

    method PutCluster(current: Option<ClusterState>) returns (changed: bool)
      modifies this
      ensures lastClusterState == Put(old(lastClusterState), current)
      ensures !changed ==> lastClusterState == old(lastClusterState)
      ensures changed ==> lastClusterState == current
    {
      match (lastClusterState, current) {
        case (Some(last), Some(now)) => changed := ClusterDiffers(last, now);
        case (None, None) => changed := false;
        case (_, _) => changed := true;
      }
      if changed {
        lastClusterState := current;
      }
    }

    /** The failover arm: a copy of the cached cluster is changed in place and consulted. */
    method HandleLoss() returns (r: Result<StateCommand, LossError>)
      ensures r == LossCommand(server, lastClusterState)
    {
      if lastClusterState.None? {
        return Failure(NothingCached);
      }
      var parsed := ClusterFromWire(lastClusterState.value);
      if parsed.Failure? {
        return Failure(Unreadable(parsed.error));
      }
      var cluster := new Cluster.Of(parsed.value);
      var _ := cluster.RemoveServer(cluster.group.scheduler.id);
      if cluster.servers == [] {
        return Failure(EmptyListPanic);
      }
      var next := cluster.ChooseScheduler();
      if next.id == server.id {
        r := Success(BecomeScheduler(cluster.Contents()));
      } else {
        r := Success(Update(Joining(next.addr)));
      }
    }
  }

  // ----- an epoch: one scheduler, joins with new ids only -----

  ghost predicate Distinct(servers: seq<ServerInfo>) {
    forall i, j :: 0 <= i < j < |servers| ==> servers[i].id != servers[j].id
  }

  ghost predicate IsEpoch(s: System, es: seq<Event>)
    requires IsRun(s, es)
  {
    es == [] ||
    var front, last := es[..|es| - 1], es[|es| - 1];
    && IsEpoch(s, front)
    && (last.PushServer? ==> forall t :: t in After(s, front).cluster.servers ==> t.id != last.info.id)
  }

  ghost predicate EpochInv(s: System) {
    && Inv(s)
    && Distinct(s.cluster.servers)
    && s.cluster.servers[0] == s.cluster.group.scheduler
  }

  lemma StepEpoch(s: System, e: Event)
    requires Enabled(s, e)
    requires s.cluster.servers != [] && Distinct(s.cluster.servers)
    requires s.cluster.servers[0] == s.cluster.group.scheduler
    requires e.PushServer? ==> forall t :: t in s.cluster.servers ==> t.id != e.info.id
    ensures var now := Apply(s, e);
            && now.cluster.servers != [] && Distinct(now.cluster.servers)
            && now.cluster.servers[0] == now.cluster.group.scheduler
  {
    StepServers(s, e);
  }

  lemma {:induction false} EpochKeeps(info: ServerInfo, es: seq<Event>)
    requires IsRun(StartFresh(info), es) && IsEpoch(StartFresh(info), es)
    ensures EpochInv(After(StartFresh(info), es))
  {
    StartFreshInv(info);
    RunInv(StartFresh(info), es);
    if es != [] {
      EpochKeeps(info, es[..|es| - 1]);
      StepEpoch(After(StartFresh(info), es[..|es| - 1]), es[|es| - 1]);
    }
  }

  // ----- what a cache holds -----

  lemma WireMember(info: ServerInfo, servers: seq<ServerInfo>)
    requires ServerToWire(info) in ServersToWire(servers)
    ensures info in servers
  {
    var i :| 0 <= i < |servers| && ServersToWire(servers)[i] == ServerToWire(info);
    TextInjective(servers[i].id, info.id);
  }

  /** A message made from a state of the cluster reads back as that state without its statistics. */
  lemma SnapshotReads(w: ClusterState, c: ClusterValue) returns (source: ClusterValue)
    requires Snapshot(w, c)
    ensures ClusterFromWire(w) == Success(source.(stats := map[]))
    ensures Earlier(source, c) && w.servers == ServersToWire(source.servers)
    ensures NamesScheduler(w) && |w.instances| == |source.instances.Keys|
  {
    var listing;
    source, listing :| SnapshotOf(w, source, listing, c);
    ClusterRoundTrip(source, listing);
    ListingLength(listing, source.instances.Keys);
  }

  ghost predicate HasCache(s: System, r: nat) {
    r in s.reporters && s.reporters[r].cache.Some?
  }

  /** The cluster as the reporter r would start it, before the election. */
  ghost function Seen(s: System, r: nat): ClusterValue
    requires HasCache(s, r) && ClusterFromWire(s.reporters[r].cache.value).Success?
  {
    ClusterFromWire(s.reporters[r].cache.value).value
  }

  lemma CacheDelivered(n: Reporter, c: ClusterValue)
    requires ReporterInv(n, c) && n.cache.Some?
    ensures n.delivered != [] && n.cache in n.delivered && n.delivered[|n.delivered| - 1].Some?
    ensures Snapshot(n.cache.value, c) && ServerToWire(n.info) in n.cache.value.servers
    ensures var latest := n.delivered[|n.delivered| - 1].value;
            && Snapshot(latest, c) && NamesScheduler(latest) && NamesScheduler(n.cache.value)
            && FingerprintOf(n.cache.value) == FingerprintOf(latest)
  {
    forall r | r in n.delivered && r.Some? ensures NamesScheduler(r.value) {
      assert ResponseInv(r, n.info, c);
      var _ := SnapshotReads(r.value, c);
    }
    CacheRefinesLatest(n.delivered);
    assert ResponseInv(n.cache, n.info, c);
    assert ResponseInv(n.delivered[|n.delivered| - 1], n.info, c);
  }

  /** Every cache reads back as an earlier state of the scheduler's cluster: the same group, a prefix of
      the server list in which the reporter finds its server, and instance records that have since only gained
      hosts. */
  lemma SeenIsEarlier(s: System, r: nat)
    requires Inv(s) && HasCache(s, r)
    ensures ClusterFromWire(s.reporters[r].cache.value).Success?
    ensures Earlier(Seen(s, r), s.cluster)
    ensures s.reporters[r].info in Seen(s, r).servers
  {
    var n := s.reporters[r];
    CacheDelivered(n, s.cluster);
    var source := SnapshotReads(n.cache.value, s.cluster);
    WireMember(n.info, source.servers);
  }

  lemma WireIdsLength(a: ClusterState, b: ClusterState)
    requires multiset(WireIds(a.servers)) == multiset(WireIds(b.servers))
    ensures |a.servers| == |b.servers|
  {
    assert |WireIds(a.servers)| == |multiset(WireIds(a.servers))|;
    assert |WireIds(b.servers)| == |multiset(WireIds(b.servers))|;
  }

  lemma PrefixesEqual<T>(a: seq<T>, b: seq<T>, c: seq<T>)
    requires a <= c && b <= c && |a| == |b|
    ensures a == b
  {
  }

  /** Although the cache may keep an older response, its server list is that of the latest one received. */
  lemma SeenServersAreLatest(s: System, r: nat)
    requires Inv(s) && HasCache(s, r)
    ensures var n := s.reporters[r];
            && n.delivered != [] && n.delivered[|n.delivered| - 1].Some?
            && n.cache.value.servers == n.delivered[|n.delivered| - 1].value.servers
  {
    var n := s.reporters[r];
    CacheDelivered(n, s.cluster);
    var latest := n.delivered[|n.delivered| - 1].value;
    var a := SnapshotReads(n.cache.value, s.cluster);
    var b := SnapshotReads(latest, s.cluster);
    WireIdsLength(n.cache.value, latest);
    PrefixesEqual(a.servers, b.servers, s.cluster.servers);
  }

  /** A spawn is seen by the caches at once if and only if it is the deployment's first: further hosts of
      a known deployment do not count as a change. */
  lemma SpawnSeenIff(c: ClusterValue, d: DeploymentInfo, hosts: seq<ServerInfo>,
                     before: seq<Uuid>, after: seq<Uuid>)
    requires IsListing(before, c.instances.Keys)
    requires IsListing(after, WithInstance(c, d, hosts).instances.Keys)
    ensures Differs(ClusterToWire(c, before), ClusterToWire(WithInstance(c, d, hosts), after))
       <==> d.id !in c.instances
  {
    ListingLength(before, c.instances.Keys);
    ListingLength(after, c.instances.Keys + {d.id});
    assert WithInstance(c, d, hosts).instances.Keys == c.instances.Keys + {d.id};
    if d.id !in c.instances {
      assert |c.instances.Keys + {d.id}| == |c.instances.Keys| + 1;
    } else {
      assert c.instances.Keys + {d.id} == c.instances.Keys;
    }
  }

  lemma {:induction false} ListingLength(listing: seq<Uuid>, keys: set<Uuid>)
    requires IsListing(listing, keys)
    ensures |listing| == |keys|
  {
    if listing == [] {
      assert keys == {};
    } else {
      var front, last := listing[..|listing| - 1], listing[|listing| - 1];
      assert last in keys;
      forall k: Uuid ensures k in front <==> k in keys - {last} {
        if k in front {
          var i :| 0 <= i < |front| && front[i] == k;
          assert listing[i] != last;
        }
        if k in keys - {last} {
          var i :| 0 <= i < |listing| && listing[i] == k;
          assert front[i] == k;
        }
      }
      ListingLength(front, keys - {last});
    }
  }
}
