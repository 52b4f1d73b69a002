/** Who hosts what: while a scheduler is in charge, deployments are placed on members of its cluster, and
    lookups send clients to members, or to servers that report to it without having joined. What a takeover
    leaves of that. */
module Membership {
  import opened Wrappers
  import opened Identifiers
  import opened Entities
  import opened MeanScheduler
  import opened Clusters
  import opened SchedulerRuns
  import opened SchedulerInvariants
  import opened Lookups
  import opened Failover
  import opened Elections

  ghost predicate Within(some: seq<ServerInfo>, all: seq<ServerInfo>) {
    forall h :: h in some ==> h in all
  }

  /** Every host of every deployment is in the server list. */
  ghost predicate HostsListed(c: ClusterValue) {
    forall d :: d in c.instances ==> Within(c.instances[d].servers, c.servers)
  }

  /** A server that never joined has reported. */
  predicate Strayed(es: seq<Event>, info: ServerInfo) {
    es != [] &&
    (Strayed(es[..|es| - 1], info) || (es[|es| - 1].StrayReport? && es[|es| - 1].info == info))
  }

  /** In the server list, or else one that has reported without having joined. */
  ghost predicate Known(s: System, es: seq<Event>, info: ServerInfo)
    requires IsRun(s, es)
  {
    info in After(s, es).cluster.servers || Strayed(es, info)
  }

  lemma StayListed(s: System, e: Event, info: ServerInfo)
    requires Enabled(s, e) && info in s.cluster.servers
    ensures info in Apply(s, e).cluster.servers
  {
    StepEarlier(s, e);
    InPrefix(s.cluster.servers, Apply(s, e).cluster.servers, info);
  }

  lemma StayKnown(s: System, es: seq<Event>, info: ServerInfo)
    requires IsRun(s, es) && es != [] && Known(s, es[..|es| - 1], info)
    ensures Known(s, es, info)
  {
    if info in After(s, es[..|es| - 1]).cluster.servers {
      StayListed(After(s, es[..|es| - 1]), es[|es| - 1], info);
    }
  }

  /** A step adds statistics for the reporting server only. */
  lemma StepStats(s: System, e: Event, k: Uuid)
    requires Enabled(s, e) && k in Apply(s, e).cluster.stats
    ensures var now := Apply(s, e).cluster.stats[k].server;
            (k in s.cluster.stats && now == s.cluster.stats[k].server)
            || (ReportsFor(e, k) && now == e.info)
  {
  }

  /** Every server with statistics is a member, or has reported without being one. */
  lemma {:induction false} StatsKnown(s: System, es: seq<Event>, k: Uuid)
    requires Inv(s) && IsRun(s, es) && s.cluster.stats == map[] && k in After(s, es).cluster.stats
    ensures Known(s, es, After(s, es).cluster.stats[k].server)
  {
    if es != [] {
      var front, last := es[..|es| - 1], es[|es| - 1];
      var before := After(s, front);
      StepStats(before, last, k);
      if k in before.cluster.stats {
        StatsKnown(s, front, k);
        StayKnown(s, es, before.cluster.stats[k].server);
      }
      if last.Report? {
        RunInv(s, front);
        StayListed(before, last, last.info);
      }
    }
  }

  /** The target of a spawn: the first server while nobody has reported, else one that has. */
  lemma SpawnTargetMeans(c: ClusterValue, listing: seq<Uuid>)
    requires ClusterInv(c) && IsListing(listing, c.stats.Keys)
    ensures SpawnTarget(c, listing).Some?
    ensures var t := SpawnTarget(c, listing).value;
            if c.stats == map[] then t == c.servers[0] else t.id in c.stats && c.stats[t.id].server == t
  {
    ChoiceFrom(c.stats, listing);
  }

  lemma PlacementKept(s: System, e: Event, t: nat)
    requires Enabled(s, e) && t in Apply(s, e).placements
    ensures (t in s.placements && Apply(s, e).placements[t] == s.placements[t])
         || (e.PickTarget? && SpawnTarget(s.cluster, e.listing) == Some(Apply(s, e).placements[t].target))
  {
  }

  lemma {:induction false} TargetsKnown(s: System, es: seq<Event>, t: nat)
    requires Inv(s) && IsRun(s, es) && s.cluster.stats == map[] && s.placements == map[]
    requires t in After(s, es).placements
    ensures Known(s, es, After(s, es).placements[t].target)
  {
    if es != [] {
      var front, last := es[..|es| - 1], es[|es| - 1];
      var before, target := After(s, front), After(s, es).placements[t].target;
      PlacementKept(before, last, t);
      if t in before.placements && before.placements[t].target == target {
        TargetsKnown(s, front, t);
      } else {
        RunInv(s, front);
        SpawnTargetMeans(before.cluster, last.listing);
        if before.cluster.stats != map[] {
          StatsKnown(s, front, target.id);
        }
      }
      StayKnown(s, es, target);
    }
  }

  /** Every host that a deployment gains is a member, or has reported without being one. */
  lemma {:induction false} SpawnsKnown(s: System, es: seq<Event>, d: Uuid, h: ServerInfo)
    requires Inv(s) && IsRun(s, es) && s.cluster.stats == map[] && s.placements == map[]
    requires h in Spawned(s, es, d)
    ensures Known(s, es, h)
  {
    var front, last := es[..|es| - 1], es[|es| - 1];
    if h in Spawned(s, front, d) {
      SpawnsKnown(s, front, d, h);
    } else {
      PlacementsArePending(s, front, last.ticket);
      TargetsKnown(s, front, last.ticket);
    }
    StayKnown(s, es, h);
  }

  /** A scheduler that starts with all hosts in its list: along every run, each host of each deployment is a
      member or has reported without being one. So it is a member if no stray report comes. */
  lemma HostsAreKnown(c: ClusterValue, es: seq<Event>, d: Uuid, h: ServerInfo)
    requires c.group.scheduler in c.servers && KeysMatch(c.instances) && HostsListed(c)
    requires IsRun(StartWith(c), es) && h in Hosts(After(StartWith(c), es).cluster.instances, d)
    ensures Known(StartWith(c), es, h)
  {
    StartInv(c);
    HostsAreSpawns(StartWith(c), es, d);
    if h in Hosts(c.instances, d) {
      ServersAreJoins(StartWith(c), es);
      InPrefix(c.servers, After(StartWith(c), es).cluster.servers, h);
    } else {
      SpawnsKnown(StartWith(c), es, d, h);
    }
  }

  /** A lookup sends its client to a member, even when the cluster was taken over with hosts that are not, or
      to a server that had reported without having joined when the lookup read: for every interleaving. */
  lemma LookupReturnsKnown(c: ClusterValue, es: seq<Event>, at: nat, ticket: nat, d: Uuid,
                           listing: seq<Uuid>)
    requires c.group.scheduler in c.servers && KeysMatch(c.instances)
    requires IsRun(StartWith(c), es)
    requires at < |es| - 1 && es[at] == ReadLookup(ticket, d)
    requires es[|es| - 1] == ReplyLookup(ticket, listing)
    ensures ticket in After(StartWith(c), es).answers
    ensures After(StartWith(c), es).answers[ticket].Target? ==>
      var t := After(StartWith(c), es).answers[ticket].server;
      t in After(StartWith(c), es).cluster.servers || Strayed(es[..at], t)
  {
    StartInv(c);
    LookupReadsOnce(StartWith(c), es, at, ticket, d, listing);
    RunGrows(StartWith(c), es, at);
    RunInv(StartWith(c), es[..at]);
    var q := Query(d, After(StartWith(c), es[..at]).cluster);
    var answer := After(StartWith(c), es).answers[ticket];
    if answer.Target? {
      AnswerReported(q, listing);
      StatsKnown(StartWith(c), es[..at], answer.server.id);
      if answer.server in q.seen.servers {
        InPrefix(q.seen.servers, After(StartWith(c), es).cluster.servers, answer.server);
      }
    }
  }

  lemma AnswerReported(q: Query, listing: seq<Uuid>)
    requires ClusterInv(q.seen) && IsListing(listing, Candidates(q).Keys)
    ensures AnswerTo(q, listing).Target? ==>
      var t := AnswerTo(q, listing).server; t.id in q.seen.stats && q.seen.stats[t.id].server == t
  {
    ChoiceFrom(Candidates(q), listing);
  }

  /** It may really be such a server: one that never joined is chosen for a spawn by its report alone. */
  lemma StrayIsChosen(s: System, info: ServerInfo, windows: seq<MonitorWindow>)
    requires s.cluster.stats == map[]
    ensures SpawnTarget(Apply(s, StrayReport(info, windows)).cluster, [info.id])
         == if s.cluster.servers == [] then None else Some(info)
  {
    var c := Apply(s, StrayReport(info, windows)).cluster;
    assert [info.id][0] == info.id && ChosenIndex(c.stats, [info.id]) == 0;
  }

  /** A successor starts with all hosts in its list if and only if the lost scheduler hosted nothing: the
      takeover drops the lost server from the list but not from the host lists. */
  lemma TakeoverHostsIff(c: ClusterValue)
    requires Distinct(c.servers) && HostsListed(c) && AfterLoss(c).Some?
    ensures HostsListed(AfterLoss(c).value) <==>
            forall d, h :: d in c.instances && h in c.instances[d].servers ==> h.id != c.group.scheduler.id
  {
    RemoveDistinct(c.servers, c.group.scheduler.id);
  }
}
