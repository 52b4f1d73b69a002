/** Deploying: which server a deployment is spawned on, in terms of what has been reported, and what a
    completed spawn changes. */
module Scheduling {
  import opened Wrappers
  import opened Identifiers
  import opened Entities
  import opened MeanScheduler
  import opened Clusters
  import opened SchedulerRuns
  import opened SchedulerInvariants

  /** The windows reported by each of the listed servers. */
  function ReportedLoads(es: seq<Event>, listing: seq<Uuid>): seq<seq<MonitorWindow>> {
    seq(|listing|, i requires 0 <= i < |listing| => Reported(es, listing[i]))
  }

  /** Among the listed servers, t is the one that the windows reported so far decide for. */
  ghost predicate Scheduled(es: seq<Event>, listing: seq<Uuid>, t: ServerInfo) {
    exists i :: 0 <= i < |listing| && Chosen(ReportedLoads(es, listing), i)
                && FirstReporter(es, listing[i]) == Some(t)
  }

  /** Statistics that hold what has been reported under each of their ids. */
  ghost predicate HoldsReports(stats: StatsMap, es: seq<Event>) {
    forall k :: k in stats ==>
      stats[k].windows == Reported(es, k) && FirstReporter(es, k) == Some(stats[k].server)
  }

  /** Choosing from such statistics is choosing by what has been reported. */
  lemma ChoiceIsScheduled(stats: StatsMap, listing: seq<Uuid>, es: seq<Event>)
    requires Covers(listing, stats) && listing != [] && HoldsReports(stats, es)
    ensures Choice(stats, listing).Some? && Scheduled(es, listing, Choice(stats, listing).value)
  {
    var i := ChosenIndex(stats, listing);
    ChoiceByLoad(stats, listing);
    assert listing[i] in listing;
    forall j | 0 <= j < |listing| ensures Loads(stats, listing)[j] == ReportedLoads(es, listing)[j] {
      assert listing[j] in listing;
    }
    assert Loads(stats, listing) == ReportedLoads(es, listing);
  }

  lemma StatsHoldReports(s: System, es: seq<Event>)
    requires IsRun(s, es) && s.cluster.stats == map[]
    ensures HoldsReports(After(s, es).cluster.stats, es)
  {
    forall k | k in After(s, es).cluster.stats
      ensures After(s, es).cluster.stats[k].windows == Reported(es, k)
      ensures FirstReporter(es, k) == Some(After(s, es).cluster.stats[k].server)
    {
      WindowsAreReports(s, es, k);
      StatsNameFirst(s, es, k);
    }
  }

  /** The target of a spawn in terms of the events before it: while nobody has reported, the first server of
      the list, that is the first one inherited or joined; then the one that the reports decide for. */
  ghost predicate IsTarget(s: System, es: seq<Event>, listing: seq<Uuid>, target: ServerInfo) {
    && (forall id :: id in listing <==> HasReported(es, id))
    && if listing == [] then s.cluster.servers + Joined(es) != [] && target == (s.cluster.servers + Joined(es))[0]
       else Scheduled(es, listing, target)
  }

  lemma SpawnTargetIs(s: System, es: seq<Event>, listing: seq<Uuid>)
    requires Inv(s) && s.cluster.stats == map[] && IsRun(s, es)
    requires IsListing(listing, After(s, es).cluster.stats.Keys)
    ensures SpawnTarget(After(s, es).cluster, listing).Some?
    ensures IsTarget(s, es, listing, SpawnTarget(After(s, es).cluster, listing).value)
  {
    RunInv(s, es);
    var c := After(s, es).cluster;
    forall id: Uuid ensures id in listing <==> HasReported(es, id) {
      StatsAreReporters(s, es, id);
    }
    ServersAreJoins(s, es);
    if listing != [] {
      StatsHoldReports(s, es);
      ChoiceIsScheduled(c.stats, listing, es);
    }
  }

  predicate OnTicket(e: Event, t: nat) {
    (e.PickTarget? || e.CommitSpawn? || e.FailSpawn?) && e.ticket == t
  }

  /** Until the spawn ends, what was asked for stays pending. */
  lemma {:induction false} StaysPending(s: System, es: seq<Event>, at: nat, t: nat)
    requires IsRun(s, es) && at < |es| && es[at].PickTarget? && es[at].ticket == t
    requires forall k :: at < k < |es| ==> !OnTicket(es[k], t)
    ensures IsRun(s, es[..at]) && Enabled(After(s, es[..at]), es[at])
    ensures Pending(s, es, t) == match SpawnTarget(After(s, es[..at]).cluster, es[at].listing)
                                 case Some(target) => Some(Placement(es[at].deployment, target))
                                 case None => None
  {
    var front := es[..|es| - 1];
    if at < |es| - 1 {
      StaysPending(s, front, at, t);
      assert front[..at] == es[..at];
    }
  }

  /** What a completed spawn changes, and nothing else: the deployment asked for gains the target at its end,
      its record is a new one of that deployment if there was none, and it becomes known. */
  lemma CommitChanges(s: System, t: nat)
    requires t in s.placements
    ensures var now, p := Apply(s, CommitSpawn(t)), s.placements[t];
            var record := if p.deployment.id in s.cluster.instances
                          then s.cluster.instances[p.deployment.id].deployment else p.deployment;
            && now.cluster == s.cluster.(instances := s.cluster.instances[p.deployment.id :=
                 AppInstances(record, Hosts(s.cluster.instances, p.deployment.id) + [p.target])])
            && now.deployments == s.deployments[p.deployment.id := p.deployment]
  {
  }

  /** A deployment takes effect: for every run in which it is asked for at `at` and its spawn completes at the
      end, whatever else happens in between, exactly its own records change, and its host is the server that
      the reports before `at` decide for. */
  lemma DeployTakesEffect(s: System, es: seq<Event>, at: nat, t: nat, d: DeploymentInfo, listing: seq<Uuid>)
    returns (target: ServerInfo)
    requires Inv(s) && s.cluster.stats == map[] && IsRun(s, es)
    requires at < |es| - 1 && es[at] == PickTarget(t, d, listing) && es[|es| - 1] == CommitSpawn(t)
    requires forall k :: at < k < |es| - 1 ==> !OnTicket(es[k], t)
    ensures IsTarget(s, es[..at], listing, target)
    ensures var before, now := After(s, es[..|es| - 1]), After(s, es);
            var record := if d.id in before.cluster.instances
                          then before.cluster.instances[d.id].deployment else d;
            && now.cluster.instances == before.cluster.instances[d.id :=
                 AppInstances(record, Hosts(before.cluster.instances, d.id) + [target])]
            && now.deployments == before.deployments[d.id := d]
  {
    var front := es[..|es| - 1];
    StaysPending(s, front, at, t);
    assert front[..at] == es[..at];
    SpawnTargetIs(s, es[..at], listing);
    target := SpawnTarget(After(s, es[..at]).cluster, listing).value;
    PlacementsArePending(s, front, t);
    CommitChanges(After(s, front), t);
  }

  /** Nothing but a completed spawn changes the records. */
  lemma OnlyCommitsChange(s: System, e: Event)
    requires Enabled(s, e) && !e.CommitSpawn?
    ensures Apply(s, e).cluster.instances == s.cluster.instances && Apply(s, e).deployments == s.deployments
  {
  }

  /** A successor inherits the group, the servers and all instance records of the cluster it takes over, and
      keeps them along every run: they only gain at their ends. */
  lemma SuccessorInherits(c: ClusterValue, es: seq<Event>)
    requires IsRun(StartWith(c), es)
    ensures var now := After(StartWith(c), es).cluster;
            && now.group == c.group && now.servers == c.servers + Joined(es)
            && Extends(c.instances, now.instances)
            && (forall d :: Hosts(now.instances, d) == Hosts(c.instances, d) + Spawned(StartWith(c), es, d))
            && (forall id :: id in now.stats <==> HasReported(es, id))
  {
    RunGrows(StartWith(c), es, 0);
    assert es[..0] == [];
    ServersAreJoins(StartWith(c), es);
    forall d ensures Hosts(After(StartWith(c), es).cluster.instances, d)
                  == Hosts(c.instances, d) + Spawned(StartWith(c), es, d) {
      HostsAreSpawns(StartWith(c), es, d);
    }
    forall id ensures id in After(StartWith(c), es).cluster.stats <==> HasReported(es, id) {
      StatsAreReporters(StartWith(c), es, id);
    }
  }
}
