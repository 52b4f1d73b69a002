/** Losing one scheduler after another. A survivor that follows a new scheduler is pushed onto a list that
    already has it, and a lost scheduler is dropped only once. */
module Generations {
  import opened Wrappers
  import opened Identifiers
  import opened Entities
  import opened ClusterDiff
  import opened Clusters
  import opened SchedulerRuns
  import opened SchedulerInvariants
  import opened Failover
  import opened Elections
  import opened ElectionRuns

  /** The ids left in the list after a loss, and the election among them. */
  lemma AfterLossBag(c: ClusterValue)
    requires IdBag(c.servers) - multiset{c.group.scheduler.id} != multiset{}
    ensures AfterLoss(c).Some?
    ensures var next := AfterLoss(c).value;
            && IdBag(next.servers) == IdBag(c.servers) - multiset{c.group.scheduler.id}
            && next.group.scheduler.id in IdBag(next.servers)
            && forall id :: id in IdBag(next.servers) ==> next.group.scheduler.id <= id
  {
    var rest := RemoveFirst(c.servers, c.group.scheduler.id);
    RemoveFirstBag(c.servers, c.group.scheduler.id);
    assert rest != [];
    IdBagMember(rest, Lowest(rest).id);
    forall id | id in IdBag(rest) ensures Lowest(rest).id <= id {
      IdBagMember(rest, id);
    }
  }

  lemma DistinctBag(servers: seq<ServerInfo>, id: Uuid)
    requires Distinct(servers)
    ensures IdBag(servers)[id] <= 1
  {
    var i := FirstIndex(servers, id);
    IdInBag(servers, id);
    if i < |servers| {
      IdBagSplit(servers, i);
      if id in IdBag(servers[..i]) {
        IdBagMember(servers[..i], id);
      }
      if id in IdBag(servers[i + 1..]) {
        IdBagMember(servers[i + 1..], id);
      }
    }
  }

  /** The cluster after the successor's run: its list, and then everyone who joined it. */
  lemma RunBag(c: ClusterValue, es: seq<Event>)
    requires IsRun(StartWith(c), es)
    ensures var now := After(StartWith(c), es).cluster;
            IdBag(now.servers) == IdBag(c.servers) + IdBag(Joined(es)) && now.group == c.group
  {
    ServersAreJoins(StartWith(c), es);
    GroupKept(StartWith(c), es);
    IdBagConcat(c.servers, Joined(es));
  }

  /** The servers that follow a new scheduler: all that are alive, except the scheduler itself. */
  ghost predicate EveryoneFollows(es: seq<Event>, alive: multiset<Uuid>, scheduler: Uuid) {
    IdBag(Joined(es)) == alive - multiset{scheduler}
  }

  /** The first loss leaves every other server listed once and elects the lowest of them. */
  lemma FirstLoss(c: ClusterValue)
    requires Distinct(c.servers) && c.group.scheduler in c.servers && |c.servers| >= 2
    ensures AfterLoss(c).Some?
    ensures var next := AfterLoss(c).value;
            && IdBag(next.servers) == IdBag(c.servers) - multiset{c.group.scheduler.id}
            && |IdBag(next.servers)| == |c.servers| - 1
            && IdBag(next.servers)[next.group.scheduler.id] == 1
            && c.group.scheduler.id !in IdBag(next.servers)
  {
    var lost := c.group.scheduler.id;
    IdBagMember(c.servers, lost);
    DistinctBag(c.servers, lost);
    assert |IdBag(c.servers)| == |c.servers|;
    assert |IdBag(c.servers) - multiset{lost}| == |c.servers| - 1;
    AfterLossBag(c);
    DistinctBag(c.servers, AfterLoss(c).value.group.scheduler.id);
  }

  /** A list that holds every survivor once, to which all but the scheduler have been added again. */
  lemma LossAfterRejoin(c: ClusterValue, alive: multiset<Uuid>, scheduler: Uuid)
    requires c.group.scheduler.id == scheduler && alive[scheduler] == 1 && |alive| >= 2
    requires IdBag(c.servers) == alive + (alive - multiset{scheduler})
    ensures AfterLoss(c).Some?
    ensures var next, rest := AfterLoss(c).value, alive - multiset{scheduler};
            && IdBag(next.servers) == rest + rest
            && next.group.scheduler.id in rest
            && forall id :: id in rest ==> next.group.scheduler.id <= id
  {
    var rest := alive - multiset{scheduler};
    assert |rest| >= 1;
    assert IdBag(c.servers) - multiset{scheduler} == rest + rest;
    assert |rest + rest| > 0;
    AfterLossBag(c);
    forall id | id in rest ensures AfterLoss(c).value.group.scheduler.id <= id {
      assert id in rest + rest;
    }
  }

  /** The scheduler of the cluster is lost, and all others that are alive follow the successor. */
  ghost predicate Takeover(c: ClusterValue, es: seq<Event>, alive: multiset<Uuid>) {
    && AfterLoss(c).Some? && IsRun(StartWith(AfterLoss(c).value), es)
    && EveryoneFollows(es, alive, AfterLoss(c).value.group.scheduler.id)
  }

  /** The cluster at the end of the successor's run. */
  ghost function NextCluster(c: ClusterValue, es: seq<Event>): ClusterValue
    requires AfterLoss(c).Some? && IsRun(StartWith(AfterLoss(c).value), es)
  {
    After(StartWith(AfterLoss(c).value), es).cluster
  }

  /** Those alive after the first loss, and after the loss of its successor. */
  ghost function Alive1(c0: ClusterValue): multiset<Uuid> {
    IdBag(c0.servers) - multiset{c0.group.scheduler.id}
  }

  ghost function Alive2(c0: ClusterValue): multiset<Uuid>
    requires AfterLoss(c0).Some?
  {
    Alive1(c0) - multiset{AfterLoss(c0).value.group.scheduler.id}
  }

  /** A first successor is listed once, so the second election never picks it, whoever rejoined it; it
      picks the lowest id among those alive. */
  lemma SecondElectionPicksAlive(c0: ClusterValue, es: seq<Event>)
    requires Distinct(c0.servers) && c0.group.scheduler in c0.servers && |c0.servers| >= 3
    requires Takeover(c0, es, Alive1(c0))
    ensures var c1 := NextCluster(c0, es);
            && AfterLoss(c1).Some?
            && IdBag(AfterLoss(c1).value.servers) == Alive2(c0) + Alive2(c0)
            && AfterLoss(c1).value.group.scheduler.id in Alive2(c0)
            && forall id :: id in Alive2(c0) ==> AfterLoss(c1).value.group.scheduler.id <= id
  {
    FirstLoss(c0);
    RunBag(AfterLoss(c0).value, es);
    LossAfterRejoin(NextCluster(c0, es), Alive1(c0), AfterLoss(c0).value.group.scheduler.id);
  }

  /** A list that holds its scheduler, the lowest of those alive, a second time. */
  lemma LossAfterSecondRejoin(c: ClusterValue, alive: multiset<Uuid>)
    requires c.group.scheduler.id in alive
    requires forall id :: id in alive ==> c.group.scheduler.id <= id
    requires IdBag(c.servers) == alive + alive + (alive - multiset{c.group.scheduler.id})
    ensures AfterLoss(c).Some? && AfterLoss(c).value.group.scheduler.id == c.group.scheduler.id
  {
    assert c.group.scheduler.id in IdBag(c.servers) - multiset{c.group.scheduler.id};
    AfterLossBag(c);
  }

  /** The third loss breaks the cluster: for every cluster of at least four servers with distinct ids, if
      after each of the first two losses all survivors rejoin the successor, the election after the third
      settles on the very server that was just lost. Here as above, the successors and the servers that
      elect are taken to have current caches. */
  lemma ThirdElectionPicksTheLost(c0: ClusterValue, es1: seq<Event>, es2: seq<Event>)
    requires Distinct(c0.servers) && c0.group.scheduler in c0.servers && |c0.servers| >= 4
    requires Takeover(c0, es1, Alive1(c0)) && Takeover(NextCluster(c0, es1), es2, Alive2(c0))
    ensures var c2 := NextCluster(NextCluster(c0, es1), es2);
            AfterLoss(c2).Some? && AfterLoss(c2).value.group.scheduler.id == c2.group.scheduler.id
  {
    SecondElectionPicksAlive(c0, es1);
    var c1 := NextCluster(c0, es1);
    RunBag(AfterLoss(c1).value, es2);
    LossAfterSecondRejoin(NextCluster(c1, es2), Alive2(c0));
  }

  /** A cache that shows the scheduler and the ids that the cluster has. */
  ghost predicate ShowsIds(cache: ClusterState, c: ClusterValue) {
    && ClusterFromWire(cache).Success?
    && ClusterFromWire(cache).value.group.scheduler.id == c.group.scheduler.id
    && IdBag(ClusterFromWire(cache).value.servers) == IdBag(c.servers)
  }

  /** So nobody becomes scheduler then: every server but the lost one, electing from a cache that shows the
      ids of the third scheduler's cluster, sends a join, and it sends it to the server that was lost. */
  lemma NobodyAfterThird(c0: ClusterValue, es1: seq<Event>, es2: seq<Event>, self: ServerInfo,
                         cache: ClusterState) returns (target: ServerInfo)
    requires Distinct(c0.servers) && c0.group.scheduler in c0.servers && |c0.servers| >= 4
    requires Takeover(c0, es1, Alive1(c0)) && Takeover(NextCluster(c0, es1), es2, Alive2(c0))
    requires var c2 := NextCluster(NextCluster(c0, es1), es2);
             ShowsIds(cache, c2) && self.id != c2.group.scheduler.id
    ensures target.id == NextCluster(NextCluster(c0, es1), es2).group.scheduler.id
    ensures LossCommand(self, Some(cache)) == Success(Update(Joining(target.addr)))
  {
    ThirdElectionPicksTheLost(c0, es1, es2);
    var c := ClusterFromWire(cache).value;
    ElectionByFingerprint(c, NextCluster(NextCluster(c0, es1), es2));
    target := AfterLoss(c).value.group.scheduler;
  }

  // ----- such runs exist -----

  /** Whoever wants to can join, one after the other. */
  lemma {:induction false} JoinsRun(s: System, servers: seq<ServerInfo>) returns (es: seq<Event>)
    ensures IsRun(s, es) && Joined(es) == servers
    ensures After(s, es).reporters == s.reporters
    ensures forall t :: t in servers ==> t.id in After(s, es).members
  {
    if servers == [] {
      es := [];
    } else {
      var front, last := servers[..|servers| - 1], servers[|servers| - 1];
      var before := JoinsRun(s, front);
      Extend(s, before, PushServer(last));
      es := before + [PushServer(last)];
      assert front + [last] == servers;
    }
  }

  lemma {:induction false} ListingExists(keys: set<Uuid>) returns (listing: seq<Uuid>)
    ensures IsListing(listing, keys)
    decreases |keys|
  {
    if k :| k in keys {
      var rest := ListingExists(keys - {k});
      listing := rest + [k];
    } else {
      listing := [];
    }
  }

  /** The first m of the servers have a reporter each, under the number of their place, with the present
      state in its cache; the others can still start theirs. */
  ghost predicate AllTold(s: System, servers: seq<ServerInfo>, m: nat, listing: seq<Uuid>) {
    && IsListing(listing, s.cluster.instances.Keys)
    && (forall t :: t in servers ==> t.id in s.members)
    && (forall r :: r in s.reporters ==> r < m)
    && (forall r: nat :: r < m && r < |servers| ==> IsTold(s, servers, r, listing))
  }

  ghost predicate IsTold(s: System, servers: seq<ServerInfo>, r: nat, listing: seq<Uuid>)
    requires IsListing(listing, s.cluster.instances.Keys) && r < |servers|
  {
    r in s.reporters && Of(s, r).id == servers[r].id && Current(s, r, listing)
  }

  lemma NextTold(s: System, servers: seq<ServerInfo>, m: nat, listing: seq<Uuid>)
    requires Inv(s) && AllTold(s, servers, m, listing) && m < |servers|
    ensures servers[m].id in s.members
    ensures AllTold(Informed(Started(s, servers[m].id, m), s.members[servers[m].id].info, m, listing),
                    servers, m + 1, listing)
  {
    assert servers[m] in servers;
    var id := servers[m].id;
    assert MemberInv(s.members[id], id, s.cluster);
    var now := Informed(Started(s, id, m), s.members[id].info, m, listing);
    DiffersFromItself(ClusterToWire(now.cluster, listing));
    forall r: nat | r < m + 1 ensures IsTold(now, servers, r, listing) {
      assert r < m ==> IsTold(s, servers, r, listing);
    }
  }

  /** After they have all joined, they can all be told. */
  lemma {:induction false} TellsRun(s: System, es: seq<Event>, servers: seq<ServerInfo>, m: nat, listing: seq<Uuid>)
    returns (longer: seq<Event>)
    requires Inv(s) && IsRun(s, es) && AllTold(After(s, es), servers, 0, listing) && m <= |servers|
    ensures IsRun(s, longer) && Joined(longer) == Joined(es)
    ensures AllTold(After(s, longer), servers, m, listing)
  {
    if m == 0 {
      longer := es;
    } else {
      var before := TellsRun(s, es, servers, m - 1, listing);
      RunInv(s, before);
      NextTold(After(s, before), servers, m - 1, listing);
      longer := Tell(s, before, servers[m - 1].id, m - 1, listing);
    }
  }

  /** The servers that follow when these are alive. */
  ghost function Followers(c: ClusterValue, alive: seq<ServerInfo>): seq<ServerInfo>
    requires AfterLoss(c).Some?
  {
    RemoveFirst(alive, AfterLoss(c).value.group.scheduler.id)
  }

  /** A takeover in which everybody alive follows can happen whenever the successor is alive, with everybody
      told of the state it leads to. */
  lemma TakeoverHappens(c: ClusterValue, alive: seq<ServerInfo>) returns (es: seq<Event>, listing: seq<Uuid>)
    requires AfterLoss(c).Some? && AfterLoss(c).value.group.scheduler.id in IdBag(alive)
    requires KeysMatch(c.instances)
    ensures Takeover(c, es, IdBag(alive))
    ensures AllTold(After(StartWith(AfterLoss(c).value), es), Followers(c, alive),
                    |Followers(c, alive)|, listing)
  {
    var next := AfterLoss(c).value;
    StartInv(next);
    RemoveFirstBag(alive, next.group.scheduler.id);
    var joins := JoinsRun(StartWith(next), Followers(c, alive));
    listing := ListingExists(After(StartWith(next), joins).cluster.instances.Keys);
    es := TellsRun(StartWith(next), joins, Followers(c, alive), |Followers(c, alive)|, listing);
  }

  /** The reporter r of the server in its place sends a join to the target. */
  ghost predicate Stranded(s: System, left: seq<ServerInfo>, r: nat, target: ServerInfo)
    requires r < |left|
  {
    && r in s.reporters && Of(s, r).id == left[r].id
    && Command(s, r) == Success(Update(Joining(target.addr)))
  }

  /** What the reporters do at the end of a takeover that leads to a cluster whose next election picks the
      lost: all send a join to a server with its id. */
  lemma AllStranded(s: System, servers: seq<ServerInfo>, listing: seq<Uuid>, r: nat)
    requires Inv(s) && AllTold(s, servers, |servers|, listing) && r < |servers|
    requires AfterLoss(s.cluster).Some? && AfterLoss(s.cluster).value.group.scheduler.id == Lost(s)
    requires servers[r].id != Lost(s)
    ensures r in s.reporters && Of(s, r).id == servers[r].id
    ensures Command(s, r) == Success(Update(Joining(AfterLoss(s.cluster).value.group.scheduler.addr)))
  {
    assert IsTold(s, servers, r, listing);
    CurrentCachesAgree(s, r, listing);
  }

  /** Every cluster of at least four servers with distinct ids can run into the third loss, with a reporter
      for each server that is left; and then each of them sends a join to the server just lost. */
  lemma ThirdLossHappens(c0: ClusterValue)
    returns (es1: seq<Event>, es2: seq<Event>, left: seq<ServerInfo>, target: ServerInfo)
    requires Distinct(c0.servers) && c0.group.scheduler in c0.servers && |c0.servers| >= 4
    requires KeysMatch(c0.instances)
    ensures Takeover(c0, es1, Alive1(c0)) && Takeover(NextCluster(c0, es1), es2, Alive2(c0))
    ensures var c1 := NextCluster(c0, es1);
            var s := After(StartWith(AfterLoss(c1).value), es2);
            && IdBag(left) == Alive2(c0) - multiset{Lost(s)} && target.id == Lost(s)
            && (forall r :: r in s.reporters ==> r < |left|)
            && forall r: nat :: r < |left| ==> Stranded(s, left, r, target)
  {
    FirstLoss(c0);
    var listing;
    es1, listing := TakeoverHappens(c0, AfterLoss(c0).value.servers);
    NextKeysMatch(c0, es1);
    es2, left, listing := SecondHappens(c0, es1);
    target := ThirdStrands(c0, es1, es2, left, listing);
  }

  lemma SecondHappens(c0: ClusterValue, es1: seq<Event>)
    returns (es2: seq<Event>, left: seq<ServerInfo>, listing: seq<Uuid>)
    requires Distinct(c0.servers) && c0.group.scheduler in c0.servers && |c0.servers| >= 4
    requires Takeover(c0, es1, Alive1(c0)) && KeysMatch(NextCluster(c0, es1).instances)
    ensures Takeover(NextCluster(c0, es1), es2, Alive2(c0))
    ensures var s := After(StartWith(AfterLoss(NextCluster(c0, es1)).value), es2);
            && IdBag(left) == Alive2(c0) - multiset{Lost(s)}
            && AllTold(s, left, |left|, listing)
  {
    FirstLoss(c0);
    SecondElectionPicksAlive(c0, es1);
    var c1, next := NextCluster(c0, es1), AfterLoss(c0).value;
    var alive2 := RemoveFirst(next.servers, next.group.scheduler.id);
    RemoveFirstBag(next.servers, next.group.scheduler.id);
    es2, listing := TakeoverHappens(c1, alive2);
    left := Followers(c1, alive2);
    RemoveFirstBag(alive2, AfterLoss(c1).value.group.scheduler.id);
    GroupKept(StartWith(AfterLoss(c1).value), es2);
  }

  lemma NextKeysMatch(c: ClusterValue, es: seq<Event>)
    requires AfterLoss(c).Some? && KeysMatch(c.instances) && IsRun(StartWith(AfterLoss(c).value), es)
    ensures KeysMatch(NextCluster(c, es).instances)
  {
    StartInv(AfterLoss(c).value);
    RunInv(StartWith(AfterLoss(c).value), es);
  }

  lemma ThirdStrands(c0: ClusterValue, es1: seq<Event>, es2: seq<Event>, left: seq<ServerInfo>,
                     listing: seq<Uuid>) returns (target: ServerInfo)
    requires Distinct(c0.servers) && c0.group.scheduler in c0.servers && |c0.servers| >= 4
    requires Takeover(c0, es1, Alive1(c0)) && Takeover(NextCluster(c0, es1), es2, Alive2(c0))
    requires KeysMatch(NextCluster(c0, es1).instances)
    requires var s := After(StartWith(AfterLoss(NextCluster(c0, es1)).value), es2);
             && IdBag(left) == Alive2(c0) - multiset{Lost(s)}
             && AllTold(s, left, |left|, listing)
    ensures var s := After(StartWith(AfterLoss(NextCluster(c0, es1)).value), es2);
            && target.id == Lost(s)
            && (forall r :: r in s.reporters ==> r < |left|)
            && forall r: nat :: r < |left| ==> Stranded(s, left, r, target)
  {
    ThirdElectionPicksTheLost(c0, es1, es2);
    var c1 := NextCluster(c0, es1);
    var s := After(StartWith(AfterLoss(c1).value), es2);
    StartInv(AfterLoss(c1).value);
    RunInv(StartWith(AfterLoss(c1).value), es2);
    target := AfterLoss(s.cluster).value.group.scheduler;
    AliveOnce(c0, Lost(s));
    forall r: nat | r < |left| ensures Stranded(s, left, r, target) {
      IdBagMember(left, left[r].id);
      AllStranded(s, left, listing, r);
    }
  }

  lemma AliveOnce(c0: ClusterValue, id: Uuid)
    requires Distinct(c0.servers) && AfterLoss(c0).Some?
    ensures id !in Alive2(c0) - multiset{id}
  {
    DistinctBag(c0.servers, id);
  }
}
