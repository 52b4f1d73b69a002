/** The cluster record of a scheduler: its operations in place, and what they do to its value. */
module Clusters {
  import opened Wrappers
  import opened Identifiers
  import opened Entities

  // ----- server lists -----

  /** The first position holding the id, or the length of the list. */
  function FirstIndex(servers: seq<ServerInfo>, id: Uuid): (i: nat)
    ensures i <= |servers|
    ensures i < |servers| ==> servers[i].id == id
    ensures forall j :: 0 <= j < i ==> servers[j].id != id
  {
    if servers == [] || servers[0].id == id then 0 else 1 + FirstIndex(servers[1..], id)
  }

  /** The list without the first server that has the id. */
  function RemoveFirst(servers: seq<ServerInfo>, id: Uuid): seq<ServerInfo> {
    var i := FirstIndex(servers, id);
    if i < |servers| then servers[..i] + servers[i + 1..] else servers
  }

  /** The first server among those with the lowest id. */
  function Lowest(servers: seq<ServerInfo>): (s: ServerInfo)
    requires servers != []
    ensures s in servers
    ensures forall t :: t in servers ==> s.id <= t.id
  {
    var n := |servers| - 1;
    assert servers == servers[..n] + [servers[n]];
    if n == 0 then servers[0]
    else
      var best := Lowest(servers[..n]);
      if servers[n].id < best.id then servers[n] else best
  }

  ghost function IdBag(servers: seq<ServerInfo>): multiset<Uuid> { multiset(Ids(servers)) }

  lemma IdBagMember(servers: seq<ServerInfo>, id: Uuid)
    ensures id in IdBag(servers) <==> exists s :: s in servers && s.id == id
  {
    if id in IdBag(servers) {
      var i :| 0 <= i < |servers| && Ids(servers)[i] == id;
      assert servers[i] in servers;
    }
    if s :| s in servers && s.id == id {
      var i :| 0 <= i < |servers| && servers[i] == s;
      assert Ids(servers)[i] == id;
    }
  }

  lemma IdBagConcat(a: seq<ServerInfo>, b: seq<ServerInfo>)
    ensures IdBag(a + b) == IdBag(a) + IdBag(b)
  {
    assert Ids(a + b) == Ids(a) + Ids(b);
  }

  lemma IdBagSplit(servers: seq<ServerInfo>, i: nat)
    requires i < |servers|
    ensures IdBag(servers) ==
            IdBag(servers[..i]) + multiset{servers[i].id} + IdBag(servers[i + 1..])
  {
    assert servers == servers[..i] + ([servers[i]] + servers[i + 1..]);
    IdBagConcat(servers[..i], [servers[i]] + servers[i + 1..]);
    IdBagConcat([servers[i]], servers[i + 1..]);
    assert Ids([servers[i]]) == [servers[i].id];
  }

  lemma IdInBag(servers: seq<ServerInfo>, id: Uuid)
    ensures id in IdBag(servers) <==> FirstIndex(servers, id) < |servers|
  {
    var i := FirstIndex(servers, id);
    if i < |servers| {
      assert Ids(servers)[i] == id;
    }
  }

  /** Removal takes away one occurrence of the id, never more. */
  lemma RemoveFirstBag(servers: seq<ServerInfo>, id: Uuid)
    ensures IdBag(RemoveFirst(servers, id)) == IdBag(servers) - multiset{id}
  {
    IdInBag(servers, id);
    var i := FirstIndex(servers, id);
    if i < |servers| {
      IdBagSplit(servers, i);
      IdBagConcat(servers[..i], servers[i + 1..]);
    }
  }

  /** The lowest id depends only on which ids occur, not on order or repetition. */
  lemma LowestByMembers(a: seq<ServerInfo>, b: seq<ServerInfo>)
    requires a != [] && b != []
    requires forall id :: id in IdBag(a) <==> id in IdBag(b)
    ensures Lowest(a).id == Lowest(b).id
  {
    IdBagMember(a, Lowest(a).id);
    IdBagMember(b, Lowest(a).id);
    IdBagMember(b, Lowest(b).id);
    IdBagMember(a, Lowest(b).id);
  }

  // ----- the operations on values -----

  function NewCluster(scheduler: ServerInfo): ClusterValue {
    ClusterValue(GroupInfo(0, scheduler), [scheduler], map[], map[])
  }

  function WithServer(c: ClusterValue, s: ServerInfo): ClusterValue {
    c.(servers := c.servers + [s])
  }

  function Hosts(m: InstanceMap, id: Uuid): seq<ServerInfo> {
    if id in m then m[id].servers else []
  }

  /** An existing record keeps its deployment and gains the servers at its end. */
  function WithInstance(c: ClusterValue, d: DeploymentInfo, servers: seq<ServerInfo>): ClusterValue {
    var deployment := if d.id in c.instances then c.instances[d.id].deployment else d;
    c.(instances := c.instances[d.id := AppInstances(deployment, Hosts(c.instances, d.id) + servers)])
  }

  function Windows(m: StatsMap, id: Uuid): seq<MonitorWindow> {
    if id in m then m[id].windows else []
  }

  /** An existing record keeps its server and gains the windows at its end. */
  function WithStats(c: ClusterValue, s: ServerStats): ClusterValue {
    var id := s.server.id;
    var server := if id in c.stats then c.stats[id].server else s.server;
    c.(stats := c.stats[id := ServerStats(server, Windows(c.stats, id) + s.windows)])
  }

  function Without(c: ClusterValue, id: Uuid): ClusterValue {
    c.(servers := RemoveFirst(c.servers, id))
  }

  function Elected(c: ClusterValue): ClusterValue
    requires c.servers != []
  {
    c.(group := c.group.(scheduler := Lowest(c.servers)))
  }

  // ----- the record -----

  class Cluster {
    var group: GroupInfo
    var servers: seq<ServerInfo>
    var instances: InstanceMap
    var stats: StatsMap

    function Contents(): ClusterValue
      reads this
    {
      ClusterValue(group, servers, instances, stats)
    }

    constructor New(scheduler: ServerInfo)
      ensures Contents() == NewCluster(scheduler)
    {
      group := GroupInfo(0, scheduler);
      servers := [scheduler];
      instances, stats := map[], map[];
    }

    constructor Of(c: ClusterValue)
      ensures Contents() == c
    {
      group, servers, instances, stats := c.group, c.servers, c.instances, c.stats;
    }

    method PushServer(s: ServerInfo)
      modifies this
      ensures Contents() == WithServer(old(Contents()), s)
    {
      servers := servers + [s];
    }

    /** The caller must be in the list: an empty list has no first server to start from. */
    method ChooseScheduler() returns (chosen: ServerInfo)
      requires servers != []
      modifies this
      ensures Contents() == Elected(old(Contents()))
      ensures chosen == group.scheduler && chosen in servers
      ensures forall s :: s in servers ==> chosen.id <= s.id
    {
      chosen := servers[0];
      for n := 0 to |servers|
        invariant chosen == if n == 0 then servers[0] else Lowest(servers[..n])
      {
        assert servers[..n + 1][..n] == servers[..n];
        if servers[n].id < chosen.id {
          chosen := servers[n];
        }
      }
      assert servers[..|servers|] == servers;
      group := group.(scheduler := chosen);
    }

    method RemoveServer(id: Uuid) returns (removed: Option<ServerInfo>)
      modifies this
      ensures Contents() == Without(old(Contents()), id)
      ensures removed.None? <==> id !in old(IdBag(servers))
      ensures removed.Some? ==>
        removed.value.id == id && IdBag(servers) == old(IdBag(servers)) - multiset{id}
    {
      IdInBag(servers, id);
      RemoveFirstBag(servers, id);
      var index := 0;
      while index < |servers| && servers[index].id != id
        invariant 0 <= index <= FirstIndex(servers, id)
      {
        index := index + 1;
      }
      if index == |servers| {
        return None;
      }
      removed := Some(servers[index]);
      servers := servers[..index] + servers[index + 1..];
    }

    method InsertInstance(d: DeploymentInfo, where: seq<ServerInfo>)
      modifies this
      ensures Contents() == WithInstance(old(Contents()), d, where)
    {
      if d.id in instances {
        var entry := instances[d.id];
        instances := instances[d.id := entry.(servers := entry.servers + where)];
      } else {
        assert [] + where == where;
        instances := instances[d.id := AppInstances(d, where)];
      }
    }

    method InsertStats(s: ServerStats)
      modifies this
      ensures Contents() == WithStats(old(Contents()), s)
    {
      var id := s.server.id;
      if id in stats {
        var entry := stats[id];
        stats := stats[id := entry.(windows := entry.windows + s.windows)];
      } else {
        assert [] + s.windows == s.windows;
        stats := stats[id := s];
      }
    }

    /** `get_instance_server_ids`: nothing when the deployment is unknown. */
    method InstanceServerIds(deployment: Uuid) returns (ids: Option<seq<Uuid>>)
      ensures ids.Some? <==> deployment in instances
      ensures ids.Some? ==> ids.value == Ids(instances[deployment].servers)
    {
      if deployment !in instances {
        return None;
      }
      ids := Some(Ids(instances[deployment].servers));
    }
  }

  // ----- the election after the scheduler is lost -----

  /** The failover arm's change to a cached cluster: drop the scheduler once, elect the lowest id. */
  function AfterLoss(c: ClusterValue): Option<ClusterValue> {
    var rest := Without(c, c.group.scheduler.id);
    if rest.servers == [] then None else Some(Elected(rest))
  }

  /** The election settles on the very scheduler that was lost if and only if it was listed more than
      once and nobody has a lower id. */
  lemma ElectsLostIff(c: ClusterValue)
    requires AfterLoss(c).Some?
    ensures var lost := c.group.scheduler.id;
            AfterLoss(c).value.group.scheduler.id == lost <==>
            IdBag(c.servers)[lost] > 1 && forall s :: s in c.servers ==> lost <= s.id
  {
    var lost := c.group.scheduler.id;
    var rest := RemoveFirst(c.servers, lost);
    var winner := Lowest(rest);
    RemoveFirstBag(c.servers, lost);
    IdBagMember(rest, winner.id);
    IdBagMember(rest, lost);
    if winner.id == lost {
      forall s | s in c.servers ensures lost <= s.id {
        IdBagMember(c.servers, s.id);
        IdBagMember(rest, s.id);
      }
    } else if IdBag(c.servers)[lost] > 1 {
      IdBagMember(c.servers, winner.id);
      var s :| s in rest && s.id == lost;
    }
  }

  /** The elected id depends only on the scheduler's id and the bag of ids in the list. */
  lemma ElectionByFingerprint(c: ClusterValue, d: ClusterValue)
    requires c.group.scheduler.id == d.group.scheduler.id
    requires IdBag(c.servers) == IdBag(d.servers)
    ensures AfterLoss(c).Some? <==> AfterLoss(d).Some?
    ensures AfterLoss(c).Some? ==>
      AfterLoss(c).value.group.scheduler.id == AfterLoss(d).value.group.scheduler.id
  {
    var lost := c.group.scheduler.id;
    RemoveFirstBag(c.servers, lost);
    RemoveFirstBag(d.servers, lost);
    var a, b := RemoveFirst(c.servers, lost), RemoveFirst(d.servers, lost);
    assert |a| == |IdBag(a)| == |IdBag(b)| == |b|;
    if a != [] {
      LowestByMembers(a, b);
    }
  }
}
