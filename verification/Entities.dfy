/** The daemon's own records, the messages that carry them, and the conversions between the two. */
module Entities {
  import opened Wrappers
  import opened Identifiers

  datatype ServerInfo = ServerInfo(id: Uuid, addr: string)
  datatype GroupInfo = GroupInfo(number: nat, scheduler: ServerInfo)
  datatype DeploymentInfo = DeploymentInfo(id: Uuid, name: string, source: string)
  datatype AppInstances = AppInstances(deployment: DeploymentInfo, servers: seq<ServerInfo>)

  datatype Timestamp = Timestamp(seconds: int, nanos: int)
  datatype MonitorWindow = MonitorWindow(start: Timestamp, end: Timestamp, cpu: int, gpu: int)
  datatype ServerStats = ServerStats(server: ServerInfo, windows: seq<MonitorWindow>)

  type InstanceMap = map<Uuid, AppInstances>
  type StatsMap = map<Uuid, ServerStats>

  /** The value of a `Cluster`. */
  datatype ClusterValue = ClusterValue(
    group: GroupInfo, servers: seq<ServerInfo>, instances: InstanceMap, stats: StatsMap)

  datatype Server = Server(id: string, addr: string)
  datatype Group = Group(number: nat, scheduler: Option<Server>)
  datatype Deployment = Deployment(id: string, name: string, source: string)
  datatype AppInstanceLocations =
    AppInstanceLocations(deployment: Option<Deployment>, locations: seq<Server>)
  datatype ClusterState = ClusterState(
    group: Option<Group>, servers: seq<Server>, instances: seq<AppInstanceLocations>)

  datatype Error = BadId | NoScheduler | NoDeployment | NoGroup

  /** The identifiers of a server list, in its order. */
  function Ids(servers: seq<ServerInfo>): (ids: seq<Uuid>)
    ensures |ids| == |servers|
    ensures forall i :: 0 <= i < |ids| ==> ids[i] == servers[i].id
  {
    seq(|servers|, i requires 0 <= i < |servers| => servers[i].id)
  }

  /** `IdMap::clone_by_ids`: the entries found under the given keys. */
  function CloneByIds<T>(m: map<Uuid, T>, ids: seq<Uuid>): map<Uuid, T> {
    map k | k in ids && k in m :: m[k]
  }

  // ----- records to messages -----

  function ServerToWire(s: ServerInfo): Server { Server(UuidText(s.id), s.addr) }

  function GroupToWire(g: GroupInfo): Group { Group(g.number, Some(ServerToWire(g.scheduler))) }

  function DeploymentToWire(d: DeploymentInfo): Deployment {
    Deployment(UuidText(d.id), d.name, d.source)
  }

  function ServersToWire(ss: seq<ServerInfo>): seq<Server> {
    seq(|ss|, i requires 0 <= i < |ss| => ServerToWire(ss[i]))
  }

  function InstancesToWire(a: AppInstances): AppInstanceLocations {
    AppInstanceLocations(Some(DeploymentToWire(a.deployment)), ServersToWire(a.servers))
  }

  /** One way of walking a hash map: every key exactly once, in an order nobody controls. */
  ghost predicate IsListing(listing: seq<Uuid>, keys: set<Uuid>) {
    && (forall k :: k in listing <==> k in keys)
    && (forall i, j :: 0 <= i < j < |listing| ==> listing[i] != listing[j])
  }

  function InstancesListed(m: InstanceMap, listing: seq<Uuid>): seq<AppInstanceLocations>
    requires forall k :: k in listing ==> k in m
  {
    seq(|listing|, i requires 0 <= i < |listing| => InstancesToWire(m[listing[i]]))
  }

  /** `Into<ClusterState> for Cluster`, for one order of the instance map's values. */
  function ClusterToWire(c: ClusterValue, listing: seq<Uuid>): ClusterState
    requires forall k :: k in listing ==> k in c.instances
  {
    ClusterState(Some(GroupToWire(c.group)), ServersToWire(c.servers),
                 InstancesListed(c.instances, listing))
  }

  // ----- messages to records -----

  function ServerFromWire(w: Server): Result<ServerInfo, Error> {
    match ParseUuid(w.id)
    case Some(id) => Success(ServerInfo(id, w.addr))
    case None => Failure(BadId)
  }

  function GroupFromWire(w: Group): Result<GroupInfo, Error> {
    match w.scheduler
    case None => Failure(NoScheduler)
    case Some(s) =>
      match ServerFromWire(s)
      case Failure(e) => Failure(e)
      case Success(info) => Success(GroupInfo(w.number, info))
  }

  function DeploymentFromWire(w: Deployment): Result<DeploymentInfo, Error> {
    match ParseUuid(w.id)
    case Some(id) => Success(DeploymentInfo(id, w.name, w.source))
    case None => Failure(BadId)
  }

  /** Collecting a list of results: the first error in list order wins. */
  function ServersFromWire(ws: seq<Server>): Result<seq<ServerInfo>, Error> {
    if ws == [] then Success([]) else
    match ServersFromWire(ws[..|ws| - 1])
    case Failure(e) => Failure(e)
    case Success(front) =>
      match ServerFromWire(ws[|ws| - 1])
      case Failure(e) => Failure(e)
      case Success(s) => Success(front + [s])
  }

  function InstancesFromWire(w: AppInstanceLocations): Result<AppInstances, Error> {
    match w.deployment
    case None => Failure(NoDeployment)
    case Some(d) =>
      match DeploymentFromWire(d)
      case Failure(e) => Failure(e)
      case Success(deployment) =>
        match ServersFromWire(w.locations)
        case Failure(e) => Failure(e)
        case Success(servers) => Success(AppInstances(deployment, servers))
  }

  /** Collecting into a hash map keyed by the deployment's id: a later duplicate wins. */
  function InstanceMapFromWire(ws: seq<AppInstanceLocations>): Result<InstanceMap, Error> {
    if ws == [] then Success(map[]) else
    match InstanceMapFromWire(ws[..|ws| - 1])
    case Failure(e) => Failure(e)
    case Success(front) =>
      match InstancesFromWire(ws[|ws| - 1])
      case Failure(e) => Failure(e)
      case Success(a) => Success(front[a.deployment.id := a])
  }

  /** `TryFrom<ClusterState> for Cluster`. */
  function ClusterFromWire(w: ClusterState): Result<ClusterValue, Error> {
    match w.group
    case None => Failure(NoGroup)
    case Some(g) =>
      match GroupFromWire(g)
      case Failure(e) => Failure(e)
      case Success(group) =>
        match ServersFromWire(w.servers)
        case Failure(e) => Failure(e)
        case Success(servers) =>
          match InstanceMapFromWire(w.instances)
          case Failure(e) => Failure(e)
          case Success(instances) => Success(ClusterValue(group, servers, instances, map[]))
  }

  // ----- round trips -----

  /** Each instance record sits under its own deployment's id. */
  ghost predicate KeysMatch(m: InstanceMap) {
    forall k :: k in m ==> m[k].deployment.id == k
  }

  lemma {:induction false} ServersRoundTrip(ss: seq<ServerInfo>)
    ensures ServersFromWire(ServersToWire(ss)) == Success(ss)
  {
    if ss != [] {
      var front, last := ss[..|ss| - 1], ss[|ss| - 1];
      ServersRoundTrip(front);
      assert ServersToWire(ss)[..|ss| - 1] == ServersToWire(front);
      ParseText(last.id);
      assert front + [last] == ss;
    }
  }

  lemma InstancesRoundTrip(a: AppInstances)
    ensures InstancesFromWire(InstancesToWire(a)) == Success(a)
  {
    ParseText(a.deployment.id);
    ServersRoundTrip(a.servers);
  }

  lemma CloneSnoc<T>(m: map<Uuid, T>, front: seq<Uuid>, last: Uuid)
    requires last in m
    ensures CloneByIds(m, front + [last]) == CloneByIds(m, front)[last := m[last]]
  {
  }

  lemma InstanceMapSnoc(ws: seq<AppInstanceLocations>, a: AppInstances)
    requires InstanceMapFromWire(ws).Success?
    ensures InstanceMapFromWire(ws + [InstancesToWire(a)])
         == Success(InstanceMapFromWire(ws).value[a.deployment.id := a])
  {
    InstancesRoundTrip(a);
    assert (ws + [InstancesToWire(a)])[..|ws|] == ws;
  }

  lemma ListedSnoc(m: InstanceMap, front: seq<Uuid>, last: Uuid)
    requires last in m && forall k :: k in front ==> k in m
    ensures InstancesListed(m, front + [last])
         == InstancesListed(m, front) + [InstancesToWire(m[last])]
  {
  }

  lemma {:induction false} InstanceMapRoundTrip(m: InstanceMap, listing: seq<Uuid>)
    requires KeysMatch(m)
    requires forall k :: k in listing ==> k in m
    ensures InstanceMapFromWire(InstancesListed(m, listing)) == Success(CloneByIds(m, listing))
  {
    if listing == [] {
      assert CloneByIds(m, listing) == map[];
    } else {
      var front, last := listing[..|listing| - 1], listing[|listing| - 1];
      assert listing == front + [last];
      InstanceMapRoundTrip(m, front);
      InstanceMapSnoc(InstancesListed(m, front), m[last]);
      ListedSnoc(m, front, last);
      CloneSnoc(m, front, last);
    }
  }

  lemma {:induction false} ParsedKeysMatch(ws: seq<AppInstanceLocations>)
    ensures InstanceMapFromWire(ws).Success? ==> KeysMatch(InstanceMapFromWire(ws).value)
  {
    if ws != [] {
      ParsedKeysMatch(ws[..|ws| - 1]);
    }
  }

  /** Conversion to a message and back gives the cluster without its statistics, in whatever order the
      instances were listed, if and only if every instance key is its deployment's id. */
  lemma ClusterRoundTrip(c: ClusterValue, listing: seq<Uuid>)
    requires IsListing(listing, c.instances.Keys)
    ensures ClusterFromWire(ClusterToWire(c, listing)) == Success(c.(stats := map[]))
       <==> KeysMatch(c.instances)
  {
    var w := ClusterToWire(c, listing);
    ParseText(c.group.scheduler.id);
    ServersRoundTrip(c.servers);
    ParsedKeysMatch(w.instances);
    if KeysMatch(c.instances) {
      InstanceMapRoundTrip(c.instances, listing);
      assert CloneByIds(c.instances, listing) == c.instances;
    }
  }

  ghost predicate ReadableServers(ws: seq<Server>) {
    forall i :: 0 <= i < |ws| ==> ParseUuid(ws[i].id).Some?
  }

  ghost predicate ReadableInstances(w: AppInstanceLocations) {
    w.deployment.Some? && ParseUuid(w.deployment.value.id).Some? && ReadableServers(w.locations)
  }

  lemma {:induction false} ServersReadable(ws: seq<Server>)
    ensures ServersFromWire(ws).Success? <==> ReadableServers(ws)
  {
    if ws != [] {
      ServersReadable(ws[..|ws| - 1]);
    }
  }

  lemma InstancesReadable(w: AppInstanceLocations)
    ensures InstancesFromWire(w).Success? <==> ReadableInstances(w)
  {
    ServersReadable(w.locations);
  }

  lemma InstanceMapStep(ws: seq<AppInstanceLocations>, w: AppInstanceLocations)
    ensures InstanceMapFromWire(ws + [w]).Success? <==>
            InstanceMapFromWire(ws).Success? && InstancesFromWire(w).Success?
  {
    assert (ws + [w])[..|ws|] == ws;
  }

  lemma {:induction false} InstanceMapReadable(ws: seq<AppInstanceLocations>)
    ensures InstanceMapFromWire(ws).Success? <==>
            forall i :: 0 <= i < |ws| ==> ReadableInstances(ws[i])
  {
    if ws != [] {
      var front, last := ws[..|ws| - 1], ws[|ws| - 1];
      assert ws == front + [last];
      InstanceMapReadable(front);
      InstancesReadable(last);
      InstanceMapStep(front, last);
    }
  }

  /** A message is accepted exactly when it names a group with a scheduler and every identifier in it
      is a UUID. */
  lemma ClusterReadable(w: ClusterState)
    ensures ClusterFromWire(w).Success? <==>
            && w.group.Some? && w.group.value.scheduler.Some?
            && ParseUuid(w.group.value.scheduler.value.id).Some?
            && ReadableServers(w.servers)
            && forall i :: 0 <= i < |w.instances| ==> ReadableInstances(w.instances[i])
  {
    ServersReadable(w.servers);
    InstanceMapReadable(w.instances);
  }
}
