/** Agreement after the loss of the scheduler, in every state an epoch can reach. */
module Elections {
  import opened Wrappers
  import opened Identifiers
  import opened Entities
  import opened ClusterDiff
  import opened Clusters
  import opened SchedulerRuns
  import opened SchedulerInvariants
  import opened Failover

  lemma RemoveDistinct(servers: seq<ServerInfo>, lost: Uuid)
    requires Distinct(servers)
    ensures forall t :: t in RemoveFirst(servers, lost) <==> t in servers && t.id != lost
  {
    var i := FirstIndex(servers, lost);
    var rest := RemoveFirst(servers, lost);
    forall t | t in servers && t.id != lost ensures t in rest {
      var j :| 0 <= j < |servers| && servers[j] == t;
      assert t == if j < i then rest[j] else rest[j - 1];
    }
  }

  function Lost(s: System): Uuid { s.cluster.group.scheduler.id }

  /** A server in the list that outlives the scheduler. */
  ghost predicate Survivor(s: System, t: ServerInfo) { t in s.cluster.servers && t.id != Lost(s) }

  /** The server for which a reporter reports. */
  ghost function Of(s: System, r: nat): ServerInfo
    requires r in s.reporters
  {
    s.reporters[r].info
  }

  /** A reporter of a server that outlives the scheduler. */
  ghost predicate Alive(s: System, r: nat) { r in s.reporters && Of(s, r).id != Lost(s) }

  /** One that has a cached cluster to elect from. */
  ghost predicate Ready(s: System, r: nat) { HasCache(s, r) && Of(s, r).id != Lost(s) }

  ghost function Command(s: System, r: nat): Result<StateCommand, LossError>
    requires r in s.reporters
  {
    LossCommand(Of(s, r), s.reporters[r].cache)
  }

  ghost predicate Claims(s: System, r: nat)
    requires r in s.reporters
  {
    Command(s, r).Success? && Command(s, r).value.BecomeScheduler?
  }

  /** The lowest id in a server list apart from the lost scheduler. */
  function Winner(servers: seq<ServerInfo>, lost: Uuid): ServerInfo
    requires RemoveFirst(servers, lost) != []
  {
    Lowest(RemoveFirst(servers, lost))
  }

  /** In a list without repeated ids the winner is the one server that is not lost and that no other
      remaining server undercuts. */
  lemma WinnerUnique(servers: seq<ServerInfo>, lost: Uuid, t: ServerInfo)
    requires Distinct(servers) && t in servers && t.id != lost
    ensures RemoveFirst(servers, lost) != []
    ensures var w := Winner(servers, lost); w in servers && w.id != lost && w.id <= t.id
    ensures t == Winner(servers, lost) <==> forall u :: u in servers && u.id != lost ==> t.id <= u.id
  {
    RemoveDistinct(servers, lost);
    var w := Winner(servers, lost);
    if w.id == t.id {
      var i :| 0 <= i < |servers| && servers[i] == w;
      var j :| 0 <= j < |servers| && servers[j] == t;
    }
  }

  lemma OneOfEachId(servers: seq<ServerInfo>, a: ServerInfo, b: ServerInfo)
    requires Distinct(servers) && a in servers && b in servers && a.id == b.id
    ensures a == b
  {
    var i :| 0 <= i < |servers| && servers[i] == a;
    var j :| 0 <= j < |servers| && servers[j] == b;
  }

  lemma InPrefix(a: seq<ServerInfo>, b: seq<ServerInfo>, t: ServerInfo)
    requires a <= b && t in a
    ensures t in b
  {
    var i :| 0 <= i < |a| && a[i] == t;
    assert b[i] == t;
  }

  // ----- what one reporter elects -----

  /** The lost scheduler heads every cached list, so dropping it really shortens the list. */
  lemma SchedulerHeadsSeen(s: System, r: nat)
    requires EpochInv(s) && HasCache(s, r)
    ensures ClusterFromWire(s.reporters[r].cache.value).Success?
    ensures var seen := Seen(s, r).servers;
            && seen <= s.cluster.servers && Distinct(seen)
            && Of(s, r) in seen && Of(s, r) in s.cluster.servers
            && FirstIndex(seen, Lost(s)) == 0
            && Seen(s, r).group == s.cluster.group
  {
    SeenIsEarlier(s, r);
    var seen := Seen(s, r).servers;
    assert seen[0] == s.cluster.servers[0];
    InPrefix(seen, s.cluster.servers, Of(s, r));
  }

  /** In every state of an epoch, a ready reporter's election is defined: somebody is left, the list is
      one shorter, the lost scheduler is neither in it nor elected, and the winner is a member of the
      cluster whose id is lowest in the reporter's own view. */
  lemma ElectionDefined(s: System, r: nat)
    requires EpochInv(s) && Ready(s, r)
    ensures ClusterFromWire(s.reporters[r].cache.value).Success?
    ensures AfterLoss(Seen(s, r)).Some?
    ensures var seen, next := Seen(s, r), AfterLoss(Seen(s, r)).value;
            var winner := next.group.scheduler;
            && |next.servers| == |seen.servers| - 1
            && (forall t :: t in next.servers ==> t.id != Lost(s))
            && winner in s.cluster.servers && winner.id != Lost(s) && winner.id <= Of(s, r).id
            && RemoveFirst(seen.servers, Lost(s)) != [] && winner == Winner(seen.servers, Lost(s))
            && Command(s, r) == Success(if winner.id == Of(s, r).id then BecomeScheduler(next)
                                        else Update(Joining(winner.addr)))
  {
    SchedulerHeadsSeen(s, r);
    var seen := Seen(s, r).servers;
    RemoveDistinct(seen, Lost(s));
    WinnerUnique(seen, Lost(s), Of(s, r));
    InPrefix(seen, s.cluster.servers, Winner(seen, Lost(s)));
  }

  /** A ready reporter claims the role for its server exactly when its own view shows no lower id among
      the others. */
  lemma ClaimsIff(s: System, r: nat)
    requires EpochInv(s) && Ready(s, r)
    ensures ClusterFromWire(s.reporters[r].cache.value).Success?
    ensures Claims(s, r) <==> forall t :: t in Seen(s, r).servers && t.id != Lost(s) ==> Of(s, r).id <= t.id
  {
    ElectionDefined(s, r);
    SchedulerHeadsSeen(s, r);
    var seen := Seen(s, r).servers;
    WinnerUnique(seen, Lost(s), Of(s, r));
    if Claims(s, r) {
      RemoveDistinct(seen, Lost(s));
    }
  }

  /** The cached list of r shows t. */
  ghost predicate Shows(s: System, r: nat, t: ServerInfo) {
    HasCache(s, r) && ClusterFromWire(s.reporters[r].cache.value).Success? && t in Seen(s, r).servers
  }

  /** It shows somebody lower than id, apart from the lost scheduler. */
  ghost predicate ShowsBelow(s: System, r: nat, id: Uuid) {
    exists t :: Shows(s, r, t) && t.id != Lost(s) && t.id < id
  }

  /** It shows somebody lower than the reporter's own server. */
  ghost predicate SeesLower(s: System, r: nat)
    requires r in s.reporters
  {
    ShowsBelow(s, r, Of(s, r).id)
  }

  /** Electing from its cache, r settles on t. */
  ghost predicate Elects(s: System, r: nat, t: ServerInfo) {
    && HasCache(s, r) && ClusterFromWire(s.reporters[r].cache.value).Success?
    && AfterLoss(Seen(s, r)).Some? && AfterLoss(Seen(s, r)).value.group.scheduler == t
  }

  /** For every reporter of every survivor: it claims the role if and only if it has received a reply and
      its cached list shows nobody lower. Without a reply it ends with an error. */
  lemma ReporterClaimsIff(s: System, r: nat)
    requires EpochInv(s) && Alive(s, r)
    ensures Claims(s, r) <==> HasCache(s, r) && !SeesLower(s, r)
    ensures !HasCache(s, r) ==> Command(s, r) == Failure(NothingCached)
  {
    if HasCache(s, r) {
      ClaimsIff(s, r);
    }
  }

  /** A ready reporter settles on t exactly when its list shows t and nobody lower. */
  lemma ElectsIff(s: System, r: nat, t: ServerInfo)
    requires EpochInv(s) && Ready(s, r) && t.id != Lost(s)
    ensures Elects(s, r, t) <==> Shows(s, r, t) && !ShowsBelow(s, r, t.id)
    ensures Elects(s, r, t) ==>
      if Of(s, r) == t then Claims(s, r)
      else !Claims(s, r) && Command(s, r) == Success(Update(Joining(t.addr)))
  {
    ElectionDefined(s, r);
    SchedulerHeadsSeen(s, r);
    var seen := Seen(s, r).servers;
    RemoveDistinct(seen, Lost(s));
    if t in seen {
      WinnerUnique(seen, Lost(s), t);
      if t.id == Of(s, r).id {
        OneOfEachId(seen, t, Of(s, r));
      }
    }
  }

  // ----- who becomes scheduler -----

  /** A reporter of the server t claims the role for it. */
  ghost predicate ClaimsFor(s: System, r: nat, t: ServerInfo) {
    Alive(s, r) && Of(s, r) == t && Claims(s, r)
  }

  /** The server t becomes scheduler: some reporter of it claims the role. */
  ghost predicate IsSuccessor(s: System, t: ServerInfo) { exists r :: ClaimsFor(s, r, t) }

  /** A reporter of t has received a reply, and its cached list shows nobody lower. */
  ghost predicate Unrivalled(s: System, r: nat, t: ServerInfo) {
    Ready(s, r) && Of(s, r) == t && !SeesLower(s, r)
  }

  /** For every server: it becomes scheduler if and only if some reporter of it, of whichever start of its
      service, has received a reply and shows nobody lower. */
  lemma SuccessorIff(s: System, t: ServerInfo)
    requires EpochInv(s)
    ensures IsSuccessor(s, t) <==> exists r :: Unrivalled(s, r, t)
  {
    forall r | Alive(s, r) ensures ClaimsFor(s, r, t) <==> Unrivalled(s, r, t) {
      ReporterClaimsIff(s, r);
    }
    if r :| ClaimsFor(s, r, t) {
      assert Unrivalled(s, r, t);
    }
    if r :| Unrivalled(s, r, t) {
      assert ClaimsFor(s, r, t);
    }
  }

  /** There is a successor if and only if some ready reporter sees nobody lower. */
  lemma SomeSuccessorIff(s: System)
    requires EpochInv(s)
    ensures (exists t :: IsSuccessor(s, t)) <==> (exists r :: Ready(s, r) && !SeesLower(s, r))
  {
    if t :| IsSuccessor(s, t) {
      SuccessorIff(s, t);
      var r :| Unrivalled(s, r, t);
      assert Ready(s, r) && !SeesLower(s, r);
    }
    if r :| Ready(s, r) && !SeesLower(s, r) {
      assert Unrivalled(s, r, Of(s, r));
      SuccessorIff(s, Of(s, r));
    }
  }

  /** The server t is the one and only successor if and only if some reporter of it has received a reply
      and sees nobody lower, and every ready reporter of another server sees somebody lower. */
  lemma OneSuccessorIff(s: System, t: ServerInfo)
    requires EpochInv(s)
    ensures (forall u :: IsSuccessor(s, u) <==> u == t) <==>
            && (exists r :: Unrivalled(s, r, t))
            && (forall r :: Ready(s, r) && Of(s, r) != t ==> SeesLower(s, r))
  {
    forall u ensures IsSuccessor(s, u) <==> exists r :: Unrivalled(s, r, u) {
      SuccessorIff(s, u);
    }
    if forall u :: IsSuccessor(s, u) <==> u == t {
      assert IsSuccessor(s, t);
      forall r | Ready(s, r) && Of(s, r) != t ensures SeesLower(s, r) {
        assert !IsSuccessor(s, Of(s, r));
        assert !Unrivalled(s, r, Of(s, r));
      }
    }
  }

  /** The survivor with the lowest id. */
  ghost function Leader(s: System): ServerInfo
    requires RemoveFirst(s.cluster.servers, Lost(s)) != []
  {
    Winner(s.cluster.servers, Lost(s))
  }

  lemma LeaderLowest(s: System, t: ServerInfo)
    requires EpochInv(s) && Survivor(s, t)
    ensures RemoveFirst(s.cluster.servers, Lost(s)) != []
    ensures Survivor(s, Leader(s)) && Leader(s).id <= t.id
    ensures forall u :: Survivor(s, u) ==> Leader(s).id <= u.id
  {
    RemoveDistinct(s.cluster.servers, Lost(s));
    WinnerUnique(s.cluster.servers, Lost(s), t);
    WinnerUnique(s.cluster.servers, Lost(s), Leader(s));
  }

  /** No list shows anybody below the lowest survivor. */
  lemma NobodyBelowLeader(s: System, r: nat)
    requires EpochInv(s) && HasCache(s, r) && RemoveFirst(s.cluster.servers, Lost(s)) != []
    requires Survivor(s, Leader(s))
    ensures !ShowsBelow(s, r, Leader(s).id)
  {
    LeaderLowest(s, Leader(s));
    SchedulerHeadsSeen(s, r);
    forall t | Shows(s, r, t) && t.id != Lost(s) ensures Leader(s).id <= t.id {
      InPrefix(Seen(s, r).servers, s.cluster.servers, t);
    }
  }

  /** A reporter of t has received a reply. */
  ghost predicate ReadyFor(s: System, r: nat, t: ServerInfo) { Ready(s, r) && Of(s, r) == t }

  ghost predicate HasReady(s: System, t: ServerInfo) { exists r :: ReadyFor(s, r, t) }

  /** However stale the other caches are, the survivor with the lowest id becomes scheduler if and only if
      some reporter of it has received a reply. */
  lemma LeaderSucceedsIff(s: System, t: ServerInfo)
    requires EpochInv(s) && Survivor(s, t)
    ensures RemoveFirst(s.cluster.servers, Lost(s)) != [] && Survivor(s, Leader(s))
    ensures IsSuccessor(s, Leader(s)) <==> HasReady(s, Leader(s))
  {
    LeaderLowest(s, t);
    SuccessorIff(s, Leader(s));
    forall r | ReadyFor(s, r, Leader(s)) ensures Unrivalled(s, r, Leader(s)) {
      NobodyBelowLeader(s, r);
    }
    if r :| Unrivalled(s, r, Leader(s)) {
      assert ReadyFor(s, r, Leader(s));
    }
  }

  /** All ready reporters settle on the lowest survivor if and only if each of their lists shows it. */
  lemma AgreementIff(s: System, t: ServerInfo)
    requires EpochInv(s) && Survivor(s, t)
    ensures RemoveFirst(s.cluster.servers, Lost(s)) != []
    ensures (forall r :: Ready(s, r) ==> Elects(s, r, Leader(s))) <==>
            (forall r :: Ready(s, r) ==> Shows(s, r, Leader(s)))
  {
    LeaderLowest(s, t);
    forall r | Ready(s, r) ensures Elects(s, r, Leader(s)) <==> Shows(s, r, Leader(s)) {
      ElectsIff(s, r, Leader(s));
      NobodyBelowLeader(s, r);
    }
  }

  /** The failover works: t becomes scheduler, and every reporter that can elect elects t, and sends a join
      to t if it reports for another server. */
  ghost predicate HandedOver(s: System, t: ServerInfo) {
    && IsSuccessor(s, t)
    && forall r :: Ready(s, r) ==>
         && Elects(s, r, t)
         && (Of(s, r) != t ==> Command(s, r) == Success(Update(Joining(t.addr))))
  }

  /** Every list received shows t and nobody lower. */
  ghost predicate AllShow(s: System, t: ServerInfo) {
    forall r :: Ready(s, r) ==> Shows(s, r, t) && !ShowsBelow(s, r, t.id)
  }

  lemma AllShowIff(s: System, t: ServerInfo)
    requires EpochInv(s) && t.id != Lost(s)
    ensures AllShow(s, t) <==> forall r :: Ready(s, r) ==> Elects(s, r, t)
  {
    forall r | Ready(s, r) ensures Elects(s, r, t) <==> Shows(s, r, t) && !ShowsBelow(s, r, t.id) {
      ElectsIff(s, r, t);
    }
  }

  lemma Suffices(s: System, t: ServerInfo)
    requires EpochInv(s) && t.id != Lost(s) && HasReady(s, t)
    requires forall r :: Ready(s, r) ==> Elects(s, r, t)
    ensures HandedOver(s, t)
  {
    var r :| ReadyFor(s, r, t);
    ElectsIff(s, r, t);
    assert ClaimsFor(s, r, t);
    forall q | Ready(s, q) && Of(s, q) != t ensures Command(s, q) == Success(Update(Joining(t.addr))) {
      ElectsIff(s, q, t);
    }
  }

  /** It works if and only if some reporter of t has received a reply, and every list received shows t and
      nobody lower. */
  lemma HandedOverIff(s: System, t: ServerInfo)
    requires EpochInv(s) && t.id != Lost(s)
    ensures HandedOver(s, t) <==> HasReady(s, t) && AllShow(s, t)
  {
    AllShowIff(s, t);
    if HandedOver(s, t) {
      SuccessorIff(s, t);
      var r :| Unrivalled(s, r, t);
      assert ReadyFor(s, r, t);
    } else if HasReady(s, t) && AllShow(s, t) {
      Suffices(s, t);
    }
  }

  /** Then t is the only successor. */
  lemma HandedOverToOne(s: System, t: ServerInfo)
    requires EpochInv(s) && t.id != Lost(s) && HandedOver(s, t)
    ensures forall u :: IsSuccessor(s, u) <==> u == t
  {
    forall u | IsSuccessor(s, u) ensures u == t {
      SuccessorIff(s, u);
      var q :| Unrivalled(s, q, u);
      ReporterClaimsIff(s, q);
      ElectsIff(s, q, t);
    }
  }

  /** A further start of a service changes nobody's part: the reporter it adds has nothing cached, and those
      of earlier starts go on. */
  lemma RestartKeepsSuccessors(s: System, r: nat, id: Uuid, t: ServerInfo)
    requires Enabled(s, StartReporter(r, id))
    ensures IsSuccessor(Apply(s, StartReporter(r, id)), t) <==> IsSuccessor(s, t)
  {
    var now := Apply(s, StartReporter(r, id));
    if q :| ClaimsFor(s, q, t) {
      assert ClaimsFor(now, q, t);
    }
    if q :| ClaimsFor(now, q, t) {
      assert q != r;
      assert ClaimsFor(s, q, t);
    }
  }

  // ----- current caches -----

  lemma EqualBySize<T>(a: set<T>, b: set<T>)
    requires a <= b && |a| == |b|
    ensures a == b
  {
    if a != b {
      var x :| x in b && x !in a;
      SubsetSize(a, b - {x});
    }
  }

  lemma {:induction false} SubsetSize<T>(a: set<T>, b: set<T>)
    requires a <= b
    ensures |a| <= |b|
  {
    if x :| x in a {
      SubsetSize(a - {x}, b - {x});
    }
  }

  /** A reporter whose cache does not differ from the scheduler's present state. */
  ghost predicate Current(s: System, r: nat, listing: seq<Uuid>)
    requires IsListing(listing, s.cluster.instances.Keys)
  {
    HasCache(s, r) && !Differs(s.reporters[r].cache.value, ClusterToWire(s.cluster, listing))
  }

  /** Such a cache has all the servers and all the deployments of the present state, in every state that a
      scheduler can reach, also after takeovers, when servers that joined again are listed repeatedly. */
  lemma CurrentSeesAll(s: System, r: nat, listing: seq<Uuid>)
    requires Inv(s) && IsListing(listing, s.cluster.instances.Keys) && Current(s, r, listing)
    ensures ClusterFromWire(s.reporters[r].cache.value).Success?
    ensures Seen(s, r).servers == s.cluster.servers && Seen(s, r).group == s.cluster.group
    ensures Seen(s, r).instances.Keys == s.cluster.instances.Keys
    ensures Extends(Seen(s, r).instances, s.cluster.instances)
  {
    CacheDelivered(s.reporters[r], s.cluster);
    var source := SnapshotReads(s.reporters[r].cache.value, s.cluster);
    WireIdsLength(s.reporters[r].cache.value, ClusterToWire(s.cluster, listing));
    ListingLength(listing, s.cluster.instances.Keys);
    EqualBySize(source.instances.Keys, s.cluster.instances.Keys);
  }

  /** What a reporter does that follows `next`: it starts the cluster for its own server, or sends a join to
      the server elected. The host lists it starts from may miss the latest spawns. */
  ghost predicate Carries(s: System, r: nat, next: ClusterValue)
    requires r in s.reporters
  {
    if next.group.scheduler.id == Of(s, r).id then
      exists c :: Command(s, r) == Success(BecomeScheduler(c))
                  && c.servers == next.servers && c.group == next.group
                  && c.instances.Keys == next.instances.Keys && Extends(c.instances, next.instances)
    else Command(s, r) == Success(Update(Joining(next.group.scheduler.addr)))
  }

  /** Agreement in every state that a scheduler can reach: all reporters with current caches carry out one
      and the same takeover, that of the scheduler's own state; or all panic, when nobody would be left. */
  lemma CurrentCachesAgree(s: System, r: nat, listing: seq<Uuid>)
    requires Inv(s) && IsListing(listing, s.cluster.instances.Keys) && Current(s, r, listing)
    ensures match AfterLoss(s.cluster)
            case Some(next) => Carries(s, r, next)
            case None => Command(s, r) == Failure(EmptyListPanic)
  {
    CurrentSeesAll(s, r, listing);
    var seen := Seen(s, r);
    if AfterLoss(s.cluster).Some? {
      assert AfterLoss(seen).value.servers == AfterLoss(s.cluster).value.servers;
      if AfterLoss(s.cluster).value.group.scheduler.id == Of(s, r).id {
        assert Command(s, r) == Success(BecomeScheduler(AfterLoss(seen).value));
      }
    }
  }

  /** In an epoch, every reporter whose cache is current takes its part, whatever the others know: the
      survivor with the lowest id becomes scheduler, with all remaining servers and all deployments, and every
      other one joins it at its address. */
  lemma FailoverAgreement(s: System, listing: seq<Uuid>, r: nat)
    requires EpochInv(s) && Ready(s, r)
    requires IsListing(listing, s.cluster.instances.Keys) && Current(s, r, listing)
    ensures RemoveFirst(s.cluster.servers, Lost(s)) != [] && Survivor(s, Leader(s))
    ensures AfterLoss(s.cluster).Some? && Carries(s, r, AfterLoss(s.cluster).value)
    ensures var next := AfterLoss(s.cluster).value;
            && next.servers == RemoveFirst(s.cluster.servers, Lost(s))
            && next.group == GroupInfo(s.cluster.group.number, Leader(s))
            && next.instances == s.cluster.instances
    ensures Leader(s).id == Of(s, r).id <==> Leader(s) == Of(s, r)
  {
    SchedulerHeadsSeen(s, r);
    LeaderLowest(s, Of(s, r));
    CurrentCachesAgree(s, r, listing);
    if Leader(s).id == Of(s, r).id {
      OneOfEachId(s.cluster.servers, Leader(s), Of(s, r));
    }
  }

  /** When no ready reporter's cache differs from the scheduler's last state, the failover works if and only
      if some reporter of the lowest survivor has a cache, however many others have none. */
  lemma CurrentHandedOverIff(s: System, listing: seq<Uuid>, t: ServerInfo)
    requires EpochInv(s) && Survivor(s, t) && IsListing(listing, s.cluster.instances.Keys)
    requires forall r :: Ready(s, r) ==> Current(s, r, listing)
    ensures RemoveFirst(s.cluster.servers, Lost(s)) != []
    ensures HandedOver(s, Leader(s)) <==> HasReady(s, Leader(s))
  {
    LeaderLowest(s, t);
    HandedOverIff(s, Leader(s));
    AllCurrentShow(s, listing);
  }

  lemma AllCurrentShow(s: System, listing: seq<Uuid>)
    requires EpochInv(s) && IsListing(listing, s.cluster.instances.Keys)
    requires forall r :: Ready(s, r) ==> Current(s, r, listing)
    requires RemoveFirst(s.cluster.servers, Lost(s)) != [] && Survivor(s, Leader(s))
    ensures AllShow(s, Leader(s))
  {
    forall r | Ready(s, r) ensures Shows(s, r, Leader(s)) && !ShowsBelow(s, r, Leader(s).id) {
      CurrentSeesAll(s, r, listing);
      NobodyBelowLeader(s, r);
    }
  }

  // ----- stale caches -----

  lemma LaterMember(servers: seq<ServerInfo>, older: nat, newer: nat, t: ServerInfo) returns (i: nat)
    requires older <= newer <= |servers| && t in servers[..newer] && t !in servers[..older]
    ensures older <= i < newer && servers[i] == t
  {
    assert servers[..newer] == servers[..older] + servers[older..newer];
    var j :| 0 <= j < newer - older && servers[older..newer][j] == t;
    i := older + j;
  }

  /** A list that has grown never elects a higher id, and it elects another server exactly when one with
      a lower id came in between. */
  lemma StaleElection(servers: seq<ServerInfo>, lost: Uuid, older: nat, newer: nat)
    requires Distinct(servers) && older <= newer <= |servers|
    requires RemoveFirst(servers[..older], lost) != []
    ensures RemoveFirst(servers[..newer], lost) != []
    ensures var was, now := Winner(servers[..older], lost), Winner(servers[..newer], lost);
            && now.id <= was.id
            && (now != was <==>
                exists i :: older <= i < newer && servers[i].id != lost && servers[i].id < was.id)
  {
    var a, b := servers[..older], servers[..newer];
    RemoveDistinct(a, lost);
    var was := Winner(a, lost);
    InPrefix(a, b, was);
    WinnerUnique(b, lost, was);
    var now := Winner(b, lost);
    if now in a {
      WinnerUnique(a, lost, now);
      OneOfEachId(b, was, now);
    } else {
      var i := LaterMember(servers, older, newer, now);
    }
    if i :| older <= i < newer && servers[i].id != lost && servers[i].id < was.id {
      assert b[i] in b;
    }
  }

  /** The scheduler a ready reporter settles on. */
  lemma Settles(s: System, k: nat) returns (seen: seq<ServerInfo>, winner: ServerInfo)
    requires EpochInv(s) && Ready(s, k)
    ensures ClusterFromWire(s.reporters[k].cache.value).Success? && AfterLoss(Seen(s, k)).Some?
    ensures seen == Seen(s, k).servers && seen <= s.cluster.servers
    ensures winner == AfterLoss(Seen(s, k)).value.group.scheduler
    ensures RemoveFirst(seen, Lost(s)) != [] && winner == Winner(seen, Lost(s))
  {
    ElectionDefined(s, k);
    SchedulerHeadsSeen(s, k);
    seen, winner := Seen(s, k).servers, AfterLoss(Seen(s, k)).value.group.scheduler;
  }

  /** Two reporters elect different schedulers only if a server with a lower id joined between the states
      that their caches stand for, and then the newer cache elects the lower id. */
  lemma SplitOnlyByLowerJoin(s: System, j: nat, k: nat)
    returns (older: seq<ServerInfo>, was: ServerInfo, newer: seq<ServerInfo>, now: ServerInfo)
    requires EpochInv(s) && Ready(s, j) && Ready(s, k)
    ensures ClusterFromWire(s.reporters[j].cache.value).Success? && AfterLoss(Seen(s, j)).Some?
    ensures ClusterFromWire(s.reporters[k].cache.value).Success? && AfterLoss(Seen(s, k)).Some?
    ensures older == Seen(s, j).servers && was == AfterLoss(Seen(s, j)).value.group.scheduler
    ensures newer == Seen(s, k).servers && now == AfterLoss(Seen(s, k)).value.group.scheduler
    ensures |older| <= |newer| ==>
      && now.id <= was.id
      && (now != was <==>
          exists i :: |older| <= i < |newer| && newer[i].id != Lost(s) && newer[i].id < was.id)
  {
    older, was := Settles(s, j);
    newer, now := Settles(s, k);
    if |older| <= |newer| {
      PrefixElection(s.cluster.servers, Lost(s), older, newer);
    }
  }

  lemma PrefixElection(servers: seq<ServerInfo>, lost: Uuid, a: seq<ServerInfo>, b: seq<ServerInfo>)
    requires Distinct(servers) && a <= servers && b <= servers && |a| <= |b|
    requires RemoveFirst(a, lost) != [] && RemoveFirst(b, lost) != []
    ensures Winner(b, lost).id <= Winner(a, lost).id
    ensures Winner(b, lost) != Winner(a, lost) <==>
            exists i :: |a| <= i < |b| && b[i].id != lost && b[i].id < Winner(a, lost).id
  {
    assert a == servers[..|a|] && b == servers[..|b|];
    StaleElection(servers, lost, |a|, |b|);
    forall i | |a| <= i < |b| ensures servers[i] == b[i] {}
  }

  // ----- runs -----

  /** A reply was delivered to a reporter of the server. */
  ghost predicate Reached(s: System, es: seq<Event>, t: ServerInfo)
    requires IsRun(s, es)
  {
    es != [] &&
    var before, last := After(s, es[..|es| - 1]), es[|es| - 1];
    Reached(s, es[..|es| - 1], t) || (last.Deliver? && Of(before, last.reporter) == t)
  }

  ghost predicate CachedFor(s: System, r: nat, t: ServerInfo) { HasCache(s, r) && Of(s, r) == t }

  /** Some reporter of the server has a cache. */
  ghost predicate HasReply(s: System, t: ServerInfo) { exists r :: CachedFor(s, r, t) }

  lemma StepCached(s: System, e: Event, r: nat, t: ServerInfo)
    requires Enabled(s, e)
    ensures CachedFor(Apply(s, e), r, t) <==>
            CachedFor(s, r, t) || (e == Deliver(r) && Of(s, r) == t)
  {
  }

  /** A server has a reporter with a cache exactly when a reply was ever delivered to one of its reporters:
      what one of them has learnt is not lost when its service starts again. */
  lemma {:induction false} CachedIffReached(c: ClusterValue, es: seq<Event>, t: ServerInfo)
    requires IsRun(StartWith(c), es)
    ensures HasReply(After(StartWith(c), es), t) <==> Reached(StartWith(c), es, t)
  {
    if es != [] {
      var front, last := es[..|es| - 1], es[|es| - 1];
      var before := After(StartWith(c), front);
      CachedIffReached(c, front, t);
      CachedForStep(before, last, t);
    } else {
      assert After(StartWith(c), es).reporters == map[];
    }
  }

  lemma CachedForStep(s: System, e: Event, t: ServerInfo)
    requires Enabled(s, e)
    ensures HasReply(Apply(s, e), t) <==> HasReply(s, t) || (e.Deliver? && Of(s, e.reporter) == t)
  {
    forall r: nat ensures CachedFor(Apply(s, e), r, t) <==>
      CachedFor(s, r, t) || (e == Deliver(r) && Of(s, r) == t)
    {
      StepCached(s, e, r, t);
    }
    if r :| CachedFor(s, r, t) {
      assert CachedFor(Apply(s, e), r, t);
    }
    if e.Deliver? && Of(s, e.reporter) == t {
      assert CachedFor(Apply(s, e), e.reporter, t);
    }
  }

  /** The whole story for runs: in every run of an epoch with a survivor, the lowest one becomes scheduler if
      and only if a reply was ever delivered to one of its reporters, and the reporters whose caches are
      current carry out its takeover. */
  lemma EpochFailover(info: ServerInfo, es: seq<Event>, listing: seq<Uuid>, t: ServerInfo, r: nat)
    requires IsRun(StartFresh(info), es) && IsEpoch(StartFresh(info), es)
    requires var s := After(StartFresh(info), es);
             Survivor(s, t) && IsListing(listing, s.cluster.instances.Keys)
    ensures var s := After(StartFresh(info), es);
            && RemoveFirst(s.cluster.servers, info.id) != []
            && var leader := Winner(s.cluster.servers, info.id);
               && Survivor(s, leader)
               && (IsSuccessor(s, leader) <==> Reached(StartFresh(info), es, leader))
               && (Ready(s, r) && Current(s, r, listing) ==>
                   if Of(s, r) == leader then Claims(s, r)
                   else Command(s, r) == Success(Update(Joining(leader.addr))))
  {
    EpochKeeps(info, es);
    var s := After(StartFresh(info), es);
    GroupKept(StartFresh(info), es);
    LeaderSucceedsIff(s, t);
    CachedIffReached(NewCluster(info), es, Leader(s));
    LeaderReady(s);
    if Ready(s, r) && Current(s, r, listing) {
      FailoverAgreement(s, listing, r);
    }
  }

  lemma LeaderReady(s: System)
    requires RemoveFirst(s.cluster.servers, Lost(s)) != [] && Survivor(s, Leader(s))
    ensures HasReady(s, Leader(s)) <==> HasReply(s, Leader(s))
  {
    forall r: nat ensures ReadyFor(s, r, Leader(s)) <==> CachedFor(s, r, Leader(s)) {}
  }

  lemma GroupKept(s: System, es: seq<Event>)
    requires IsRun(s, es)
    ensures After(s, es).cluster.group == s.cluster.group
  {
    RunGrows(s, es, 0);
    assert es[..0] == [];
  }
}
