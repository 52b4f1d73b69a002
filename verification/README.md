# Laqista: a model of the cluster, the guest memory, the monitor and the deployment store

Laqista runs applications on a group of servers. One server is the scheduler: the others join it, report
their load to it, and keep a copy of the cluster it describes in its replies. When the scheduler is lost, each
survivor elects a successor from its own copy, without talking to the others. This project models that
protocol, the memory exchange between a server and the WebAssembly applications it hosts, the parser of the
GPU monitor's lines, and the store of deployed applications, and proves what they keep, where they agree, and
where they do not.

`dafny verify dfyconfig.toml` checks the whole project.

## The parts

- `Entities`, `Identifiers`, `Numerals`: the records, the messages that carry them, and the conversions, down
  to the text of a UUID. A hash map is walked in an arbitrary order: every statement about such a walk is for
  all listings of the map.
- `ClusterDiff`, `CacheElections`: the change detector behind each server's cached copy, and why electing from
  a copy that the detector kept is electing from the latest reply.
- `MeanScheduler`: the choice of a server by its share of busy time.
- `Clusters`: the scheduler's cluster record as a class, its operations in place, and the election.
- `SchedulerRuns`, `SchedulerInvariants`, `Membership`: one scheduler and all servers that report to it, as a
  state machine. Each section between taking and freeing the lock is one step, so a run interleaves joins,
  reports, their deliveries, spawns and lookups in every possible way.
- `Scheduling`, `Lookups`: deploying and looking up in such a run, in terms of what was asked for, who joined
  and what was reported, and of nothing that the scheduler keeps.
- `Failover`, `Elections`, `ElectionRuns`, `Generations`: the loss of the scheduler in every state such a run
  can reach, runs in which the survivors agree and in which they split, and the loss of one scheduler after
  another.
- `DaemonRuns`: the loop that restarts a daemon's services when its state changes.
- `HostMemory`, `Exchange`: the two allocators that share one memory, and a detection request that crosses
  between host and guest twice. Message formats are known only by their law, that decoding an encoded message
  gives it back.
- `RadeonParser`, `RadeonLines`, `RadeonPrinter`, `RadeonPanics`: the parser of radeontop's lines, the texts it
  reads, a printer for the format that src/monitor/linux/parse.rs:36 shows, and the lines that stop the
  program.
- `DirectoryNames`, `DirectoryTexts`, `Deployments`, `DeploymentRuns`: the directory tree of saved
  applications, and what a daemon that restarts reads from it.

## What was found

The code is modelled as it is. Where it does not do what it seems meant to, the exact condition is proved.

- Each start of a server's service starts a reporter with a cache of its own, and those of earlier starts go on
  (src/server/run.rs:223-231). After a loss, a survivor becomes scheduler if and only if some reporter of it has
  received a reply and its cached list shows nobody lower (`SuccessorIff`). So there may be no successor: when
  the lowest survivor has joined and the others know it, but no reply has reached it, they send their joins to a
  server whose reporter has ended with an error (`NobodyHappens`). There may also be several
  (`OneSuccessorIff`), as when a lower server arrives after another one's last report (`SplitHappens`). The
  failover works, with one successor that all others who can elect will join, if and only if a reporter of that
  server has received a reply and every list received shows it and nobody lower (`HandedOverIff`). When all
  caches are current it works if and only if the lowest survivor has one (`CurrentHandedOverIff`).
- After two losses in which all survivors rejoin the successor once, the third election picks the server that
  was just lost, in every cluster of at least four servers with current caches
  (`ThirdElectionPicksTheLost`, `ThirdLossHappens`): a joining server is appended without a look at the list
  (src/scheduler.rs:82-84), a lost one is removed once (src/scheduler.rs:437-440).
- A takeover removes the lost server from the list but not from the host lists (`TakeoverHostsIff`). Lookups
  return only hosts that have reported to the successor, because statistics start empty (`LookupSound`). A
  deployment that was taken over does not scale out until it is spawned again (`ScaleOutDecidedIff`).
- A further host of a known deployment is no change to the detector (`SpawnSeenIff`), so a successor's host
  lists may miss the latest spawns.
- A server that reports without having joined is accepted (src/scheduler.rs:205-225), and spawns and lookups may
  choose it (`StrayIsChosen`).
- The search for the least utilised server starts from the bound 0 (src/scheduler/mean.rs:23), so load plays a
  part only if some server's summed usage is negative and its total length not, or the usage is positive and
  the length negative (`ChoiceByLoad`). With percentages between 0 and 100 that takes a window that measures
  negative (`MeasuredLoadIsIgnored`), which one that crosses into the next second can: a window's length
  misses the whole seconds (`LengthMissesSeconds`, `CrossingWindowChosen`, src/utils.rs:45-53). Windows from
  radeontop measure as zero nanoseconds and make every rate undefined; only a window that begins within a leap
  second measures as minus one second, and a server that has one is preferred (`RadeonChoice`).
- A monitor line stops the program if and only if, behind well-formed entries, an entry follows whose share or
  amount has more than three decimals, its digits within 64 bits (`ReadLinePanicsIff`), or the line reads and
  the first of the thirteen keys without a ratio was given as an identifier (`MetricsPanicIff`). A number with
  more digits than 64 bits hold is an ordinary error. The message of the first panic speaks of one or two
  characters; three are accepted.
- A restarted daemon reads the index that the old one had if and only if no save was dated before 1970 and no
  two deployments share a name (`RestartAgreesIff`); deploying an application again under its name, with a new
  id, is such a case. A first save that breaks off after its directory was made keeps the daemon from starting
  (`RestartFailsIff`), and so does a save dated before 1970, because names are split at dashes
  (`NameRoundTripIff`).
- A packed pointer survives the way from guest to host if and only if address and length are below 2^31
  (`PackRoundTripIff`).
- Joining a region to the host's cursor usually leaves the region above the cursor (`JoinCoversIff`,
  `CursorAfterCall`), so the next write lands on bytes the guest still holds. A detection request is answered
  correctly all the same (`RunDetection`), since those bytes have been read by then.
- A message without a group differs from itself, and equals messages that differ from each other
  (`DiffersFromItself`, `GrouplessBreaksTransitivity`). Messages made from a cluster always have a group.

## Model

| member | source | states |
|---|---|---|
| Identifiers.ParseText | src/lib.rs:89-106 | an identifier written as text parses to itself |
| Identifiers.TextInjective | src/lib.rs:89-96 | two identifiers have the same text only if they are equal |
| Identifiers.ParseIff | src/lib.rs:98-106 | a text parses as an identifier if and only if it is 32 hexadecimal digits in one of the four notations: plain, hyphenated, in braces, or as a URN |
| Entities.ServersRoundTrip | src/lib.rs:89-106 | any list of servers survives the conversion to messages and back, in order |
| Entities.InstancesRoundTrip | src/lib.rs:167-198 | a deployment's instance record survives the conversion and back |
| Entities.InstanceMapRoundTrip | src/scheduler.rs:465-499 | the instance map, walked in any order, reads back as the entries walked |
| Entities.ParsedKeysMatch | src/scheduler.rs:494-499 | whatever message is read, each key of the map is its deployment's id |
| Entities.ClusterRoundTrip | src/scheduler.rs:461-510 | for any order of the instances, conversion and back gives the cluster with empty statistics if and only if each instance key is its deployment's id |
| Entities.ClusterReadable | src/scheduler.rs:480-510 | a message is accepted exactly when it has a group with a scheduler and all its identifiers are UUIDs |
| ClusterDiff.ServersDiffer | src/utils.rs:89-96 | comparing sorted id vectors is comparing bags of ids |
| ClusterDiff.ClusterDiffers | src/utils.rs:69-101 | the answer is that of scheduler id, bag of server ids and number of instances, with the code's treatment of missing groups |
| ClusterDiff.DiffersIsFingerprint | src/utils.rs:69-101 | on messages that name a scheduler, "no difference" is equality of the three observed values, hence an equivalence |
| ClusterDiff.DiffersFromItself | src/utils.rs:70-74 | a message differs from itself if and only if it has no group |
| ClusterDiff.GrouplessBreaksTransitivity | src/utils.rs:70-74 | a message without a group equals two messages whose schedulers differ |
| ClusterDiff.CacheRefinesLatest | src/report.rs:123-136 | after any replies the cache is one of them and agrees with the latest in scheduler id, bag of server ids and number of instances |
| ClusterDiff.CacheStartsStretch | src/report.rs:123-136 | the cache is the oldest reply of the last stretch in which the detector saw no change |
| CacheElections.MappedBags | src/utils.rs:89-96 | lists the detector cannot tell apart hold the same ids once parsed |
| CacheElections.SameElection | src/report.rs:95-103 | messages that the detector cannot tell apart elect the same id |
| CacheElections.CacheElectsLatest | src/report.rs:123-136 | after any readable replies, dropping the scheduler and electing from the cache gives the id that the latest reply would give |
| MeanScheduler.Schedule | src/scheduler/mean.rs:14-35 | the loop returns the server at the position that the windows decide for, and none exactly when there are no statistics |
| MeanScheduler.BestOfIsLeast | src/scheduler/mean.rs:23-32 | at each point of the loop: the first among the least rates seen that are below 0, or still the first server with the bound 0 |
| MeanScheduler.ChoiceIsLeastIff | src/scheduler/mean.rs:14-35 | in any order, nobody listed has a lower usage over length than the server chosen if and only if some server's sums are opposed, or nobody has a lower one than the first listed |
| MeanScheduler.LengthMissesSeconds | src/utils.rs:45-53 | a window's length is the time that passed less the whole seconds between its ends, hence the time that passed if and only if it ends in the second in which it began |
| MeanScheduler.PercentCut | src/utils.rs:55-60 | the percentage of any number, negative ones too, has its sign and is less than one away from the exact one |
| MeanScheduler.TotalsAdd | src/scheduler/mean.rs:82-91 | lengths and usages of windows in a row are the sums of those of the parts |
| MeanScheduler.TotalUsageNear | src/scheduler/mean.rs:82-91 | for all windows, the summed usage is less than one nanosecond per window away from the true weighted sum |
| MeanScheduler.LessMeans | src/scheduler/mean.rs:28 | the comparison in the loop is that of usage over length as real numbers; where a length is 0, a positive usage counts as plus infinity, a negative one as minus infinity, and no usage compares with nothing |
| MeanScheduler.UsageBounds | src/utils.rs:55-60 | cutting a window's share loses less than one nanosecond |
| MeanScheduler.TotalUsageBounds | src/scheduler/mean.rs:82-91 | the summed usage is within the total length and less than one nanosecond per window below the true weighted sum |
| MeanScheduler.MeasuredRate | src/scheduler/mean.rs:82-91 | for measured windows the rate lies between 0 and 1, or is undefined when the total is 0 |
| MeanScheduler.BelowZeroIff | src/scheduler/mean.rs:23-28 | a rate is below 0 if and only if the sums are opposed: a negative usage over a length that is not, or a positive usage over a negative length |
| MeanScheduler.ChoiceByLoad | src/scheduler/mean.rs:14-35 | in any order: when some listed server's sums are opposed, the one chosen is such a server, nobody listed has a lower usage over length, and those listed before it with opposed sums have a higher one; when none are, it is the first server listed, whatever the load |
| MeanScheduler.ChosenOnce | src/scheduler/mean.rs:14-35 | this describes one position only |
| MeanScheduler.CrossingWindowChosen | src/utils.rs:45-53 | a server listed second is chosen for a window at 100 percent that crosses into the next second and so measures negative |
| MeanScheduler.MeasuredLoadIsIgnored | src/scheduler/mean.rs:14-35 | with percentages between 0 and 100 and no window that measures negative, the first server listed is chosen, whatever the load |
| MeanScheduler.RadeonTotals | src/monitor/linux/radeon.rs:74-85 | windows from radeontop add up to zero nanoseconds, except for minus one second for each that begins within a leap second |
| MeanScheduler.RadeonRate | src/scheduler/mean.rs:82-91 | with such windows a rate is undefined, or minus one percent when one began within a leap second |
| MeanScheduler.RadeonChoice | src/scheduler/mean.rs:14-35 | with such windows the first server listed with a leap second is chosen, and the first one listed when there is none |
| Clusters.RemoveFirstBag | src/scheduler.rs:437-440 | removing an id takes one occurrence from the bag of ids and changes no other |
| Clusters.LowestByMembers | src/scheduler.rs:392-403 | the lowest id depends only on which ids occur |
| Clusters.Cluster.New | src/scheduler.rs:358-370 | a new cluster is headed by its founder and lists only it |
| Clusters.Cluster.PushServer | src/scheduler.rs:82-84 | the server is appended and nothing else changes |
| Clusters.Cluster.ChooseScheduler | src/scheduler.rs:392-403 | the group is now headed by a listed server, and no listed id is lower |
| Clusters.Cluster.RemoveServer | src/scheduler.rs:437-440 | nothing is removed exactly when the id is not listed; else one occurrence goes and is returned |
| Clusters.Cluster.InsertInstance | src/scheduler.rs:416-426 | a known deployment keeps its record and gains the hosts at its end; else the record is new |
| Clusters.Cluster.InsertStats | src/scheduler.rs:428-435 | a known server keeps its record and gains the windows at its end; else the record is new |
| Clusters.Cluster.InstanceServerIds | src/scheduler.rs:442-454 | the hosts' ids in order, or nothing exactly when the deployment is unknown |
| Clusters.ElectsLostIff | src/report.rs:100-103 | the lost scheduler is elected again if and only if it was listed more than once and nobody is lower |
| Clusters.ElectionByFingerprint | src/report.rs:100-103 | the elected id depends only on the scheduler's id and the bag of ids |
| SchedulerRuns.RunGrows | src/scheduler.rs:82-139 | along every run the server list, host lists and window lists only gain at their ends, and lookups and answers stay |
| SchedulerInvariants.RunInv | src/scheduler.rs:181-225 | every run keeps the invariant: keys match their records, every reply delivered or under way is a snapshot of an earlier state that lists its receiver, every cache is what its replies make it |
| SchedulerInvariants.ReportedSnapshot | src/scheduler.rs:205-225 | the reply to a report lists the server that reported |
| SchedulerInvariants.ServersAreJoins | src/scheduler.rs:82-84 | after every run the server list is the inherited one followed by the joins in order |
| SchedulerInvariants.PlacementsArePending | src/scheduler.rs:86-130 | in every run a pending spawn is for the deployment asked for under its ticket, on the target chosen at that time, until it completes or fails |
| SchedulerInvariants.HostsAreSpawns | src/scheduler.rs:86-139 | after every run a deployment's host list is the inherited one followed by the targets of the completed spawns asked for under its id, in order, and the scheduler knows the deployment exactly when one completed |
| SchedulerInvariants.DeploymentsKnown | src/scheduler.rs:117-130 | the known deployments are among those with instances, and are all of them if and only if each inherited one has been spawned again |
| SchedulerInvariants.WindowsAreReports | src/scheduler.rs:428-435 | after every run a server's windows are the concatenation of its reports in order |
| SchedulerInvariants.StatsNameFirst | src/scheduler.rs:428-435 | a server's statistics name it as its first report did |
| SchedulerInvariants.StatsAreReporters | src/scheduler.rs:214-217 | a server has statistics exactly when it has reported |
| SchedulerInvariants.ScaleOutByLastReport | src/scheduler/mean.rs:60-67 | whether a server needs scaling out depends only on the last window it ever reported |
| SchedulerInvariants.ScaleOutDecidedIff | src/scheduler.rs:278-292 | after any run of a new scheduler a lookup's task decides to scale out exactly when the target's last window is above the threshold and the deployment was spawned under this scheduler |
| Scheduling.SpawnTargetIs | src/scheduler.rs:91-103 | after any run of a new scheduler, the target of a spawn is the first server inherited or joined while nobody has reported, else the reporter that the windows reported so far decide for |
| Scheduling.CommitChanges | src/scheduler.rs:117-130 | a completed spawn gives the deployment asked for one more host, at the end, in the record it had or a new one, makes it known, and changes nothing else in the cluster |
| Scheduling.DeployTakesEffect | src/scheduler.rs:86-130 | whatever happens between asking for a deployment and the end of its spawn, exactly the records under its own id change, and its new host is the server that the reports before the asking decide for |
| Scheduling.OnlyCommitsChange | src/scheduler.rs:117-130 | no other step changes the instances or the known deployments |
| Scheduling.SuccessorInherits | src/server/run.rs:110-119 | a successor starts with the group, servers and instances of the cluster it takes over, and along every run they stay and only gain what joined, was spawned and reported under it |
| Lookups.CandidatesByHosts | src/utils.rs:21-28 | a lookup has no candidates exactly when none of the hosts has statistics, and each candidate is a host with statistics |
| Lookups.AnswerMeans | src/scheduler.rs:255-272 | each of a lookup's three answers in terms of the copy it read; the target is the one that the reports decide for |
| Lookups.LookupReadsOnce | src/scheduler.rs:255-307 | whatever happens between its read and its reply, a lookup answers from the state at its read |
| Lookups.LookupSound | src/scheduler.rs:255-307 | under every interleaving: "not found" exactly when there were no instances at the read, "failed to schedule" exactly when there were and none of their hosts had reported, else the server that the windows reported before the read decide for among the hosts that had reported, which hosts the deployment at the reply too |
| Membership.SpawnTargetMeans | src/scheduler.rs:91-103 | a spawn always has a target: the first server while nobody has reported, else a server that has |
| Membership.StatsKnown | src/scheduler.rs:205-225 | after every run each server with statistics is a member, or has reported without having joined |
| Membership.HostsAreKnown | src/scheduler.rs:86-139 | along every run that starts with all hosts in the list, each host of each deployment is a member, or has reported without having joined |
| Membership.StrayIsChosen | src/scheduler.rs:205-225 | a server that never joined is chosen for a spawn by its report alone |
| Membership.LookupReturnsKnown | src/scheduler.rs:255-307 | under every interleaving, the server a lookup returns is in the list at the reply, even after a takeover, or had reported without having joined when the lookup read |
| Membership.TakeoverHostsIff | src/report.rs:100-106 | a successor's host lists name members only if and only if the lost scheduler hosted nothing |
| Failover.LossCommandShape | src/report.rs:95-112 | a command made on a loss makes its own sender the scheduler, or tells it to join |
| Failover.MetricsReporter.PutCluster | src/report.rs:123-136 | the new cache, and the returned flag tells whether it was replaced |
| Failover.MetricsReporter.HandleLoss | src/report.rs:86-115 | the arm that changes a copy in place sends the command specified, with its errors, and panics exactly when nobody is left |
| Failover.EpochKeeps | src/scheduler.rs:82-84 | from a new cluster and with fresh joins, ids stay distinct and the scheduler stays first |
| Failover.SnapshotReads | src/scheduler.rs:480-510 | every reply reads back as the state it was made from, without statistics |
| Failover.SeenIsEarlier | src/report.rs:123-136 | in every reachable state a cache reads as an earlier state of the scheduler's cluster that lists the reporter's server |
| Failover.SeenServersAreLatest | src/report.rs:123-136 | the cached server list is that of the latest reply, even where an older reply was kept |
| Failover.SpawnSeenIff | src/utils.rs:98-101 | a completed spawn counts as a change if and only if it is the deployment's first |
| Elections.ElectionDefined | src/report.rs:95-112 | in every state of an epoch a survivor's reporter with a cache elects a member other than the lost one, from a list one shorter, and the command follows |
| Elections.WinnerUnique | src/scheduler.rs:392-403 | in a list with distinct ids the winner is the one remaining server that nobody undercuts |
| Elections.ClaimsIff | src/report.rs:103-112 | a reporter claims the role exactly when its cached list shows no lower id among the others |
| Elections.ReporterClaimsIff | src/report.rs:86-112 | every reporter of a survivor claims the role if and only if it has received a reply and its cached list shows nobody lower; without a reply it ends with an error |
| Elections.SuccessorIff | src/report.rs:86-112 | a server becomes scheduler if and only if some reporter of it, of whichever start of its service, has received a reply and shows nobody lower |
| Elections.LeaderSucceedsIff | src/report.rs:86-112 | however stale the caches, the survivor with the lowest id becomes scheduler if and only if some reporter of it has received a reply |
| Elections.SomeSuccessorIff | src/report.rs:86-112 | there is a successor if and only if some reporter of a survivor has received a reply and sees nobody lower |
| Elections.OneSuccessorIff | src/report.rs:86-112 | a server is the only successor if and only if some reporter of it has received a reply and sees nobody lower, and every reporter of another survivor that has received one sees somebody lower |
| Elections.RestartKeepsSuccessors | src/server/run.rs:223-231 | a further start of a service changes nobody's part: those who would become scheduler are the same |
| Elections.ElectsIff | src/report.rs:100-112 | a reporter with a cache settles on a server exactly when its list shows that server and nobody lower, and then claims for it or sends a join to it |
| Elections.AgreementIff | src/report.rs:95-112 | all reporters of survivors that have received a reply settle on the lowest survivor if and only if each of their lists shows it |
| Elections.HandedOverIff | src/report.rs:86-112 | one server becomes scheduler and every reporter that can elect elects it, those of other servers joining it, if and only if a reporter of it has received a reply and every list received shows it and nobody lower |
| Elections.HandedOverToOne | src/report.rs:86-112 | then it is the only successor |
| Elections.CurrentHandedOverIff | src/report.rs:86-115 | when no cache differs from the last state, the lowest survivor takes over so if and only if some reporter of it has a cache, however many others have none |
| Elections.CurrentSeesAll | src/report.rs:123-136 | in every state a scheduler can reach, a cache that does not differ from it has all its servers and all its deployments |
| Elections.CurrentCachesAgree | src/report.rs:86-115 | in every state a scheduler can reach, repeated ids included, all reporters with current caches carry out one and the same takeover, that of the scheduler's own state, or all panic when nobody would be left |
| Elections.FailoverAgreement | src/report.rs:86-115 | in an epoch each reporter with a current cache takes its part, whatever the others know: the lowest survivor becomes scheduler with all the others, any other one joins it at its address |
| Elections.StaleElection | src/scheduler.rs:392-403 | a longer list never elects a higher id, and elects another server exactly when a lower one was appended |
| Elections.SplitOnlyByLowerJoin | src/report.rs:95-112 | two reporters elect different servers only if a lower id joined between the states their caches stand for |
| Elections.CachedIffReached | src/report.rs:78-81 | in every run a server has a reporter with a cache exactly when a reply was ever delivered to one of its reporters |
| Elections.EpochFailover | src/report.rs:86-115 | in every run of an epoch the lowest survivor becomes scheduler if and only if a reply was ever delivered to one of its reporters, and reporters with current caches follow it |
| Generations.FirstLoss | src/report.rs:100-103 | the first loss leaves every other server listed once |
| Generations.LossAfterRejoin | src/scheduler.rs:437-440 | when all but the scheduler are listed twice, the loss of the scheduler leaves the others listed twice and elects their lowest |
| Generations.SecondElectionPicksAlive | src/report.rs:100-103 | after all survivors have rejoined the first successor, the second election picks the lowest of those alive |
| Generations.ThirdElectionPicksTheLost | src/report.rs:100-103 | after two such losses, for at least four servers, the third election picks the server just lost |
| Generations.NobodyAfterThird | src/report.rs:95-112 | every other server that elects from a cache with those ids sends a join to the server just lost, so nobody becomes scheduler |
| Generations.TakeoverHappens | src/report.rs:100-112 | a takeover in which everybody alive rejoins and is told of the present state can happen whenever the successor is alive |
| Generations.ThirdLossHappens | src/report.rs:86-112 | every cluster of at least four servers has runs that lead to that third election with a reporter for every server left, and each of these sends a join to the server just lost |
| ElectionRuns.Tell | src/scheduler.rs:197-225 | a member can be answered, start a reporter, report and cache the reply in any state of any run |
| ElectionRuns.GatheredOutcome | src/report.rs:86-115 | in clusters of every size, when all have joined and the first m have been told of the present state: if the lowest is among them it takes over and the others with caches join it, if not nobody becomes scheduler |
| ElectionRuns.AgreementHappens | src/report.rs:86-115 | every cluster, of whatever size, has a run after which no cache differs from the present state and the lowest of the others takes over |
| ElectionRuns.NobodyHappens | src/report.rs:86-112 | any three servers have a run after which nobody becomes scheduler: the lower survivor is known to the other but has received no reply |
| ElectionRuns.SplitHappens | src/report.rs:103-112 | any three servers have a run after which both survivors become scheduler: the lower one arrived after the other's last report |
| DaemonRuns.RunStart | src/server/run.rs:85-122 | the loop goes through the states of the specified run and stops as it does |
| DaemonRuns.RunStartsAs | src/server/run.rs:292-313 | every run starts by joining the address given, and without one as the scheduler of a new cluster that lists the daemon alone |
| DaemonRuns.StopsAtFirstFault | src/server/run.rs:99-112 | every run goes on until the first service that fails or channel that is closed and stops with that error, with one state for each turn before it and one more; without such a turn it goes on to the end |
| DaemonRuns.OwnCommandSound | src/report.rs:103-112 | every command a daemon gets from its own reporter makes a sound state |
| DaemonRuns.EveryStateSound | src/server/run.rs:85-151 | in every run each authoritative state is headed by the daemon itself and lists it; the failed state is never entered and the arm that panics never reached |
| DaemonRuns.StatesFollow | src/server/run.rs:99-120 | in every run each turn leads to exactly the state that its command, or the answer to its join, orders; a group comes only from the answer to a join, a new address only from the daemon's own election, authority only from growth or an election won |
| HostMemory.JoinCoversIff | laqista-core/src/wasm.rs:169-175 | joining leaves the region below the cursor if and only if it was there before or the cursor was empty |
| HostMemory.PackRoundTripIff | apps/face-wasm/src/interface.rs:64-69 | a packed region unpacks to itself if and only if address and length are below 2^31 |
| HostMemory.WasmRunner.WriteBytes | laqista-core/src/wasm.rs:77-90 | the bytes land at the cursor, the cursor moves behind them, the rest of the memory stays; a write that does not fit changes nothing |
| HostMemory.WasmRunner.ReadBytes | laqista-core/src/wasm.rs:102-111 | the region's bytes, the cursor joined and the memory unchanged; a read outside the memory, or the panic on a negative length, changes nothing |
| HostMemory.RereadHolds | laqista-core/src/wasm.rs:102-111 | rereading a region that was handed out returns its bytes and moves nothing |
| HostMemory.MemoryIsLog | laqista-core/src/wasm.rs:77-111 | for every sequence of writes and rereads the memory is a log: contiguous regions, each reading back as it was written |
| Exchange.GuestMemory.constructor | apps/face-wasm/src/memory.rs:21-27 | the argument counts as used |
| Exchange.GuestMemory.GetWhole | apps/face-wasm/src/memory.rs:29-40 | the argument's bytes, all and only those |
| Exchange.GuestMemory.WriteBytes | apps/face-wasm/src/memory.rs:48-59 | the data lies one byte behind the last, the rest of the memory stays |
| Exchange.Exit | apps/face-wasm/src/interface.rs:11-62 | payload and message are both intact in memory, and the returned number points to the message |
| Exchange.RunGuest | apps/face-wasm/src/lib.rs:38-87 | the guest sees exactly its argument's bytes and leaves its answer, or its error, intact |
| Exchange.SentPointsAtPayload | apps/face-wasm/src/interface.rs:21-62 | each kind of message points to its payload |
| Exchange.ReadMessage | laqista-core/src/wasm.rs:92-100 | a message decodes from its region, with the failures of either step |
| Exchange.Invoke | laqista-core/src/wasm.rs:43-53 | the host reads exactly the message the guest meant, and the payload lies where it says |
| Exchange.Dispatch | laqista-core/src/wasm.rs:55-66 | a finished guest's output is decoded from its payload, a host call is passed on, an error reported |
| Exchange.Call | laqista-core/src/wasm.rs:43-67 | the outcome of a call in terms of what the guest sends, for every argument |
| Exchange.CursorAfterCall | laqista-core/src/wasm.rs:169-175 | where the cursor stands after a call's two reads; it moves back exactly when the message is shorter than the argument and not empty |
| Exchange.FirstTrip | apps/face/src/server.rs:64-91 | after the first trip the host has exactly the guest's parameters, or its error |
| Exchange.SecondTrip | apps/face/src/server.rs:84-98 | after the second trip the host has exactly the guest's output, or its error |
| Exchange.RunDetection | apps/face/src/server.rs:46-99 | for every request and all message sizes that fit, the answer is that of the same computation without any memory in between |
| RadeonLines.IdNotPercent | src/monitor/linux/parse.rs:134-142 | hexadecimal digits alone are never read as a percentage |
| RadeonLines.WithOtherUnit | src/monitor/linux/parse.rs:162-174 | an amount in gigahertz is an error, not a panic or a match, where megabytes are tried first |
| RadeonLines.ResourceReads | src/monitor/linux/parse.rs:121-202 | an entry is read with its value, as far as it was written and no further |
| RadeonLines.MoreReads | src/monitor/linux/parse.rs:113-119 | entries that were written are read one by one, and then reading goes on with what follows |
| RadeonLines.LineReads | src/monitor/linux/parse.rs:92-119 | a written line reads as its time stamp and entries, then goes on with what follows |
| RadeonLines.ResourceShape | src/monitor/linux/parse.rs:121-202 | an entry that is accepted is a well-formed text of its value, followed by the rest |
| RadeonLines.LineShape | src/monitor/linux/parse.rs:92-119 | a line that is accepted is a written one: stamp, at least one entry, and the rest it leaves |
| RadeonLines.ReadOn | src/monitor/linux/parse.rs:113-119 | what follows the place where reading stopped is all that decides how it goes on |
| RadeonLines.CutLine | src/monitor/linux/parse.rs:92-119 | a line gives the metrics of itself cut where reading stopped, also when an entry that does not parse follows; an entry that panics there stops the program |
| RadeonLines.NoNumberErrs | src/monitor/linux/parse.rs:121-142 | an entry such as `mclk inf%`, whose value begins with no hexadecimal digit, does not parse |
| RadeonPanics.LongFractionIff | src/monitor/linux/parse.rs:180-202 | the condition on a number, spelled out: a whole part, a dot and more than three decimals, both within 64 bits |
| RadeonPanics.FractionPanicsIff | src/monitor/linux/parse.rs:180-202 | a number stops the program if and only if it meets that condition |
| RadeonPanics.AbsolutePanicsIff | src/monitor/linux/parse.rs:154-178 | an amount stops the program if and only if its number does, in whatever unit |
| RadeonPanics.EntryPanicsIff | src/monitor/linux/parse.rs:121-202 | an entry stops the program if and only if its share, or the amount behind a share that reads, meets that condition |
| RadeonPanics.ReadLinePanicsIff | src/monitor/linux/parse.rs:92-119 | reading a line stops the program if and only if such an entry follows a time stamp and well-formed entries |
| RadeonPanics.RatiosPanicIff | src/monitor/linux/parse.rs:234-274 | the lookup of the keys stops the program if and only if the first key without a ratio is there as an identifier |
| RadeonPanics.MetricsPanicIff | src/monitor/linux/parse.rs:92-100 | a line stops the program if and only if reading it does, or it reads and the lookup of its keys does |
| RadeonPrinter.AmountPrinted | src/monitor/linux/parse.rs:180-202 | one, two or three printed decimals read as hundredths |
| RadeonPrinter.PrintedLineReads | src/monitor/linux/parse.rs:92-119 | a printed line reads as its time stamp and its readings in order, to the end |
| RadeonPrinter.ByNameIsLast | src/monitor/linux/parse.rs:116 | the map holds the last entry of each name |
| RadeonPrinter.RatiosOutcome | src/monitor/linux/parse.rs:234-274 | the first key without a ratio decides: an error if it is missing, a panic if it is an id; without one, the ratios are the whole parts and hundredths read |
| RadeonPrinter.RoundTrip | src/monitor/linux/parse.rs:92-99 | a printed line gives metrics if and only if each of the thirteen keys was last printed as a percentage, and then exactly those, in any order of the entries: a hundred times each ratio is the number of hundredths printed |
| DirectoryNames.DecodeEncode | src/deployment/database.rs:186-194 | the hexadecimal text of any bytes decodes to them |
| DirectoryNames.NameRoundTripIff | src/deployment/database.rs:178-197 | a directory name reads back as its deployment, cut to the second, if and only if the time is not before 1970; before it, not at all |
| DirectoryNames.NamesInjective | src/deployment/database.rs:192-197 | at all times, before 1970 too, two deployments share a directory exactly when second and hash agree |
| DirectoryTexts.NameReads | src/deployment/database.rs:179-190 | a name of that spelling reads as its second and hash |
| DirectoryTexts.ReadsIff | src/deployment/database.rs:179-190 | a directory name reads if and only if it is a second within the calendar, perhaps with a plus sign, a dash and the hexadecimal digits of a hash, with nothing behind them or whatever follows a further dash |
| Deployments.ReadPerApp | src/deployment/fs.rs:37-68 | the loop over an application's directory computes the specified reading, errors included |
| Deployments.ReadApps | src/deployment/fs.rs:17-35 | the loop over the root computes the specified map, errors included |
| Deployments.ItemsRead | src/deployment/fs.rs:42-61 | directories with made names always read, and give back exactly their names |
| Deployments.InfoRead | src/deployment/fs.rs:45-49 | the information read is that of the file, if there is one |
| Deployments.AppReads | src/deployment/fs.rs:37-68 | in any order, an application's directory reads as its information and its directory names, and fails exactly without information |
| DeploymentRuns.RootFails | src/deployment/fs.rs:17-35 | reading a tree fails exactly when some directory has no information |
| DeploymentRuns.RootReads | src/deployment/fs.rs:17-35 | in any order, a tree with one name per id reads as exactly its applications |
| DeploymentRuns.SavingKept | src/deployment/database.rs:129-149 | at every point of every run, a save's directory exists, and its information once written |
| DeploymentRuns.AppKept | src/deployment/database.rs:83-91 | at every point of every run, an application in the index has its information and all its directories on disk |
| DeploymentRuns.OwnerKept | src/deployment/database.rs:145-146 | information on disk is that of an application in the index or about to enter it |
| DeploymentRuns.DeploymentsInOrder | src/deployment/database.rs:163-169 | after every run an application's deployments are its completed saves in order, and it is in the index exactly when one completed |
| DeploymentRuns.InstancesKnown | src/deployment/database.rs:68-81 | every noted instance is of an application in the index |
| DeploymentRuns.InstancesAreNotes | src/deployment/database.rs:68-81 | the noted instances are those of the calls that came to an end, in order |
| DeploymentRuns.FoundThenNoted | src/deployment/database.rs:68-81 | each call that found its application notes one instance, at the end or not yet |
| DeploymentRuns.SavingsAreEvents | src/deployment/database.rs:83-91 | a save is under way exactly from the making of its directory until it enters the index or breaks off, with the information and the second and hash it began with |
| DeploymentRuns.RestartFailsIff | src/deployment/database.rs:129-161 | at whatever point the daemon stopped, a restart fails if and only if some save was dated before 1970, or some name's directory was made and none of its saves wrote the information |
| DeploymentRuns.RunAccounted | src/deployment/database.rs:83-91 | unless a save broke off, every directory belongs to an application in the index or to a save under way |
| DeploymentRuns.RestartAgreesIff | src/deployment/database.rs:152-170 | after completed saves, a restart reads the same ids, information and directories as memory held if and only if no save was dated before 1970 and no two deployments share a name |

## Left out

- The trigger of the failover: as written the arm at src/report.rs:86-115 is not reached, because a `Status`
  always becomes a request error (src/error.rs:99-103) and a failed connect leaves earlier (src/report.rs:67).
  The model takes "the scheduler is unreachable" as a step that may happen in any state.
- The scale-out task of a lookup beyond its decision, which changes nothing: it holds the lock
  (src/scheduler.rs:279) that the deployment it starts takes again (src/scheduler.rs:93).
- Remote calls, TCP, the proxy, downloads, archives, processes and the command line. A spawn call succeeds or
  fails freely between its two sections; a download or an archive that fails is an abandoned save.
- Clocks, MAC addresses and the generation of identifiers: an identifier is any 128-bit number. The local time
  zone and its ambiguous hours: a second within the calendar's range always has one time.
- Floating point: rates and ratios are exact, and a division by zero has its IEEE outcome. Sums of lengths are
  unbounded.
- Windows without times or utilization, on which the source panics, and the panics on joins or replies without
  a server or a group: messages carry these fields.
- Growth of the guest's memory: `grow_to` (apps/face-wasm/src/memory.rs:62-80) underflows when there is room
  already. `Fits` asks for enough memory instead, below 2 GiB. The guest's own stack and heap are not in the
  memory of the model.
- What a panic does beyond its call: where the source panics, the model has an outcome of its own. In the
  exchange and in the failover arm (`EmptyListPanic`, for the read of `servers[0]`) it is among the results; in
  a detection request it is proved not to occur.
- Reporters of a lost scheduler that go on: after its command a reporter lives and would send it again with its
  next window, also under the successor. The generations take one command of each survivor.
- What a server that never joined does with the replies to its reports: it is not among the survivors.
- DeploymentRuns.RestartFailsIff: does not model a stop in the middle of writing the information file, because
  the write (src/deployment/fs.rs:109) is taken as one step; a file left empty or cut would fail to read as well.
- MeanScheduler.UsageBounds: the source multiplies in 64-bit floating point and may cut one nanosecond more
  than exact arithmetic does.
- MeanScheduler.TotalUsageBounds: the source adds in 64-bit floating point; the bound is that of exact sums.
- `schedule_gpu` (a copy of `schedule`), `next_cluster`, `to_nomination`, `nominate` and
  `handle_failed_server`: not called, or unimplemented.
- `get` and `lookup` of the deployment database, and the contents of the archives: only easy members.
- ClusterDiff.ServersDiffer: the library's sort is known by its result, a sorted permutation, not by its
  steps.
- Error texts and what is printed; of the guest's errors, those of its own computation are carried through.
- `src/monitor/apple.rs` and the process that feeds the line parser, with the header line it skips.
- File names: a deployment name is any text, and that it is a usable file name is taken for granted.
