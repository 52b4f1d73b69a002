/** The loop that restarts a daemon's services each time its state changes. */
module DaemonRuns {
  import opened Wrappers
  import opened Entities
  import opened Clusters
  import opened SchedulerRuns
  import opened Failover

  /** How one turn of the loop ends: the service for the current state finishes, or a command arrives on
      the channel. `group` is the answer to a join; `now` is what an authoritative daemon's cluster has
      grown into. */
  datatype Outcome =
    | ServiceEnded(ok: bool, group: GroupInfo, now: ClusterValue)
    | Received(command: Option<StateCommand>, now: ClusterValue)

  datatype RunError = ServiceFailed | ChannelClosed | Panicked

  /** `determine_state`: without a server to join, the daemon founds a cluster of its own. */
  function DetermineState(info: ServerInfo, bootstrap: Option<string>): DaemonState {
    match bootstrap
    case Some(addr) => Joining(addr)
    case None => Authoritative(NewCluster(info))
  }

  function Grown(state: DaemonState, now: ClusterValue): DaemonState {
    if state.Authoritative? then Authoritative(now) else state
  }

  function Turn(state: DaemonState, o: Outcome): Result<DaemonState, RunError> {
    if state.Failed? then Failure(Panicked) else
    match o
    case ServiceEnded(false, _, _) => Failure(ServiceFailed)
    case ServiceEnded(true, group, now) =>
      Success(if state.Joining? then Running(group) else Grown(state, now))
    case Received(None, _) => Failure(ChannelClosed)
    case Received(Some(Keep), now) => Success(Grown(state, now))
    case Received(Some(Update(new_)), _) => Success(new_)
    case Received(Some(BecomeScheduler(c)), _) => Success(Authoritative(c))
  }

  /** The states a run goes through, and how it ended if it did. */
  datatype History = History(states: seq<DaemonState>, stopped: Option<RunError>)

  function Run(first: DaemonState, script: seq<Outcome>): (h: History)
    ensures h.states != []
  {
    if script == [] then History([first], None) else
    var h := Run(first, script[..|script| - 1]);
    if h.stopped.Some? then h else
    match Turn(h.states[|h.states| - 1], script[|script| - 1])
    case Failure(e) => History(h.states, Some(e))
    case Success(state) => History(h.states + [state], None)
  }

  /** `run_start`, driven by a script of how its turns end. */
  method RunStart(info: ServerInfo, bootstrap: Option<string>, script: seq<Outcome>)
    returns (states: seq<DaemonState>, stopped: Option<RunError>)
    ensures History(states, stopped) == Run(DetermineState(info, bootstrap), script)
  {
    var state := DetermineState(info, bootstrap);
    states, stopped := [state], None;
    var n := 0;
    assert script[..0] == [];
    while n < |script| && stopped == None
      invariant n <= |script|
      invariant states != [] && (stopped == None ==> state == states[|states| - 1])
      invariant History(states, stopped) == Run(DetermineState(info, bootstrap), script[..n])
    {
      assert script[..n + 1][..n] == script[..n];
      match Turn(state, script[n]) {
        case Failure(e) => stopped := Some(e);
        case Success(new_) =>
          state := new_;
          states := states + [state];
      }
      n := n + 1;
    }
    StoppedStays(DetermineState(info, bootstrap), script, n);
  }

  lemma {:induction false} StoppedStays(first: DaemonState, script: seq<Outcome>, n: nat)
    requires n <= |script| && (Run(first, script[..n]).stopped.Some? || n == |script|)
    ensures Run(first, script) == Run(first, script[..n])
  {
    if n == |script| {
      assert script[..n] == script;
    } else {
      var front := script[..|script| - 1];
      assert front[..n] == script[..n];
      StoppedStays(first, front, n);
    }
  }

  /** Commands come from the daemon's own reporters, current or left over, and from its database. */
  ghost predicate OwnCommand(info: ServerInfo, command: StateCommand) {
    command == Keep || exists cache :: LossCommand(info, cache) == Success(command)
  }

  /** A turn that can happen: an own command, and a cluster that only grew. */
  ghost predicate CanHappen(info: ServerInfo, state: DaemonState, o: Outcome) {
    && (state.Authoritative? ==> Earlier(state.cluster, o.now))
    && (o.Received? && o.command.Some? ==> OwnCommand(info, o.command.value))
  }

  ghost predicate IsHistory(info: ServerInfo, first: DaemonState, script: seq<Outcome>) {
    forall n :: 0 <= n < |script| ==>
      CanHappen(info, LastState(first, script[..n]), script[n])
  }

  function LastState(first: DaemonState, script: seq<Outcome>): DaemonState {
    var h := Run(first, script);
    h.states[|h.states| - 1]
  }

  /** An authoritative daemon's cluster names the daemon as its scheduler and lists it. */
  ghost predicate Sound(info: ServerInfo, state: DaemonState) {
    match state
    case Authoritative(c) =>
      c.group.scheduler.id == info.id && exists t :: t in c.servers && t.id == info.id
    case Failed => false
    case _ => true
  }

  lemma OwnCommandSound(info: ServerInfo, command: StateCommand)
    requires OwnCommand(info, command)
    ensures match command
            case Update(state) => Sound(info, state)
            case BecomeScheduler(c) => Sound(info, Authoritative(c))
            case Keep => true
  {
    if command != Keep {
      var cache :| LossCommand(info, cache) == Success(command);
      LossCommandShape(info, cache);
    }
  }

  lemma GrownSound(info: ServerInfo, state: DaemonState, now: ClusterValue)
    requires Sound(info, state)
    requires state.Authoritative? ==> Earlier(state.cluster, now)
    ensures Sound(info, Grown(state, now))
  {
    if state.Authoritative? {
      var t :| t in state.cluster.servers && t.id == info.id;
      var i :| 0 <= i < |state.cluster.servers| && state.cluster.servers[i] == t;
      assert now.servers[i] == t;
      assert t in now.servers;
    }
  }

  lemma TurnSound(info: ServerInfo, state: DaemonState, o: Outcome)
    requires Sound(info, state) && CanHappen(info, state, o)
    ensures match Turn(state, o)
            case Success(next) => Sound(info, next)
            case Failure(e) => e != Panicked
  {
    GrownSound(info, state, o.now);
    if o.Received? && o.command.Some? {
      OwnCommandSound(info, o.command.value);
    }
  }

  lemma FrontHistory(info: ServerInfo, first: DaemonState, script: seq<Outcome>)
    requires IsHistory(info, first, script) && script != []
    ensures IsHistory(info, first, script[..|script| - 1])
    ensures CanHappen(info, LastState(first, script[..|script| - 1]), script[|script| - 1])
  {
    var front := script[..|script| - 1];
    forall m | 0 <= m < |front| ensures CanHappen(info, LastState(first, front[..m]), front[m]) {
      assert front[..m] == script[..m];
    }
  }

  /** In every run, every authoritative state is headed by the daemon itself, and the failed state is
      never entered, so the arm that panics on it is never reached. */
  lemma {:induction false} EveryStateSound(info: ServerInfo, bootstrap: Option<string>, script: seq<Outcome>)
    requires IsHistory(info, DetermineState(info, bootstrap), script)
    ensures var h := Run(DetermineState(info, bootstrap), script);
            && (forall state :: state in h.states ==> Sound(info, state))
            && h.stopped != Some(Panicked)
  {
    var first := DetermineState(info, bootstrap);
    if script == [] {
      assert info in NewCluster(info).servers;
    } else {
      var front := script[..|script| - 1];
      FrontHistory(info, first, script);
      EveryStateSound(info, bootstrap, front);
      TurnSound(info, LastState(first, front), script[|script| - 1]);
    }
  }

  /** Where a state can come from: a group only from the answer to a join, a new address only from the
      daemon's own election, authority only from growth or from an election won. */
  ghost predicate Follows(info: ServerInfo, before: DaemonState, state: DaemonState, o: Outcome) {
    match state
    case Failed => false
    case Joining(_) => state == before || exists cache :: LossCommand(info, cache) == Success(Update(state))
    case Running(group) => state == before || (before.Joining? && o.ServiceEnded? && o.group == group)
    case Authoritative(c) =>
      || (before.Authoritative? && Earlier(before.cluster, c))
      || exists cache :: LossCommand(info, cache) == Success(BecomeScheduler(c))
  }

  /** A command received is carried out, and a join that succeeds leads to the group it was told. */
  ghost predicate Obeys(before: DaemonState, state: DaemonState, o: Outcome) {
    match o
    case Received(Some(Update(ordered)), _) => state == ordered
    case Received(Some(BecomeScheduler(c)), _) => state == Authoritative(c)
    case Received(_, now) => state == if before.Authoritative? then Authoritative(now) else before
    case ServiceEnded(_, group, now) =>
      state == if before.Joining? then Running(group)
               else if before.Authoritative? then Authoritative(now) else before
  }

  lemma CommandFollows(info: ServerInfo, before: DaemonState, o: Outcome)
    requires CanHappen(info, before, o) && o.Received? && o.command.Some? && o.command.value != Keep
    ensures match o.command.value
            case Update(state) => Follows(info, before, state, o)
            case BecomeScheduler(c) => Follows(info, before, Authoritative(c), o)
            case Keep => true
  {
    var cache :| LossCommand(info, cache) == Success(o.command.value);
    LossCommandShape(info, cache);
  }

  lemma TurnFollows(info: ServerInfo, state: DaemonState, o: Outcome)
    requires Sound(info, state) && CanHappen(info, state, o)
    ensures Turn(state, o).Success? ==> Follows(info, state, Turn(state, o).value, o)
    ensures Turn(state, o).Success? ==> Obeys(state, Turn(state, o).value, o)
  {
    if o.Received? && o.command.Some? && o.command.value != Keep {
      CommandFollows(info, state, o);
    }
  }

  /** A run that has not stopped has gone through one state for each turn, and one more. */
  lemma {:induction false} OneStatePerTurn(first: DaemonState, script: seq<Outcome>)
    ensures var h := Run(first, script);
            |h.states| <= |script| + 1 && (h.stopped.None? ==> |h.states| == |script| + 1)
  {
    if script != [] {
      OneStatePerTurn(first, script[..|script| - 1]);
    }
  }

  /** The last turn adds at most one state, the one it leads to. */
  lemma LastTurn(first: DaemonState, script: seq<Outcome>)
    requires script != []
    ensures var front := script[..|script| - 1];
            var before, now := Run(first, front).states, Run(first, script).states;
            now == before ||
            (var turn := Turn(LastState(first, front), script[|script| - 1]);
             turn.Success? && now == before + [turn.value])
  {
  }

  /** In every run each state follows from the one before it, and commands are obeyed. */
  lemma {:induction false} StatesFollow(info: ServerInfo, bootstrap: Option<string>, script: seq<Outcome>,
                                        i: nat)
    requires IsHistory(info, DetermineState(info, bootstrap), script)
    requires 0 < i < |Run(DetermineState(info, bootstrap), script).states|
    ensures i <= |script|
    ensures var states := Run(DetermineState(info, bootstrap), script).states;
            && Follows(info, states[i - 1], states[i], script[i - 1])
            && Obeys(states[i - 1], states[i], script[i - 1])
  {
    var first := DetermineState(info, bootstrap);
    var front := script[..|script| - 1];
    OneStatePerTurn(first, script);
    FrontHistory(info, first, script);
    LastTurn(first, script);
    if i < |Run(first, front).states| {
      StatesFollow(info, bootstrap, front, i);
    } else {
      OneStatePerTurn(first, front);
      EveryStateSound(info, bootstrap, front);
      TurnFollows(info, LastState(first, front), script[|script| - 1]);
    }
  }

  /** What ends a run: a service that fails, or a channel that is closed. */
  function Fault(o: Outcome): Option<RunError> {
    if o.ServiceEnded? && !o.ok then Some(ServiceFailed)
    else if o.Received? && o.command.None? then Some(ChannelClosed)
    else None
  }

  function FirstFault(script: seq<Outcome>): Option<RunError> {
    if script == [] then None
    else if FirstFault(script[..|script| - 1]).Some? then FirstFault(script[..|script| - 1])
    else Fault(script[|script| - 1])
  }

  /** How many turns come before it. */
  function TurnsBefore(script: seq<Outcome>): nat {
    if script == [] then 0
    else TurnsBefore(script[..|script| - 1]) + if FirstFault(script).None? then 1 else 0
  }

  lemma TurnGoesOnIff(info: ServerInfo, state: DaemonState, o: Outcome)
    requires Sound(info, state)
    ensures match Turn(state, o)
            case Success(_) => Fault(o) == None
            case Failure(e) => Fault(o) == Some(e)
  {
  }

  lemma RunSnoc(first: DaemonState, script: seq<Outcome>)
    requires script != []
    ensures var before, now := Run(first, script[..|script| - 1]), Run(first, script);
            if before.stopped.Some? then now == before
            else match Turn(LastState(first, script[..|script| - 1]), script[|script| - 1])
                 case Failure(e) => now == History(before.states, Some(e))
                 case Success(state) => now == History(before.states + [state], None)
  {
  }

  /** In every run, the loop goes on until the first fault and stops with it: there is one state for each turn
      before it, and one more. A run without a fault goes on to the end of its script. */
  lemma {:induction false} StopsAtFirstFault(info: ServerInfo, bootstrap: Option<string>, script: seq<Outcome>)
    requires IsHistory(info, DetermineState(info, bootstrap), script)
    ensures var h := Run(DetermineState(info, bootstrap), script);
            && h.stopped == FirstFault(script)
            && |h.states| == TurnsBefore(script) + 1
            && (FirstFault(script) == None ==> |h.states| == |script| + 1)
  {
    if script != [] {
      var first, front := DetermineState(info, bootstrap), script[..|script| - 1];
      FrontHistory(info, first, script);
      StopsAtFirstFault(info, bootstrap, front);
      EveryStateSound(info, bootstrap, front);
      RunSnoc(first, script);
      TurnGoesOnIff(info, LastState(first, front), script[|script| - 1]);
    }
  }

  lemma {:induction false} FirstStateStays(first: DaemonState, script: seq<Outcome>)
    ensures Run(first, script).states[0] == first
  {
    if script != [] {
      FirstStateStays(first, script[..|script| - 1]);
    }
  }

  /** Every run starts with a join of the address given, or else as the scheduler of a new cluster that lists
      the daemon alone. */
  lemma RunStartsAs(info: ServerInfo, bootstrap: Option<string>, script: seq<Outcome>)
    ensures var first := Run(DetermineState(info, bootstrap), script).states[0];
            match bootstrap
            case Some(addr) => first == Joining(addr)
            case None =>
              && first.Authoritative? && first.cluster.group == GroupInfo(0, info)
              && first.cluster.servers == [info]
              && first.cluster.instances == map[] && first.cluster.stats == map[]
  {
    FirstStateStays(DetermineState(info, bootstrap), script);
  }
}
