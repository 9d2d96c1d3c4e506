/** The mesh lifecycle: the phase machine and the calls that drive it, under any failing component. */
module Mesh {
  import opened Model

  datatype Phase = Stopped | Starting | Provisioning | Bootstrapping | Running | Stopping

  datatype PhaseEvent = UpRequested | NetworkReady | ComponentsStarted | ComponentFailed | SyncComplete
    | DetachRequested | DestroyRequested | TeardownComplete

  function Transition(current: Phase, event: PhaseEvent): Option<Phase> {
    match (current, event)
    case (Stopped, UpRequested) => Some(Phase.Starting)
    case (Starting, NetworkReady) => Some(Provisioning)
    case (Provisioning, ComponentsStarted) => Some(Bootstrapping)
    case (Starting, ComponentFailed) => Some(Stopped)
    case (Provisioning, ComponentFailed) => Some(Stopped)
    case (Bootstrapping, ComponentFailed) => Some(Stopped)
    case (Bootstrapping, SyncComplete) => Some(Running)
    case (Running, DetachRequested) => Some(Stopped)
    case (Stopping, TeardownComplete) => Some(Stopped)
    case (_, DestroyRequested) => if current == Stopping then None else Some(Stopping)
    case _ => None
  }

  /** The phases a sequence of events leads through, if it is accepted. */
  function Drives(from: Phase, events: seq<PhaseEvent>): Option<Phase>
    decreases |events|
  {
    if events == [] then Some(from)
    else
      var next := Transition(from, events[0]);
      if next.None? then None else Drives(next.value, events[1..])
  }

  /** The only way from rest to Running is the whole startup, in order. */
  lemma {:induction false} RunningNeedsWholeStartup(events: seq<PhaseEvent>)
    requires Drives(Stopped, events) == Some(Running)
    requires forall e :: e in events ==> !e.ComponentFailed? && !e.DestroyRequested? && !e.DetachRequested?
    ensures events == [UpRequested, NetworkReady, ComponentsStarted, SyncComplete]
  {
    assert events != [] && events[0] in events;
    var a := events[1..];
    assert Drives(Phase.Starting, a) == Some(Running);
    assert a != [] && a[0] == events[1] && events[1] in events;
    var b := a[1..];
    assert Drives(Provisioning, b) == Some(Running);
    assert b != [] && b[0] == events[2] && events[2] in events;
    var c := b[1..];
    assert Drives(Bootstrapping, c) == Some(Running);
    assert c != [] && c[0] == events[3] && events[3] in events;
    var d := c[1..];
    assert Drives(Running, d) == Some(Running);
    assert d == events[4..] && (forall e :: e in d ==> e in events);
    assert events == [events[0], events[1], events[2], events[3]] + d;
  }

  datatype MeshError = InvalidTransition(from: Phase, event: PhaseEvent) | BootstrapTimeout | Port | Task

  datatype TaskKind = ProbeListener | PeerSync | SelfRecordWriter | EndpointRefresh | SelfLiveness | ParticipationTask
    | Heartbeat | SubnetMonitor | EbpfSync

  /** What does not change during the life of a mesh. */
  datatype Config = Config(dataplaneFactory: bool, selfInSeeds: bool, allowDisconnectedBootstrap: bool)

  /** The network driver and the container network, which a restart replaces. */
  datatype Setup = Setup(docker: bool, probeListener: bool, containerNetwork: bool)

  /** Which of the components called during a start do their part; `remotePeers` is `None` if listing machines fails. */
  datatype StartWorld = StartWorld(
    networkUp: bool, ensured: bool, connected: bool, attached: bool, storeStarts: bool, serviceReady: bool,
    storeInit: bool, subscribed: bool, remotePeers: Option<bool>, gossipConnects: bool, selfInStore: bool,
    subnetSubscribed: bool, ebpfSubscribed: bool)

  datatype StopWorld = StopWorld(tasksStop: bool, storeStops: bool, networkDown: bool, containerRemoved: bool)

  datatype RuntimeStoreMode = Keep | Stop

  // ---------------------------------------------------------------------------
  // How a start can end
  // ---------------------------------------------------------------------------

  predicate ContainerReady(c: Config, setup: Setup, w: StartWorld) {
    setup.containerNetwork ==> w.ensured && (setup.docker ==> w.connected) && (c.dataplaneFactory ==> w.attached)
  }

  predicate GatePasses(c: Config, w: StartWorld) {
    w.remotePeers.Some? && (w.remotePeers.value ==> c.allowDisconnectedBootstrap || w.gossipConnects)
  }

  predicate Provisioned(c: Config, setup: Setup, w: StartWorld) {
    ContainerReady(c, setup, w) && w.storeStarts && w.serviceReady && w.storeInit
  }

  /** Everything up to and including the bootstrap gate works. */
  predicate ReachesRunning(c: Config, setup: Setup, w: StartWorld) {
    w.networkUp && Provisioned(c, setup, w) && w.subscribed && GatePasses(c, w)
  }

  /** What a start reports that does not get past the gate. */
  function EarlyError(c: Config, setup: Setup, w: StartWorld): MeshError {
    if !w.networkUp || !Provisioned(c, setup, w) then Port
    else if !w.subscribed then Task
    else if w.remotePeers.None? then Port
    else BootstrapTimeout
  }

  predicate SelfFound(c: Config, w: StartWorld) { c.selfInSeeds || w.selfInStore }

  /** The background tasks can be spawned. */
  predicate Spawns(c: Config, w: StartWorld, dataplane: bool, selfKnown: bool) {
    (selfKnown || SelfFound(c, w)) && w.subnetSubscribed && (dataplane ==> w.ebpfSubscribed)
  }

  function PeerTasks(setup: Setup): set<TaskKind> {
    (if setup.probeListener then {ProbeListener} else {}) + {PeerSync}
  }

  /** The tasks of a running mesh. */
  function AllTasks(setup: Setup, dataplane: bool): set<TaskKind> {
    var t := PeerTasks(setup)
      + {SelfRecordWriter, EndpointRefresh} + {SelfLiveness} + {ParticipationTask} + {Heartbeat} + {SubnetMonitor};
    if dataplane then t + {EbpfSync} else t
  }

  // ---------------------------------------------------------------------------
  // What each call does
  // ---------------------------------------------------------------------------

  /** A mesh between calls; `working` when it has its tasks and channels. */
  datatype State = State(phase: Phase, working: bool, dataplane: bool, selfKnown: bool, setup: Setup)

  type Reply = Option<MeshError>

  const SPAWN_FAILURE: MeshError := InvalidTransition(Running, ComponentFailed)

  function Attaches(c: Config, s: State): bool {
    s.dataplane || (s.setup.containerNetwork && c.dataplaneFactory)
  }

  /** A start from rest. */
  function AfterStart(c: Config, s: State, w: StartWorld): (State, Reply) {
    var down := s.(phase := Stopped, working := false, dataplane := false);
    if !ReachesRunning(c, s.setup, w) then (down, Some(EarlyError(c, s.setup, w)))
    else if !Spawns(c, w, Attaches(c, s), s.selfKnown) then
      (down.(phase := Running, selfKnown := s.selfKnown || SelfFound(c, w)), Some(SPAWN_FAILURE))
    else (State(Running, true, Attaches(c, s), true, s.setup), None)
  }

  function AfterUp(c: Config, s: State, w: StartWorld): (State, Reply) {
    if s.phase == Running then (s, Some(InvalidTransition(Running, UpRequested))) else AfterStart(c, s, w)
  }

  function AfterDetach(s: State, w: StopWorld): (State, Reply) {
    if s.phase == Stopped then (s, Some(InvalidTransition(Stopped, DetachRequested)))
    else (s.(phase := Stopped, working := false), if s.working && !w.tasksStop then Some(Task) else None)
  }

  /** The first thing that goes wrong when everything is stopped. */
  function StopError(mode: RuntimeStoreMode, working: bool, setup: Setup, w: StopWorld): Reply {
    if working && !w.tasksStop then Some(Task)
    else if mode.Stop? && !w.storeStops then Some(Port)
    else if !w.networkDown then Some(Port)
    else if setup.containerNetwork && !w.containerRemoved then Some(Port)
    else None
  }

  function AfterDestroy(s: State, w: StopWorld): (State, Reply) {
    (s.(phase := Stopped, working := false, dataplane := false), StopError(Stop, s.working, s.setup, w))
  }

  function AfterRestart(c: Config, s: State, setup: Setup, w: StartWorld): (State, Reply) {
    AfterStart(c, s.(phase := Stopped, working := false, dataplane := false, setup := setup), w)
  }

  // ---------------------------------------------------------------------------
  // The mesh
  // ---------------------------------------------------------------------------

  class Mesh {
    const config: Config
    var phase: Phase
    var setup: Setup
    var tasks: Option<set<TaskKind>>
    var taskCancel: bool
    var peerSyncTx: bool
    var heartbeatTx: bool
    var selfLivenessTx: bool
    var participationTx: bool
    var selfRecordTx: bool
    var authoritativeSelf: bool
    var dataplane: bool

    /** No task and no channel is left. */
    ghost predicate Bare()
      reads this
    {
      tasks.None? && !taskCancel && !peerSyncTx && !heartbeatTx && !selfLivenessTx && !participationTx && !selfRecordTx
    }

    /** The peer sync task runs, and nothing else yet. */
    ghost predicate Syncing()
      reads this
    {
      && tasks == Some(PeerTasks(setup))
      && taskCancel && peerSyncTx && !heartbeatTx && !selfLivenessTx && !participationTx && !selfRecordTx
    }

    /** Everything runs. */
    ghost predicate Full()
      reads this
    {
      && tasks == Some(AllTasks(setup, dataplane)) && authoritativeSelf
      && taskCancel && peerSyncTx && heartbeatTx && selfLivenessTx && participationTx && selfRecordTx
    }

    /** Between calls: at rest with nothing running, or Running with all or nothing. */
    ghost predicate Valid()
      reads this
    {
      (phase == Stopped && Bare()) || (phase == Running && (Bare() || Full()))
    }

    ghost function Value(): State
      reads this
    {
      State(phase, tasks.Some?, dataplane, authoritativeSelf, setup)
    }

    constructor (config: Config, setup: Setup)
      ensures Valid() && this.config == config && Value() == State(Stopped, false, false, false, setup)
    {
      this.config, this.setup := config, setup;
      phase, tasks := Stopped, None;
      taskCancel, peerSyncTx, heartbeatTx := false, false, false;
      selfLivenessTx, participationTx, selfRecordTx := false, false, false;
      authoritativeSelf, dataplane := false, false;
    }

    method Apply(event: PhaseEvent) returns (r: Reply)
      modifies this`phase
      ensures Transition(old(phase), event).Some? ==> r.None? && phase == Transition(old(phase), event).value
      ensures Transition(old(phase), event).None? ==>
        r == Some(InvalidTransition(old(phase), event)) && phase == old(phase)
    {
      var next := Transition(phase, event);
      if next.None? {
        return Some(InvalidTransition(phase, event));
      }
      phase := next.value;
      return None;
    }

    method StartPeerSyncTask(w: StartWorld) returns (r: Reply)
      requires Bare()
      modifies this`tasks, this`taskCancel, this`peerSyncTx
      ensures r == (if w.subscribed then None else Some(Task)) && (if w.subscribed then Syncing() else Bare())
    {
      if peerSyncTx {
        return None;
      }
      if !w.subscribed {
        return Some(Task);
      }
      var spawned := if setup.probeListener then {ProbeListener} else {};
      spawned := spawned + {PeerSync};
      peerSyncTx, taskCancel, tasks := true, true, Some(spawned);
      return None;
    }

    method BootstrapGate(w: StartWorld) returns (r: Reply)
      requires phase == Bootstrapping
      modifies this`phase
      ensures r == if GatePasses(config, w) then None else Some(if w.remotePeers.None? then Port else BootstrapTimeout)
      ensures phase == if GatePasses(config, w) then Running else Bootstrapping
    {
      if w.remotePeers.None? {
        return Some(Port);
      }
      if w.remotePeers.value && !config.allowDisconnectedBootstrap && !w.gossipConnects {
        return Some(BootstrapTimeout);
      }
      r := Apply(SyncComplete);
    }

    /** The two `expect`s of this step are the reads of `tasks` and `authoritativeSelf`: neither can fail. */
    method SpawnBackgroundTasks(w: StartWorld) returns (r: Reply)
      requires Syncing()
      modifies this`tasks, this`heartbeatTx, this`selfLivenessTx, this`participationTx
      modifies this`selfRecordTx, this`authoritativeSelf
      ensures r.None? == Spawns(config, w, dataplane, old(authoritativeSelf))
      ensures r.None? ==> Full()
      ensures r.Some? ==> r == Some(Task)
      ensures authoritativeSelf == (old(authoritativeSelf) || SelfFound(config, w))
    {
      hide PeerTasks;
      if !taskCancel {
        return Some(Task);
      }
      if !authoritativeSelf {
        if !config.selfInSeeds && !w.selfInStore {
          return Some(Task);
        }
        authoritativeSelf := true;
      }
      assert authoritativeSelf && tasks.Some?;
      selfRecordTx, selfLivenessTx, participationTx, heartbeatTx := true, true, true, true;
      tasks := Some(
        tasks.value + {SelfRecordWriter, EndpointRefresh} + {SelfLiveness} + {ParticipationTask} + {Heartbeat});
      r := SpawnWatchers(w);
    }

    /** The two tasks that follow the machine table. */
    method SpawnWatchers(w: StartWorld) returns (r: Reply)
      requires tasks.Some?
      modifies this`tasks
      ensures r == if w.subnetSubscribed && (dataplane ==> w.ebpfSubscribed) then None else Some(Task)
      ensures r.None? && dataplane ==> tasks == Some(old(tasks).value + {SubnetMonitor} + {EbpfSync})
      ensures r.None? && !dataplane ==> tasks == Some(old(tasks).value + {SubnetMonitor})
    {
      if !w.subnetSubscribed {
        return Some(Task);
      }
      Spawn({SubnetMonitor});
      if dataplane {
        if !w.ebpfSubscribed {
          return Some(Task);
        }
        Spawn({EbpfSync});
      }
      return None;
    }

    method Spawn(kinds: set<TaskKind>)
      requires tasks.Some?
      modifies this`tasks
      ensures tasks == Some(old(tasks).value + kinds)
    {
      tasks := Some(tasks.value + kinds);
    }

    /** Steps 2 to 4: container network, dataplane, store. */
    method Provision(w: StartWorld) returns (r: Reply)
      modifies this`dataplane
      ensures r == if Provisioned(config, setup, w) then None else Some(Port)
      ensures r.None? ==> dataplane == (old(dataplane) || (setup.containerNetwork && config.dataplaneFactory))
    {
      if setup.containerNetwork {
        if !w.ensured || (setup.docker && !w.connected) {
          return Some(Port);
        }
        if config.dataplaneFactory {
          if !w.attached {
            return Some(Port);
          }
          dataplane := true;
        }
      }
      if !w.storeStarts || !w.serviceReady || !w.storeInit {
        return Some(Port);
      }
      return None;
    }

    /** The startup sequence; a failure leaves the pieces for the caller to take down. */
    method BringUp(w: StartWorld) returns (r: Reply)
      requires phase == Phase.Starting && Bare()
      modifies this
      ensures setup == old(setup)
      ensures r.None? <==>
        ReachesRunning(config, setup, w) && Spawns(config, w, Attaches(config, old(Value())), old(authoritativeSelf))
      ensures r.None? ==> phase == Running && Full() && dataplane == Attaches(config, old(Value()))
      ensures r.Some? && ReachesRunning(config, setup, w) ==> phase == Running
      ensures !ReachesRunning(config, setup, w) ==>
        r == Some(EarlyError(config, setup, w)) && phase in {Phase.Starting, Provisioning, Bootstrapping}
      ensures authoritativeSelf ==
        (old(authoritativeSelf) || (ReachesRunning(config, setup, w) && SelfFound(config, w)))
    {
      if !w.networkUp {
        return Some(Port);
      }
      r := Apply(NetworkReady);
      r := Provision(w);
      if r.Some? {
        return;
      }
      r := StartPeerSyncTask(w);
      if r.Some? {
        return;
      }
      r := Apply(ComponentsStarted);
      r := BootstrapGate(w);
      if r.Some? {
        return;
      }
      r := SpawnBackgroundTasks(w);
    }

    method ClearTaskChannels()
      modifies this`peerSyncTx, this`heartbeatTx, this`selfLivenessTx
      modifies this`participationTx, this`selfRecordTx, this`taskCancel
      ensures !taskCancel && !peerSyncTx && !heartbeatTx && !selfLivenessTx && !participationTx && !selfRecordTx
    {
      peerSyncTx, heartbeatTx, selfLivenessTx := false, false, false;
      participationTx, selfRecordTx, taskCancel := false, false, false;
    }

    /** Takes down whatever is up and reports the first thing that went wrong. */
    method StopRuntime(mode: RuntimeStoreMode, w: StopWorld) returns (r: Reply)
      modifies this`tasks, this`peerSyncTx, this`heartbeatTx, this`selfLivenessTx
      modifies this`participationTx, this`selfRecordTx, this`taskCancel, this`dataplane
      ensures Bare() && !dataplane
      ensures r == StopError(mode, old(tasks).Some?, setup, w)
    {
      r := None;
      ClearTaskChannels();
      var had := tasks;
      tasks := None;
      if had.Some? && !w.tasksStop {
        r := Some(Task);
      }
      dataplane := false;
      if mode.Stop? && !w.storeStops && r.None? {
        r := Some(Port);
      }
      if !w.networkDown && r.None? {
        r := Some(Port);
      }
      if setup.containerNetwork && !w.containerRemoved && r.None? {
        r := Some(Port);
      }
    }

    /**
     * A start from rest succeeds exactly when every component does its part. If it fails by the
     * gate it ends Stopped with nothing left. If only the background tasks fail, everything is taken
     * down too, but the phase stays Running and the caller sees a transition error.
     */
    method Up(w: StartWorld, stop: StopWorld) returns (r: Reply)
      requires Valid()
      modifies this
      ensures Valid() && (Value(), r) == AfterUp(config, old(Value()), w)
    {
      hide Full, AfterStart;
      r := Apply(UpRequested);
      if r.Some? {
        return;
      }
      r := StartOrTearDown(w, Stop, stop);
      StartFromRest(config, old(Value()), w);
    }

    /** Brings everything up or, failing that, takes everything down again. */
    method StartOrTearDown(w: StartWorld, mode: RuntimeStoreMode, stop: StopWorld) returns (r: Reply)
      requires phase == Phase.Starting && Bare()
      modifies this
      ensures Valid() && (Value(), r) == AfterStart(config, old(Value()), w)
    {
      hide Full, ReachesRunning, Spawns, EarlyError, SelfFound;
      r := BringUp(w);
      if r.Some? {
        var ignored := StopRuntime(mode, stop);
        var refused := Apply(ComponentFailed);
        if refused.Some? {
          return refused;
        }
      }
    }

    /** Stops the tasks and leaves the network, the store and the dataplane as they are. */
    method Detach(w: StopWorld) returns (r: Reply)
      requires Valid()
      modifies this
      ensures Valid() && (Value(), r) == AfterDetach(old(Value()), w)
    {
      r := Apply(DetachRequested);
      if r.Some? {
        return;
      }
      ClearTaskChannels();
      var had := tasks;
      tasks := None;
      if had.Some? && !w.tasksStop {
        return Some(Task);
      }
    }

    method Destroy(w: StopWorld) returns (r: Reply)
      requires Valid()
      modifies this
      ensures Valid() && (Value(), r) == AfterDestroy(old(Value()), w)
    {
      var requested := Apply(DestroyRequested);
      r := StopRuntime(Stop, w);
      var done := Apply(TeardownComplete);
    }

    /** Restarts on another network from any state between calls; the store is kept running. */
    method RestartRuntimeForSubnetChange(setup: Setup, w: StartWorld, stop: StopWorld, undo: StopWorld)
      returns (r: Reply)
      requires Valid()
      modifies this
      ensures Valid() && (Value(), r) == AfterRestart(config, old(Value()), setup, w)
    {
      hide Full, AfterStart;
      StopForRestart(setup, stop);
      ghost var s := Value();
      r := StartOrTearDown(w, Keep, undo);
      StartFromRest(config, s.(phase := Stopped), w);
    }

    method StopForRestart(setup: Setup, stop: StopWorld)
      requires Valid()
      modifies this
      ensures Bare() && Value() == State(Phase.Starting, false, false, old(authoritativeSelf), setup)
    {
      hide Full;
      var r := Apply(DestroyRequested);
      var stopError := StopRuntime(Keep, stop);
      this.setup := setup;
      r := Apply(TeardownComplete);
      r := Apply(UpRequested);
    }
  }

  /** How a start ends does not depend on the phase it is asked in. */
  lemma StartFromRest(c: Config, s: State, w: StartWorld)
    ensures AfterStart(c, s.(phase := Phase.Starting), w) == AfterStart(c, s, w)
  {
  }

  // ---------------------------------------------------------------------------
  // Runs
  // ---------------------------------------------------------------------------

  datatype Call = CallUp(w: StartWorld, stop: StopWorld) | CallDetach(stop: StopWorld) | CallDestroy(stop: StopWorld)
    | CallRestart(setup: Setup, w: StartWorld, stop: StopWorld, undo: StopWorld)

  function AfterCall(c: Config, s: State, call: Call): (State, Reply) {
    match call
    case CallUp(w, _) => AfterUp(c, s, w)
    case CallDetach(stop) => AfterDetach(s, stop)
    case CallDestroy(stop) => AfterDestroy(s, stop)
    case CallRestart(setup, w, _, _) => AfterRestart(c, s, setup, w)
  }

  /** The state after the first `n` calls. */
  function StateAfter(c: Config, s: State, calls: seq<Call>, n: nat): State
    requires n <= |calls|
  {
    if n == 0 then s else AfterCall(c, StateAfter(c, s, calls, n - 1), calls[n - 1]).0
  }

  function ReplyTo(c: Config, s: State, calls: seq<Call>, i: nat): Reply
    requires i < |calls|
  {
    AfterCall(c, StateAfter(c, s, calls, i), calls[i]).1
  }

  /** Running, but without tasks. */
  predicate Crippled(s: State) { s.phase == Running && !s.working }

  /** A state there can be between calls. */
  predicate BetweenCalls(s: State) {
    (s.phase == Stopped && !s.working) || s.phase == Running
  }

  /** The latest start failed to spawn its tasks, and nothing but refused starts came after it. */
  ghost predicate SpawnFailedLast(replies: seq<Reply>, calls: seq<Call>, n: nat)
    requires n <= |calls| && n <= |replies|
  {
    exists i :: 0 <= i < n && replies[i] == Some(SPAWN_FAILURE) && forall j :: i < j < n ==> calls[j].CallUp?
  }

  /** Over any calls, a mesh is Running without tasks exactly when its latest start failed to spawn them. */
  lemma {:induction false} CrippledExactly(c: Config, s: State, calls: seq<Call>, replies: seq<Reply>, n: nat)
    requires BetweenCalls(s) && !Crippled(s) && n <= |calls| && |replies| == |calls|
    requires forall i: nat :: i < |calls| ==> replies[i] == ReplyTo(c, s, calls, i)
    ensures BetweenCalls(StateAfter(c, s, calls, n))
    ensures Crippled(StateAfter(c, s, calls, n)) <==> SpawnFailedLast(replies, calls, n)
  {
    hide AfterCall, Crippled, BetweenCalls, SPAWN_FAILURE;
    if n > 0 {
      CrippledExactly(c, s, calls, replies, n - 1);
      var before := StateAfter(c, s, calls, n - 1);
      CallCripples(c, before, calls[n - 1]);
      assert replies[n - 1] == ReplyTo(c, s, calls, n - 1);
      if SpawnFailedLast(replies, calls, n - 1) && calls[n - 1].CallUp? {
        var i :| 0 <= i < n - 1 && replies[i] == Some(SPAWN_FAILURE) && forall j :: i < j < n - 1 ==> calls[j].CallUp?;
        assert forall j :: i < j < n ==> calls[j].CallUp?;
      }
      if SpawnFailedLast(replies, calls, n) && replies[n - 1] != Some(SPAWN_FAILURE) {
        var i :| 0 <= i < n && replies[i] == Some(SPAWN_FAILURE) && forall j :: i < j < n ==> calls[j].CallUp?;
        assert calls[n - 1].CallUp? && SpawnFailedLast(replies, calls, n - 1);
      }
    }
  }

  /** One call: it cripples the mesh, or leaves it crippled, only by a failed spawn or a refused start. */
  lemma CallCripples(c: Config, s: State, call: Call)
    requires BetweenCalls(s)
    ensures
      var (t, r) := AfterCall(c, s, call);
      && BetweenCalls(t)
      && (r == Some(SPAWN_FAILURE) ==> Crippled(t) && (call.CallUp? || call.CallRestart?))
      && (r != Some(SPAWN_FAILURE) ==> (Crippled(t) <==> Crippled(s) && call.CallUp?))
  {
  }

  /** A start that fails by the gate leaves nothing; one that fails after it stays Running without tasks. */
  lemma FailedStartEnds(c: Config, s: State, w: StartWorld)
    requires s.phase == Stopped
    ensures
      var (t, r) := AfterUp(c, s, w);
      && (r.Some? && !Crippled(t) <==> !ReachesRunning(c, s.setup, w))
      && (r.Some? ==>
        !t.working && !t.dataplane && t.phase == if ReachesRunning(c, s.setup, w) then Running else Stopped)
  {
  }

  /** One thing a start needs, and what it replies if that is missing. */
  datatype Need = Need(met: bool, error: MeshError)

  /** The needs of a start from rest, in the order in which they come up; the tenth is the bootstrap gate. */
  function Needs(c: Config, s: State, w: StartWorld): seq<Need> {
    [ Need(w.networkUp, Port),
      Need(s.setup.containerNetwork ==> w.ensured, Port),
      Need(s.setup.containerNetwork && s.setup.docker ==> w.connected, Port),
      Need(s.setup.containerNetwork && c.dataplaneFactory ==> w.attached, Port),
      Need(w.storeStarts, Port),
      Need(w.serviceReady, Port),
      Need(w.storeInit, Port),
      Need(w.subscribed, Task),
      Need(w.remotePeers.Some?, Port),
      Need(w.remotePeers == Some(true) && !c.allowDisconnectedBootstrap ==> w.gossipConnects, BootstrapTimeout),
      Need(s.selfKnown || c.selfInSeeds || w.selfInStore, SPAWN_FAILURE),
      Need(w.subnetSubscribed, SPAWN_FAILURE),
      Need(s.dataplane || (s.setup.containerNetwork && c.dataplaneFactory) ==> w.ebpfSubscribed, SPAWN_FAILURE) ]
  }

  /** A start from rest works exactly when all its needs are met; otherwise it replies by the first that is not. */
  lemma StartExact(c: Config, s: State, w: StartWorld, n: nat)
    requires s.phase == Stopped && n <= |Needs(c, s, w)| && forall i :: 0 <= i < n ==> Needs(c, s, w)[i].met
    requires n < |Needs(c, s, w)| ==> !Needs(c, s, w)[n].met
    ensures
      var (t, r) := AfterUp(c, s, w);
      && r == (if n < |Needs(c, s, w)| then Some(Needs(c, s, w)[n].error) else None)
      && t.phase == (if n < 10 then Stopped else Running)
      && t.working == (n == |Needs(c, s, w)|) && t.setup == s.setup
      && t.dataplane == (t.working && (s.dataplane || (s.setup.containerNetwork && c.dataplaneFactory)))
      && t.selfKnown == (s.selfKnown || (n >= 10 && (c.selfInSeeds || w.selfInStore)))
  {
    hide Needs;
    var needs := Needs(c, s, w);
    SpawnNeeds(c, s, w);
    if n < 10 { EarlyNeed(c, s, w, n); } else { GateNeeds(c, s, w); }
  }

  lemma SpawnNeeds(c: Config, s: State, w: StartWorld)
    ensures |Needs(c, s, w)| == 13
    ensures var needs := Needs(c, s, w);
      && needs[10].error == SPAWN_FAILURE && needs[11].error == SPAWN_FAILURE && needs[12].error == SPAWN_FAILURE
      && (Spawns(c, w, Attaches(c, s), s.selfKnown) <==> needs[10].met && needs[11].met && needs[12].met)
  {
  }

  lemma EarlyNeed(c: Config, s: State, w: StartWorld, n: nat)
    requires n < 10 && !Needs(c, s, w)[n].met && forall i :: 0 <= i < n ==> Needs(c, s, w)[i].met
    ensures !ReachesRunning(c, s.setup, w) && EarlyError(c, s.setup, w) == Needs(c, s, w)[n].error
  {
    var needs := Needs(c, s, w);
    if n >= 7 { assert needs[0].met && needs[1].met && needs[2].met && needs[3].met && needs[4].met; }
    if n >= 7 { assert needs[5].met && needs[6].met; }
    if n >= 8 { assert needs[7].met; }
    if n == 9 { assert needs[8].met; }
  }

  lemma GateNeeds(c: Config, s: State, w: StartWorld)
    requires forall i :: 0 <= i < 10 ==> Needs(c, s, w)[i].met
    ensures ReachesRunning(c, s.setup, w)
  {
    var needs := Needs(c, s, w);
    assert needs[0].met && needs[1].met && needs[2].met && needs[3].met && needs[4].met;
    assert needs[5].met && needs[6].met && needs[7].met && needs[8].met && needs[9].met;
  }

  /** So it times out exactly when all else works, a remote peer is listed, waiting is not waived and gossip fails. */
  lemma TimesOutExactly(c: Config, s: State, w: StartWorld)
    requires s.phase == Stopped
    ensures AfterUp(c, s, w).1 == Some(BootstrapTimeout) <==>
      && w.networkUp && w.storeStarts && w.serviceReady && w.storeInit && w.subscribed
      && (s.setup.containerNetwork ==>
        w.ensured && (s.setup.docker ==> w.connected) && (c.dataplaneFactory ==> w.attached))
      && w.remotePeers == Some(true) && !c.allowDisconnectedBootstrap && !w.gossipConnects
  {
  }

  /** A start is refused, and nothing changes, exactly when the mesh is Running. */
  lemma RunningRefusesStart(c: Config, s: State, w: StartWorld)
    requires s.phase == Running
    ensures AfterUp(c, s, w) == (s, Some(InvalidTransition(Running, UpRequested)))
  {
  }

  /** A restart is a start from rest on the new network, whatever the mesh was doing. */
  lemma RestartExact(c: Config, s: State, setup: Setup, w: StartWorld)
    ensures AfterRestart(c, s, setup, w) == AfterUp(c, State(Stopped, false, false, s.selfKnown, setup), w)
  {
  }

  /** Which tasks a running mesh has. */
  lemma TasksExact(setup: Setup, dataplane: bool, kind: TaskKind)
    ensures kind in AllTasks(setup, dataplane) <==>
      && (kind == ProbeListener ==> setup.probeListener)
      && (kind == EbpfSync ==> dataplane)
  {
  }

  /**
   * However it ends, destroying leaves nothing; it reports an error exactly when a part that is
   * there fails to stop.
   */
  lemma DestroyExact(s: State, w: StopWorld)
    ensures
      var (t, r) := AfterDestroy(s, w);
      && t.phase == Stopped && !t.working && !t.dataplane && t.setup == s.setup
      && (r == None <==>
        && (s.working ==> w.tasksStop) && w.storeStops && w.networkDown
        && (s.setup.containerNetwork ==> w.containerRemoved))
      && (r == Some(Task) <==> s.working && !w.tasksStop)
      && (r == None || r == Some(Task) || r == Some(Port))
  {
  }

  /** Detaching stops the tasks and keeps the dataplane; at rest it is refused. */
  lemma DetachExact(s: State, w: StopWorld)
    ensures
      var (t, r) := AfterDetach(s, w);
      && t == s.(phase := Stopped, working := if s.phase == Stopped then s.working else false)
      && (r == Some(InvalidTransition(Stopped, DetachRequested)) <==> s.phase == Stopped)
      && (r == Some(Task) <==> s.phase != Stopped && s.working && !w.tasksStop)
      && (r == None <==> s.phase != Stopped && (s.working ==> w.tasksStop))
  {
  }

  /** A failing component ends a startup at any point, and a teardown ends anything else. */
  lemma EveryPhaseEnds(phase: Phase)
    ensures phase == Phase.Starting || phase == Provisioning || phase == Bootstrapping <==>
      Transition(phase, ComponentFailed) == Some(Stopped)
    ensures phase == Running <==> Transition(phase, DetachRequested) == Some(Stopped)
    ensures phase != Stopping ==> Drives(phase, [DestroyRequested, TeardownComplete]) == Some(Stopped)
    ensures Transition(phase, TeardownComplete).Some? <==> phase == Stopping
    ensures Transition(phase, UpRequested).Some? <==> phase == Stopped
  {
    var events := [DestroyRequested, TeardownComplete];
    assert events[1..] == [TeardownComplete] && events[1..][1..] == [];
  }

  /** Such a start exists: the machine's own record is nowhere to be found. */
  lemma SpawnCanFail()
    ensures
      var w := StartWorld(true, true, true, true, true, true, true, true, Some(false), false, false, true, true);
      var s := State(Stopped, false, false, false, Setup(false, false, false));
      AfterUp(Config(false, false, false), s, w) == (s.(phase := Running), Some(SPAWN_FAILURE))
  {
  }

  /**
   * Any sequence of calls, with any component failing in any of them: every reply and the state in
   * the end are those of the calls; between calls the phase is Stopped or Running and tasks and
   * channels are there together or not at all; and the mesh is Running without tasks exactly when
   * its latest start failed to spawn them.
   */
  method Lifecycle(mesh: Mesh, calls: seq<Call>) returns (replies: seq<Reply>)
    requires mesh.Valid() && !Crippled(mesh.Value())
    modifies mesh
    ensures mesh.Valid() && |replies| == |calls|
    ensures mesh.Value() == StateAfter(mesh.config, old(mesh.Value()), calls, |calls|)
    ensures forall i: nat :: i < |calls| ==> replies[i] == ReplyTo(mesh.config, old(mesh.Value()), calls, i)
    ensures mesh.phase == Running && mesh.tasks.None? <==> SpawnFailedLast(replies, calls, |calls|)
  {
    hide AfterUp, AfterDetach, AfterDestroy, AfterRestart;
    ghost var s := mesh.Value();
    replies := [];
    for i := 0 to |calls|
      invariant mesh.Valid() && |replies| == i && mesh.Value() == StateAfter(mesh.config, s, calls, i)
      invariant forall j: nat :: j < i ==> replies[j] == ReplyTo(mesh.config, s, calls, j)
    {
      var r;
      match calls[i] {
        case CallUp(w, stop) => r := mesh.Up(w, stop);
        case CallDetach(stop) => r := mesh.Detach(stop);
        case CallDestroy(stop) => r := mesh.Destroy(stop);
        case CallRestart(setup, w, stop, undo) => r := mesh.RestartRuntimeForSubnetChange(setup, w, stop, undo);
      }
      replies := replies + [r];
    }
    CrippledExactly(mesh.config, s, calls, replies, |calls|);
  }
}
