/** The vocabulary of a deploy run: its surroundings, its calls, and the store writes it may make. */
module RolloutTrace {
  import opened Model
  import opened Placement
  import opened Planner
  import opened Store

  // ---------------------------------------------------------------------------
  // What the run cannot decide for itself
  // ---------------------------------------------------------------------------

  /** A call may fail with no effect, or take effect and lose its reply. */
  datatype CallOutcome = Succeeds | FailsBefore | FailsAfter

  /** A container that the runtime reports but the store may not know. */
  datatype ManagedInstance = ManagedInstance(
    instanceId: InstanceId, service: string, slotId: SlotId, machineId: MachineId,
    revisionHash: RevisionHash, deployId: DeployId, overlayIp: Option<nat>)

  /** Opening a session: the containers it comes across before it ends, and how it ends. */
  datatype OpenOutcome = OpenOutcome(ok: bool, running: seq<ManagedInstance>)

  datatype StartOutcome = StartOutcome(call: CallOutcome, overlayIp: Option<nat>)

  /** The machine lists and clock readings of a run, its new instance ids, and the fate of each call. */
  datatype Env = Env(
    deployId: DeployId,
    initialMachines: seq<MachineRecord>, initialNow: nat,
    machines: seq<MachineRecord>,
    finalMachines: seq<MachineRecord>, finalNow: nat,
    applyNow: nat,
    storeCalls: nat -> CallOutcome,
    opens: MachineId -> OpenOutcome,
    starts: nat -> StartOutcome,
    ids: nat -> InstanceId,
    drains: InstanceId -> CallOutcome,
    removes: InstanceId -> CallOutcome)

  /** The inputs of a run. */
  datatype Job = Job(env: Env, local: MachineId, manifest: DeployManifest, hash: Hasher)

  datatype Failure =
    | InvalidManifest
    | StoreFailed
    | UnknownParticipant(machine: MachineId)
    | OpenFailed(machine: MachineId)
    | ParticipantsChanged
    | NoSession(machine: MachineId)
    | StartFailed(machine: MachineId)

  // ---------------------------------------------------------------------------
  // Store writes
  // ---------------------------------------------------------------------------

  function RevisionKeyFor(job: Job, spec: ServiceSpec): RevisionKey {
    (job.manifest.namespace, spec.name, job.hash(spec))
  }

  function RevisionFor(job: Job, spec: ServiceSpec): RevisionRecord {
    RevisionRecord(job.manifest.namespace, spec.name, job.hash(spec), Json(spec), job.local)
  }

  /** The revisions of the first `n` services are stored. */
  ghost predicate RevisionsStored(job: Job, revisions: set<RevisionKey>, n: nat) {
    forall i :: 0 <= i < n && i < |job.manifest.services| ==> RevisionKeyFor(job, job.manifest.services[i]) in revisions
  }

  lemma OneMoreStored(job: Job, before: set<RevisionKey>, after: set<RevisionKey>, n: nat)
    requires RevisionsStored(job, before, n) && before <= after
    requires n < |job.manifest.services| && RevisionKeyFor(job, job.manifest.services[n]) in after
    ensures RevisionsStored(job, after, n + 1)
  {
  }

  /** The record of an adopted container: ready, but with no ports. */
  function AdoptedStatus(ns: Namespace, m: ManagedInstance): InstanceStatus {
    InstanceStatus(m.instanceId, ns, m.service, m.slotId, m.machineId, m.revisionHash, m.deployId,
                   m.overlayIp, map[], Ready, true, NoDrain, None)
  }

  /** `status` records the container as it was found: for its own slot, ready, and with no ports. */
  ghost predicate AdoptedAs(ns: Namespace, m: ManagedInstance, status: InstanceStatus) {
    && status.instanceId == m.instanceId && status.namespace == ns && status.service == m.service
    && status.slotId == m.slotId && status.machineId == m.machineId && status.revisionHash == m.revisionHash
    && status.deployId == m.deployId && status.overlayIp == m.overlayIp && status.backendPorts == map[]
    && status.phase == Ready && status.ready && status.drainState == NoDrain && status.error == None
  }

  lemma AdoptedExact(ns: Namespace, m: ManagedInstance, status: InstanceStatus)
    ensures status == AdoptedStatus(ns, m) <==> AdoptedAs(ns, m, status)
  {
  }

  /** Every record is as before, or that of a container just found, which had none in this namespace. */
  ghost predicate OnlyNewFound(
    ns: Namespace, running: seq<ManagedInstance>, before: map<InstanceId, InstanceStatus>,
    after: map<InstanceId, InstanceStatus>)
  {
    && before.Keys <= after.Keys
    && (forall id :: id in before && before[id].namespace == ns ==> after[id] == before[id])
    && (forall id :: id in after ==> (id in before && after[id] == before[id]) || FoundAs(ns, running, id, after[id]))
  }

  ghost predicate FoundAs(ns: Namespace, running: seq<ManagedInstance>, id: InstanceId, status: InstanceStatus) {
    exists m :: m in running && m.instanceId == id && AdoptedAs(ns, m, status)
  }

  lemma OneMoreFound(
    ns: Namespace, running: seq<ManagedInstance>, first: map<InstanceId, InstanceStatus>,
    before: map<InstanceId, InstanceStatus>, after: map<InstanceId, InstanceStatus>, m: ManagedInstance)
    requires OnlyNewFound(ns, running, first, before) && m in running
    requires m.instanceId in first ==> first[m.instanceId].namespace != ns
    requires after.Keys == before.Keys + {m.instanceId} && AdoptedAs(ns, m, after[m.instanceId])
    requires forall id :: id != m.instanceId && id in after ==> after[id] == before[id]
    ensures OnlyNewFound(ns, running, first, after)
  {
    hide AdoptedAs;
    assert FoundAs(ns, running, m.instanceId, after[m.instanceId]);
  }

  datatype Write =
    | RevisionWrite(spec: ServiceSpec)
    | CandidateWrite(status: InstanceStatus, index: nat)
    | AdoptionWrite(found: ManagedInstance, machine: MachineId)

  function PortMap(ports: seq<ServicePort>): map<string, U16> {
    if ports == [] then map[]
    else PortMap(ports[..|ports| - 1])[ports[|ports| - 1].name := ports[|ports| - 1].containerPort]
  }

  function StartedStatus(
    job: Job, machine: MachineId, slotId: SlotId, id: InstanceId, spec: ServiceSpec, overlayIp: Option<nat>)
    : InstanceStatus
  {
    InstanceStatus(id, job.manifest.namespace, spec.name, slotId, machine, job.hash(spec), job.env.deployId, overlayIp,
                   PortMap(spec.servicePorts), Ready, true, NoDrain, None)
  }

  /** The new ids of a run clash neither with each other nor with the containers that sessions come across. */
  ghost predicate FreshIds(env: Env) {
    && (forall i: nat, j: nat :: i != j ==> env.ids(i) != env.ids(j))
    && (forall m, found, i: nat :: found in env.opens(m).running ==> found.instanceId != env.ids(i))
  }

  /** None of the ids from the `started`-th on is in use. */
  ghost predicate Unspent(job: Job, instances: map<InstanceId, InstanceStatus>, started: nat) {
    FreshIds(job.env) && forall i: nat :: started <= i ==> job.env.ids(i) !in instances
  }

  ghost predicate Extends(before: map<InstanceId, InstanceStatus>, after: map<InstanceId, InstanceStatus>) {
    forall id :: id in before ==> id in after && after[id] == before[id]
  }

  /** The slot's instance is published as a ready candidate for exactly this slot. */
  ghost predicate Running(job: Job, instances: map<InstanceId, InstanceStatus>, spec: ServiceSpec, slot: Slot) {
    slot.activeInstanceId in instances &&
    var status := instances[slot.activeInstanceId];
    status == StartedStatus(job, slot.machineId, slot.slotId, slot.activeInstanceId, spec, status.overlayIp)
  }

  /** Every slot is one that was there before or is running. */
  ghost predicate KeptOrRunning(
    job: Job, instances: map<InstanceId, InstanceStatus>, spec: ServiceSpec, slots: seq<Slot>, current: seq<Slot>)
  {
    forall slot :: slot in slots ==> slot in current || Running(job, instances, spec, slot)
  }

  /** So for the first `n` releases. */
  ghost predicate AllRunning(
    job: Job, instances: map<InstanceId, InstanceStatus>, recs: seq<ReleaseRecord>, current: Current, n: nat)
    requires n <= |recs| && n <= |job.manifest.services|
  {
    forall i :: 0 <= i < n ==>
      KeptOrRunning(job, instances, job.manifest.services[i], recs[i].release.slots,
        SlotsOf(current, job.manifest.services[i].name))
  }

  /** Every slot of every release is one that was there before or has a running candidate. */
  ghost predicate CandidatesRun(
    job: Job, instances: map<InstanceId, InstanceStatus>, recs: seq<ReleaseRecord>, current: Current)
  {
    |recs| == |job.manifest.services| && AllRunning(job, instances, recs, current, |recs|)
  }

  lemma KeptOrRunningStill(
    job: Job, before: map<InstanceId, InstanceStatus>, after: map<InstanceId, InstanceStatus>, spec: ServiceSpec,
    slots: seq<Slot>, current: seq<Slot>)
    requires KeptOrRunning(job, before, spec, slots, current) && Extends(before, after)
    ensures KeptOrRunning(job, after, spec, slots, current)
  {
  }

  lemma NoSlotsYet(job: Job, instances: map<InstanceId, InstanceStatus>, spec: ServiceSpec, current: seq<Slot>)
    ensures Extends(instances, instances) && KeptOrRunning(job, instances, spec, [], current)
  {
  }

  lemma OneMoreSlot(
    job: Job, first: map<InstanceId, InstanceStatus>, before: map<InstanceId, InstanceStatus>,
    after: map<InstanceId, InstanceStatus>,
    spec: ServiceSpec, slots: seq<Slot>, slot: Slot, current: seq<Slot>)
    requires Extends(first, before) && Extends(before, after) && KeptOrRunning(job, before, spec, slots, current)
    requires slot in current || Running(job, after, spec, slot)
    ensures Extends(first, after) && KeptOrRunning(job, after, spec, slots + [slot], current)
  {
    hide Running;
    forall s | s in slots + [slot] ensures s in current || Running(job, after, spec, s) {
      if s in slots { KeptOrRunningStill(job, before, after, spec, slots, current); }
    }
  }

  lemma OneMoreRunning(
    job: Job, before: map<InstanceId, InstanceStatus>, after: map<InstanceId, InstanceStatus>, recs: seq<ReleaseRecord>,
    rec: ReleaseRecord, current: Current)
    requires |recs| < |job.manifest.services| && AllRunning(job, before, recs, current, |recs|)
    requires Extends(before, after)
    requires
      var spec := job.manifest.services[|recs|];
      KeptOrRunning(job, after, spec, rec.release.slots, SlotsOf(current, spec.name))
    ensures AllRunning(job, after, recs + [rec], current, |recs| + 1)
  {
    var all := recs + [rec];
    forall i | 0 <= i < |all|
      ensures KeptOrRunning(job, after, job.manifest.services[i], all[i].release.slots,
        SlotsOf(current, job.manifest.services[i].name))
    {
      if i < |recs| {
        var spec := job.manifest.services[i];
        KeptOrRunningStill(job, before, after, spec, recs[i].release.slots, SlotsOf(current, spec.name));
      }
    }
  }

  lemma NoneRunning(job: Job, instances: map<InstanceId, InstanceStatus>, current: Current)
    ensures AllRunning(job, instances, [], current, 0)
  {
  }

  lemma SpendOne(
    job: Job, before: map<InstanceId, InstanceStatus>, after: map<InstanceId, InstanceStatus>, started: nat)
    requires Unspent(job, before, started) && (forall id :: id in after ==> id in before || id == job.env.ids(started))
    ensures Unspent(job, after, started + 1)
  {
    forall i: nat | started + 1 <= i ensures job.env.ids(i) !in after {
      assert job.env.ids(i) !in before && job.env.ids(i) != job.env.ids(started);
    }
  }

  /** `w` is `v` after one of the writes that a run makes before its commit. */
  ghost predicate Writes(job: Job, x: Write, v: StoreView, w: StoreView) {
    var ns := job.manifest.namespace;
    match x
    case RevisionWrite(spec) =>
      && spec in job.manifest.services
      && w == v.(revisions := v.revisions[RevisionKeyFor(job, spec) := RevisionFor(job, spec)])
    case CandidateWrite(status, index) =>
      && status.namespace == ns && status.instanceId == job.env.ids(index)
      && w == v.(instances := v.instances[status.instanceId := status])
    case AdoptionWrite(found, machine) =>
      && found in job.env.opens(machine).running
      && (found.instanceId in v.instances && v.instances[found.instanceId].namespace == ns ==>
            v.instances[found.instanceId].backendPorts == map[])
      && w == v.(instances := v.instances[found.instanceId := AdoptedStatus(ns, found)])
  }

  ghost predicate PreStep(job: Job, v: StoreView, w: StoreView) {
    exists x :: Writes(job, x, v, w)
  }

  /** From index `from` on, `h` was written by pre-commit writes alone. */
  ghost predicate PreSteps(job: Job, h: seq<StoreView>, from: nat) {
    forall i :: 0 < from <= i < |h| ==> PreStep(job, h[i - 1], h[i])
  }

  /** The status of an instance once its drain has been asked for. */
  function DrainedStatus(status: InstanceStatus): InstanceStatus {
    status.(phase := Draining, ready := false, drainState := Requested)
  }

  /** A retired instance of `ns` is marked as draining, or deleted when it is. */
  ghost predicate CleanupStep(ns: Namespace, active: set<InstanceId>, v: StoreView, w: StoreView) {
    exists id, next: Option<InstanceStatus> :: Retires(ns, active, id, next, v, w)
  }

  ghost predicate Retires(
    ns: Namespace, active: set<InstanceId>, id: InstanceId, next: Option<InstanceStatus>, v: StoreView, w: StoreView)
  {
    && id in v.instances && v.instances[id].namespace == ns && id !in active
    && (next.Some? ==> next.value == DrainedStatus(v.instances[id]))
    && (next.None? ==> v.instances[id].phase == Draining)
    && w == v.(instances := if next.Some? then v.instances[id := next.value] else v.instances - {id})
  }

  ghost predicate CleanupSteps(ns: Namespace, active: set<InstanceId>, h: seq<StoreView>, from: nat) {
    forall i :: 0 < from <= i < |h| ==> CleanupStep(ns, active, h[i - 1], h[i])
  }

  // ---------------------------------------------------------------------------
  // What a run commits
  // ---------------------------------------------------------------------------

  ghost function ByService(releases: map<ReleaseKey, ReleaseRecord>, ns: Namespace): Current {
    map s | s in (set k | k in releases && k.0 == ns :: k.1) :: releases[(ns, s)]
  }

  /** `slots` realizes `desired`: kept slots keep their instance. */
  ghost predicate Realizes(slots: seq<Slot>, desired: seq<DesiredSlot>, current: seq<Slot>, h: RevisionHash) {
    && |slots| == |desired|
    && forall i :: 0 <= i < |slots| ==> RealizesSlot(slots[i], desired[i], FindSlot(current, desired[i].slotId), h)
  }

  predicate RealizesSlot(slot: Slot, desired: DesiredSlot, existing: Option<Slot>, h: RevisionHash) {
    && slot.slotId == desired.slotId && slot.machineId == desired.machineId && slot.revisionHash == h
    && (Keeps(existing, desired, h) ==> slot.activeInstanceId == existing.value.activeInstanceId)
  }

  function NewRelease(job: Job, spec: ServiceSpec, slots: seq<Slot>): ReleaseRecord {
    var h := job.hash(spec);
    ReleaseRecord(job.manifest.namespace, spec.name, Release(h, [h], Direct(h), slots, job.env.deployId))
  }

  /** The slots that the run wants for one service. */
  function Wanted(job: Job, machines: seq<MachineId>, current: Current, spec: ServiceSpec): seq<DesiredSlot> {
    DesiredSlots(spec, machines, SlotsOf(current, spec.name))
  }

  /** `rec` releases `spec` on slots that realize what the run wants. */
  ghost predicate ReleaseFor(
    job: Job, machines: seq<MachineId>, current: Current, spec: ServiceSpec, rec: ReleaseRecord)
  {
    && rec == NewRelease(job, spec, rec.release.slots)
    && Realizes(rec.release.slots, Wanted(job, machines, current, spec), SlotsOf(current, spec.name), job.hash(spec))
  }

  /** `recs` releases the services of the manifest, one each and in order. */
  ghost predicate ReleasesFor(job: Job, machines: seq<MachineId>, current: Current, recs: seq<ReleaseRecord>) {
    && |recs| == |job.manifest.services|
    && forall i :: 0 <= i < |recs| ==> ReleaseFor(job, machines, current, job.manifest.services[i], recs[i])
  }

  /** The first `n` of `recs` release the first `n` services. */
  ghost predicate ReleasesUpTo(job: Job, machines: seq<MachineId>, current: Current, recs: seq<ReleaseRecord>, n: nat) {
    && n <= |recs| && n <= |job.manifest.services|
    && (n > 0 ==>
      && ReleasesUpTo(job, machines, current, recs, n - 1)
      && ReleaseFor(job, machines, current, job.manifest.services[n - 1], recs[n - 1]))
  }

  lemma {:induction false} ReleasesUpToExtend(
    job: Job, machines: seq<MachineId>, current: Current, recs: seq<ReleaseRecord>, more: seq<ReleaseRecord>, n: nat)
    requires ReleasesUpTo(job, machines, current, recs, n) && recs <= more
    ensures ReleasesUpTo(job, machines, current, more, n)
  {
    if n > 0 { ReleasesUpToExtend(job, machines, current, recs, more, n - 1); }
  }

  lemma AppendRelease(
    job: Job, machines: seq<MachineId>, current: Current, recs: seq<ReleaseRecord>, rec: ReleaseRecord)
    requires |recs| < |job.manifest.services| && ReleasesUpTo(job, machines, current, recs, |recs|)
    requires ReleaseFor(job, machines, current, job.manifest.services[|recs|], rec)
    ensures ReleasesUpTo(job, machines, current, recs + [rec], |recs| + 1)
  {
    ReleasesUpToExtend(job, machines, current, recs, recs + [rec], |recs|);
  }

  lemma {:induction false} ReleasesUpToEach(
    job: Job, machines: seq<MachineId>, current: Current, recs: seq<ReleaseRecord>, n: nat)
    requires ReleasesUpTo(job, machines, current, recs, n)
    ensures forall i :: 0 <= i < n ==> ReleaseFor(job, machines, current, job.manifest.services[i], recs[i])
  {
    if n > 0 { ReleasesUpToEach(job, machines, current, recs, n - 1); }
  }

  function ActiveIds(recs: seq<ReleaseRecord>): set<InstanceId> {
    set rec, slot | rec in recs && slot in rec.release.slots :: slot.activeInstanceId
  }

  function CommitFor(job: Job, recs: seq<ReleaseRecord>, removed: seq<string>): DeployCommit {
    DeployCommit(job.manifest.namespace, removed, recs,
                 DeployRecord(job.env.deployId, job.manifest.namespace, job.local, DeployState.Committed))
  }

  // ---------------------------------------------------------------------------
  // Calls to sessions
  // ---------------------------------------------------------------------------

  /** The calls a run makes to sessions, and the moment its commit is acknowledged. */
  datatype Action =
    | Lock(machine: MachineId)
    | Start(machine: MachineId, service: string, slotId: SlotId)
    | CommitDone
    | Drain(machine: MachineId, id: InstanceId)
    | RemoveInstance(machine: MachineId, id: InstanceId)

  /** Nothing has been committed, drained or removed. */
  predicate NoCleanup(actions: seq<Action>) {
    forall a :: a in actions ==> a.Lock? || a.Start?
  }

  /** Drains and removals of instances outside `active`, each removal right after the drain. */
  predicate CleansOnly(actions: seq<Action>, active: set<InstanceId>) {
    && (forall a :: a in actions ==> (a.Drain? || a.RemoveInstance?) && a.id !in active)
    && (forall i :: 0 <= i < |actions| && actions[i].RemoveInstance? ==>
         i > 0 && actions[i - 1] == Drain(actions[i].machine, actions[i].id))
  }

  lemma NothingCleaned(active: set<InstanceId>)
    ensures CleansOnly([], active)
  {
  }

  lemma CleansDrain(actions: seq<Action>, active: set<InstanceId>, machine: MachineId, id: InstanceId)
    requires CleansOnly(actions, active) && id !in active
    ensures CleansOnly(actions + [Drain(machine, id)], active)
    ensures CleansOnly(actions + [Drain(machine, id)] + [RemoveInstance(machine, id)], active)
  {
  }

  /** A start for each slot that is not kept, in slot order. */
  function StartActions(service: string, desired: seq<DesiredSlot>, n: nat, current: seq<Slot>, h: RevisionHash)
    : seq<Action>
    requires n <= |desired|
  {
    if n == 0 then []
    else StartActions(service, desired, n - 1, current, h) + StartOf(service, desired[n - 1], current, h)
  }

  function StartOf(service: string, d: DesiredSlot, current: seq<Slot>, h: RevisionHash): seq<Action> {
    if Keeps(FindSlot(current, d.slotId), d, h) then [] else [Start(d.machineId, service, d.slotId)]
  }

  function ServiceStarts(job: Job, machines: seq<MachineId>, current: Current, spec: ServiceSpec): seq<Action> {
    var desired := Wanted(job, machines, current, spec);
    StartActions(spec.name, desired, |desired|, SlotsOf(current, spec.name), job.hash(spec))
  }

  /** The starts of the first `n` services. */
  function AllStarts(job: Job, machines: seq<MachineId>, current: Current, n: nat): seq<Action>
    requires n <= |job.manifest.services|
  {
    if n == 0 then []
    else AllStarts(job, machines, current, n - 1) + ServiceStarts(job, machines, current, job.manifest.services[n - 1])
  }

  lemma {:induction false} StartActionsPrefix(
    service: string, desired: seq<DesiredSlot>, k: nat, current: seq<Slot>, h: RevisionHash)
    requires k <= |desired|
    ensures StartActions(service, desired, k, current, h) <= StartActions(service, desired, |desired|, current, h)
    decreases |desired| - k
  {
    if k < |desired| { StartActionsPrefix(service, desired, k + 1, current, h); }
  }

  lemma {:induction false} AllStartsPrefix(job: Job, machines: seq<MachineId>, current: Current, k: nat)
    requires k <= |job.manifest.services|
    ensures AllStarts(job, machines, current, k) <= AllStarts(job, machines, current, |job.manifest.services|)
    decreases |job.manifest.services| - k
  {
    if k < |job.manifest.services| { AllStartsPrefix(job, machines, current, k + 1); }
  }

  lemma NoServiceYet(job: Job, machines: seq<MachineId>, current: Current, stored: set<RevisionKey>)
    ensures AllStarts(job, machines, current, 0) == [] && RevisionsStored(job, stored, 0)
    ensures ReleasesUpTo(job, machines, current, [], 0)
  {
  }

  lemma StartsAppend(before: seq<Action>, job: Job, machines: seq<MachineId>, current: Current, n: nat)
    requires n < |job.manifest.services|
    ensures before + AllStarts(job, machines, current, n) +
      ServiceStarts(job, machines, current, job.manifest.services[n])
         == before + AllStarts(job, machines, current, n + 1)
  {
  }

  /** Each of `machines` has been locked. */
  predicate Locked(machines: set<MachineId>, actions: seq<Action>) {
    forall m :: m in machines ==> Lock(m) in actions
  }

  lemma LockedStill(machines: set<MachineId>, before: seq<Action>, after: seq<Action>)
    requires Locked(machines, before) && before <= after
    ensures Locked(machines, after)
  {
    forall m | m in machines ensures Lock(m) in after {
      var i :| 0 <= i < |before| && before[i] == Lock(m);
      assert after[i] == Lock(m);
    }
  }

  predicate OnlyLocks(actions: seq<Action>) { forall a :: a in actions ==> a.Lock? }

  /** Locks, then `starts`, then possibly the acknowledged commit and after it the cleanup. */
  ghost predicate CommittedActions(actions: seq<Action>, starts: seq<Action>, active: set<InstanceId>) {
    exists locks, tail :: OnlyLocks(locks) && actions == locks + starts + tail && TailActions(tail, active)
  }

  ghost predicate TailActions(tail: seq<Action>, active: set<InstanceId>) {
    tail == [] || (tail[0] == CommitDone && CleansOnly(tail[1..], active))
  }

  function RemovedNames(plans: seq<ServicePlan>, n: nat): seq<string>
    requires n <= |plans|
  {
    if n == 0 then []
    else RemovedNames(plans, n - 1) + if plans[n - 1].action == Remove then [plans[n - 1].service] else []
  }

  lemma {:induction false} RemovedNamesMember(plans: seq<ServicePlan>, n: nat, s: string)
    requires n <= |plans|
    ensures s in RemovedNames(plans, n) <==>
      exists i :: 0 <= i < n && plans[i].action == Remove && plans[i].service == s
  {
    if n > 0 { RemovedNamesMember(plans, n - 1, s); }
  }

  ghost predicate RemovesExactly(removed: seq<string>, manifest: DeployManifest, current: Current) {
    forall s :: s in removed <==> s in RemovedServices(manifest, current)
  }

  /** The plans marked for removal are exactly the deployed services outside the manifest. */
  lemma RemovedNamesExact(
    p: DeployPreview, manifest: DeployManifest, machines: seq<MachineId>, current: Current, hash: Hasher)
    requires IsPreview(p, manifest, machines, current, hash)
    ensures RemovesExactly(RemovedNames(p.services, |p.services|), manifest, current)
  {
    forall s ensures s in RemovedNames(p.services, |p.services|) <==> s in RemovedServices(manifest, current) {
      RemovedNameExact(p, manifest, machines, current, hash, s);
    }
  }

  lemma RemovedNameExact(
    p: DeployPreview, manifest: DeployManifest, machines: seq<MachineId>, current: Current, hash: Hasher, s: string)
    requires IsPreview(p, manifest, machines, current, hash)
    ensures s in RemovedNames(p.services, |p.services|) <==> s in RemovedServices(manifest, current)
  {
    hide PlanService, RemoveService, RemovedNames, Participants;
    var n := |manifest.services|;
    RemovedNamesMember(p.services, |p.services|, s);
    forall i | 0 <= i < |p.services|
      ensures i < n ==> p.services[i].action != Remove
      ensures n <= i ==> p.services[i].action == Remove && p.services[i].service in RemovedServices(manifest, current)
    {
      if i < n {
        PlannedAction(manifest.services[i], machines, current, hash);
      } else {
        assert p.services[i] == p.services[n..][i - n];
        DroppedAction(current, p.services[i].service);
      }
    }
    if s in RemovedServices(manifest, current) {
      var i :| 0 <= i < |p.services[n..]| && p.services[n..][i].service == s;
      assert p.services[n + i].service == s;
    }
  }

  /** A wanted service is never planned as a removal; a dropped one always is. */
  lemma PlannedAction(spec: ServiceSpec, machines: seq<MachineId>, current: Current, hash: Hasher)
    ensures PlanService(spec, machines, current, hash).action != Remove
  {
  }

  lemma DroppedAction(current: Current, service: string)
    requires service in current
    ensures RemoveService(current, service).action == Remove
  {
  }

  // ---------------------------------------------------------------------------
  // Whole runs
  // ---------------------------------------------------------------------------

  function RunMachines(job: Job): seq<MachineId> {
    DeployableMachines(job.env.machines, job.local, job.env.applyNow)
  }

  /** The releases of the manifest's namespace as they were when the history had length `from`. */
  ghost function CurrentAt(job: Job, h: seq<StoreView>, from: nat): Current
    requires 0 < from <= |h|
  {
    ByService(h[from - 1].releases, job.manifest.namespace)
  }

  /** The candidates that a run starts when it gets as far as its commit. */
  ghost function RunStarts(job: Job, h: seq<StoreView>, from: nat): seq<Action>
    requires 0 < from <= |h|
  {
    AllStarts(job, RunMachines(job), CurrentAt(job, h, from), |job.manifest.services|)
  }

  /** Every call to the store and every start takes effect and is acknowledged. */
  ghost predicate Cooperative(env: Env) {
    (forall n: nat :: env.storeCalls(n) == Succeeds) && (forall n: nat :: env.starts(n).call == Succeeds)
  }

  /** The calls that drain and remove this instance succeed. */
  ghost predicate CleansOne(env: Env, id: InstanceId) { env.drains(id) == Succeeds && env.removes(id) == Succeeds }

  ghost predicate CleansUp(env: Env) { forall id :: CleansOne(env, id) }

  /** Each of `machines` is known and lets a session be opened. */
  ghost predicate Opens(env: Env, machines: set<MachineId>) {
    forall m :: m in machines ==> env.opens(m).ok && exists record :: record in env.machines && record.id == m
  }

  /** The machines that the first preview involves, and those that the second does. */
  ghost function FirstParticipants(job: Job, current: Current): set<MachineId> {
    Participants(job.manifest, DeployableMachines(job.env.initialMachines, job.local, job.env.initialNow), current)
  }

  ghost function RunParticipants(job: Job, current: Current): set<MachineId> {
    Participants(job.manifest, DeployableMachines(job.env.finalMachines, job.local, job.env.finalNow), current)
  }

  /** What a run needs to get through: a valid manifest, helpful surroundings, and machines that stay the same. */
  ghost predicate Smooth(job: Job, current: Current) {
    && ValidManifest(job.manifest) && Cooperative(job.env)
    && Opens(job.env, FirstParticipants(job, current))
    && FirstParticipants(job, current) == RunParticipants(job, current)
    && MachinesOfServices(job.manifest.services, RunMachines(job), current) <= RunParticipants(job, current)
  }

  lemma SmoothMeans(job: Job, current: Current)
    ensures Smooth(job, current) ==>
      Cooperative(job.env) && FirstParticipants(job, current) == RunParticipants(job, current)
  {}

  lemma RunStartsStill(job: Job, h: seq<StoreView>, h': seq<StoreView>, from: nat)
    requires 0 < from <= |h| && h <= h'
    ensures RunStarts(job, h, from) == RunStarts(job, h', from)
  {
  }

  /** All that precedes the commit has been done. */
  ghost predicate ReadyToCommit(
    job: Job, h: seq<StoreView>, from: nat, recs: seq<ReleaseRecord>, removed: seq<string>)
  {
    && 0 < from <= |h|
    && PreSteps(job, h, from)
    && h[|h| - 1].releases == h[from - 1].releases
    && ReleasesFor(job, RunMachines(job), CurrentAt(job, h, from), recs)
    && RemovesExactly(removed, job.manifest, CurrentAt(job, h, from))
    && RevisionsStored(job, h[|h| - 1].revisions.Keys, |job.manifest.services|)
  }

  lemma ReadyNow(
    job: Job, h: seq<StoreView>, from: nat, current: Current, recs: seq<ReleaseRecord>, removed: seq<string>)
    requires 0 < from <= |h| && PreSteps(job, h, from) && h[|h| - 1].releases == h[from - 1].releases
    requires current == ByService(h[from - 1].releases, job.manifest.namespace)
    requires ReleasesFor(job, RunMachines(job), current, recs) && RemovesExactly(removed, job.manifest, current)
    requires RevisionsStored(job, h[|h| - 1].revisions.Keys, |job.manifest.services|)
    ensures ReadyToCommit(job, h, from, recs, removed)
  {
  }

  lemma StartsNow(job: Job, h: seq<StoreView>, from: nat, current: Current)
    requires 0 < from <= |h| && current == ByService(h[from - 1].releases, job.manifest.namespace)
    ensures RunStarts(job, h, from) == AllStarts(job, RunMachines(job), current, |job.manifest.services|)
  {
  }

  /** What a run does to the store when its commit is stored at index `c` of the history. */
  ghost predicate CommitsAt(
    job: Job, h: seq<StoreView>, from: nat, c: nat, recs: seq<ReleaseRecord>, removed: seq<string>)
  {
    && 0 < from <= c < |h|
    && ReadyToCommit(job, h[..c], from, recs, removed)
    && h[c] == h[c - 1].(releases := AfterCommit(h[c - 1].releases, CommitFor(job, recs, removed)))
    && CleanupSteps(job.manifest.namespace, ActiveIds(recs), h, c + 1)
  }

  /** The moment of the commit. */
  lemma CommitsNow(job: Job, h: seq<StoreView>, w: StoreView, from: nat, recs: seq<ReleaseRecord>, removed: seq<string>)
    requires ReadyToCommit(job, h, from, recs, removed)
    requires w == h[|h| - 1].(releases := AfterCommit(h[|h| - 1].releases, CommitFor(job, recs, removed)))
    ensures CommitsAt(job, h + [w], from, |h|, recs, removed)
  {
    assert (h + [w])[..|h|] == h;
  }

  lemma CommitInHistory(job: Job, h: seq<StoreView>, from: nat, c: nat, recs: seq<ReleaseRecord>, removed: seq<string>)
    requires CommitsAt(job, h, from, c, recs, removed)
    ensures 0 < from <= c < |h|
  {
  }

  /** Cleanup after the commit leaves the commit where it was. */
  lemma CommitsStill(
    job: Job, h: seq<StoreView>, h': seq<StoreView>, from: nat, c: nat, recs: seq<ReleaseRecord>, removed: seq<string>)
    requires CommitsAt(job, h, from, c, recs, removed) && h <= h'
    requires CleanupSteps(job.manifest.namespace, ActiveIds(recs), h', c + 1)
    ensures CommitsAt(job, h', from, c, recs, removed)
  {
    assert h'[..c] == h[..c];
  }

  lemma ActionsInOrder(locks: seq<Action>, starts: seq<Action>, tail: seq<Action>, active: set<InstanceId>)
    requires OnlyLocks(locks) && TailActions(tail, active)
    ensures CommittedActions(locks + starts + tail, starts, active)
  {
  }
}
