/** `apply`: lock the participants, start candidates, commit, clean up, under every fault pattern. */
module Rollout {
  import opened Model
  import opened Placement
  import opened Planner
  import opened RolloutTrace
  import opened Store

  function ServiceOf(r: ReleaseRecord): string { r.service }

  lemma CollectByService(l: seq<ReleaseRecord>, releases: map<ReleaseKey, ReleaseRecord>, ns: Namespace)
    requires KeyedReleases(releases) && Lists(ReleaseKeyOf, l, ReleasesIn(releases, ns))
    ensures CollectBy(ServiceOf, l) == ByService(releases, ns)
  {
    var m := CollectBy(ServiceOf, l);
    forall s | s in m ensures s in ByService(releases, ns) && m[s] == releases[(ns, s)] {
      assert ReleaseKeyOf(m[s]) in ReleasesIn(releases, ns);
    }
    forall s | s in ByService(releases, ns) ensures s in m {
      var rec := ReleasesIn(releases, ns)[(ns, s)];
      var i :| 0 <= i < |l| && l[i] == rec;
      assert ServiceOf(l[i]) == s;
    }
  }

  lemma ListedIdsKnown(listed: seq<InstanceStatus>, instances: map<InstanceId, InstanceStatus>, ns: Namespace)
    requires KeyedBy(InstanceKeyOf, instances) && Lists(InstanceKeyOf, listed, InstancesIn(instances, ns))
    ensures forall id :: id in instances && instances[id].namespace == ns ==>
      id in set s | s in listed :: s.instanceId
    ensures (set s | s in listed :: s.instanceId) <= instances.Keys
  {
    forall s | s in listed ensures s.instanceId in instances {
      assert InstanceKeyOf(s) in InstancesIn(instances, ns);
    }
    forall id | id in instances && instances[id].namespace == ns ensures id in set s | s in listed :: s.instanceId {
      assert InstancesIn(instances, ns)[id] in listed && InstanceKeyOf(instances[id]) == id;
    }
  }

  /** What a session sees of an instance: only its own machine's records of its own namespace. */
  predicate LocalStatus(instances: map<InstanceId, InstanceStatus>, ns: Namespace, machine: MachineId, id: InstanceId) {
    id in instances && instances[id].namespace == ns && instances[id].machineId == machine
  }

  /** Instances may have gone since, but those that are left are where they were. */
  ghost predicate Descends(after: map<InstanceId, InstanceStatus>, before: map<InstanceId, InstanceStatus>) {
    forall id :: id in after ==>
      id in before && after[id].namespace == before[id].namespace && after[id].machineId == before[id].machineId
  }

  /** Nothing of the namespace but `active` is left on `machines`. */
  ghost predicate Tidy(
    instances: map<InstanceId, InstanceStatus>, ns: Namespace, machines: set<MachineId>, active: set<InstanceId>)
  {
    forall id :: id in instances && instances[id].namespace == ns && instances[id].machineId in machines ==>
      id in active
  }

  /** The instance is active, elsewhere, or gone. */
  ghost predicate Gone(
    instances: map<InstanceId, InstanceStatus>, ns: Namespace, machines: set<MachineId>, active: set<InstanceId>,
    status: InstanceStatus)
  {
    status.machineId in machines && status.instanceId !in active ==>
      !LocalStatus(instances, ns, status.machineId, status.instanceId)
  }

  ghost predicate AllGone(
    instances: map<InstanceId, InstanceStatus>, ns: Namespace, machines: set<MachineId>, active: set<InstanceId>,
    listed: seq<InstanceStatus>, n: nat)
    requires n <= |listed|
  {
    forall j :: 0 <= j < n ==> Gone(instances, ns, machines, active, listed[j])
  }

  lemma OneMoreGone(
    before: map<InstanceId, InstanceStatus>, after: map<InstanceId, InstanceStatus>, ns: Namespace,
    machines: set<MachineId>, active: set<InstanceId>, listed: seq<InstanceStatus>, n: nat)
    requires n < |listed| && AllGone(before, ns, machines, active, listed, n) && Descends(after, before)
    requires Gone(after, ns, machines, active, listed[n])
    ensures AllGone(after, ns, machines, active, listed, n + 1)
  {
    forall j | 0 <= j < n ensures Gone(after, ns, machines, active, listed[j]) {
      assert Gone(before, ns, machines, active, listed[j]);
    }
  }

  lemma DescendsTransitive(
    a: map<InstanceId, InstanceStatus>, b: map<InstanceId, InstanceStatus>, c: map<InstanceId, InstanceStatus>)
    requires Descends(b, a) && Descends(c, b)
    ensures Descends(c, a)
  {
  }

  lemma TidyAfterAll(
    listed: seq<InstanceStatus>, before: map<InstanceId, InstanceStatus>, after: map<InstanceId, InstanceStatus>,
    ns: Namespace, machines: set<MachineId>, active: set<InstanceId>)
    requires KeyedBy(InstanceKeyOf, before) && Lists(InstanceKeyOf, listed, InstancesIn(before, ns))
    requires Descends(after, before)
    requires AllGone(after, ns, machines, active, listed, |listed|)
    ensures Tidy(after, ns, machines, active)
  {
    forall id | id in after && after[id].namespace == ns && after[id].machineId in machines ensures id in active {
      var status := InstancesIn(before, ns)[id];
      assert status in listed && InstanceKeyOf(status) == id;
      var j :| 0 <= j < |listed| && listed[j] == status;
      assert Gone(after, ns, machines, active, listed[j]);
    }
  }

  /** What is left and not active could not be drained or removed. */
  ghost predicate TidyBut(
    env: Env, instances: map<InstanceId, InstanceStatus>, ns: Namespace, machines: set<MachineId>,
    active: set<InstanceId>)
  {
    forall id :: id in instances && instances[id].namespace == ns && instances[id].machineId in machines ==>
      id in active || !CleansOne(env, id)
  }

  lemma TidyButFailed(
    env: Env, instances: map<InstanceId, InstanceStatus>, ns: Namespace, machines: set<MachineId>,
    active: set<InstanceId>, failed: set<InstanceId>)
    requires Tidy(instances, ns, machines, active + failed) && forall id :: id in failed ==> !CleansOne(env, id)
    ensures TidyBut(env, instances, ns, machines, active)
    ensures failed != {} ==> !CleansUp(env)
  {
    if failed != {} {
      var id :| id in failed;
      assert !CleansOne(env, id);
    }
  }

  lemma SpareMore(
    instances: map<InstanceId, InstanceStatus>, ns: Namespace, machines: set<MachineId>, active: set<InstanceId>,
    failed: set<InstanceId>, listed: seq<InstanceStatus>, n: nat)
    requires n <= |listed| && AllGone(instances, ns, machines, active, listed, n)
    ensures AllGone(instances, ns, machines, active + failed, listed, n)
  {
    forall j | 0 <= j < n ensures Gone(instances, ns, machines, active + failed, listed[j]) {
      assert Gone(instances, ns, machines, active, listed[j]);
    }
  }

  lemma GoneOrSpared(
    instances: map<InstanceId, InstanceStatus>, ns: Namespace, machines: set<MachineId>, active: set<InstanceId>,
    failed: set<InstanceId>, status: InstanceStatus)
    requires Gone(instances, ns, machines, active, status) || status.instanceId in failed
    ensures Gone(instances, ns, machines, active + failed, status)
  {
  }

  lemma CleanupBegins(
    instances: map<InstanceId, InstanceStatus>, ns: Namespace, machines: set<MachineId>, active: set<InstanceId>,
    listed: seq<InstanceStatus>)
    ensures CleansOnly([], active) && Descends(instances, instances)
    ensures AllGone(instances, ns, machines, active, listed, 0)
  {
  }

  lemma KeyedInstances(v: StoreView)
    requires Keyed(v)
    ensures KeyedBy(InstanceKeyOf, v.instances)
  {
  }

  class Run {
    const store: MemoryStore
    const job: Job
    var calls: nat
    var started: nat
    var sessions: set<MachineId>
    var actions: seq<Action>

    constructor (store: MemoryStore, job: Job)
      ensures this.store == store && this.job == job && sessions == {} && actions == []
    {
      this.store, this.job := store, job;
      calls, started, sessions, actions := 0, 0, {}, [];
    }

    /** Since the history had length `from`, only pre-commit writes were made and nothing was cleaned up. */
    ghost predicate BeforeCommit(from: nat)
      reads this, store
    {
      store.Valid() && 0 < from <= |store.history| && PreSteps(job, store.history, from) && NoCleanup(actions)
    }

    /** The fate of the next store call. */
    method NextCall() returns (outcome: CallOutcome)
      modifies this`calls
      ensures outcome == job.env.storeCalls(old(calls)) && calls == old(calls) + 1
    {
      outcome := job.env.storeCalls(calls);
      calls := calls + 1;
    }

    // -------------------------------------------------------------------------
    // Sessions
    // -------------------------------------------------------------------------

    /** Records of this namespace outside `known` were adopted, so they carry no ports. */
    ghost predicate OnlyAdopted(known: set<InstanceId>)
      reads store
    {
      forall id :: id in store.instances && id !in known && store.instances[id].namespace == job.manifest.namespace ==>
        store.instances[id].backendPorts == map[]
    }

    method Adopt(found: ManagedInstance, machine: MachineId, ghost known: set<InstanceId>, ghost from: nat)
      requires BeforeCommit(from) && OnlyAdopted(known)
      requires found in job.env.opens(machine).running && found.instanceId !in known
      modifies store
      ensures BeforeCommit(from) && store.releases == old(store.releases) && old(store.history) <= store.history
      ensures OnlyAdopted(known) && store.instances.Keys == old(store.instances).Keys + {found.instanceId}
      ensures AdoptedAs(job.manifest.namespace, found, store.instances[found.instanceId])
      ensures forall id :: id != found.instanceId && id in store.instances ==>
        store.instances[id] == old(store.instances)[id]
      ensures started == old(started)
      ensures old(Unspent(job, store.instances, started)) ==> Unspent(job, store.instances, started)
    {
      ghost var v := store.View();
      store.UpsertInstanceStatus(AdoptedStatus(job.manifest.namespace, found));
      assert Writes(job, AdoptionWrite(found, machine), v, store.View());
    }

    /** Opens a session: the lock, then adoption of containers the store does not list. */
    method OpenSession(machine: MachineId, ghost from: nat) returns (ok: bool)
      requires BeforeCommit(from)
      modifies store, this`sessions, this`actions
      ensures BeforeCommit(from) && store.releases == old(store.releases) && old(store.history) <= store.history
      ensures ok == job.env.opens(machine).ok && sessions == if ok then old(sessions) + {machine} else old(sessions)
      ensures actions == if ok then old(actions) + [Lock(machine)] else old(actions)
      ensures forall found :: found in job.env.opens(machine).running ==> found.instanceId in store.instances
      ensures OnlyNewFound(
        job.manifest.namespace, job.env.opens(machine).running, old(store.instances), store.instances)
      ensures old(Unspent(job, store.instances, started)) ==> Unspent(job, store.instances, started)
    {
      hide PreSteps, Unspent, Lists, InstancesIn, Keyed, FoundAs, AdoptedAs;
      var outcome := job.env.opens(machine);
      var listed := store.ListInstanceStatus(job.manifest.namespace);
      KeyedInstances(store.View());
      var known := set s | s in listed :: s.instanceId;
      ListedIdsKnown(listed, store.instances, job.manifest.namespace);
      for i := 0 to |outcome.running|
        invariant BeforeCommit(from) && OnlyAdopted(known) && sessions == old(sessions) && actions == old(actions)
        invariant store.releases == old(store.releases) && old(store.history) <= store.history
        invariant old(Unspent(job, store.instances, started)) ==> Unspent(job, store.instances, started)
        invariant known <= store.instances.Keys
        invariant OnlyNewFound(job.manifest.namespace, outcome.running, old(store.instances), store.instances)
        invariant forall j :: 0 <= j < i ==> outcome.running[j].instanceId in store.instances
      {
        if outcome.running[i].instanceId in known { continue; }
        ghost var before := store.instances;
        Adopt(outcome.running[i], machine, known, from);
        OneMoreFound(
          job.manifest.namespace, outcome.running, old(store.instances), before, store.instances, outcome.running[i]);
      }
      ok := outcome.ok;
      if ok {
        sessions := sessions + {machine};
        actions := actions + [Lock(machine)];
      }
    }

    /** Locks every participant, in any order, until one is unknown or refuses. */
    method OpenAll(participants: set<MachineId>, ghost from: nat) returns (failure: Option<Failure>)
      requires BeforeCommit(from) && sessions == {}
      modifies store, this`sessions, this`actions
      ensures BeforeCommit(from) && store.releases == old(store.releases) && old(store.history) <= store.history
      ensures failure.None? ==> sessions == participants
      ensures Opens(job.env, participants) ==> failure.None?
      ensures OnlyLocks(old(actions)) ==> OnlyLocks(actions)
      ensures failure.None? ==> Locked(sessions, actions)
      ensures old(Unspent(job, store.instances, started)) ==> Unspent(job, store.instances, started)
      ensures failure.Some? ==> failure.value.UnknownParticipant? || failure.value.OpenFailed?
    {
      var todo := participants;
      while todo != {}
        invariant BeforeCommit(from) && store.releases == old(store.releases) && old(store.history) <= store.history
        invariant todo <= participants && sessions == participants - todo
        invariant OnlyLocks(old(actions)) ==> OnlyLocks(actions)
        invariant Locked(sessions, actions)
        invariant old(Unspent(job, store.instances, started)) ==> Unspent(job, store.instances, started)
        decreases todo
      {
        var machine :| machine in todo;
        if !exists m :: m in job.env.machines && m.id == machine { return Some(UnknownParticipant(machine)); }
        var ok := OpenSession(machine, from);
        if !ok { return Some(OpenFailed(machine)); }
        todo := todo - {machine};
      }
      failure := None;
    }

    // -------------------------------------------------------------------------
    // Candidates
    // -------------------------------------------------------------------------

    /** Writes the status of an instance whose id this run chose. */
    method PublishStatus(status: InstanceStatus, ghost index: nat, ghost from: nat)
      requires BeforeCommit(from)
      requires status.namespace == job.manifest.namespace && status.instanceId == job.env.ids(index)
      modifies store
      ensures BeforeCommit(from) && store.releases == old(store.releases) && old(store.history) <= store.history
      ensures store.revisions == old(store.revisions)
      ensures store.instances == old(store.instances)[status.instanceId := status]
    {
      ghost var v := store.View();
      store.UpsertInstanceStatus(status);
      assert Writes(job, CandidateWrite(status, index), v, store.View());
    }

    /** Asks a session to start a candidate; the agent publishes its status before replying. */
    method StartCandidate(machine: MachineId, spec: ServiceSpec, slotId: SlotId, ghost from: nat)
      returns (r: Result<InstanceStatus, Failure>, ghost index: nat)
      requires BeforeCommit(from)
      modifies store, this`started, this`actions
      ensures BeforeCommit(from) && store.releases == old(store.releases) && old(store.history) <= store.history
      ensures store.revisions == old(store.revisions)
      ensures actions == old(actions) + [Start(machine, spec.name, slotId)]
      ensures r.Ok? ==> r.value.namespace == job.manifest.namespace && r.value.instanceId == job.env.ids(index)
      ensures r.Err? ==> r.error == StartFailed(machine) && !Cooperative(job.env)
      ensures index == old(started) && started == old(started) + 1
      ensures forall id :: id != job.env.ids(index) ==> (id in store.instances <==> id in old(store.instances))
      ensures forall id :: id != job.env.ids(index) && id in store.instances ==>
        store.instances[id] == old(store.instances)[id]
      ensures r.Ok? && job.env.ids(index) !in old(store.instances) ==>
        r.value == StartedStatus(job, machine, slotId, job.env.ids(index), spec, r.value.overlayIp)
    {
      index := started;
      var id, outcome := job.env.ids(started), job.env.starts(started);
      started := started + 1;
      actions := actions + [Start(machine, spec.name, slotId)];
      if LocalStatus(store.instances, job.manifest.namespace, machine, id) {
        assert InstanceKeyOf(store.instances[id]) == id;
        r := Ok(store.instances[id]);
        return;
      }
      if outcome.call == FailsBefore {
        r := Err(StartFailed(machine));
        return;
      }
      var status := StartedStatus(job, machine, slotId, id, spec, outcome.overlayIp);
      PublishStatus(status, index, from);
      r := if outcome.call == FailsAfter then Err(StartFailed(machine)) else Ok(status);
    }

    /** Starts a candidate and publishes its status once more, as the coordinator. */
    method StartSlot(machine: MachineId, spec: ServiceSpec, slotId: SlotId, ghost from: nat)
      returns (r: Result<InstanceId, Failure>)
      requires BeforeCommit(from)
      modifies store, this`calls, this`started, this`actions
      ensures BeforeCommit(from) && store.releases == old(store.releases) && old(store.history) <= store.history
      ensures store.revisions == old(store.revisions)
      ensures actions == old(actions) + (if machine in sessions then [Start(machine, spec.name, slotId)] else [])
      ensures machine !in sessions ==> r == Err(NoSession(machine))
      ensures r.Err? && machine in sessions ==>
        (r.error == StoreFailed || r.error == StartFailed(machine)) && !Cooperative(job.env)
      ensures forall id :: id != job.env.ids(old(started)) ==> (id in store.instances <==> id in old(store.instances))
      ensures forall id :: id != job.env.ids(old(started)) && id in store.instances ==>
        store.instances[id] == old(store.instances)[id]
      ensures old(Unspent(job, store.instances, started)) && r.Ok? ==>
        && Unspent(job, store.instances, started) && Extends(old(store.instances), store.instances)
        && Running(job, store.instances, spec, Slot(slotId, machine, r.value, job.hash(spec)))
    {
      if machine !in sessions { return Err(NoSession(machine)); }
      var status, index := StartCandidate(machine, spec, slotId, from);
      if status.Err? { return Err(status.error); }
      var outcome := NextCall();
      if outcome == FailsBefore { return Err(StoreFailed); }
      PublishStatus(status.value, index, from);
      if outcome == FailsAfter { return Err(StoreFailed); }
      if old(Unspent(job, store.instances, started)) { SpendOne(job, old(store.instances), store.instances, index); }
      r := Ok(status.value.instanceId);
    }

    /** One slot: kept as it is, or started anew. */
    method StartOrKeep(spec: ServiceSpec, d: DesiredSlot, current: seq<Slot>, ghost from: nat)
      returns (r: Result<Slot, Failure>)
      requires BeforeCommit(from)
      modifies store, this`calls, this`started, this`actions
      ensures BeforeCommit(from) && store.releases == old(store.releases) && old(store.history) <= store.history
      ensures store.revisions == old(store.revisions)
      ensures r.Ok? ==> RealizesSlot(r.value, d, FindSlot(current, d.slotId), job.hash(spec))
      ensures r.Ok? ==> actions == old(actions) + StartOf(spec.name, d, current, job.hash(spec))
      ensures r.Err? ==> StartOf(spec.name, d, current, job.hash(spec)) != []
      ensures r.Err? && d.machineId in sessions ==> !r.error.NoSession? && !Cooperative(job.env)
      ensures old(Unspent(job, store.instances, started)) && r.Ok? ==>
        && Unspent(job, store.instances, started) && Extends(old(store.instances), store.instances)
        && (r.value in current || Running(job, store.instances, spec, r.value))
    {
      hide PreSteps, Unspent, Running;
      var h := job.hash(spec);
      var existing := FindSlot(current, d.slotId);
      FindSlotAt(current, d.slotId);
      if Keeps(existing, d, h) {
        return Ok(Slot(d.slotId, d.machineId, existing.value.activeInstanceId, h));
      }
      var id := StartSlot(d.machineId, spec, d.slotId, from);
      if id.Err? { return Err(id.error); }
      r := Ok(Slot(d.slotId, d.machineId, id.value, h));
    }

    /** The inner loop over the slots of one service. */
    method StartSlots(spec: ServiceSpec, desired: seq<DesiredSlot>, current: seq<Slot>, ghost from: nat)
      returns (r: Result<seq<Slot>, Failure>)
      requires BeforeCommit(from)
      modifies store, this`calls, this`started, this`actions
      ensures BeforeCommit(from) && store.releases == old(store.releases) && old(store.history) <= store.history
      ensures store.revisions == old(store.revisions)
      ensures r.Ok? ==> Realizes(r.value, desired, current, job.hash(spec))
      ensures r.Ok? ==> actions == old(actions) + StartActions(spec.name, desired, |desired|, current, job.hash(spec))
      ensures r.Err? && DesiredMachines(desired) <= sessions ==> !r.error.NoSession? && !Cooperative(job.env)
      ensures StartActions(spec.name, desired, |desired|, current, job.hash(spec)) == [] ==> actions == old(actions)
      ensures old(Unspent(job, store.instances, started)) && r.Ok? ==>
        && Unspent(job, store.instances, started) && Extends(old(store.instances), store.instances)
        && KeptOrRunning(job, store.instances, spec, r.value, current)
    {
      hide PreSteps, Unspent, Running, RealizesSlot, FindSlot, StartOf, Extends, KeptOrRunning;
      var h := job.hash(spec);
      var slots: seq<Slot> := [];
      NoSlotsYet(job, store.instances, spec, current);
      for i := 0 to |desired|
        invariant BeforeCommit(from) && store.releases == old(store.releases) && old(store.history) <= store.history
        invariant store.revisions == old(store.revisions)
        invariant |slots| == i
        invariant forall k :: 0 <= k < i ==> RealizesSlot(slots[k], desired[k], FindSlot(current, desired[k].slotId), h)
        invariant actions == old(actions) + StartActions(spec.name, desired, i, current, h)
        invariant old(Unspent(job, store.instances, started)) ==>
          && Unspent(job, store.instances, started) && Extends(old(store.instances), store.instances)
          && KeptOrRunning(job, store.instances, spec, slots, current)
      {
        StartActionsPrefix(spec.name, desired, i + 1, current, h);
        ghost var instances := store.instances;
        var slot := StartOrKeep(spec, desired[i], current, from);
        if slot.Err? { return Err(slot.error); }
        if old(Unspent(job, store.instances, started)) {
          OneMoreSlot(job, old(store.instances), instances, store.instances, spec, slots, slot.value, current);
        }
        slots := slots + [slot.value];
      }
      r := Ok(slots);
    }

    /** One iteration of the loop over the services of the manifest. */
    method StartService(spec: ServiceSpec, machines: seq<MachineId>, current: Current, ghost from: nat)
      returns (r: Result<ReleaseRecord, Failure>)
      requires BeforeCommit(from) && spec in job.manifest.services && spec.placement != Replicated(0)
      modifies store, this`calls, this`started, this`actions
      ensures BeforeCommit(from) && store.releases == old(store.releases) && old(store.history) <= store.history
      ensures old(store.revisions).Keys <= store.revisions.Keys
      ensures r.Ok? ==>
        ReleaseFor(job, machines, current, spec, r.value) && RevisionKeyFor(job, spec) in store.revisions
      ensures r.Ok? ==> actions == old(actions) + ServiceStarts(job, machines, current, spec)
      ensures r.Err? && MachinesOfService(spec, machines, current) <= sessions ==>
        !r.error.NoSession? && !Cooperative(job.env)
      ensures ServiceStarts(job, machines, current, spec) == [] ==> actions == old(actions)
      ensures old(Unspent(job, store.instances, started)) && r.Ok? ==>
        && Unspent(job, store.instances, started) && Extends(old(store.instances), store.instances)
        && KeptOrRunning(job, store.instances, spec, r.value.release.slots, SlotsOf(current, spec.name))
    {
      hide Unspent, Extends, KeptOrRunning;
      var outcome := NextCall();
      if outcome == FailsBefore { return Err(StoreFailed); }
      ghost var v := store.View();
      store.UpsertServiceRevision(RevisionFor(job, spec));
      assert Writes(job, RevisionWrite(spec), v, store.View());
      if outcome == FailsAfter { return Err(StoreFailed); }
      var slots := SlotsOf(current, spec.name);
      var desired := ComputeDesiredSlots(spec, machines, slots);
      var realized := StartSlots(spec, desired.value, slots, from);
      if realized.Err? { return Err(realized.error); }
      r := Ok(NewRelease(job, spec, realized.value));
    }

    /** The loop over the services of the manifest. */
    method StartServices(machines: seq<MachineId>, current: Current, ghost from: nat)
      returns (r: Result<seq<ReleaseRecord>, Failure>)
      requires BeforeCommit(from) && Placeable(job.manifest.services)
      modifies store, this`calls, this`started, this`actions
      ensures BeforeCommit(from) && store.releases == old(store.releases) && old(store.history) <= store.history
      ensures r.Ok? ==> ReleasesFor(job, machines, current, r.value)
      ensures r.Ok? ==> RevisionsStored(job, store.revisions.Keys, |job.manifest.services|)
      ensures r.Ok? ==> actions == old(actions) + AllStarts(job, machines, current, |job.manifest.services|)
      ensures r.Err? && MachinesOfServices(job.manifest.services, machines, current) <= sessions ==>
        !r.error.NoSession? && !Cooperative(job.env)
      ensures AllStarts(job, machines, current, |job.manifest.services|) == [] ==> actions == old(actions)
      ensures old(Unspent(job, store.instances, started)) && r.Ok? ==>
        CandidatesRun(job, store.instances, r.value, current)
    {
      hide Unspent, Extends, KeptOrRunning, AllRunning, PreSteps, ReleaseFor, ReleasesUpTo, RevisionsStored,
           ServiceStarts, AllStarts, MachinesOfService, MachinesOfServices;
      NoneRunning(job, store.instances, current);
      NoServiceYet(job, machines, current, store.revisions.Keys);
      var specs := job.manifest.services;
      var recs: seq<ReleaseRecord> := [];
      for i := 0 to |specs|
        invariant BeforeCommit(from) && store.releases == old(store.releases) && old(store.history) <= store.history
        invariant |recs| == i && ReleasesUpTo(job, machines, current, recs, i)
        invariant RevisionsStored(job, store.revisions.Keys, i)
        invariant actions == old(actions) + AllStarts(job, machines, current, i)
        invariant old(Unspent(job, store.instances, started)) ==>
          Unspent(job, store.instances, started) && AllRunning(job, store.instances, recs, current, i)
      {
        ghost var instances := store.instances;
        AllStartsPrefix(job, machines, current, i + 1);
        StartsAppend(old(actions), job, machines, current, i);
        ghost var before := store.revisions.Keys;
        var rec := StartService(specs[i], machines, current, from);
        OneOfServices(specs, i, machines, current);
        if rec.Err? { return Err(rec.error); }
        OneMoreStored(job, before, store.revisions.Keys, i);
        AppendRelease(job, machines, current, recs, rec.value);
        if old(Unspent(job, store.instances, started)) {
          OneMoreRunning(job, instances, store.instances, recs, rec.value, current);
        }
        recs := recs + [rec.value];
      }
      ReleasesUpToEach(job, machines, current, recs, |specs|);
      r := Ok(recs);
    }

    // -------------------------------------------------------------------------
    // Reading the store
    // -------------------------------------------------------------------------

    method ReadCurrent() returns (current: Current)
      requires store.Valid()
      ensures current == ByService(store.releases, job.manifest.namespace)
    {
      var listed := store.ListServiceReleases(job.manifest.namespace);
      CollectByService(listed, store.releases, job.manifest.namespace);
      current := CollectBy(ServiceOf, listed);
    }

    /** `preview` against the machine list and clock of the moment. */
    method Preview(machines: seq<MachineRecord>, now: nat) returns (r: Result<DeployPreview, Failure>)
      requires store.Valid()
      modifies this`calls
      ensures r.Ok? ==> ValidManifest(job.manifest) && IsPreview(
        r.value, job.manifest, DeployableMachines(machines, job.local, now),
        ByService(store.releases, job.manifest.namespace), job.hash)
      ensures !ValidManifest(job.manifest) ==> r == Err(InvalidManifest)
      ensures r.Err? ==> r.error == StoreFailed || r.error == InvalidManifest
      ensures r.Err? ==> !ValidManifest(job.manifest) || !Cooperative(job.env)
    {
      if !ValidManifest(job.manifest) { return Err(InvalidManifest); }
      var outcome := NextCall();
      if outcome != Succeeds { return Err(StoreFailed); }
      var current := ReadCurrent();
      outcome := NextCall();
      if outcome != Succeeds { return Err(StoreFailed); }
      var plan := Plan(job.manifest, DeployableMachines(machines, job.local, now), current, job.hash);
      r := Ok(plan.value);
    }

    /** The parts of a preview that the run itself goes by. */
    method PreviewRun(machines: seq<MachineRecord>, now: nat)
      returns (r: Result<set<MachineId>, Failure>, removed: seq<string>)
      requires store.Valid()
      modifies this`calls
      ensures !ValidManifest(job.manifest) ==> r == Err(InvalidManifest)
      ensures r.Err? ==> r.error == StoreFailed || r.error == InvalidManifest
      ensures r.Err? ==> !ValidManifest(job.manifest) || !Cooperative(job.env)
      ensures r.Ok? ==> Placeable(job.manifest.services)
      ensures r.Ok? ==> r.value == Participants(
        job.manifest, DeployableMachines(machines, job.local, now), ByService(store.releases, job.manifest.namespace))
      ensures r.Ok? ==> RemovesExactly(removed, job.manifest, ByService(store.releases, job.manifest.namespace))
    {
      removed := [];
      var preview := Preview(machines, now);
      if preview.Err? {
        r := Err(preview.error);
        return;
      }
      ValidManifestPlaceable(job.manifest);
      RemovedNamesExact(preview.value, job.manifest, DeployableMachines(machines, job.local, now),
                        ByService(store.releases, job.manifest.namespace), job.hash);
      removed := CollectRemoved(preview.value.services);
      r := Ok(preview.value.participants);
    }

    method CollectRemoved(plans: seq<ServicePlan>) returns (removed: seq<string>)
      ensures removed == RemovedNames(plans, |plans|)
      ensures forall s :: s in removed <==>
        exists i :: 0 <= i < |plans| && plans[i].action == Remove && plans[i].service == s
    {
      removed := [];
      for i := 0 to |plans|
        invariant removed == RemovedNames(plans, i)
      {
        if plans[i].action == Remove { removed := removed + [plans[i].service]; }
      }
      forall s
        ensures s in removed <==> exists i :: 0 <= i < |plans| && plans[i].action == Remove && plans[i].service == s
      {
        RemovedNamesMember(plans, |plans|, s);
      }
    }

    // -------------------------------------------------------------------------
    // Commit and cleanup
    // -------------------------------------------------------------------------

    /** The commit is stored whole or not at all; the run goes on only when told that it was. */
    method Commit(recs: seq<ReleaseRecord>, removed: seq<string>, ghost from: nat)
      returns (stored: bool, acknowledged: bool)
      requires store.Valid() && ReadyToCommit(job, store.history, from, recs, removed)
      modifies store, this`calls, this`actions
      ensures store.Valid()
      ensures !stored ==> store.View() == old(store.View()) && store.history == old(store.history)
      ensures stored ==> store.history == old(store.history) + [store.View()]
      ensures stored ==> CommitsAt(job, store.history, from, |old(store.history)|, recs, removed)
      ensures acknowledged ==> stored
      ensures !acknowledged ==> !Cooperative(job.env)
      ensures actions == old(actions) + if acknowledged then [CommitDone] else []
      ensures stored ==> store.deploys == WithRecord(old(store.deploys), DeployState.Committed)
      ensures stored ==> store.instances == old(store.instances)
    {
      hide ReadyToCommit, CommitsAt;
      ghost var h := store.history;
      var outcome := NextCall();
      if outcome == FailsBefore { return false, false; }
      store.ApplyDeployCommit(CommitFor(job, recs, removed));
      CommitsNow(job, h, store.View(), from, recs, removed);
      if outcome == FailsAfter { return true, false; }
      actions := actions + [CommitDone];
      return true, true;
    }

    /** Since the history had length `from`, only retired instances were touched. */
    ghost predicate Cleaning(active: set<InstanceId>, from: nat)
      reads store
    {
      store.Valid() && 0 < from <= |store.history| && CleanupSteps(job.manifest.namespace, active, store.history, from)
    }

    method DrainInstance(machine: MachineId, id: InstanceId, ghost active: set<InstanceId>, ghost from: nat)
      returns (ok: bool)
      requires Cleaning(active, from) && id !in active
      modifies store, this`actions
      ensures Cleaning(active, from) && store.releases == old(store.releases) && old(store.history) <= store.history
      ensures actions == old(actions) + [Drain(machine, id)] && ok == (job.env.drains(id) == Succeeds)
      ensures store.deploys == old(store.deploys) && Descends(store.instances, old(store.instances))
      ensures store.instances ==
        if job.env.drains(id) != FailsBefore && LocalStatus(old(store.instances), job.manifest.namespace, machine, id)
          && old(store.instances)[id].phase != Draining
        then old(store.instances)[id := DrainedStatus(old(store.instances)[id])] else old(store.instances)
    {
      actions := actions + [Drain(machine, id)];
      var outcome := job.env.drains(id);
      if outcome == FailsBefore { return false; }
      if LocalStatus(store.instances, job.manifest.namespace, machine, id) && store.instances[id].phase != Draining {
        ghost var v := store.View();
        assert InstanceKeyOf(store.instances[id]) == id;
        var status := DrainedStatus(store.instances[id]);
        store.UpsertInstanceStatus(status);
        assert Retires(job.manifest.namespace, active, id, Some(status), v, store.View());
      }
      ok := outcome == Succeeds;
    }

    method Uninstall(machine: MachineId, id: InstanceId, ghost active: set<InstanceId>, ghost from: nat)
      returns (ok: bool)
      requires Cleaning(active, from) && id !in active
      requires LocalStatus(store.instances, job.manifest.namespace, machine, id) ==>
        store.instances[id].phase == Draining
      modifies store, this`actions
      ensures Cleaning(active, from) && store.releases == old(store.releases) && old(store.history) <= store.history
      ensures actions == old(actions) + [RemoveInstance(machine, id)] && ok == (job.env.removes(id) == Succeeds)
      ensures store.deploys == old(store.deploys) && Descends(store.instances, old(store.instances))
      ensures store.instances ==
        if job.env.removes(id) != FailsBefore && LocalStatus(old(store.instances), job.manifest.namespace, machine, id)
        then old(store.instances) - {id} else old(store.instances)
    {
      actions := actions + [RemoveInstance(machine, id)];
      var outcome := job.env.removes(id);
      if outcome == FailsBefore { return false; }
      if LocalStatus(store.instances, job.manifest.namespace, machine, id) {
        ghost var v := store.View();
        store.DeleteInstanceStatus(id);
        assert Retires(job.manifest.namespace, active, id, None, v, store.View());
      }
      ok := outcome == Succeeds;
    }

    /** One turn of the cleanup loop: `ok` unless a call failed. */
    method Retire(
      status: InstanceStatus, participants: set<MachineId>, active: set<InstanceId>, ghost from: nat,
      ghost cleaned: seq<Action>)
      returns (ok: bool, ghost cleaned': seq<Action>)
      requires Cleaning(active, from) && CleansOnly(cleaned, active)
      modifies store, this`actions
      ensures Cleaning(active, from) && store.releases == old(store.releases) && old(store.history) <= store.history
      ensures store.deploys == old(store.deploys) && Descends(store.instances, old(store.instances))
      ensures cleaned <= cleaned' && CleansOnly(cleaned', active) && actions == old(actions) + cleaned'[|cleaned|..]
      ensures ok ==> Gone(store.instances, job.manifest.namespace, participants * sessions, active, status)
      ensures !ok ==> !CleansOne(job.env, status.instanceId)
    {
      hide CleansOnly, CleanupSteps;
      cleaned' := cleaned;
      var id, machine := status.instanceId, status.machineId;
      if id in active || machine !in participants || machine !in sessions { return true, cleaned'; }
      CleansDrain(cleaned, active, machine, id);
      ghost var before := store.instances;
      ok := DrainInstance(machine, id, active, from);
      cleaned' := cleaned + [Drain(machine, id)];
      if !ok { return; }
      ghost var drained := store.instances;
      ok := Uninstall(machine, id, active, from);
      DescendsTransitive(before, drained, store.instances);
      cleaned' := cleaned + [Drain(machine, id)] + [RemoveInstance(machine, id)];
    }

    /** Drains and removes what the namespace no longer uses on the machines of this run. */
    method Cleanup(participants: set<MachineId>, active: set<InstanceId>, ghost from: nat, ghost before: seq<Action>)
      returns (clean: bool)
      requires Cleaning(active, from) && actions == before
      modifies store, this`actions
      ensures Cleaning(active, from) && store.releases == old(store.releases) && old(store.history) <= store.history
      ensures before <= actions && CleansOnly(actions[|before|..], active)
      ensures store.deploys == old(store.deploys)
      ensures clean ==> Tidy(store.instances, job.manifest.namespace, participants * sessions, active)
      ensures TidyBut(job.env, store.instances, job.manifest.namespace, participants * sessions, active)
      ensures !clean ==> !CleansUp(job.env)
    {
      hide CleansOnly, CleanupSteps, Tidy, TidyBut, Descends, Gone, AllGone, Lists, Keyed, CleansOne;
      var listed := store.ListInstanceStatus(job.manifest.namespace);
      clean := true;
      ghost var cleaned: seq<Action> := [];
      ghost var failed: set<InstanceId> := {};
      ghost var machines := participants * sessions;
      CleanupBegins(store.instances, job.manifest.namespace, machines, active, listed);
      assert active + failed == active;
      for i := 0 to |listed|
        invariant Cleaning(active, from) && store.releases == old(store.releases) && old(store.history) <= store.history
        invariant actions == before + cleaned && CleansOnly(cleaned, active)
        invariant store.deploys == old(store.deploys) && Descends(store.instances, old(store.instances))
        invariant (clean <==> failed == {}) && forall id :: id in failed ==> !CleansOne(job.env, id)
        invariant AllGone(store.instances, job.manifest.namespace, machines, active + failed, listed, i)
      {
        ghost var instances := store.instances;
        var ok, cleaned' := Retire(listed[i], participants, active, from, cleaned);
        assert before + cleaned + cleaned'[|cleaned|..] == before + cleaned';
        cleaned := cleaned';
        DescendsTransitive(old(store.instances), instances, store.instances);
        if !ok {
          clean := false;
          ghost var id := listed[i].instanceId;
          SpareMore(instances, job.manifest.namespace, machines, active + failed, {id}, listed, i);
          assert active + failed + {id} == active + (failed + {id});
          failed := failed + {id};
        }
        GoneOrSpared(store.instances, job.manifest.namespace, machines, active, failed, listed[i]);
        OneMoreGone(instances, store.instances, job.manifest.namespace, machines, active + failed, listed, i);
      }
      assert actions[|before|..] == cleaned;
      KeyedInstances(old(store.View()));
      TidyAfterAll(listed, old(store.instances), store.instances, job.manifest.namespace, machines, active + failed);
      TidyButFailed(job.env, store.instances, job.manifest.namespace, machines, active, failed);
      if clean { assert active + failed == active; }
    }

    // -------------------------------------------------------------------------
    // The run
    // -------------------------------------------------------------------------

    /** The first preview: only its participants are used. */
    method PreviewLocks() returns (r: Result<set<MachineId>, Failure>)
      requires store.Valid()
      modifies this`calls
      ensures !ValidManifest(job.manifest) ==> r == Err(InvalidManifest)
      ensures r.Err? ==> r.error == StoreFailed || r.error == InvalidManifest
      ensures r.Err? ==> !ValidManifest(job.manifest) || !Cooperative(job.env)
      ensures r.Ok? ==> r.value == FirstParticipants(job, ByService(store.releases, job.manifest.namespace))
    {
      var preview, _ := PreviewRun(job.env.initialMachines, job.env.initialNow);
      r := preview;
    }

    /** First preview and locks. */
    method LockParticipants(ghost from: nat) returns (r: Result<set<MachineId>, Failure>)
      requires BeforeCommit(from) && sessions == {} && actions == []
      modifies store, this
      ensures BeforeCommit(from) && store.releases == old(store.releases) && old(store.history) <= store.history
      ensures OnlyLocks(actions)
      ensures r.Ok? ==> sessions == r.value && Locked(sessions, actions)
      ensures r.Ok? ==> r.value == FirstParticipants(job, ByService(old(store.releases), job.manifest.namespace))
      ensures r.Err? ==> !Smooth(job, ByService(old(store.releases), job.manifest.namespace))
      ensures old(Unspent(job, store.instances, started)) ==> Unspent(job, store.instances, started)
      ensures r.Err? ==> !r.error.NoSession?
      ensures !ValidManifest(job.manifest) ==> r == Err(InvalidManifest) && store.history == old(store.history)
    {
      hide PreSteps, ByService, Unspent, FirstParticipants, RunParticipants, MachinesOfServices, Locked;
      var preview := PreviewLocks();
      if preview.Err? { return Err(preview.error); }
      var outcome := NextCall();
      if outcome != Succeeds { return Err(StoreFailed); }
      var failure := OpenAll(preview.value, from);
      if failure.Some? { return Err(failure.value); }
      r := Ok(preview.value);
    }

    ghost function WithRecord(deploys: map<DeployId, DeployRecord>, state: DeployState): map<DeployId, DeployRecord> {
      deploys[job.env.deployId := DeployRecord(job.env.deployId, job.manifest.namespace, job.local, state)]
    }

    /** The deploy is on record in this state. */
    ghost predicate Recorded(state: DeployState)
      reads store
    {
      job.env.deployId in store.deploys && store.deploys[job.env.deployId].state == state
    }

    /** Writes the deploy record; `false` when the call fails. */
    method RecordDeploy(state: DeployState) returns (ok: bool)
      requires store.Valid()
      modifies store`deploys, this`calls
      ensures store.Valid()
      ensures store.deploys == old(store.deploys) || store.deploys == WithRecord(old(store.deploys), state)
      ensures ok ==> store.deploys == WithRecord(old(store.deploys), state)
      ensures !ok ==> !Cooperative(job.env)
    {
      var outcome := NextCall();
      if outcome != FailsBefore {
        store.UpsertDeploy(DeployRecord(job.env.deployId, job.manifest.namespace, job.local, state));
      }
      ok := outcome == Succeeds;
    }

    /** Second preview, then revisions and candidates for every service. */
    method StartRollout(participants: set<MachineId>, ghost from: nat)
      returns (r: Result<seq<ReleaseRecord>, Failure>, removed: seq<string>)
      requires BeforeCommit(from) && sessions == participants && store.releases == store.history[from - 1].releases
      modifies store, this`calls, this`started, this`actions
      ensures BeforeCommit(from) && store.releases == old(store.releases) && old(store.history) <= store.history
      ensures r.Ok? ==> ReadyToCommit(job, store.history, from, r.value, removed)
      ensures r.Ok? ==> actions == old(actions) + RunStarts(job, store.history, from)
      ensures RunStarts(job, store.history, from) == [] ==> actions == old(actions)
      ensures r.Ok? ==> participants == RunParticipants(job, ByService(old(store.releases), job.manifest.namespace))
      ensures r.Err? && Smooth(job, ByService(old(store.releases), job.manifest.namespace)) ==>
        participants != RunParticipants(job, ByService(old(store.releases), job.manifest.namespace))
      ensures old(Unspent(job, store.instances, started)) && r.Ok? ==>
        CandidatesRun(job, store.instances, r.value, ByService(old(store.releases), job.manifest.namespace))
      ensures r.Err? && DeployableMachines(job.env.finalMachines, job.local, job.env.finalNow) == RunMachines(job) ==>
        !r.error.NoSession?
    {
      hide PreSteps, ReadyToCommit, RunStarts, ReleasesFor, RemovesExactly, RevisionsStored, AllStarts, Participants,
           MachinesOfServices, ByService, RunMachines, DeployableMachines, Unspent, CandidatesRun;
      var preview, names := PreviewRun(job.env.finalMachines, job.env.finalNow);
      removed := names;
      if preview.Err? {
        r := Err(preview.error);
        return;
      }
      if preview.value != participants {
        r := Err(ParticipantsChanged);
        return;
      }
      var ok := RecordDeploy(Applying);
      if !ok {
        r := Err(StoreFailed);
        return;
      }
      var outcome := NextCall();
      if outcome != Succeeds {
        r := Err(StoreFailed);
        return;
      }
      var current := ReadCurrent();
      ServiceMachinesParticipate(job.manifest, RunMachines(job), current);
      r := StartServices(RunMachines(job), current, from);
      StartsNow(job, store.history, from, current);
      if r.Ok? { ReadyNow(job, store.history, from, current, r.value, removed); }
    }

    /** Everything after an acknowledged commit. */
    method FinishRollout(participants: set<MachineId>, active: set<InstanceId>, ghost from: nat)
      returns (r: Result<DeployState, Failure>)
      requires Cleaning(active, from)
      modifies store, this`calls, this`actions
      ensures Cleaning(active, from) && store.releases == old(store.releases) && old(store.history) <= store.history
      ensures old(actions) <= actions && CleansOnly(actions[|old(actions)|..], active)
      ensures r.Err? ==> r.error == StoreFailed
      ensures r == Ok(DeployState.Committed) ==>
        && store.deploys == old(store.deploys)
        && Tidy(store.instances, job.manifest.namespace, participants * sessions, active)
      ensures r.Ok? && r != Ok(DeployState.Committed) ==>
        r == Ok(CleanupPending) && store.deploys == WithRecord(old(store.deploys), CleanupPending) && !CleansUp(job.env)
      ensures r.Err? ==> !Cooperative(job.env)
      ensures r.Ok? ==> TidyBut(job.env, store.instances, job.manifest.namespace, participants * sessions, active)
    {
      hide Tidy, TidyBut;
      NothingCleaned(active);
      var outcome := NextCall();
      if outcome != Succeeds { return Err(StoreFailed); }
      var clean := Cleanup(participants, active, from, actions);
      if clean { return Ok(DeployState.Committed); }
      var ok := RecordDeploy(CleanupPending);
      if !ok { return Err(StoreFailed); }
      r := Ok(CleanupPending);
    }

    /** `apply`, for every manifest, store and fault pattern. */
    method Apply() returns (
      r: Result<DeployState, Failure>, ghost committed: Option<nat>, ghost recs: seq<ReleaseRecord>,
      ghost removed: seq<string>)
      requires store.Valid() && sessions == {} && actions == []
      modifies store, this
      ensures store.Valid() && old(store.history) <= store.history
      ensures committed.None? ==> r.Err? && BeforeCommit(|old(store.history)|) && store.releases == old(store.releases)
      ensures committed.Some? ==> CommitsAt(job, store.history, |old(store.history)|, committed.value, recs, removed)
      ensures committed.Some? ==> CommittedActions(
        actions, RunStarts(job, old(store.history), |old(store.history)|), ActiveIds(recs))
      ensures r.Ok? ==> committed.Some?
      ensures !ValidManifest(job.manifest) ==>
        r == Err(InvalidManifest) && committed.None? && store.history == old(store.history)
      ensures r.Err? && DeployableMachines(job.env.finalMachines, job.local, job.env.finalNow) == RunMachines(job) ==>
        !r.error.NoSession?
      ensures committed.None? && RunStarts(job, old(store.history), |old(store.history)|) == [] ==> OnlyLocks(actions)
      ensures committed.Some? ==> Locked(sessions, actions)
      ensures committed.Some? ==>
        sessions == RunParticipants(job, ByService(old(store.releases), job.manifest.namespace))
      ensures Smooth(job, ByService(old(store.releases), job.manifest.namespace)) ==>
        committed.Some? && (r == Ok(DeployState.Committed) || (r == Ok(CleanupPending) && !CleansUp(job.env)))
      ensures r.Ok? ==> Recorded(r.value)
      ensures r == Ok(DeployState.Committed) ==>
        Tidy(store.instances, job.manifest.namespace, sessions, ActiveIds(recs))
      ensures r.Ok? ==> TidyBut(job.env, store.instances, job.manifest.namespace, sessions, ActiveIds(recs))
      ensures committed.Some? && old(Unspent(job, store.instances, started)) ==>
        && committed.value < |store.history|
        && CandidatesRun(job, store.history[committed.value].instances, recs,
          ByService(old(store.releases), job.manifest.namespace))
    {
      hide Smooth, Cooperative, CleansUp, Unspent, CandidatesRun, ByService, Tidy, TidyBut, Locked, RunParticipants,
           FirstParticipants, CommittedActions, CommitsAt, ReadyToCommit, RunStarts;
      ghost var from := |store.history|;
      SmoothMeans(job, ByService(store.releases, job.manifest.namespace));
      committed, recs, removed := None, [], [];
      var participants := LockParticipants(from);
      if participants.Err? {
        r := Err(participants.error);
        return;
      }
      ghost var locks := actions;
      var realized, names := StartRollout(participants.value, from);
      RunStartsStill(job, old(store.history), store.history, from);
      if realized.Err? {
        r := Err(realized.error);
        return;
      }
      recs, removed := realized.value, names;
      LockedStill(sessions, locks, actions);
      ghost var started := actions;
      r, committed := CommitRollout(
        participants.value, realized.value, names, from, locks, RunStarts(job, store.history, from));
      LockedStill(sessions, started, actions);
      assert participants.value * sessions == sessions;
    }

    /** The commit call and what follows it. */
    method CommitRollout(
      participants: set<MachineId>, recs: seq<ReleaseRecord>, removed: seq<string>,
      ghost from: nat, ghost locks: seq<Action>, ghost starts: seq<Action>)
      returns (r: Result<DeployState, Failure>, ghost committed: Option<nat>)
      requires BeforeCommit(from) && ReadyToCommit(job, store.history, from, recs, removed)
      requires OnlyLocks(locks) && actions == locks + starts
      modifies store, this`calls, this`actions
      ensures store.Valid() && old(store.history) <= store.history
      ensures committed.None? ==> r.Err? && BeforeCommit(from) && store.releases == old(store.releases)
      ensures committed.Some? ==> CommitsAt(job, store.history, from, committed.value, recs, removed)
      ensures committed.Some? ==> CommittedActions(actions, starts, ActiveIds(recs))
      ensures committed.None? ==> actions == old(actions)
      ensures committed.Some? ==>
        committed.value < |store.history| && store.history[committed.value].instances == old(store.instances)
      ensures old(actions) <= actions
      ensures r.Err? ==> r.error == StoreFailed && !Cooperative(job.env)
      ensures r.Ok? ==> committed.Some? && Recorded(r.value)
      ensures r.Ok? ==> r == Ok(DeployState.Committed) || (r == Ok(CleanupPending) && !CleansUp(job.env))
      ensures r == Ok(DeployState.Committed) ==>
        Tidy(store.instances, job.manifest.namespace, participants * sessions, ActiveIds(recs))
      ensures r.Ok? ==>
        TidyBut(job.env, store.instances, job.manifest.namespace, participants * sessions, ActiveIds(recs))
    {
      hide ReadyToCommit, CommitsAt, RunStarts, Tidy, TidyBut;
      var stored, acknowledged := Commit(recs, removed, from);
      if !stored {
        r, committed := Err(StoreFailed), None;
        return;
      }
      committed := Some(|store.history| - 1);
      ghost var h, before := store.history, actions;
      if !acknowledged {
        ActionsInOrder(locks, starts, [], ActiveIds(recs));
        assert actions == locks + starts + [];
        r := Err(StoreFailed);
        return;
      }
      r := FinishRollout(participants, ActiveIds(recs), |h|);
      CommitsStill(job, h, store.history, from, |h| - 1, recs, removed);
      ActionsInOrder(locks, starts, [CommitDone] + actions[|before|..], ActiveIds(recs));
      assert actions == locks + starts + ([CommitDone] + actions[|before|..]);
    }
  }
}
