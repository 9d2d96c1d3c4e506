/** Deploying the same manifest again changes nothing. */
module Redeploy {
  import opened Model
  import opened Placement
  import opened Planner
  import opened Rollout
  import opened RolloutTheorems
  import opened RolloutTrace
  import opened Store

  /** `current` is what a run with candidates `machines` leaves behind. */
  ghost predicate Settled(manifest: DeployManifest, hash: Hasher, machines: seq<MachineId>, current: Current) {
    && (forall s :: s in current <==> Named(manifest, s))
    && forall spec :: spec in manifest.services && spec.name in current ==>
      SettledService(spec, hash(spec), machines, current[spec.name].release)
  }

  ghost predicate SettledService(spec: ServiceSpec, h: RevisionHash, machines: seq<MachineId>, release: Release) {
    && release.primaryRevisionHash == h
    && exists before: seq<Slot> :: Realizes(release.slots, DesiredSlots(spec, machines, before), before, h)
  }

  /** What a service's placement needs to be stable: replicas ignore the machine set, global services do not. */
  predicate SamePlacement(spec: ServiceSpec, machines: seq<MachineId>, machines': seq<MachineId>) {
    spec.placement.Replicated? || machines == machines'
  }

  /** So for every service of two runs. */
  ghost predicate SamePlacements(job: Job, again: Job) {
    forall spec :: spec in job.manifest.services ==> SamePlacement(spec, RunMachines(job), RunMachines(again))
  }

  lemma CommitSettles(
    job: Job, h: seq<StoreView>, from: nat, c: nat, recs: seq<ReleaseRecord>, removed: seq<string>, i: nat)
    requires CommitsAt(job, h, from, c, recs, removed) && DistinctNames(job.manifest.services) && Keyed(h[from - 1])
    requires c <= i < |h|
    ensures Settled(job.manifest, job.hash, RunMachines(job), ByService(h[i].releases, job.manifest.namespace))
  {
    hide Keyed, Covers, CleanupStep, PreStep, RevisionsStored, AfterCommit, ReleasesFor, RemovesExactly, ReleaseFor;
    var ns, machines := job.manifest.namespace, RunMachines(job);
    CommitPoint(job, h, from, c, recs, removed);
    CleanupStepsAreQuiet(ns, ActiveIds(recs), h, c, i);
    var before := ByService(h[from - 1].releases, ns);
    var after := ByService(h[i].releases, ns);
    forall s ensures s in after <==> Named(job.manifest, s) {
      CommittedAt(job, h[from - 1].releases, machines, recs, removed, (ns, s));
      ReleasedServices(job, machines, before, recs, s);
    }
    forall spec | spec in job.manifest.services && spec.name in after
      ensures SettledService(spec, job.hash(spec), machines, after[spec.name].release)
    {
      CommittedAt(job, h[from - 1].releases, machines, recs, removed, (ns, spec.name));
      ReleaseOfSpec(job, machines, before, recs, spec);
      ReleaseSettles(job, machines, before, spec, after[spec.name]);
    }
  }

  lemma ReleaseSettles(job: Job, machines: seq<MachineId>, before: Current, spec: ServiceSpec, rec: ReleaseRecord)
    requires ReleaseFor(job, machines, before, spec, rec)
    ensures SettledService(spec, job.hash(spec), machines, rec.release)
  {
  }

  lemma ReleasedServices(job: Job, machines: seq<MachineId>, current: Current, recs: seq<ReleaseRecord>, s: string)
    requires ReleasesFor(job, machines, current, recs)
    ensures (exists r :: r in recs && ReleaseKeyOf(r) == (job.manifest.namespace, s)) <==> Named(job.manifest, s)
  {
    if Named(job.manifest, s) {
      var spec :| spec in job.manifest.services && spec.name == s;
      ReleaseOfSpec(job, machines, current, recs, spec);
    }
    if exists r :: r in recs && ReleaseKeyOf(r) == (job.manifest.namespace, s) {
      var r :| r in recs && ReleaseKeyOf(r) == (job.manifest.namespace, s);
      ReleasedInNamespace(job, machines, current, recs, r);
    }
  }

  lemma ReleaseOfSpec(job: Job, machines: seq<MachineId>, current: Current, recs: seq<ReleaseRecord>, spec: ServiceSpec)
    requires ReleasesFor(job, machines, current, recs) && spec in job.manifest.services
    ensures exists r ::
      r in recs && ReleaseKeyOf(r) == (job.manifest.namespace, spec.name) && ReleaseFor(job, machines, current, spec, r)
  {
    var i :| 0 <= i < |job.manifest.services| && job.manifest.services[i] == spec;
    assert ReleaseFor(job, machines, current, job.manifest.services[i], recs[i]);
    assert recs[i] in recs;
  }

  // ---------------------------------------------------------------------------
  // One slot, one service
  // ---------------------------------------------------------------------------

  lemma {:induction false} FindSlotDistinct(slots: seq<Slot>, i: nat)
    requires i < |slots| && forall a, b :: 0 <= a < b < |slots| ==> slots[a].slotId != slots[b].slotId
    ensures FindSlot(slots, slots[i].slotId) == Some(slots[i])
  {
    if i > 0 { FindSlotDistinct(slots[1..], i - 1); }
  }

  /** A settled replicated service wants back exactly the slots it has, on any machine set. */
  lemma ReplicatedKeeps(
    spec: ServiceSpec, h: RevisionHash, before: seq<Slot>, slots: seq<Slot>,
    machines: seq<MachineId>, machines': seq<MachineId>, i: nat)
    requires spec.placement.Replicated? && i < spec.placement.count
    requires Realizes(slots, DesiredSlots(spec, machines, before), before, h)
    ensures
      var desired := DesiredSlots(spec, machines', slots);
      |desired| == |slots| && Keeps(FindSlot(slots, desired[i].slotId), desired[i], h)
  {
    ReplicatedPlacement(spec, machines, before);
    var wanted := DesiredSlots(spec, machines, before);
    forall a, b | 0 <= a < b < |slots| ensures slots[a].slotId != slots[b].slotId {
      assert RealizesSlot(slots[a], wanted[a], FindSlot(before, wanted[a].slotId), h);
      assert RealizesSlot(slots[b], wanted[b], FindSlot(before, wanted[b].slotId), h);
    }
    FindSlotDistinct(slots, i);
    assert RealizesSlot(slots[i], wanted[i], FindSlot(before, wanted[i].slotId), h);
    assert slots[i].slotId == SlotIdAt(i);
  }

  /** A global slot is named after its machine, so finding the slot finds the machine. */
  lemma GlobalSlots(
    spec: ServiceSpec, h: RevisionHash, before: seq<Slot>, slots: seq<Slot>, machines: seq<MachineId>, m: MachineId)
    requires spec.placement.Global? && Realizes(slots, DesiredSlots(spec, machines, before), before, h)
    ensures
      var found := FindSlot(slots, "slot-" + m);
      if m in Candidates(machines) then found.Some? && found.value.machineId == m && found.value.revisionHash == h
      else found.None?
  {
    var candidates := Candidates(machines);
    var wanted := DesiredSlots(spec, machines, before);
    forall i | 0 <= i < |slots|
      ensures slots[i].machineId == candidates[i] && slots[i].slotId == "slot-" + candidates[i]
      ensures slots[i].revisionHash == h
    {
      assert RealizesSlot(slots[i], wanted[i], FindSlot(before, wanted[i].slotId), h);
    }
    FindSlotAt(slots, "slot-" + m);
    var found := FindSlot(slots, "slot-" + m);
    if found.Some? {
      var i :| 0 <= i < |slots| && slots[i] == found.value;
      SamePrefix("slot-", candidates[i], m);
    }
    if m in candidates {
      var i :| 0 <= i < |candidates| && candidates[i] == m;
      assert slots[i] in slots && slots[i].slotId == "slot-" + m;
    }
  }

  /**
   * Redeploying a global service on another machine set plans no change exactly when every
   * candidate already had a slot; slots of machines that left do not count.
   */
  lemma GlobalRedeployExact(
    spec: ServiceSpec, h: RevisionHash, before: seq<Slot>, slots: seq<Slot>,
    machines: seq<MachineId>, machines': seq<MachineId>)
    requires spec.placement.Global? && Realizes(slots, DesiredSlots(spec, machines, before), before, h)
    ensures
      var desired := DesiredSlots(spec, machines', slots);
      (forall i :: 0 <= i < |desired| ==> Keeps(FindSlot(slots, desired[i].slotId), desired[i], h)) <==>
      (forall m :: m in Candidates(machines') ==> m in Candidates(machines))
  {
    var desired, candidates := DesiredSlots(spec, machines', slots), Candidates(machines');
    forall i | 0 <= i < |candidates|
      ensures Keeps(FindSlot(slots, desired[i].slotId), desired[i], h) <==> candidates[i] in Candidates(machines)
    {
      GlobalSlots(spec, h, before, slots, machines, candidates[i]);
    }
    if forall i :: 0 <= i < |desired| ==> Keeps(FindSlot(slots, desired[i].slotId), desired[i], h) {
      forall m | m in candidates ensures m in Candidates(machines) {
        var i :| 0 <= i < |candidates| && candidates[i] == m;
        assert Keeps(FindSlot(slots, desired[i].slotId), desired[i], h);
      }
    }
  }

  /**
   * "Unchanged" speaks of the desired slots only: a redeployed global service keeps all its slots
   * exactly when no machine of the earlier run has left.
   */
  lemma GlobalKeepsSlotsExact(
    spec: ServiceSpec, h: RevisionHash, before: seq<Slot>, slots: seq<Slot>,
    machines: seq<MachineId>, machines': seq<MachineId>)
    requires spec.placement.Global? && Realizes(slots, DesiredSlots(spec, machines, before), before, h)
    ensures
      (forall s :: s in slots ==> exists d :: d in DesiredSlots(spec, machines', slots) && d.slotId == s.slotId) <==>
      (forall m :: m in Candidates(machines) ==> m in Candidates(machines'))
  {
    var had, has := Candidates(machines), Candidates(machines');
    var wanted, desired := DesiredSlots(spec, machines, before), DesiredSlots(spec, machines', slots);
    forall i | 0 <= i < |slots|
      ensures slots[i].slotId == "slot-" + had[i]
      ensures (exists d :: d in desired && d.slotId == slots[i].slotId) <==> had[i] in has
    {
      assert RealizesSlot(slots[i], wanted[i], FindSlot(before, wanted[i].slotId), h);
      if had[i] in has {
        var j :| 0 <= j < |has| && has[j] == had[i];
        assert desired[j] in desired && desired[j].slotId == slots[i].slotId;
      }
      if exists d :: d in desired && d.slotId == slots[i].slotId {
        var d :| d in desired && d.slotId == slots[i].slotId;
        var j :| 0 <= j < |desired| && desired[j] == d;
        SamePrefix("slot-", has[j], had[i]);
      }
    }
    assert forall i :: 0 <= i < |had| ==> slots[i] in slots && had[i] in had;
  }

  /** The case does occur: a preview without machine "b" changes nothing, and yet the slot there is gone. */
  lemma GlobalSlotDropped(spec: ServiceSpec, h: RevisionHash)
    requires spec.placement.Global?
    ensures
      var slots := [Slot("slot-a", "a", "i", h), Slot("slot-b", "b", "j", h)];
      var desired := DesiredSlots(spec, ["a"], slots);
      && Realizes(slots, DesiredSlots(spec, ["a", "b"], []), [], h)
      && (forall i :: 0 <= i < |desired| ==> Keeps(FindSlot(slots, desired[i].slotId), desired[i], h))
      && forall d :: d in desired ==> d.slotId != "slot-b"
  {
  }

  lemma SettledKeeps(job: Job, machines: seq<MachineId>, machines': seq<MachineId>, current: Current, spec: ServiceSpec)
    requires Settled(job.manifest, job.hash, machines, current) && spec in job.manifest.services
    requires SamePlacement(spec, machines, machines')
    ensures spec.name in current
    ensures forall i :: 0 <= i < |Wanted(job, machines', current, spec)| ==>
      Keeps(FindSlot(SlotsOf(current, spec.name), Wanted(job, machines', current, spec)[i].slotId),
            Wanted(job, machines', current, spec)[i], job.hash(spec))
    ensures current[spec.name].release.primaryRevisionHash == job.hash(spec)
  {
    assert Named(job.manifest, spec.name);
    var rec := current[spec.name];
    var slots := rec.release.slots;
    var before: seq<Slot> :| Realizes(slots, DesiredSlots(spec, machines, before), before, job.hash(spec));
    if spec.placement.Global? {
      GlobalRedeployExact(spec, job.hash(spec), before, slots, machines, machines');
    } else {
      forall i | 0 <= i < |Wanted(job, machines', current, spec)|
        ensures Keeps(FindSlot(slots, Wanted(job, machines', current, spec)[i].slotId),
                      Wanted(job, machines', current, spec)[i], job.hash(spec))
      {
        ReplicatedKeeps(spec, job.hash(spec), before, slots, machines, machines', i);
      }
    }
  }

  // ---------------------------------------------------------------------------
  // The whole manifest
  // ---------------------------------------------------------------------------

  /** After a committed run a preview of the same manifest plans no change of any kind. */
  lemma SettledPreviewIsUnchanged(
    job: Job, machines: seq<MachineId>, machines': seq<MachineId>, current: Current, p: DeployPreview)
    requires Settled(job.manifest, job.hash, machines, current)
    requires IsPreview(p, job.manifest, machines', current, job.hash)
    requires forall spec :: spec in job.manifest.services ==> SamePlacement(spec, machines, machines')
    ensures |p.services| == |job.manifest.services|
    ensures forall i :: 0 <= i < |p.services| ==>
      p.services[i].action == Unchanged && forall s :: s in p.services[i].slots ==> s.action == Unchanged
  {
    hide Settled, Participants, PlanService;
    var n := |job.manifest.services|;
    forall s ensures s !in RemovedServices(job.manifest, current) { SettledNames(job, machines, current, s); }
    NoRemovals(p.services[n..], RemovedServices(job.manifest, current), current);
    forall i | 0 <= i < n
      ensures p.services[i].action == Unchanged && forall s :: s in p.services[i].slots ==> s.action == Unchanged
    {
      SettledServiceUnchanged(job, machines, machines', current, job.manifest.services[i]);
    }
  }

  lemma NoRemovals(plans: seq<ServicePlan>, services: set<string>, current: Current)
    requires services <= current.Keys && RemovesEach(plans, services, current)
    ensures services == {} ==> plans == []
  {
    assert plans == [] || plans[0].service in services;
  }

  lemma SettledNames(job: Job, machines: seq<MachineId>, current: Current, s: string)
    requires Settled(job.manifest, job.hash, machines, current)
    ensures s in current <==> Named(job.manifest, s)
  {
  }

  lemma SettledServiceUnchanged(
    job: Job, machines: seq<MachineId>, machines': seq<MachineId>, current: Current, spec: ServiceSpec)
    requires Settled(job.manifest, job.hash, machines, current) && spec in job.manifest.services
    requires SamePlacement(spec, machines, machines')
    ensures
      var plan := PlanService(spec, machines', current, job.hash);
      plan.action == Unchanged && forall s :: s in plan.slots ==> s.action == Unchanged
  {
    hide Settled, Keeps, DesiredSlots, ServiceAction, PlanSlots;
    SettledKeeps(job, machines, machines', current, spec);
    var slots := SlotsOf(current, spec.name);
    var desired := Wanted(job, machines', current, spec);
    KeptSlotsUnchanged(desired, slots, job.hash(spec));
    UnchangedService(current, spec.name, PlanSlots(desired, slots, job.hash(spec)), job.hash(spec));
  }

  lemma KeptSlotsUnchanged(desired: seq<DesiredSlot>, slots: seq<Slot>, h: RevisionHash)
    requires forall i :: 0 <= i < |desired| ==> Keeps(FindSlot(slots, desired[i].slotId), desired[i], h)
    ensures forall p :: p in PlanSlots(desired, slots, h) ==> p.action == Unchanged
  {
  }

  lemma UnchangedService(current: Current, service: string, plans: seq<SlotPlan>, h: RevisionHash)
    requires (forall p :: p in plans ==> p.action == Unchanged) && PrimaryHash(current, service) == Some(h)
    ensures ServiceAction(current, service, plans, h) == Unchanged
  {
  }

  lemma {:induction false} KeptSlotsStartNothing(
    service: string, desired: seq<DesiredSlot>, n: nat, current: seq<Slot>, h: RevisionHash)
    requires n <= |desired| && forall i :: 0 <= i < n ==> Keeps(FindSlot(current, desired[i].slotId), desired[i], h)
    ensures StartActions(service, desired, n, current, h) == []
  {
    if n > 0 { KeptSlotsStartNothing(service, desired, n - 1, current, h); }
  }

  lemma {:induction false} SettledStartsNothing(
    job: Job, machines: seq<MachineId>, machines': seq<MachineId>, current: Current, n: nat)
    requires Settled(job.manifest, job.hash, machines, current) && n <= |job.manifest.services|
    requires forall spec :: spec in job.manifest.services ==> SamePlacement(spec, machines, machines')
    ensures AllStarts(job, machines', current, n) == []
  {
    hide Settled, Keeps, DesiredSlots, SlotsOf;
    if n > 0 {
      SettledStartsNothing(job, machines, machines', current, n - 1);
      var spec := job.manifest.services[n - 1];
      SettledKeeps(job, machines, machines', current, spec);
      var desired := Wanted(job, machines', current, spec);
      KeptSlotsStartNothing(spec.name, desired, |desired|, SlotsOf(current, spec.name), job.hash(spec));
    }
  }

  /** Redeploying a committed manifest over the state its run left plans no start. */
  lemma RedeployStartsNothing(
    job: Job, h: seq<StoreView>, from: nat, c: nat, recs: seq<ReleaseRecord>, removed: seq<string>, again: Job)
    requires CommitsAt(job, h, from, c, recs, removed) && DistinctNames(job.manifest.services) && Keyed(h[from - 1])
    requires again.manifest == job.manifest && again.hash == job.hash
    requires SamePlacements(job, again)
    ensures RunStarts(again, h, |h|) == []
  {
    hide CommitsAt, DistinctNames, Keyed, Settled, SamePlacement, RunMachines, AllStarts;
    CommitInHistory(job, h, from, c, recs, removed);
    CommitSettles(job, h, from, c, recs, removed, |h| - 1);
    SettledStartsNothing(
      again, RunMachines(job), RunMachines(again), CurrentAt(again, h, |h|), |again.manifest.services|);
  }

  /** And a preview of it plans no change and no removal. */
  lemma RedeployPreviewIsUnchanged(
    job: Job, h: seq<StoreView>, from: nat, c: nat, recs: seq<ReleaseRecord>, removed: seq<string>,
    again: Job, p: DeployPreview)
    requires CommitsAt(job, h, from, c, recs, removed) && DistinctNames(job.manifest.services) && Keyed(h[from - 1])
    requires again.manifest == job.manifest && again.hash == job.hash
    requires SamePlacements(job, again)
    requires IsPreview(p, again.manifest, RunMachines(again), CurrentAt(again, h, |h|), again.hash)
    ensures |p.services| == |job.manifest.services|
    ensures forall i :: 0 <= i < |p.services| ==>
      p.services[i].action == Unchanged && forall s :: s in p.services[i].slots ==> s.action == Unchanged
  {
    hide CommitsAt, DistinctNames, Keyed, Settled, SamePlacement, RunMachines, IsPreview;
    CommitInHistory(job, h, from, c, recs, removed);
    CommitSettles(job, h, from, c, recs, removed, |h| - 1);
    SettledPreviewIsUnchanged(again, RunMachines(job), RunMachines(again), CurrentAt(again, h, |h|), p);
  }

  predicate Starts(actions: seq<Action>) {
    exists i :: 0 <= i < |actions| && actions[i].Start?
  }

  lemma NoStarts(actions: seq<Action>, active: set<InstanceId>)
    requires OnlyLocks(actions) || CommittedActions(actions, [], active)
    ensures !Starts(actions)
  {
    if OnlyLocks(actions) {
      assert forall i :: 0 <= i < |actions| ==> actions[i] in actions;
    } else {
      var locks, tail :| OnlyLocks(locks) && actions == locks + [] + tail && TailActions(tail, active);
      forall i | 0 <= i < |actions| ensures !actions[i].Start? {
        if i < |locks| {
          assert actions[i] in locks;
        } else if i > |locks| {
          assert actions[i] == tail[1..][i - |locks| - 1] && actions[i] in tail[1..];
        }
      }
    }
  }

  /**
   * A deploy followed by the same deploy on a store nobody else writes to: once the first has
   * committed, the second starts no instance, however it ends. Each succeeds when nothing hinders it.
   */
  method DeployTwice(run: Run, rerun: Run)
    returns (
      first: Result<DeployState, Failure>, second: Result<DeployState, Failure>,
      ghost middle: seq<StoreView>, ghost c: Option<nat>, ghost recs: seq<ReleaseRecord>, ghost removed: seq<string>)
    requires run != rerun && run.store == rerun.store && run.store.Valid()
    requires run.sessions == rerun.sessions == {} && run.actions == rerun.actions == []
    requires rerun.job.manifest == run.job.manifest && rerun.job.hash == run.job.hash
    modifies run, rerun, run.store
    ensures run.store.Valid() && |old(run.store.history)| > 0 && old(run.store.history) <= middle <= run.store.history
    ensures first.Ok? ==> c.Some?
    ensures c.Some? ==> CommitsAt(run.job, middle, |old(run.store.history)|, c.value, recs, removed)
    ensures c.Some? ==> CommittedActions(
      run.actions, RunStarts(run.job, middle, |old(run.store.history)|), ActiveIds(recs))
    ensures c.None? ==> middle[|middle| - 1].releases == old(run.store.releases)
    ensures c.Some? && SamePlacements(run.job, rerun.job) ==> !Starts(rerun.actions)
    ensures Smooth(run.job, CurrentAt(run.job, middle, |old(run.store.history)|)) ==> first.Ok?
    ensures Smooth(rerun.job, CurrentAt(rerun.job, middle, |middle|)) ==> second.Ok?
  {
    hide CommitsAt, CommittedActions, RunStarts, OnlyLocks, Keyed, ValidManifest, SamePlacements, RunMachines,
         Smooth, ByService, Starts, Unspent, CandidatesRun, Tidy, Locked, RunParticipants, CleansUp, Run.Recorded;
    var store := run.store;
    ghost var from := |store.history|;
    ghost var v := store.View();
    first, c, recs, removed := run.Apply();
    middle := store.history;
    assert middle[from - 1] == v && middle[|middle| - 1] == store.View();
    RunStartsStill(run.job, old(store.history), middle, from);
    ghost var recommitted, recs', removed';
    second, recommitted, recs', removed' := rerun.Apply();
    if c.Some? && SamePlacements(run.job, rerun.job) {
      ValidManifestDistinct(run.job.manifest);
      RedeployStartsNothing(run.job, middle, from, c.value, recs, removed, rerun.job);
      NoStarts(rerun.actions, if recommitted.Some? then ActiveIds(recs') else {});
    }
  }
}
