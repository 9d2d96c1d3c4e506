/** What every run of `apply` keeps, over every manifest, store and fault pattern. */
module RolloutTheorems {
  import opened Model
  import opened Placement
  import opened Planner
  import opened QuietWrites
  import opened RolloutTrace
  import opened Routes
  import opened RoutingTheorems
  import opened Store

  // ---------------------------------------------------------------------------
  // Before the commit
  // ---------------------------------------------------------------------------

  /** A stored revision with the hash of one of the manifest's specs is that spec. */
  ghost predicate NoCollision(job: Job, revisions: map<RevisionKey, RevisionRecord>) {
    forall spec :: spec in job.manifest.services && RevisionKeyFor(job, spec) in revisions ==>
      revisions[RevisionKeyFor(job, spec)].specJson == Json(spec)
  }

  /** Containers labelled with this namespace have no record under another. */
  ghost predicate OwnIds(job: Job, instances: map<InstanceId, InstanceStatus>) {
    forall m, a :: a in job.env.opens(m).running && a.instanceId in instances ==>
      instances[a.instanceId].namespace == job.manifest.namespace
  }

  /** Releases resolve, hashes do not collide, and the run's instance ids are new. */
  ghost predicate Clean(job: Job, v: StoreView) {
    && Keyed(v) && Integrity(v)
    && NoCollision(job, v.revisions)
    && OwnIds(job, v.instances)
    && forall i: nat :: !Referenced(v, job.env.ids(i))
  }

  ghost predicate DistinctNames(specs: seq<ServiceSpec>) {
    forall i, j :: 0 <= i < j < |specs| ==> specs[i].name != specs[j].name
  }

  lemma ValidManifestDistinct(manifest: DeployManifest)
    requires ValidManifest(manifest)
    ensures DistinctNames(manifest.services)
  {
  }

  lemma SameNameSameSpec(specs: seq<ServiceSpec>, a: ServiceSpec, b: ServiceSpec)
    requires DistinctNames(specs) && a in specs && b in specs && a.name == b.name
    ensures a == b
  {
  }

  /** No single pre-commit write is noticed, and each leaves the store clean. */
  lemma PreStepIsQuiet(job: Job, v: StoreView, w: StoreView)
    requires PreStep(job, v, w) && Clean(job, v) && DistinctNames(job.manifest.services)
    ensures SameRouting(v, w) && Clean(job, w)
  {
    var x :| Writes(job, x, v, w);
    match x
    case RevisionWrite(spec) =>
      RevisionWriteIsQuiet(v, RevisionFor(job, spec));
      forall other | other in job.manifest.services && RevisionKeyFor(job, other) == RevisionKeyFor(job, spec)
        ensures other == spec
      {
        SameNameSameSpec(job.manifest.services, other, spec);
      }
      CleanAfterRevision(job, v, w, spec);
    case CandidateWrite(status, index) =>
      CandidateWriteIsQuiet(v, status);
      CleanAfterStatus(job, v, w, status);
    case AdoptionWrite(found, machine) =>
      AdoptionIsQuiet(v, AdoptedStatus(job.manifest.namespace, found));
      CleanAfterStatus(job, v, w, AdoptedStatus(job.manifest.namespace, found));
  }

  lemma SameReleasesReferenced(job: Job, v: StoreView, w: StoreView)
    requires v.releases == w.releases && forall i: nat :: !Referenced(v, job.env.ids(i))
    ensures forall i: nat :: !Referenced(w, job.env.ids(i))
  {
    forall i: nat ensures !Referenced(w, job.env.ids(i)) {
      assert !Referenced(v, job.env.ids(i));
    }
  }

  lemma CleanAfterRevision(job: Job, v: StoreView, w: StoreView, spec: ServiceSpec)
    requires Clean(job, v) && spec in job.manifest.services
    requires w == v.(revisions := v.revisions[RevisionKeyFor(job, spec) := RevisionFor(job, spec)])
    requires forall other ::
      other in job.manifest.services && RevisionKeyFor(job, other) == RevisionKeyFor(job, spec) ==> other == spec
    ensures Clean(job, w)
  {
    hide Referenced;
    SameReleasesReferenced(job, v, w);
  }

  lemma CleanAfterStatus(job: Job, v: StoreView, w: StoreView, status: InstanceStatus)
    requires Clean(job, v) && status.namespace == job.manifest.namespace
    requires w == v.(instances := v.instances[status.instanceId := status])
    ensures Clean(job, w)
  {
    hide Referenced;
    SameReleasesReferenced(job, v, w);
  }

  lemma {:induction false} PreStepsAreQuiet(job: Job, h: seq<StoreView>, from: nat, i: nat)
    requires 0 < from <= |h| && PreSteps(job, h, from) && from - 1 <= i < |h|
    requires Clean(job, h[from - 1]) && DistinctNames(job.manifest.services)
    ensures SameRouting(h[from - 1], h[i]) && Clean(job, h[i])
    decreases i
  {
    hide Clean, SameRouting, PreStep;
    if i == from - 1 {
      SameRoutingReflexive(h[i]);
    } else {
      PreStepsAreQuiet(job, h, from, i - 1);
      PreStepIsQuiet(job, h[i - 1], h[i]);
      SameRoutingTransitive(h[from - 1], h[i - 1], h[i]);
    }
  }

  // ---------------------------------------------------------------------------
  // The commit
  // ---------------------------------------------------------------------------

  lemma DistinctReleaseKeys(job: Job, machines: seq<MachineId>, current: Current, recs: seq<ReleaseRecord>)
    requires ReleasesFor(job, machines, current, recs) && DistinctNames(job.manifest.services)
    ensures forall i, j :: 0 <= i < j < |recs| ==> ReleaseKeyOf(recs[i]) != ReleaseKeyOf(recs[j])
  {
    forall i, j | 0 <= i < j < |recs| ensures ReleaseKeyOf(recs[i]) != ReleaseKeyOf(recs[j]) {
      assert ReleaseFor(job, machines, current, job.manifest.services[i], recs[i]);
      assert ReleaseFor(job, machines, current, job.manifest.services[j], recs[j]);
    }
  }

  /** After the commit the namespace holds exactly the new releases; other namespaces are as before. */
  lemma CommittedAt(
    job: Job, releases: map<ReleaseKey, ReleaseRecord>, machines: seq<MachineId>, recs: seq<ReleaseRecord>,
    removed: seq<string>, k: ReleaseKey)
    requires DistinctNames(job.manifest.services)
    requires ReleasesFor(job, machines, ByService(releases, job.manifest.namespace), recs)
    requires RemovesExactly(removed, job.manifest, ByService(releases, job.manifest.namespace))
    ensures
      var after := AfterCommit(releases, CommitFor(job, recs, removed));
      if k.0 == job.manifest.namespace then
        && (k in after <==> exists r :: r in recs && ReleaseKeyOf(r) == k)
        && (forall r :: r in recs && ReleaseKeyOf(r) == k ==> after[k] == r)
      else (k in after <==> k in releases) && (k in releases ==> after[k] == releases[k])
  {
    var ns := job.manifest.namespace;
    var commit := CommitFor(job, recs, removed);
    DistinctReleaseKeys(job, machines, ByService(releases, ns), recs);
    InsertAllAt(Untouched(releases, commit), recs, k);
    if k.0 == ns {
      if k in releases { EveryServiceTouched(job, releases, machines, recs, removed, k); }
    } else {
      forall r | r in recs ensures r.namespace == ns {
        ReleasedInNamespace(job, machines, ByService(releases, ns), recs, r);
      }
    }
  }

  lemma ReleasedInNamespace(
    job: Job, machines: seq<MachineId>, current: Current, recs: seq<ReleaseRecord>, r: ReleaseRecord)
    requires ReleasesFor(job, machines, current, recs) && r in recs
    ensures r.namespace == job.manifest.namespace
    ensures exists spec :: spec in job.manifest.services && ReleaseFor(job, machines, current, spec, r)
  {
    var i :| 0 <= i < |recs| && recs[i] == r;
    assert ReleaseFor(job, machines, current, job.manifest.services[i], recs[i]);
    assert job.manifest.services[i] in job.manifest.services;
  }

  lemma EveryServiceTouched(
    job: Job, releases: map<ReleaseKey, ReleaseRecord>, machines: seq<MachineId>, recs: seq<ReleaseRecord>,
    removed: seq<string>, k: ReleaseKey)
    requires ReleasesFor(job, machines, ByService(releases, job.manifest.namespace), recs)
    requires RemovesExactly(removed, job.manifest, ByService(releases, job.manifest.namespace))
    requires k in releases && k.0 == job.manifest.namespace
    ensures Touches(CommitFor(job, recs, removed), k)
  {
    var current := ByService(releases, job.manifest.namespace);
    assert k.1 in current;
    if Named(job.manifest, k.1) {
      var spec :| spec in job.manifest.services && spec.name == k.1;
      var i :| 0 <= i < |job.manifest.services| && job.manifest.services[i] == spec;
      assert ReleaseFor(job, machines, current, job.manifest.services[i], recs[i]);
      assert recs[i] in recs && recs[i].service == k.1;
    } else {
      assert k.1 in RemovedServices(job.manifest, current);
    }
  }

  // ---------------------------------------------------------------------------
  // After the commit
  // ---------------------------------------------------------------------------

  /** Every instance that a release of `ns` names is in `active`. */
  ghost predicate Covers(v: StoreView, ns: Namespace, active: set<InstanceId>) {
    forall k, slot :: k in v.releases && k.0 == ns && slot in v.releases[k].release.slots ==>
      slot.activeInstanceId in active
  }

  lemma CommitCovers(
    job: Job, v: StoreView, machines: seq<MachineId>, recs: seq<ReleaseRecord>, removed: seq<string>)
    requires DistinctNames(job.manifest.services)
    requires ReleasesFor(job, machines, ByService(v.releases, job.manifest.namespace), recs)
    requires RemovesExactly(removed, job.manifest, ByService(v.releases, job.manifest.namespace))
    ensures
      var after := AfterCommit(v.releases, CommitFor(job, recs, removed));
      Covers(v.(releases := after), job.manifest.namespace, ActiveIds(recs))
  {
    var after := AfterCommit(v.releases, CommitFor(job, recs, removed));
    forall k, slot | k in after && k.0 == job.manifest.namespace && slot in after[k].release.slots
      ensures slot.activeInstanceId in ActiveIds(recs)
    {
      CommittedAt(job, v.releases, machines, recs, removed, k);
      var r :| r in recs && ReleaseKeyOf(r) == k;
      assert after[k] == r;
    }
  }

  lemma CleanupStepIsQuiet(ns: Namespace, active: set<InstanceId>, v: StoreView, w: StoreView)
    requires CleanupStep(ns, active, v, w) && Keyed(v) && Covers(v, ns, active)
    ensures SameRouting(v, w) && Keyed(w) && Covers(w, ns, active)
    ensures v.revisions == w.revisions && v.releases == w.releases
    ensures forall id :: id in active ==> (id in v.instances <==> id in w.instances)
    ensures forall id :: id in active && id in v.instances ==> v.instances[id] == w.instances[id]
  {
    var id, next: Option<InstanceStatus> :| Retires(ns, active, id, next, v, w);
    CleanupIsQuiet(v, ns, id, next);
  }

  /** The record of `id` is the same in both views. */
  predicate SameStatus(v: StoreView, w: StoreView, id: InstanceId) {
    (id in v.instances <==> id in w.instances) && (id in v.instances ==> v.instances[id] == w.instances[id])
  }

  lemma {:induction false} CleanupStepsAreQuiet(
    ns: Namespace, active: set<InstanceId>, h: seq<StoreView>, c: nat, i: nat)
    requires CleanupSteps(ns, active, h, c + 1) && c <= i < |h| && Keyed(h[c]) && Covers(h[c], ns, active)
    ensures SameRouting(h[c], h[i]) && Keyed(h[i]) && Covers(h[i], ns, active)
    ensures h[i].revisions == h[c].revisions && h[i].releases == h[c].releases
    ensures forall id :: id in active ==> SameStatus(h[c], h[i], id)
  {
    hide SameRouting, Covers, CleanupStep;
    if i == c {
      SameRoutingReflexive(h[c]);
    } else {
      CleanupStepsAreQuiet(ns, active, h, c, i - 1);
      CleanupStepIsQuiet(ns, active, h[i - 1], h[i]);
      SameRoutingTransitive(h[c], h[i - 1], h[i]);
    }
  }

  // ---------------------------------------------------------------------------
  // Whole runs
  // ---------------------------------------------------------------------------

  lemma {:induction false} PreStepsKeepKeys(job: Job, h: seq<StoreView>, from: nat, i: nat)
    requires 0 < from <= |h| && PreSteps(job, h, from) && from - 1 <= i < |h| && Keyed(h[from - 1])
    ensures Keyed(h[i]) && h[i].releases == h[from - 1].releases && h[from - 1].revisions.Keys <= h[i].revisions.Keys
    decreases i
  {
    if i >= from {
      PreStepsKeepKeys(job, h, from, i - 1);
      assert PreStep(job, h[i - 1], h[i]);
    }
  }

  lemma CommitKeepsKeys(
    job: Job, v: StoreView, machines: seq<MachineId>, recs: seq<ReleaseRecord>, removed: seq<string>)
    requires DistinctNames(job.manifest.services) && Keyed(v)
    requires ReleasesFor(job, machines, ByService(v.releases, job.manifest.namespace), recs)
    requires RemovesExactly(removed, job.manifest, ByService(v.releases, job.manifest.namespace))
    ensures Keyed(v.(releases := AfterCommit(v.releases, CommitFor(job, recs, removed))))
  {
    hide ReleasesFor, RemovesExactly, ByService;
    var after := AfterCommit(v.releases, CommitFor(job, recs, removed));
    forall k | k in after ensures ReleaseKeyOf(after[k]) == k {
      CommittedAt(job, v.releases, machines, recs, removed, k);
    }
  }

  lemma CommitPoint(job: Job, h: seq<StoreView>, from: nat, c: nat, recs: seq<ReleaseRecord>, removed: seq<string>)
    requires CommitsAt(job, h, from, c, recs, removed) && DistinctNames(job.manifest.services) && Keyed(h[from - 1])
    ensures Keyed(h[c - 1]) && Keyed(h[c]) && Covers(h[c], job.manifest.namespace, ActiveIds(recs))
    ensures h[c - 1].releases == h[from - 1].releases
  {
    hide ReleasesFor, RemovesExactly, ByService, Covers, Keyed, PreStep, RevisionsStored, AfterCommit, RunMachines,
         CleanupStep;
    PreStepsKeepKeys(job, h[..c], from, c - 1);
    CommitCovers(job, h[c - 1], RunMachines(job), recs, removed);
    CommitKeepsKeys(job, h[c - 1], RunMachines(job), recs, removed);
  }

  /**
   * Routing moves only at the commit: every store state before it routes as the first one did, and
   * every store state from it on routes as the committed one does.
   */
  lemma RoutingMovesOnlyAtCommit(
    job: Job, h: seq<StoreView>, from: nat, c: nat, recs: seq<ReleaseRecord>, removed: seq<string>, i: nat)
    requires CommitsAt(job, h, from, c, recs, removed) && DistinctNames(job.manifest.services)
    requires Clean(job, h[from - 1]) && from - 1 <= i < |h|
    ensures Keyed(h[i]) && SameRouting(if i < c then h[from - 1] else h[c], h[i])
  {
    hide SameRouting, Covers, CleanupStep, PreStep, Keyed, ReleasesFor, RemovesExactly, RevisionsStored;
    CleanIsKeyed(job, h[from - 1]);
    if i < c {
      PreStepsAreQuiet(job, h[..c], from, i);
      CleanIsKeyed(job, h[i]);
    } else {
      CommitPoint(job, h, from, c, recs, removed);
      CleanupStepsAreQuiet(job.manifest.namespace, ActiveIds(recs), h, c, i);
    }
  }

  lemma CleanIsKeyed(job: Job, v: StoreView)
    requires Clean(job, v)
    ensures Keyed(v)
  {
  }

  /** The same in terms of what clients observe, for any listings of the states involved. */
  lemma AnswersMoveOnlyAtCommit(
    job: Job, h: seq<StoreView>, from: nat, c: nat, recs: seq<ReleaseRecord>, removed: seq<string>, i: nat,
    s: RoutingState, t: RoutingState)
    requires CommitsAt(job, h, from, c, recs, removed) && DistinctNames(job.manifest.services)
    requires Clean(job, h[from - 1]) && from - 1 <= i < |h|
    requires ListsView(s, if i < c then h[from - 1] else h[c]) && ListsView(t, h[i])
    ensures SameAnswers(s, t)
  {
    hide SameRouting, Keyed, ReadyToCommit, CleanupSteps, Clean, SameAnswers, ListsView;
    RoutingMovesOnlyAtCommit(job, h, from, c, recs, removed, i);
    RoutingMovesOnlyAtCommit(job, h, from, c, recs, removed, if i < c then from - 1 else c);
    SameRoutingSameAnswers(if i < c then h[from - 1] else h[c], h[i], s, t);
  }

  /** A run that never commits is never noticed. */
  lemma UncommittedRunIsInvisible(job: Job, h: seq<StoreView>, from: nat, i: nat, s: RoutingState, t: RoutingState)
    requires 0 < from <= |h| && PreSteps(job, h, from) && from - 1 <= i < |h|
    requires Clean(job, h[from - 1]) && DistinctNames(job.manifest.services)
    requires ListsView(s, h[from - 1]) && ListsView(t, h[i])
    ensures SameAnswers(s, t)
  {
    hide SameRouting, Keyed, PreStep, SameAnswers, ListsView;
    PreStepsAreQuiet(job, h, from, i);
    CleanIsKeyed(job, h[from - 1]);
    CleanIsKeyed(job, h[i]);
    SameRoutingSameAnswers(h[from - 1], h[i], s, t);
  }

  // ---------------------------------------------------------------------------
  // Referential integrity
  // ---------------------------------------------------------------------------

  lemma CommitKeepsIntegrity(
    job: Job, v: StoreView, machines: seq<MachineId>, recs: seq<ReleaseRecord>, removed: seq<string>)
    requires DistinctNames(job.manifest.services) && Integrity(v)
    requires ReleasesFor(job, machines, ByService(v.releases, job.manifest.namespace), recs)
    requires RemovesExactly(removed, job.manifest, ByService(v.releases, job.manifest.namespace))
    requires RevisionsStored(job, v.revisions.Keys, |job.manifest.services|)
    ensures Integrity(v.(releases := AfterCommit(v.releases, CommitFor(job, recs, removed))))
  {
    hide ReleasesFor, RemovesExactly, ByService;
    var after := AfterCommit(v.releases, CommitFor(job, recs, removed));
    forall k | k in after ensures RoutingRevisionKey(after[k]) in v.revisions {
      CommittedAt(job, v.releases, machines, recs, removed, k);
      if k.0 == job.manifest.namespace {
        var r :| r in recs && ReleaseKeyOf(r) == k;
        ReleasedInNamespace(job, machines, ByService(v.releases, job.manifest.namespace), recs, r);
        var spec :| spec in job.manifest.services &&
          ReleaseFor(job, machines, ByService(v.releases, job.manifest.namespace), spec, r);
        assert RoutingRevisionKey(r) == RevisionKeyFor(job, spec);
        var i :| 0 <= i < |job.manifest.services| && job.manifest.services[i] == spec;
      }
    }
  }

  /** At every store state of every committed run each release's routing revision is stored. */
  lemma IntegrityThroughout(
    job: Job, h: seq<StoreView>, from: nat, c: nat, recs: seq<ReleaseRecord>, removed: seq<string>, i: nat)
    requires CommitsAt(job, h, from, c, recs, removed) && DistinctNames(job.manifest.services)
    requires Keyed(h[from - 1]) && Integrity(h[from - 1]) && from - 1 <= i < |h|
    ensures Keyed(h[i]) && Integrity(h[i])
  {
    hide ReleasesFor, RemovesExactly, ByService, Covers, Keyed, PreStep, RevisionsStored, AfterCommit, RunMachines,
         CleanupStep;
    PreStepsKeepKeys(job, h[..c], from, if i < c then i else c - 1);
    if i >= c {
      CommitPoint(job, h, from, c, recs, removed);
      CommitKeepsIntegrity(job, h[c - 1], RunMachines(job), recs, removed);
      CleanupStepsAreQuiet(job.manifest.namespace, ActiveIds(recs), h, c, i);
    }
  }

  lemma IntegrityOfUncommitted(job: Job, h: seq<StoreView>, from: nat, i: nat)
    requires 0 < from <= |h| && PreSteps(job, h, from) && from - 1 <= i < |h|
    requires Keyed(h[from - 1]) && Integrity(h[from - 1])
    ensures Keyed(h[i]) && Integrity(h[i])
  {
    PreStepsKeepKeys(job, h, from, i);
  }

  /** So no reader of any state of the run is told that a revision is missing. */
  lemma NoMissingRevision(
    job: Job, h: seq<StoreView>, from: nat, c: nat, recs: seq<ReleaseRecord>, removed: seq<string>, i: nat,
    state: RoutingState, error: ProjectionError)
    requires CommitsAt(job, h, from, c, recs, removed) && DistinctNames(job.manifest.services)
    requires Keyed(h[from - 1]) && Integrity(h[from - 1]) && from - 1 <= i < |h|
    requires ListsView(state, h[i]) && Explains(state, error)
    ensures !error.MissingRevision?
  {
    IntegrityThroughout(job, h, from, c, recs, removed, i);
    IntegrityNeverMissing(h[i], state, error);
  }

  // ---------------------------------------------------------------------------
  // Cleanup never touches what was committed
  // ---------------------------------------------------------------------------

  lemma ActionPhases(locks: seq<Action>, starts: seq<Action>, tail: seq<Action>, active: set<InstanceId>, i: nat)
    requires OnlyLocks(locks) && TailActions(tail, active) && (forall a :: a in starts ==> a.Start?)
    requires i < |locks + starts + tail|
    ensures
      var actions, n := locks + starts + tail, |locks + starts|;
      && (i < n ==> actions[i].Lock? || actions[i].Start?)
      && (i >= n ==> actions[n] == CommitDone)
      && (i > n ==> (actions[i].Drain? || actions[i].RemoveInstance?) && actions[i].id !in active)
  {
    var actions, n := locks + starts + tail, |locks + starts|;
    if i < |locks| {
      assert actions[i] in locks;
    } else if i < n {
      assert actions[i] == starts[i - |locks|] && actions[i] in starts;
    } else if i > n {
      assert actions[i] == tail[1..][i - n - 1] && actions[i] in tail[1..];
    }
  }

  /** Drains and removals come after the acknowledged commit and spare every active instance. */
  lemma CleanupComesAfterCommit(actions: seq<Action>, starts: seq<Action>, active: set<InstanceId>, i: nat)
    requires CommittedActions(actions, starts, active) && i < |actions|
    requires actions[i].Drain? || actions[i].RemoveInstance?
    requires forall a :: a in starts ==> a.Start?
    ensures actions[i].id !in active
    ensures exists j :: 0 <= j < i && actions[j] == CommitDone
  {
    var locks, tail :| OnlyLocks(locks) && actions == locks + starts + tail && TailActions(tail, active);
    ActionPhases(locks, starts, tail, active, i);
    assert actions[|locks + starts|] == CommitDone;
  }

  lemma {:induction false} StartActionsStart(
    service: string, desired: seq<DesiredSlot>, n: nat, current: seq<Slot>, h: RevisionHash)
    requires n <= |desired|
    ensures forall a :: a in StartActions(service, desired, n, current, h) ==> a.Start?
  {
    if n > 0 { StartActionsStart(service, desired, n - 1, current, h); }
  }

  lemma {:induction false} AllStartsStart(job: Job, machines: seq<MachineId>, current: Current, n: nat)
    requires n <= |job.manifest.services|
    ensures forall a :: a in AllStarts(job, machines, current, n) ==> a.Start?
  {
    if n > 0 {
      AllStartsStart(job, machines, current, n - 1);
      var spec := job.manifest.services[n - 1];
      var desired := Wanted(job, machines, current, spec);
      StartActionsStart(spec.name, desired, |desired|, SlotsOf(current, spec.name), job.hash(spec));
    }
  }

  /** From the commit on, the records of committed active instances do not change. */
  lemma ActiveInstancesUntouched(
    job: Job, h: seq<StoreView>, from: nat, c: nat, recs: seq<ReleaseRecord>, removed: seq<string>, i: nat,
    id: InstanceId)
    requires CommitsAt(job, h, from, c, recs, removed) && DistinctNames(job.manifest.services) && Keyed(h[from - 1])
    requires c <= i < |h| && id in ActiveIds(recs)
    ensures SameStatus(h[c], h[i], id)
  {
    CommitPoint(job, h, from, c, recs, removed);
    CleanupStepsAreQuiet(job.manifest.namespace, ActiveIds(recs), h, c, i);
  }

  // ---------------------------------------------------------------------------
  // The preview tells which candidates start
  // ---------------------------------------------------------------------------

  /** The starts that the first `n` slot plans of a service call for. */
  function PlannedStarts(plan: ServicePlan, n: nat): seq<Action>
    requires n <= |plan.slots|
  {
    if n == 0 then []
    else
      var p := plan.slots[n - 1];
      PlannedStarts(plan, n - 1) +
      if p.action == Create || p.action == Replace then [Start(p.machineId, plan.service, p.slotId)] else []
  }

  /** `apply` starts candidates for exactly the slots that a preview marks Create or Replace. */
  lemma {:induction false} StartsAreCreateOrReplace(
    job: Job, machines: seq<MachineId>, current: Current, spec: ServiceSpec, n: nat)
    requires n <= |Wanted(job, machines, current, spec)|
    ensures
      var plan := PlanService(spec, machines, current, job.hash);
      && |plan.slots| == |Wanted(job, machines, current, spec)|
      && PlannedStarts(plan, n) ==
         StartActions(spec.name, Wanted(job, machines, current, spec), n, SlotsOf(current, spec.name), job.hash(spec))
  {
    if n > 0 { StartsAreCreateOrReplace(job, machines, current, spec, n - 1); }
  }

  /** The starts that the first `n` service plans of a preview call for. */
  function PreviewStarts(plans: seq<ServicePlan>, n: nat): seq<Action>
    requires n <= |plans|
  {
    if n == 0 then [] else PreviewStarts(plans, n - 1) + PlannedStarts(plans[n - 1], |plans[n - 1].slots|)
  }

  lemma {:induction false} RemovalStartsNothing(plan: ServicePlan, n: nat)
    requires n <= |plan.slots| && forall s :: s in plan.slots ==> s.action == Remove
    ensures PlannedStarts(plan, n) == []
  {
    if n > 0 {
      assert plan.slots[n - 1] in plan.slots;
      RemovalStartsNothing(plan, n - 1);
    }
  }

  lemma ServicePlanStarts(job: Job, machines: seq<MachineId>, current: Current, p: DeployPreview, n: nat)
    requires IsPreview(p, job.manifest, machines, current, job.hash) && n < |job.manifest.services|
    ensures PlannedStarts(p.services[n], |p.services[n].slots|) ==
      ServiceStarts(job, machines, current, job.manifest.services[n])
  {
    hide Participants, RemovesEach, PlanService, DesiredSlots, StartActions, PlannedStarts;
    var spec := job.manifest.services[n];
    StartsAreCreateOrReplace(job, machines, current, spec, |Wanted(job, machines, current, spec)|);
  }

  lemma RemovalPlanStarts(job: Job, machines: seq<MachineId>, current: Current, p: DeployPreview, n: nat)
    requires IsPreview(p, job.manifest, machines, current, job.hash) && |job.manifest.services| <= n < |p.services|
    ensures PlannedStarts(p.services[n], |p.services[n].slots|) == []
  {
    hide Participants, PlanService, RemovedServices;
    var known := |job.manifest.services|;
    assert p.services[n] == p.services[known..][n - known];
    RemovalStartsNothing(p.services[n], |p.services[n].slots|);
  }

  lemma {:induction false} PreviewStartsUpTo(
    job: Job, machines: seq<MachineId>, current: Current, p: DeployPreview, n: nat)
    requires IsPreview(p, job.manifest, machines, current, job.hash) && n <= |p.services|
    ensures PreviewStarts(p.services, n) ==
      AllStarts(job, machines, current, if n < |job.manifest.services| then n else |job.manifest.services|)
  {
    hide IsPreview, PlannedStarts, ServiceStarts;
    if n > 0 {
      PreviewStartsUpTo(job, machines, current, p, n - 1);
      if n <= |job.manifest.services| {
        ServicePlanStarts(job, machines, current, p, n - 1);
      } else {
        RemovalPlanStarts(job, machines, current, p, n - 1);
      }
    }
  }

  /** A run that commits has started exactly what a preview made with its machines and releases announces, in order. */
  lemma PreviewTellsStarts(job: Job, h: seq<StoreView>, from: nat, p: DeployPreview)
    requires 0 < from <= |h|
    requires IsPreview(p, job.manifest, RunMachines(job), CurrentAt(job, h, from), job.hash)
    ensures PreviewStarts(p.services, |p.services|) == RunStarts(job, h, from)
  {
    hide ByService, RunMachines;
    PreviewStartsUpTo(job, RunMachines(job), CurrentAt(job, h, from), p, |p.services|);
  }

  // ---------------------------------------------------------------------------
  // What was committed serves
  // ---------------------------------------------------------------------------

  /** No two ports of the list share a name and differ in number. */
  ghost predicate OneNumber(ports: seq<ServicePort>, p: ServicePort) {
    p in ports && forall q :: q in ports && q.name == p.name ==> q.containerPort == p.containerPort
  }

  lemma {:induction false} PortMapHas(ports: seq<ServicePort>, p: ServicePort)
    requires OneNumber(ports, p)
    ensures p.name in PortMap(ports) && PortMap(ports)[p.name] == p.containerPort
  {
    var n := |ports| - 1;
    assert forall q :: q in ports <==> q in ports[..n] || q == ports[n];
    if p in ports[..n] { PortMapHas(ports[..n], p); }
  }

  /** Ports of a valid spec have distinct names. */
  lemma ValidPorts(spec: ServiceSpec, p: ServicePort)
    requires ValidSpec(spec) && p in spec.servicePorts
    ensures OneNumber(spec.servicePorts, p)
  {
  }

  /** A running candidate with an address is, at that address, the backend for every port of its service. */
  lemma RunningServes(
    job: Job, instances: map<InstanceId, InstanceStatus>, spec: ServiceSpec, rec: ReleaseRecord, slot: Slot,
    p: ServicePort)
    requires rec == NewRelease(job, spec, rec.release.slots) && slot.revisionHash == job.hash(spec)
    requires Running(job, instances, spec, slot) && instances[slot.activeInstanceId].overlayIp.Some?
    requires OneNumber(spec.servicePorts, p)
    ensures SlotBackend(rec, slot, instances, p.name) == [BackendView(
      slot.activeInstanceId, slot.machineId, p.name,
      (instances[slot.activeInstanceId].overlayIp.value, p.containerPort))]
  {
    PortMapHas(spec.servicePorts, p);
  }

  /**
   * From the commit on, every slot that the run filled anew contributes its backend, at the address
   * its instance got, for every port of its service.
   */
  lemma NewSlotsServe(
    job: Job, h: seq<StoreView>, from: nat, c: nat, recs: seq<ReleaseRecord>, removed: seq<string>,
    i: nat, k: nat, slot: Slot, p: ServicePort)
    requires CommitsAt(job, h, from, c, recs, removed) && DistinctNames(job.manifest.services) && Keyed(h[from - 1])
    requires CandidatesRun(job, h[c].instances, recs, CurrentAt(job, h, from))
    requires c <= i < |h| && k < |recs| && slot in recs[k].release.slots
    requires OneNumber(job.manifest.services[k].servicePorts, p)
    requires slot !in SlotsOf(CurrentAt(job, h, from), job.manifest.services[k].name)
    requires h[c].instances[slot.activeInstanceId].overlayIp.Some?
    ensures SlotBackend(recs[k], slot, h[i].instances, p.name) == [BackendView(
      slot.activeInstanceId, slot.machineId, p.name,
      (h[c].instances[slot.activeInstanceId].overlayIp.value, p.containerPort))]
  {
    hide CommitsAt, Keyed, DistinctNames, Running, SlotBackend, CurrentAt, RunMachines, ReleasesFor, NewRelease,
         ActiveIds, OneNumber;
    CommitInHistory(job, h, from, c, recs, removed);
    CommitReleases(job, h, from, c, recs, removed);
    var spec := job.manifest.services[k];
    assert KeptOrRunning(job, h[c].instances, spec, recs[k].release.slots, SlotsOf(CurrentAt(job, h, from), spec.name));
    NewSlotReleased(job, RunMachines(job), CurrentAt(job, h, from), recs, k, slot);
    ActiveInstancesUntouched(job, h, from, c, recs, removed, i, slot.activeInstanceId);
    SameStatusRuns(job, h[c], h[i], spec, slot);
    RunningServes(job, h[i].instances, spec, recs[k], slot, p);
  }

  lemma CommitReleases(job: Job, h: seq<StoreView>, from: nat, c: nat, recs: seq<ReleaseRecord>, removed: seq<string>)
    requires CommitsAt(job, h, from, c, recs, removed)
    ensures ReleasesFor(job, RunMachines(job), CurrentAt(job, h, from), recs)
  {
    hide ReleasesFor, RunMachines, CleanupSteps, AfterCommit, RemovesExactly, RevisionsStored;
  }

  lemma NewSlotReleased(
    job: Job, machines: seq<MachineId>, current: Current, recs: seq<ReleaseRecord>, k: nat, slot: Slot)
    requires ReleasesFor(job, machines, current, recs) && k < |recs| && slot in recs[k].release.slots
    ensures recs[k] == NewRelease(job, job.manifest.services[k], recs[k].release.slots)
    ensures slot.revisionHash == job.hash(job.manifest.services[k]) && slot.activeInstanceId in ActiveIds(recs)
  {
    var spec := job.manifest.services[k];
    assert ReleaseFor(job, machines, current, spec, recs[k]);
    var slots, wanted := recs[k].release.slots, Wanted(job, machines, current, spec);
    var j :| 0 <= j < |slots| && slots[j] == slot;
    assert RealizesSlot(slots[j], wanted[j], FindSlot(SlotsOf(current, spec.name), wanted[j].slotId), job.hash(spec));
    assert recs[k] in recs;
  }

  lemma SameStatusRuns(job: Job, v: StoreView, w: StoreView, spec: ServiceSpec, slot: Slot)
    requires SameStatus(v, w, slot.activeInstanceId) && Running(job, v.instances, spec, slot)
    requires v.instances[slot.activeInstanceId].overlayIp.Some?
    ensures Running(job, w.instances, spec, slot)
    ensures w.instances[slot.activeInstanceId].overlayIp == v.instances[slot.activeInstanceId].overlayIp
  {
  }

  // ---------------------------------------------------------------------------
  // Where new slots go
  // ---------------------------------------------------------------------------

  lemma WantedPlacement(spec: ServiceSpec, machines: seq<MachineId>, current: seq<Slot>, i: nat)
    requires machines != [] && i < |DesiredSlots(spec, machines, current)|
    requires spec.placement.Replicated? ==>
      forall s :: s in current ==> s.slotId != DesiredSlots(spec, machines, current)[i].slotId
    ensures DesiredSlots(spec, machines, current)[i].machineId in machines
  {
    FindSlotAt(current, DesiredSlots(spec, machines, current)[i].slotId);
  }

  /**
   * A committed run has put every slot that is new, and every slot of a global service, on a machine
   * that was enabled and had recently given a sign of life, or on its own if there was none.
   */
  lemma NewSlotsWellPlaced(
    job: Job, h: seq<StoreView>, from: nat, c: nat, recs: seq<ReleaseRecord>, removed: seq<string>, k: nat, slot: Slot)
    requires CommitsAt(job, h, from, c, recs, removed) && k < |recs| && slot in recs[k].release.slots
    requires job.manifest.services[k].placement.Replicated? ==>
      forall s :: s in SlotsOf(CurrentAt(job, h, from), job.manifest.services[k].name) ==> s.slotId != slot.slotId
    ensures
      || (exists m :: m in job.env.machines && m.id == slot.machineId && Eligible(m, job.env.applyNow))
      || (slot.machineId == job.local && forall m :: m in job.env.machines ==> !Eligible(m, job.env.applyNow))
  {
    hide CommitsAt, CurrentAt, DesiredSlots, DeployableMachines, Eligible;
    CommitInHistory(job, h, from, c, recs, removed);
    CommitReleases(job, h, from, c, recs, removed);
    var spec, current := job.manifest.services[k], CurrentAt(job, h, from);
    assert ReleaseFor(job, RunMachines(job), current, spec, recs[k]);
    var slots, wanted := recs[k].release.slots, Wanted(job, RunMachines(job), current, spec);
    var j :| 0 <= j < |slots| && slots[j] == slot;
    assert RealizesSlot(slots[j], wanted[j], FindSlot(SlotsOf(current, spec.name), wanted[j].slotId), job.hash(spec));
    WantedPlacement(spec, RunMachines(job), SlotsOf(current, spec.name), j);
    DeployableMachinesExact(job.env.machines, job.local, job.env.applyNow, slot.machineId);
  }

  // ---------------------------------------------------------------------------
  // What is committed
  // ---------------------------------------------------------------------------

  /**
   * The release that a run commits for a service sends all traffic to the revision it stored for it,
   * names no other, and has every slot at it.
   */
  lemma CommittedReleaseExact(
    job: Job, h: seq<StoreView>, from: nat, c: nat, recs: seq<ReleaseRecord>, removed: seq<string>, k: nat)
    requires CommitsAt(job, h, from, c, recs, removed) && DistinctNames(job.manifest.services)
    requires Clean(job, h[from - 1])
    requires k < |job.manifest.services|
    ensures
      var spec := job.manifest.services[k];
      var hash, key := job.hash(spec), (job.manifest.namespace, spec.name);
      && key in h[c].releases && h[c].releases[key].namespace == key.0 && h[c].releases[key].service == key.1
      && (job.manifest.namespace, spec.name, hash) in h[c].revisions
      && h[c].revisions[(job.manifest.namespace, spec.name, hash)].specJson == Json(spec)
      && var release := h[c].releases[key].release;
      && release.primaryRevisionHash == hash && release.referencedRevisionHashes == [hash]
      && release.routing == Direct(hash) && release.updatedByDeployId == job.env.deployId
      && forall slot :: slot in release.slots ==> slot.revisionHash == hash
  {
    hide Keyed, Integrity, OwnIds, Referenced, AfterCommit, ByService, RemovesExactly, PreSteps, CleanupSteps,
         RunMachines, SameRouting, Wanted, SlotsOf;
    var v, spec, key := h[c - 1], job.manifest.services[k], (job.manifest.namespace, job.manifest.services[k].name);
    CleanIsKeyed(job, h[from - 1]);
    PreStepsAreQuiet(job, h[..c], from, c - 1);
    CommittedAt(job, v.releases, RunMachines(job), recs, removed, key);
    assert ReleaseFor(job, RunMachines(job), CurrentAt(job, h, from), spec, recs[k]) && recs[k] in recs;
    assert spec in job.manifest.services;
    forall slot | slot in recs[k].release.slots ensures slot.revisionHash == job.hash(spec) {
      NewSlotReleased(job, RunMachines(job), CurrentAt(job, h, from), recs, k, slot);
    }
  }

  /** A retired instance is marked as draining before it is deleted, and nothing else happens to it. */
  lemma DrainedBeforeRemoved(
    job: Job, h: seq<StoreView>, from: nat, c: nat, recs: seq<ReleaseRecord>, removed: seq<string>, i: nat,
    id: InstanceId)
    requires CommitsAt(job, h, from, c, recs, removed) && c < i < |h| && id in h[i - 1].instances
    ensures id !in h[i].instances ==> h[i - 1].instances[id].phase == Draining
    ensures id in h[i].instances && h[i].instances[id] != h[i - 1].instances[id] ==>
      h[i].instances[id] == h[i - 1].instances[id].(phase := Draining, ready := false, drainState := Requested)
  {
    hide ReadyToCommit, AfterCommit;
    assert CleanupStep(job.manifest.namespace, ActiveIds(recs), h[i - 1], h[i]);
  }
}
