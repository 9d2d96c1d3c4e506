/** Deploys as their surroundings see them: every run of `apply` against a store that readers watch. */
module DeployRuns {
  import opened Model
  import opened Placement
  import opened Planner
  import opened QuietWrites
  import opened Rollout
  import opened RolloutTheorems
  import opened RolloutTrace
  import opened RoutingTheorems
  import opened Store

  /** State `i` of the history routes as `v` does, and every release in it has its revision. */
  ghost predicate RoutesLike(h: seq<StoreView>, i: nat, v: StoreView)
    requires i < |h|
  {
    Keyed(h[i]) && Integrity(h[i]) && SameRouting(v, h[i])
  }

  /** A first deploy starts from a clean store, so the hypotheses of the theorems can be met. */
  lemma EmptyStoreIsClean(job: Job)
    ensures Clean(job, StoreView(map[], map[], map[]))
  {
    var v := StoreView(map[], map[], map[]);
    forall i: nat ensures !Referenced(v, job.env.ids(i)) {
    }
  }

  lemma CommittedRunRoutes(
    job: Job, h: seq<StoreView>, from: nat, c: nat, recs: seq<ReleaseRecord>, removed: seq<string>, i: nat)
    requires CommitsAt(job, h, from, c, recs, removed) && DistinctNames(job.manifest.services)
    requires Clean(job, h[from - 1]) && from - 1 <= i < |h|
    ensures RoutesLike(h, i, if i < c then h[from - 1] else h[c])
  {
    hide CommitsAt, DistinctNames, SameRouting, Keyed, Integrity, Clean;
    CommitInHistory(job, h, from, c, recs, removed);
    CleanParts(job, h[from - 1]);
    RoutingMovesOnlyAtCommit(job, h, from, c, recs, removed, i);
    IntegrityThroughout(job, h, from, c, recs, removed, i);
  }

  lemma UncommittedRunRoutes(job: Job, h: seq<StoreView>, from: nat, i: nat)
    requires 0 < from <= |h| && PreSteps(job, h, from) && DistinctNames(job.manifest.services)
    requires Clean(job, h[from - 1]) && from - 1 <= i < |h|
    ensures RoutesLike(h, i, h[from - 1])
  {
    hide PreSteps, DistinctNames, SameRouting, Keyed, Integrity, Clean;
    CleanParts(job, h[from - 1]);
    PreStepsAreQuiet(job, h, from, i);
    IntegrityOfUncommitted(job, h, from, i);
  }

  lemma CleanParts(job: Job, v: StoreView)
    requires Clean(job, v)
    ensures Keyed(v) && Integrity(v)
  {
  }

  lemma StandingStillRoutes(job: Job, h: seq<StoreView>, i: nat)
    requires i < |h| && Clean(job, h[i])
    ensures RoutesLike(h, i, h[i])
  {
    hide SameRouting;
    SameRoutingReflexive(h[i]);
  }

  /**
   * Every run of `apply`, under every fault pattern, on a clean store: up to `c` each state it leaves
   * behind routes as the state it found, from `c` on as the one it committed. A run that succeeds
   * has committed; one that has not (`c` is then the end of the history) was never noticed; and one
   * that nothing hinders does succeed.
   */
  method Deploy(store: MemoryStore, job: Job)
    returns (r: Result<DeployState, Failure>, ghost c: nat, ghost recs: seq<ReleaseRecord>, ghost removed: seq<string>)
    requires store.Valid() && Clean(job, store.View())
    modifies store
    ensures store.Valid() && old(store.history) <= store.history
    ensures |old(store.history)| <= c <= |store.history| && (r.Ok? ==> c < |store.history|)
    ensures c < |store.history| ==> CommitsAt(job, store.history, |old(store.history)|, c, recs, removed)
    ensures c == |store.history| ==> store.releases == old(store.releases)
    ensures Smooth(job, ByService(old(store.releases), job.manifest.namespace)) ==>
      r == Ok(DeployState.Committed) || (r == Ok(CleanupPending) && !CleansUp(job.env))
    ensures forall i: nat :: |old(store.history)| - 1 <= i < c ==> RoutesLike(store.history, i, old(store.View()))
    ensures forall i: nat :: c <= i < |store.history| ==> RoutesLike(store.history, i, store.history[c])
  {
    hide CommitsAt, CommittedActions, RunStarts, OnlyLocks, Keyed, ValidManifest, SameRouting, Integrity, Clean,
         RoutesLike, PreSteps, Tidy, Locked, RunParticipants, Smooth, ByService, CleansUp, Run.Recorded;
    ghost var from := |store.history|;
    ghost var v := store.View();
    var run := new Run(store, job);
    ghost var committed;
    r, committed, recs, removed := run.Apply();
    ghost var h := store.history;
    c := if committed.Some? then committed.value else |h|;
    assert h[from - 1] == v;
    if committed.Some? {
      CommitInHistory(job, h, from, committed.value, recs, removed);
      ValidManifestDistinct(job.manifest);
      forall i: nat | from - 1 <= i < c ensures RoutesLike(h, i, v) {
        CommittedRunRoutes(job, h, from, c, recs, removed, i);
      }
      forall i: nat | c <= i < |h| ensures RoutesLike(h, i, h[c]) {
        CommittedRunRoutes(job, h, from, c, recs, removed, i);
      }
    } else if ValidManifest(job.manifest) {
      ValidManifestDistinct(job.manifest);
      forall i: nat | from - 1 <= i < |h| ensures RoutesLike(h, i, v) {
        UncommittedRunRoutes(job, h, from, i);
      }
    } else {
      StandingStillRoutes(job, h, from - 1);
    }
  }

  // ---------------------------------------------------------------------------
  // Runs that succeed
  // ---------------------------------------------------------------------------

  /** Machines that stay as they are through the run, and can be reached, are all that luck has to add. */
  lemma SteadyMachinesAreSmooth(job: Job, current: Current)
    requires ValidManifest(job.manifest) && Cooperative(job.env)
    requires DeployableMachines(job.env.initialMachines, job.local, job.env.initialNow) == RunMachines(job)
    requires DeployableMachines(job.env.finalMachines, job.local, job.env.finalNow) == RunMachines(job)
    requires Opens(job.env, Participants(job.manifest, RunMachines(job), current))
    ensures Smooth(job, current)
  {
    hide ValidManifest, Cooperative, Opens, Participants, MachinesOfServices, DeployableMachines;
    ServiceMachinesParticipate(job.manifest, RunMachines(job), current);
  }

  /** One machine, a store that answers, and nothing that fails. */
  function CalmEnv(record: MachineRecord, deployId: DeployId): Env {
    Env(deployId, [record], 0, [record], [record], 0, 0,
        (n: nat) => Succeeds, (m: MachineId) => OpenOutcome(true, []), (n: nat) => StartOutcome(Succeeds, None),
        (n: nat) => seq(n, i => 'i'), (id: InstanceId) => Succeeds, (id: InstanceId) => Succeeds)
  }

  function CalmJob(record: MachineRecord, deployId: DeployId, manifest: DeployManifest, hash: Hasher): Job {
    Job(CalmEnv(record, deployId), record.id, manifest, hash)
  }

  lemma CalmMachines(record: MachineRecord, deployId: DeployId, manifest: DeployManifest, hash: Hasher, m: MachineId)
    requires m in Participants(manifest, RunMachines(CalmJob(record, deployId, manifest, hash)), map[])
    ensures m == record.id
  {
    hide DeployableMachines;
    var machines := RunMachines(CalmJob(record, deployId, manifest, hash));
    forall id | id in machines ensures id == record.id { DeployableMachinesExact([record], record.id, 0, id); }
    if m !in machines {
      var spec :| spec in manifest.services && m in MachinesOfService(spec, machines, map[]);
      var d :| d in DesiredSlots(spec, machines, []) && d.machineId == m;
      FreshPlacement(spec, machines, d);
    }
  }

  /** A slot placed for the first time goes to one of the candidates. */
  lemma FreshPlacement(spec: ServiceSpec, machines: seq<MachineId>, d: DesiredSlot)
    requires machines != [] && d in DesiredSlots(spec, machines, [])
    ensures d.machineId in machines
  {
  }

  lemma CalmRunIsSmooth(record: MachineRecord, deployId: DeployId, manifest: DeployManifest, hash: Hasher)
    requires ValidManifest(manifest)
    ensures Smooth(CalmJob(record, deployId, manifest, hash), map[])
  {
    hide ValidManifest, Participants, DeployableMachines, Smooth;
    var job := CalmJob(record, deployId, manifest, hash);
    forall m | m in Participants(manifest, RunMachines(job), map[])
      ensures exists known :: known in job.env.machines && known.id == m
    {
      CalmMachines(record, deployId, manifest, hash, m);
      assert record in job.env.machines;
    }
    SteadyMachinesAreSmooth(job, map[]);
  }

  /** Any valid manifest, deployed to an empty store from one machine where nothing fails, is committed. */
  method FirstDeploy(record: MachineRecord, deployId: DeployId, manifest: DeployManifest, hash: Hasher)
    returns (
      store: MemoryStore, r: Result<DeployState, Failure>,
      ghost c: nat, ghost recs: seq<ReleaseRecord>, ghost removed: seq<string>)
    requires ValidManifest(manifest)
    ensures fresh(store) && store.Valid() && r == Ok(DeployState.Committed)
    ensures CommitsAt(CalmJob(record, deployId, manifest, hash), store.history, 1, c, recs, removed)
    ensures Clean(CalmJob(record, deployId, manifest, hash), store.history[0])
  {
    hide CommitsAt, Clean, Smooth, ValidManifest, RoutesLike;
    store := new MemoryStore();
    var job := CalmJob(record, deployId, manifest, hash);
    EmptyStoreIsClean(job);
    CalmRunIsSmooth(record, deployId, manifest, hash);
    assert ByService(store.releases, manifest.namespace) == map[];
    r, c, recs, removed := Deploy(store, job);
  }
}
