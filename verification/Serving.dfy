/** From a committed deploy to the clients it serves. */
module Serving {
  import opened Answers
  import opened Model
  import opened Planner
  import opened RolloutTheorems
  import opened RolloutTrace
  import opened Routes
  import opened RoutingTheorems
  import opened Sorting
  import opened Store

  lemma CommittedRecord(
    job: Job, h: seq<StoreView>, from: nat, c: nat, recs: seq<ReleaseRecord>, removed: seq<string>, i: nat, k: nat)
    requires CommitsAt(job, h, from, c, recs, removed) && DistinctNames(job.manifest.services)
    requires Clean(job, h[from - 1]) && c <= i < |h| && k < |job.manifest.services|
    ensures |recs| == |job.manifest.services| && Keyed(h[i])
    ensures
      var key := (job.manifest.namespace, job.manifest.services[k].name);
      && key in h[i].releases && h[i].releases[key] == recs[k]
      && h[i].revisions == h[c].revisions && h[i].releases == h[c].releases
  {
    hide Keyed, Clean, AfterCommit, ByService, RemovesExactly, RunMachines, SameRouting, Wanted,
         SlotsOf, Covers, CleanupStep, PreStep, RevisionsStored;
    CleanIsKeyed(job, h[from - 1]);
    CommitPoint(job, h, from, c, recs, removed);
    CleanupStepsAreQuiet(job.manifest.namespace, ActiveIds(recs), h, c, i);
    var key := (job.manifest.namespace, job.manifest.services[k].name);
    CommittedAt(job, h[c - 1].releases, RunMachines(job), recs, removed, key);
    assert ReleaseFor(job, RunMachines(job), CurrentAt(job, h, from), job.manifest.services[k], recs[k]);
    assert recs[k] in recs;
  }

  /** The backend that a slot of this release contributes is among those of its port. */
  lemma ContributedBackend(
    rec: ReleaseRecord, spec: ServiceSpec, instances: map<InstanceId, InstanceStatus>, p: ServicePort, slot: Slot,
    b: BackendView)
    requires slot in rec.release.slots && p in spec.servicePorts && SlotBackend(rec, slot, instances, p.name) == [b]
    ensures b in BackendsFor(rec, spec, instances, p.name)
  {
    hide SlotBackend, SlotBackends, Sort;
    SlotBackendsMember(rec, rec.release.slots, instances, p.name, b);
    assert b in SlotBackend(rec, slot, instances, p.name);
    assert b in Sort(BackendLe, SlotBackends(rec, rec.release.slots, instances, p.name)) <==>
      b in multiset(SlotBackends(rec, rec.release.slots, instances, p.name));
  }

  /** The table has a route of this service under this prefix, and the route has this backend. */
  ghost predicate RoutedHttp(snapshot: GatewaySnapshot, ns: Namespace, spec: ServiceSpec, j: nat, b: BackendView)
    requires j < |spec.routes| && spec.routes[j].Http?
  {
    exists r :: r in snapshot.httpRoutes && r.namespace == ns && r.service == spec.name && b in r.backends &&
      r.pathPrefix == NormalizePathPrefix(spec.routes[j].pathPrefix)
  }

  ghost predicate RoutedTcp(snapshot: GatewaySnapshot, ns: Namespace, spec: ServiceSpec, j: nat, b: BackendView)
    requires j < |spec.routes| && spec.routes[j].Tcp?
  {
    exists r :: r in snapshot.tcpRoutes && r.namespace == ns && r.service == spec.name && b in r.backends &&
      r.listenPort == spec.routes[j].listenPort
  }

  lemma RouteReaches(
    v: StoreView, state: RoutingState, key: ReleaseKey, revision: RevisionRecord, j: nat, b: BackendView)
    requires Keyed(v) && ListsView(state, v) && ProjectOf(state).Some? && key in v.releases
    requires ResolvableRelease(v.releases[key], v.revisions)
    requires revision == v.revisions[RoutingRevisionKey(v.releases[key])] && j < |revision.specJson.spec.routes|
    requires var spec := revision.specJson.spec;
      b in BackendsFor(v.releases[key], spec, v.instances, spec.routes[j].servicePort)
    ensures var spec := revision.specJson.spec;
      && (spec.routes[j].Http? ==> RoutedHttp(ProjectOf(state).value, revision.namespace, spec, j, b))
      && (spec.routes[j].Tcp? ==> RoutedTcp(ProjectOf(state).value, revision.namespace, spec, j, b))
  {
    hide Keyed, ListsView, ProjectOf, BackendsFor, NormalizeRequestHost, NormalizePathPrefix;
    var rec, spec := v.releases[key], revision.specJson.spec;
    if spec.routes[j].Http? {
      var r := HttpView(rec, revision, spec, v.instances, j);
      HttpViewExact(v, key, revision, j, r);
      HttpTableExact(v, state, r);
    } else {
      var r := TcpView(rec, revision, spec, v.instances, j);
      assert TcpRouteOf(v, key, revision, j, r);
      TcpTableExact(v, state, r);
    }
  }

  /**
   * From the commit on, whenever the gateway takes the store's state in, every route of a deployed
   * service leads to every slot that the run filled anew, at the address its instance got and the
   * port its spec gives.
   */
  lemma NewSlotsAreRouted(
    job: Job, h: seq<StoreView>, from: nat, c: nat, recs: seq<ReleaseRecord>, removed: seq<string>,
    i: nat, k: nat, slot: Slot, p: ServicePort, j: nat, state: RoutingState)
    requires CommitsAt(job, h, from, c, recs, removed) && DistinctNames(job.manifest.services)
    requires Clean(job, h[from - 1]) && CandidatesRun(job, h[c].instances, recs, CurrentAt(job, h, from))
    requires c <= i < |h| && k < |recs| && slot in recs[k].release.slots
    requires OneNumber(job.manifest.services[k].servicePorts, p)
    requires slot !in SlotsOf(CurrentAt(job, h, from), job.manifest.services[k].name)
    requires h[c].instances[slot.activeInstanceId].overlayIp.Some?
    requires j < |job.manifest.services[k].routes| && job.manifest.services[k].routes[j].servicePort == p.name
    requires ListsView(state, h[i]) && ProjectOf(state).Some?
    ensures
      var spec, snapshot := job.manifest.services[k], ProjectOf(state).value;
      var ip := h[c].instances[slot.activeInstanceId].overlayIp.value;
      var b := BackendView(slot.activeInstanceId, slot.machineId, p.name, (ip, p.containerPort));
      && (spec.routes[j].Http? ==> RoutedHttp(snapshot, job.manifest.namespace, spec, j, b))
      && (spec.routes[j].Tcp? ==> RoutedTcp(snapshot, job.manifest.namespace, spec, j, b))
  {
    hide CommitsAt, DistinctNames, Clean, Keyed, ListsView, ProjectOf, BackendsFor, RoutedHttp, RoutedTcp, SlotBackend,
         CurrentAt, SlotsOf, Realizes, Wanted;
    CommitInHistory(job, h, from, c, recs, removed);
    CommitReleases(job, h, from, c, recs, removed);
    assert KeptOrRunning(
      job, h[c].instances, job.manifest.services[k], recs[k].release.slots,
      SlotsOf(CurrentAt(job, h, from), job.manifest.services[k].name));
    CleanIsKeyed(job, h[from - 1]);
    CommittedRecord(job, h, from, c, recs, removed, i, k);
    CommittedReleaseExact(job, h, from, c, recs, removed, k);
    NewSlotsServe(job, h, from, c, recs, removed, i, k, slot, p);
    var spec, v := job.manifest.services[k], h[i];
    var key := (job.manifest.namespace, spec.name);
    var ip := h[c].instances[slot.activeInstanceId].overlayIp.value;
    var b := BackendView(slot.activeInstanceId, slot.machineId, p.name, (ip, p.containerPort));
    var revision := v.revisions[(job.manifest.namespace, spec.name, job.hash(spec))];
    KeyedRevision(v, (job.manifest.namespace, spec.name, job.hash(spec)));
    ContributedBackend(recs[k], spec, v.instances, p, slot, b);
    RouteReaches(v, state, key, revision, j, b);
  }

  lemma KeyedRevision(v: StoreView, k: RevisionKey)
    requires Keyed(v) && k in v.revisions
    ensures v.revisions[k].namespace == k.0
  {
    assert RevisionKeyOf(v.revisions[k]) == k;
  }
}
