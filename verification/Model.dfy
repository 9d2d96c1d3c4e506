/** The records that the coordinator, the store and the gateway exchange. */
module Model {
  import opened Permutations

  datatype Option<+T> = None | Some(value: T)

  datatype Result<+T, +E> = Ok(value: T) | Err(error: E)

  type MachineId = string
  type InstanceId = string
  type DeployId = string
  type SlotId = string
  type Namespace = string
  type RevisionHash = string

  type U16 = n: nat | n < 0x1_0000

  datatype Placement = Global | Replicated(count: U16)

  datatype ServicePort = ServicePort(name: string, containerPort: U16)

  datatype RouteSpec =
    | Http(servicePort: string, hostnames: seq<string>, pathPrefix: string)
    | Tcp(servicePort: string, listenPort: U16)

  /** `template` stands for every part of a spec that neither the planner nor the gateway reads. */
  datatype ServiceSpec = ServiceSpec(
    name: string, placement: Placement, servicePorts: seq<ServicePort>, routes: seq<RouteSpec>,
    template: string)

  /** The text column of a stored revision: a serialized spec, or text that does not parse. */
  datatype SpecJson = Json(spec: ServiceSpec) | Malformed(text: string)

  datatype DeployManifest = DeployManifest(namespace: Namespace, services: seq<ServiceSpec>)

  datatype RevisionRecord = RevisionRecord(
    namespace: Namespace, service: string, revisionHash: RevisionHash, specJson: SpecJson,
    createdBy: MachineId)

  datatype Allocation = Allocation(revisionHash: RevisionHash, percent: nat)

  datatype RoutingPolicy = Direct(revisionHash: RevisionHash) | Split(allocations: seq<Allocation>)

  datatype Slot = Slot(
    slotId: SlotId, machineId: MachineId, activeInstanceId: InstanceId, revisionHash: RevisionHash)

  datatype Release = Release(
    primaryRevisionHash: RevisionHash, referencedRevisionHashes: seq<RevisionHash>,
    routing: RoutingPolicy, slots: seq<Slot>, updatedByDeployId: DeployId)

  datatype ReleaseRecord = ReleaseRecord(namespace: Namespace, service: string, release: Release)

  datatype InstancePhase = Pending | Starting | Ready | Failed | Draining | Removed

  datatype DrainState = NoDrain | Requested | Complete

  datatype InstanceStatus = InstanceStatus(
    instanceId: InstanceId, namespace: Namespace, service: string, slotId: SlotId,
    machineId: MachineId, revisionHash: RevisionHash, deployId: DeployId,
    overlayIp: Option<nat>, backendPorts: map<string, U16>, phase: InstancePhase, ready: bool,
    drainState: DrainState, error: Option<string>)

  datatype DeployState = Planning | Applying | Committed | CleanupPending | DeployFailed

  datatype DeployRecord = DeployRecord(
    deployId: DeployId, namespace: Namespace, coordinator: MachineId, state: DeployState)

  datatype MachineStatus = Unknown | Up | Down

  datatype Participation = Disabled | Enabled | DrainingMachine

  datatype Ipv4Net = Ipv4Net(addr: nat, prefixLen: nat)

  datatype MachineRecord = MachineRecord(
    id: MachineId, publicKey: string, overlayIp: string, subnet: Option<Ipv4Net>,
    bridgeIp: Option<string>, endpoints: seq<string>, status: MachineStatus,
    participation: Participation, lastHeartbeat: nat)

  datatype MachineEvent =
    | Added(record: MachineRecord)
    | Updated(record: MachineRecord)
    | RemovedMachine(record: MachineRecord)

  type RevisionKey = (Namespace, string, RevisionHash)
  type ReleaseKey = (Namespace, string)

  function RevisionKeyOf(r: RevisionRecord): RevisionKey { (r.namespace, r.service, r.revisionHash) }
  function ReleaseKeyOf(r: ReleaseRecord): ReleaseKey { (r.namespace, r.service) }
  function InstanceKeyOf(r: InstanceStatus): InstanceId { r.instanceId }

  /** What `load_routing_state` hands to a reader: three lists in no particular order. */
  datatype RoutingState = RoutingState(
    revisions: seq<RevisionRecord>, releases: seq<ReleaseRecord>, instances: seq<InstanceStatus>)

  /** The routing tables of the store as maps. */
  datatype StoreView = StoreView(
    revisions: map<RevisionKey, RevisionRecord>,
    releases: map<ReleaseKey, ReleaseRecord>,
    instances: map<InstanceId, InstanceStatus>)

  ghost predicate KeyedBy<K, V>(key: V -> K, m: map<K, V>) {
    forall k :: k in m ==> key(m[k]) == k
  }

  /** Every record sits under its own key. */
  ghost predicate Keyed(v: StoreView) {
    && KeyedBy(RevisionKeyOf, v.revisions)
    && KeyedBy(ReleaseKeyOf, v.releases)
    && KeyedBy(InstanceKeyOf, v.instances)
  }

  /** `l` names each value of `m` once, in any order. */
  ghost predicate Lists<K, V>(key: V -> K, l: seq<V>, m: map<K, V>) {
    && (forall i :: 0 <= i < |l| ==> key(l[i]) in m && m[key(l[i])] == l[i])
    && (forall k :: k in m ==> m[k] in l)
    && (forall i, j :: 0 <= i < j < |l| ==> key(l[i]) != key(l[j]))
  }

  ghost predicate ListsView(state: RoutingState, v: StoreView) {
    && Lists(RevisionKeyOf, state.revisions, v.revisions)
    && Lists(ReleaseKeyOf, state.releases, v.releases)
    && Lists(InstanceKeyOf, state.instances, v.instances)
  }

  /** `into_iter().map(|r| (key(r), r)).collect()`: a later record replaces an earlier one. */
  function CollectBy<K, V>(key: V -> K, l: seq<V>): (m: map<K, V>)
    ensures forall k :: k in m ==> m[k] in l && key(m[k]) == k
    ensures forall i :: 0 <= i < |l| ==> key(l[i]) in m
  {
    if l == [] then map[]
    else
      var last := l[|l| - 1];
      var rest := CollectBy(key, l[..|l| - 1]);
      assert forall i :: 0 <= i < |l| - 1 ==> l[i] == l[..|l| - 1][i];
      rest[key(last) := last]
  }

  lemma CollectLists<K, V>(key: V -> K, l: seq<V>, m: map<K, V>)
    requires Lists(key, l, m) && KeyedBy(key, m)
    ensures CollectBy(key, l) == m
  {
    var c := CollectBy(key, l);
    forall k | k in m ensures k in c {
      var i :| 0 <= i < |l| && l[i] == m[k];
      assert key(l[i]) == k;
    }
  }

  /** Two listings of one table are permutations of each other. */
  lemma ListingsPermute<K, V>(key: V -> K, l1: seq<V>, l2: seq<V>, m: map<K, V>)
    requires Lists(key, l1, m) && Lists(key, l2, m)
    ensures multiset(l1) == multiset(l2)
  {
    forall v ensures multiset(l1)[v] == multiset(l2)[v] {
      ListingMultiplicity(key, l1, m, v);
      ListingMultiplicity(key, l2, m, v);
    }
  }

  lemma {:induction false} ListingMultiplicity<K, V>(key: V -> K, l: seq<V>, m: map<K, V>, v: V)
    requires Lists(key, l, m)
    ensures multiset(l)[v] == if key(v) in m && m[key(v)] == v then 1 else 0
  {
    if v in l {
      var i :| 0 <= i < |l| && l[i] == v;
      var rest := Without(l, i);
      assert v !in rest;
      assert multiset(rest)[v] == 0;
    }
  }
}
