/** `preview`: what a manifest would change, slot by slot, and which machines take part. */
module Planner {
  import opened Model
  import opened Placement
  import opened Strings

  datatype ChangeKind = Create | Replace | Remove | Unchanged

  datatype SlotPlan = SlotPlan(
    slotId: SlotId, machineId: MachineId, currentInstanceId: Option<InstanceId>,
    currentRevisionHash: Option<RevisionHash>, nextRevisionHash: Option<RevisionHash>, action: ChangeKind)

  datatype ServicePlan = ServicePlan(
    service: string, currentRevisionHash: Option<RevisionHash>, nextRevisionHash: Option<RevisionHash>,
    slots: seq<SlotPlan>, action: ChangeKind)

  datatype DeployPreview = DeployPreview(
    namespace: Namespace, participants: set<MachineId>, services: seq<ServicePlan>)

  /** The revision hash of a spec; only its being a function of the spec matters here. */
  type Hasher = ServiceSpec -> RevisionHash

  /** The releases of one namespace, by service name. */
  type Current = map<string, ReleaseRecord>

  // ---------------------------------------------------------------------------
  // Manifests
  // ---------------------------------------------------------------------------

  predicate ValidSpec(spec: ServiceSpec) {
    && Trim(spec.name) != ""
    && spec.placement != Replicated(0)
    && (forall i :: 0 <= i < |spec.servicePorts| ==> Trim(spec.servicePorts[i].name) != "")
    && (forall i, j :: 0 <= i < j < |spec.servicePorts| ==> spec.servicePorts[i].name != spec.servicePorts[j].name)
    && (forall r :: r in spec.routes ==> exists p :: p in spec.servicePorts && p.name == r.servicePort)
  }

  predicate ValidManifest(manifest: DeployManifest) {
    && Trim(manifest.namespace) != ""
    && manifest.services != []
    && (forall i, j :: 0 <= i < j < |manifest.services| ==> manifest.services[i].name != manifest.services[j].name)
    && (forall spec :: spec in manifest.services ==> ValidSpec(spec))
  }

  /** No service asks for zero replicas. */
  predicate Placeable(specs: seq<ServiceSpec>) {
    forall i :: 0 <= i < |specs| ==> specs[i].placement != Replicated(0)
  }

  lemma ValidManifestPlaceable(manifest: DeployManifest)
    requires ValidManifest(manifest)
    ensures Placeable(manifest.services)
  {
    forall i | 0 <= i < |manifest.services| ensures manifest.services[i].placement != Replicated(0) {
      assert ValidSpec(manifest.services[i]);
    }
  }

  predicate Named(manifest: DeployManifest, service: string) {
    exists spec :: spec in manifest.services && spec.name == service
  }

  // ---------------------------------------------------------------------------
  // Plans
  // ---------------------------------------------------------------------------

  function SlotsOf(current: Current, service: string): seq<Slot> {
    if service in current then current[service].release.slots else []
  }

  /** A slot stays as it is when it is on the right machine and at the right revision. */
  predicate Keeps(slot: Option<Slot>, desired: DesiredSlot, hash: RevisionHash) {
    slot.Some? && slot.value.machineId == desired.machineId && slot.value.revisionHash == hash
  }

  function PlanSlot(desired: DesiredSlot, current: seq<Slot>, hash: RevisionHash): SlotPlan {
    var slot := FindSlot(current, desired.slotId);
    SlotPlan(
      desired.slotId, desired.machineId,
      if slot.Some? then Some(slot.value.activeInstanceId) else None,
      if slot.Some? then Some(slot.value.revisionHash) else None,
      Some(hash),
      if Keeps(slot, desired, hash) then Unchanged else if slot.Some? then Replace else Create)
  }

  function PlanSlots(desired: seq<DesiredSlot>, current: seq<Slot>, hash: RevisionHash): seq<SlotPlan> {
    seq(|desired|, i requires 0 <= i < |desired| => PlanSlot(desired[i], current, hash))
  }

  function PrimaryHash(current: Current, service: string): Option<RevisionHash> {
    if service in current then Some(current[service].release.primaryRevisionHash) else None
  }

  function ServiceAction(current: Current, service: string, slots: seq<SlotPlan>, hash: RevisionHash): ChangeKind {
    if (forall p :: p in slots ==> p.action == Unchanged) && PrimaryHash(current, service) == Some(hash) then Unchanged
    else if service !in current then Create
    else Replace
  }

  function PlanService(spec: ServiceSpec, machines: seq<MachineId>, current: Current, hash: Hasher): ServicePlan {
    var slots := SlotsOf(current, spec.name);
    var plans := PlanSlots(DesiredSlots(spec, machines, slots), slots, hash(spec));
    ServicePlan(
      spec.name, PrimaryHash(current, spec.name), Some(hash(spec)), plans,
      ServiceAction(current, spec.name, plans, hash(spec)))
  }

  function RemoveSlot(slot: Slot): SlotPlan {
    SlotPlan(slot.slotId, slot.machineId, Some(slot.activeInstanceId), Some(slot.revisionHash), None, Remove)
  }

  function RemoveService(current: Current, service: string): ServicePlan
    requires service in current
  {
    var slots := current[service].release.slots;
    ServicePlan(
      service, PrimaryHash(current, service), None,
      seq(|slots|, i requires 0 <= i < |slots| => RemoveSlot(slots[i])), Remove)
  }

  // ---------------------------------------------------------------------------
  // Participants
  // ---------------------------------------------------------------------------

  function DesiredMachines(desired: seq<DesiredSlot>): set<MachineId> { set d | d in desired :: d.machineId }

  function SlotMachines(slots: seq<Slot>): set<MachineId> { set s | s in slots :: s.machineId }

  function MachinesOfService(spec: ServiceSpec, machines: seq<MachineId>, current: Current): set<MachineId> {
    var slots := SlotsOf(current, spec.name);
    DesiredMachines(DesiredSlots(spec, machines, slots)) + SlotMachines(slots)
  }

  ghost function MachinesOfServices(specs: seq<ServiceSpec>, machines: seq<MachineId>, current: Current)
    : set<MachineId>
  {
    set spec, m | spec in specs && m in MachinesOfService(spec, machines, current) :: m
  }

  ghost function MachinesOfRemoved(services: set<string>, current: Current): set<MachineId>
    requires services <= current.Keys
  {
    set service, m | service in services && m in SlotMachines(current[service].release.slots) :: m
  }

  ghost function RemovedServices(manifest: DeployManifest, current: Current): set<string> {
    set service | service in current && !Named(manifest, service)
  }

  ghost function Participants(manifest: DeployManifest, machines: seq<MachineId>, current: Current): set<MachineId> {
    (set m | m in machines) + MachinesOfServices(manifest.services, machines, current) +
    MachinesOfRemoved(RemovedServices(manifest, current), current)
  }

  // ---------------------------------------------------------------------------
  // The preview
  // ---------------------------------------------------------------------------

  /** `plans` removes each service of `services` once, in some order. */
  ghost predicate RemovesEach(plans: seq<ServicePlan>, services: set<string>, current: Current)
    requires services <= current.Keys
  {
    && (forall i :: 0 <= i < |plans| ==>
      plans[i].service in services && plans[i] == RemoveService(current, plans[i].service))
    && (forall i, j :: 0 <= i < j < |plans| ==> plans[i].service != plans[j].service)
    && (forall s :: s in services ==> exists i :: 0 <= i < |plans| && plans[i].service == s)
  }

  ghost predicate IsPreview(
    p: DeployPreview, manifest: DeployManifest, machines: seq<MachineId>, current: Current, hash: Hasher)
  {
    var n := |manifest.services|;
    && p.namespace == manifest.namespace
    && p.participants == Participants(manifest, machines, current)
    && |p.services| >= n
    && (forall i :: 0 <= i < n ==> p.services[i] == PlanService(manifest.services[i], machines, current, hash))
    && RemovesEach(p.services[n..], RemovedServices(manifest, current), current)
  }

  /** The loop over the desired slots of one service. */
  method PlanDesired(desired: seq<DesiredSlot>, slots: seq<Slot>, revisionHash: RevisionHash)
    returns (plans: seq<SlotPlan>, involved: set<MachineId>)
    ensures plans == PlanSlots(desired, slots, revisionHash)
    ensures involved == DesiredMachines(desired)
  {
    plans, involved := [], {};
    for i := 0 to |desired|
      invariant |plans| == i && forall k :: 0 <= k < i ==> plans[k] == PlanSlot(desired[k], slots, revisionHash)
      invariant involved == set k | 0 <= k < i :: desired[k].machineId
    {
      involved := involved + {desired[i].machineId};
      var slot := FindSlot(slots, desired[i].slotId);
      var action := Create;
      if slot.Some? {
        action := if slot.value.machineId == desired[i].machineId && slot.value.revisionHash == revisionHash
                  then Unchanged else Replace;
      }
      plans := plans + [SlotPlan(
        desired[i].slotId, desired[i].machineId,
        if slot.Some? then Some(slot.value.activeInstanceId) else None,
        if slot.Some? then Some(slot.value.revisionHash) else None,
        Some(revisionHash), action)];
    }
  }

  /** One iteration of the loop over the manifest's services. */
  method PlanOne(spec: ServiceSpec, machines: seq<MachineId>, current: Current, hash: Hasher)
    returns (plan: ServicePlan, involved: set<MachineId>)
    requires spec.placement != Replicated(0)
    ensures plan == PlanService(spec, machines, current, hash)
    ensures involved == MachinesOfService(spec, machines, current)
  {
    var revisionHash := hash(spec);
    var slots := SlotsOf(current, spec.name);
    var desired := ComputeDesiredSlots(spec, machines, slots);
    var plans, wanted := PlanDesired(desired.value, slots, revisionHash);
    involved := wanted;
    for i := 0 to |slots|
      invariant involved == wanted + set k | 0 <= k < i :: slots[k].machineId
    {
      involved := involved + {slots[i].machineId};
    }
    assert SlotMachines(slots) == set k | 0 <= k < |slots| :: slots[k].machineId;
    plan := ServicePlan(
      spec.name, PrimaryHash(current, spec.name), Some(revisionHash), plans,
      ServiceAction(current, spec.name, plans, revisionHash));
  }

  /** The trailing loop over services that are deployed but no longer in the manifest. */
  method PlanRemovals(manifest: DeployManifest, current: Current)
    returns (plans: seq<ServicePlan>, involved: set<MachineId>)
    ensures RemovesEach(plans, RemovedServices(manifest, current), current)
    ensures involved == MachinesOfRemoved(RemovedServices(manifest, current), current)
  {
    plans, involved := [], {};
    var todo := current.Keys;
    while todo != {}
      invariant todo <= current.Keys
      invariant RemovesEach(plans, RemovedServices(manifest, current) - todo, current)
      invariant involved == MachinesOfRemoved(RemovedServices(manifest, current) - todo, current)
      decreases todo
    {
      var service :| service in todo;
      ghost var before := RemovedServices(manifest, current) - todo;
      todo := todo - {service};
      ghost var after := RemovedServices(manifest, current) - todo;
      if exists spec :: spec in manifest.services && spec.name == service {
        assert after == before;
        continue;
      }
      assert after == before + {service};
      var slots := current[service].release.slots;
      involved := involved + SlotMachines(slots);
      var plan := ServicePlan(
        service, PrimaryHash(current, service), None,
        seq(|slots|, i requires 0 <= i < |slots| => RemoveSlot(slots[i])), Remove);
      RemovesOneMore(plans, before, current, plan);
      plans := plans + [plan];
    }
    assert RemovedServices(manifest, current) - todo == RemovedServices(manifest, current);
  }

  lemma RemovesOneMore(plans: seq<ServicePlan>, services: set<string>, current: Current, plan: ServicePlan)
    requires services <= current.Keys && RemovesEach(plans, services, current)
    requires plan.service in current && plan.service !in services && plan == RemoveService(current, plan.service)
    ensures RemovesEach(plans + [plan], services + {plan.service}, current)
  {
    var all := plans + [plan];
    forall s | s in services + {plan.service} ensures exists i :: 0 <= i < |all| && all[i].service == s {
      if s == plan.service {
        assert all[|plans|].service == s;
      } else {
        var i :| 0 <= i < |plans| && plans[i].service == s;
        assert all[i].service == s;
      }
    }
  }

  /** The loop over the manifest's services. */
  method PlanServices(specs: seq<ServiceSpec>, machines: seq<MachineId>, current: Current, hash: Hasher)
    returns (services: seq<ServicePlan>, participants: set<MachineId>)
    requires Placeable(specs)
    ensures |services| == |specs|
    ensures forall k :: 0 <= k < |specs| ==> services[k] == PlanService(specs[k], machines, current, hash)
    ensures participants == (set m | m in machines) + MachinesOfServices(specs, machines, current)
  {
    hide PlanService, MachinesOfService;
    participants := set m | m in machines;
    services := [];
    for i := 0 to |specs|
      invariant participants == (set m | m in machines) + MachinesOfServices(specs[..i], machines, current)
      invariant |services| == i
      invariant forall k :: 0 <= k < i ==> services[k] == PlanService(specs[k], machines, current, hash)
    {
      var plan, involved := PlanOne(specs[i], machines, current, hash);
      MachinesOfOneMore(specs, i, machines, current);
      participants := participants + involved;
      services := services + [plan];
    }
    assert specs[..|specs|] == specs;
  }

  lemma MachinesOfOneMore(specs: seq<ServiceSpec>, i: nat, machines: seq<MachineId>, current: Current)
    requires i < |specs|
    ensures MachinesOfServices(specs[..i + 1], machines, current) ==
      MachinesOfServices(specs[..i], machines, current) + MachinesOfService(specs[i], machines, current)
  {
    assert specs[..i + 1] == specs[..i] + [specs[i]];
  }

  lemma OneOfServices(specs: seq<ServiceSpec>, i: nat, machines: seq<MachineId>, current: Current)
    requires i < |specs|
    ensures MachinesOfService(specs[i], machines, current) <= MachinesOfServices(specs, machines, current)
  {
  }

  method Plan(manifest: DeployManifest, machines: seq<MachineId>, current: Current, hash: Hasher)
    returns (r: Result<DeployPreview, string>)
    ensures r.Err? <==> !ValidManifest(manifest)
    ensures r.Ok? ==> IsPreview(r.value, manifest, machines, current, hash)
  {
    if !ValidManifest(manifest) { return Err("invalid manifest"); }
    ValidManifestPlaceable(manifest);
    var services, participants := PlanServices(manifest.services, machines, current, hash);
    var removals, involved := PlanRemovals(manifest, current);
    assert (services + removals)[|manifest.services|..] == removals;
    r := Ok(DeployPreview(manifest.namespace, participants + involved, services + removals));
  }

  /** Every machine that a wanted or existing slot names takes part. */
  lemma ServiceMachinesParticipate(manifest: DeployManifest, machines: seq<MachineId>, current: Current)
    ensures MachinesOfServices(manifest.services, machines, current) <= Participants(manifest, machines, current)
  {
  }
}
