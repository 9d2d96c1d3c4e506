/** What a preview says, told from the manifest, the candidate machines and the current releases alone. */
module Previews {
  import opened Model
  import opened Placement
  import opened Planner
  import opened Strings

  /** The first current slot of the service with this id. */
  ghost predicate CurrentSlot(current: Current, service: string, id: SlotId, slot: Slot) {
    service in current &&
    var slots := current[service].release.slots;
    exists i :: 0 <= i < |slots| && slots[i] == slot && slot.slotId == id &&
      forall j :: 0 <= j < i ==> slots[j].slotId != id
  }

  ghost predicate NoCurrentSlot(current: Current, service: string, id: SlotId) {
    service in current ==> forall slot :: slot in current[service].release.slots ==> slot.slotId != id
  }

  lemma {:induction false} FindSlotFirst(slots: seq<Slot>, id: SlotId) returns (i: nat)
    requires FindSlot(slots, id).Some?
    ensures i < |slots| && slots[i] == FindSlot(slots, id).value && slots[i].slotId == id
    ensures forall j :: 0 <= j < i ==> slots[j].slotId != id
  {
    if slots[0].slotId == id {
      i := 0;
    } else {
      var k := FindSlotFirst(slots[1..], id);
      i := k + 1;
      forall j | 0 <= j < i ensures slots[j].slotId != id {
        if j > 0 { assert slots[j] == slots[1..][j - 1]; }
      }
    }
  }

  lemma CurrentSlotFound(current: Current, service: string, id: SlotId, slot: Slot)
    ensures CurrentSlot(current, service, id, slot) <==> FindSlot(SlotsOf(current, service), id) == Some(slot)
  {
    var slots := SlotsOf(current, service);
    FindSlotAt(slots, id);
    if FindSlot(slots, id).Some? {
      var k := FindSlotFirst(slots, id);
    }
  }

  lemma NoCurrentSlotFound(current: Current, service: string, id: SlotId)
    ensures NoCurrentSlot(current, service, id) <==> FindSlot(SlotsOf(current, service), id) == None
  {
    FindSlotAt(SlotsOf(current, service), id);
  }

  /**
   * The plan of a slot: new exactly when no current slot has its id, unchanged exactly when the one
   * that has it is on the same machine and at the wanted revision, and replaced otherwise.
   */
  lemma SlotPlanExact(
    p: DeployPreview, manifest: DeployManifest, machines: seq<MachineId>, current: Current, hash: Hasher, i: nat,
    j: nat)
    requires IsPreview(p, manifest, machines, current, hash)
    requires i < |manifest.services| && j < |p.services[i].slots|
    ensures
      var name, wanted, plan := manifest.services[i].name, hash(manifest.services[i]), p.services[i].slots[j];
      && plan.nextRevisionHash == Some(wanted) && plan.action != Remove
      && (plan.action == Create <==> NoCurrentSlot(current, name, plan.slotId))
      && (plan.action == Create ==> plan.currentInstanceId == None && plan.currentRevisionHash == None)
      && forall slot :: CurrentSlot(current, name, plan.slotId, slot) ==>
        && (plan.action == Unchanged <==> slot.machineId == plan.machineId && slot.revisionHash == wanted)
        && plan.currentInstanceId == Some(slot.activeInstanceId)
        && plan.currentRevisionHash == Some(slot.revisionHash)
  {
    hide Participants, RemovesEach, CurrentSlot, NoCurrentSlot, FindSlot, DesiredSlots, SlotsOf;
    var name, plan := manifest.services[i].name, p.services[i].slots[j];
    NoCurrentSlotFound(current, name, plan.slotId);
    forall slot
      ensures CurrentSlot(current, name, plan.slotId, slot) <==>
        FindSlot(SlotsOf(current, name), plan.slotId) == Some(slot)
    {
      CurrentSlotFound(current, name, plan.slotId, slot);
    }
  }

  /** Every slot id is that of a current slot or of none. */
  lemma SlotIsCurrentOrNot(current: Current, service: string, id: SlotId)
    ensures NoCurrentSlot(current, service, id) <==> forall slot :: !CurrentSlot(current, service, id, slot)
  {
    hide CurrentSlot, NoCurrentSlot, FindSlot;
    NoCurrentSlotFound(current, service, id);
    forall slot
      ensures CurrentSlot(current, service, id, slot) <==> FindSlot(SlotsOf(current, service), id) == Some(slot)
    {
      CurrentSlotFound(current, service, id, slot);
    }
  }

  /** How many slots a service gets: one on every candidate, or as many as it asks for. */
  lemma PlannedSlotCount(
    p: DeployPreview, manifest: DeployManifest, machines: seq<MachineId>, current: Current, hash: Hasher, i: nat)
    requires IsPreview(p, manifest, machines, current, hash) && i < |manifest.services| && machines != []
    ensures |p.services[i].slots| ==
      match manifest.services[i].placement case Global => |machines| case Replicated(count) => count
  {
    hide Participants, RemovesEach;
  }

  /** Where they go: on its candidate, or where the slot is now, or in turn. */
  lemma PlannedSlotExact(
    p: DeployPreview, manifest: DeployManifest, machines: seq<MachineId>, current: Current, hash: Hasher, i: nat,
    j: nat)
    requires IsPreview(p, manifest, machines, current, hash) && i < |manifest.services| && machines != []
    requires j < |p.services[i].slots|
    ensures
      var spec, plan := manifest.services[i], p.services[i].slots[j];
      && (spec.placement.Global? ==>
        j < |machines| && plan.machineId == machines[j] && plan.slotId == "slot-" + machines[j])
      && (spec.placement.Replicated? ==>
        && plan.slotId == SlotIdAt(j)
        && (NoCurrentSlot(current, spec.name, plan.slotId) ==> plan.machineId == machines[j % |machines|])
        && forall slot :: CurrentSlot(current, spec.name, plan.slotId, slot) ==> plan.machineId == slot.machineId)
  {
    hide Participants, RemovesEach, CurrentSlot, NoCurrentSlot, FindSlot, SlotIdAt, SlotsOf;
    var name, plan := manifest.services[i].name, p.services[i].slots[j];
    NoCurrentSlotFound(current, name, plan.slotId);
    forall slot
      ensures CurrentSlot(current, name, plan.slotId, slot) <==>
        FindSlot(SlotsOf(current, name), plan.slotId) == Some(slot)
    {
      CurrentSlotFound(current, name, plan.slotId, slot);
    }
  }

  /** The first slot of a service is "slot-0001", and numbers that need more than four digits have them. */
  lemma SlotNames()
    ensures SlotIdAt(0) == "slot-0001" && SlotIdAt(9999) == "slot-10000"
  {
    assert Decimal(1) == "1" && "0" + "1" == "01" && "0" + "01" == "001" && "0" + "001" == "0001";
    assert ZeroPad("0001", 4) == "0001" && ZeroPad("001", 4) == "0001" && ZeroPad("01", 4) == "0001";
    assert ZeroPad("1", 4) == "0001";
    assert Decimal(10) == "10" && Decimal(100) == "100" && Decimal(1000) == "1000" && Decimal(10000) == "10000";
  }

  /**
   * The plan of a service: unchanged exactly when its release is at the wanted revision and all its
   * slots stay, new exactly when it has no release, and replaced otherwise.
   */
  lemma ServicePlanExact(
    p: DeployPreview, manifest: DeployManifest, machines: seq<MachineId>, current: Current, hash: Hasher, i: nat)
    requires IsPreview(p, manifest, machines, current, hash) && i < |manifest.services|
    ensures
      var spec, plan := manifest.services[i], p.services[i];
      && plan.service == spec.name && plan.nextRevisionHash == Some(hash(spec))
      && (plan.action == Create <==> spec.name !in current)
      && (plan.action == Unchanged <==>
        && spec.name in current && current[spec.name].release.primaryRevisionHash == hash(spec)
        && forall s :: s in plan.slots ==> s.action == Unchanged)
      && plan.action != Remove
      && (spec.name !in current ==> plan.currentRevisionHash == None)
      && (spec.name in current ==>
        plan.currentRevisionHash == Some(current[spec.name].release.primaryRevisionHash))
  {
    hide Participants, RemovesEach, PlanSlots, DesiredSlots;
  }

  /** Every plan past those is the removal of one service that is deployed and not in the manifest. */
  lemma RemovalPlanExact(
    p: DeployPreview, manifest: DeployManifest, machines: seq<MachineId>, current: Current, hash: Hasher, i: nat)
    requires IsPreview(p, manifest, machines, current, hash) && |manifest.services| <= i < |p.services|
    ensures
      var plan := p.services[i];
      && plan.service in current && (forall spec :: spec in manifest.services ==> spec.name != plan.service)
      && plan.action == Remove && plan.nextRevisionHash == None
      && var slots := current[plan.service].release.slots;
      && |plan.slots| == |slots|
      && forall j :: 0 <= j < |slots| ==>
        && plan.slots[j].slotId == slots[j].slotId && plan.slots[j].machineId == slots[j].machineId
        && plan.slots[j].currentInstanceId == Some(slots[j].activeInstanceId)
        && plan.slots[j].nextRevisionHash == None && plan.slots[j].action == Remove
  {
    hide Participants, PlanService;
    var n := |manifest.services|;
    assert p.services[i] == p.services[n..][i - n];
  }

  /** And there is one for every such service. */
  lemma RemovalsComplete(
    p: DeployPreview, manifest: DeployManifest, machines: seq<MachineId>, current: Current, hash: Hasher,
    service: string)
    requires IsPreview(p, manifest, machines, current, hash)
    requires service in current && forall spec :: spec in manifest.services ==> spec.name != service
    ensures exists i :: |manifest.services| <= i < |p.services| && p.services[i].service == service
  {
    hide Participants, PlanService;
    var n := |manifest.services|;
    assert service in RemovedServices(manifest, current);
    var k :| 0 <= k < |p.services[n..]| && p.services[n..][k].service == service;
    assert p.services[n + k].service == service;
  }

  /** Those take part that are candidates, are planned for a slot, or have one now. */
  lemma ParticipantsExact(
    p: DeployPreview, manifest: DeployManifest, machines: seq<MachineId>, current: Current, hash: Hasher, m: MachineId)
    requires IsPreview(p, manifest, machines, current, hash)
    ensures m in p.participants <==> m in machines || PlannedOn(p, m) || HasSlotOn(current, m)
  {
    hide RemovesEach, PlanService;
    var n := |manifest.services|;
    if m in MachinesOfServices(manifest.services, machines, current) {
      var spec :| spec in manifest.services && m in MachinesOfService(spec, machines, current);
      var i :| 0 <= i < n && manifest.services[i] == spec;
      ServiceInvolves(p, manifest, machines, current, hash, i, m);
    }
    if m in MachinesOfRemoved(RemovedServices(manifest, current), current) {
      assert HasSlotOn(current, m);
    }
    if PlannedOn(p, m) {
      var i, j :| 0 <= i < |p.services| && 0 <= j < |p.services[i].slots| && p.services[i].slots[j].machineId == m;
      if i < n {
        ServiceInvolves(p, manifest, machines, current, hash, i, m);
        OneOfServices(manifest.services, i, machines, current);
      } else {
        RemovalPlanExact(p, manifest, machines, current, hash, i);
        assert current[p.services[i].service].release.slots[j].machineId == m;
      }
    }
    if HasSlotOn(current, m) { SlotHoldersParticipate(manifest, machines, current, m); }
  }

  ghost predicate PlannedOn(p: DeployPreview, m: MachineId) {
    exists i, j :: 0 <= i < |p.services| && 0 <= j < |p.services[i].slots| && p.services[i].slots[j].machineId == m
  }

  ghost predicate HasSlotOn(current: Current, m: MachineId) {
    exists s, slot :: s in current && slot in current[s].release.slots && slot.machineId == m
  }

  lemma ServiceInvolves(
    p: DeployPreview, manifest: DeployManifest, machines: seq<MachineId>, current: Current, hash: Hasher, i: nat,
    m: MachineId)
    requires IsPreview(p, manifest, machines, current, hash) && i < |manifest.services|
    ensures m in MachinesOfService(manifest.services[i], machines, current) ==> PlannedOn(p, m) || HasSlotOn(current, m)
    ensures (exists j :: 0 <= j < |p.services[i].slots| && p.services[i].slots[j].machineId == m) ==>
      m in MachinesOfService(manifest.services[i], machines, current)
  {
    hide RemovesEach, Participants, DesiredSlots;
    var spec := manifest.services[i];
    var slots := SlotsOf(current, spec.name);
    var desired := DesiredSlots(spec, machines, slots);
    if m in MachinesOfService(spec, machines, current) {
      if m in DesiredMachines(desired) {
        var d :| d in desired && d.machineId == m;
        var j :| 0 <= j < |desired| && desired[j] == d;
        assert p.services[i].slots[j].machineId == m;
      } else {
        var slot :| slot in slots && slot.machineId == m;
        assert spec.name in current;
      }
    }
    if j :| 0 <= j < |p.services[i].slots| && p.services[i].slots[j].machineId == m {
      assert desired[j] in desired;
    }
  }

  lemma SlotHoldersParticipate(manifest: DeployManifest, machines: seq<MachineId>, current: Current, m: MachineId)
    requires HasSlotOn(current, m)
    ensures m in Participants(manifest, machines, current)
  {
    var s, slot :| s in current && slot in current[s].release.slots && slot.machineId == m;
    if Named(manifest, s) {
      var spec :| spec in manifest.services && spec.name == s;
      assert m in MachinesOfService(spec, machines, current);
    } else {
      assert s in RemovedServices(manifest, current) && m in SlotMachines(current[s].release.slots);
    }
  }

  /** What is wrong with a manifest that gets no preview. */
  datatype Defect =
    | BlankNamespace
    | NoServices
    | SameName(i: nat, j: nat)
    | BlankName(k: nat)
    | ZeroReplicas(k: nat)
    | BlankPort(k: nat, i: nat)
    | SamePort(k: nat, i: nat, j: nat)
    | UnknownPort(k: nat, i: nat)

  ghost predicate Has(manifest: DeployManifest, d: Defect) {
    var services := manifest.services;
    match d
    case BlankNamespace => Trim(manifest.namespace) == ""
    case NoServices => services == []
    case SameName(i, j) => i < j < |services| && services[i].name == services[j].name
    case BlankName(k) => k < |services| && Trim(services[k].name) == ""
    case ZeroReplicas(k) => k < |services| && services[k].placement == Replicated(0)
    case BlankPort(k, i) =>
      k < |services| && i < |services[k].servicePorts| && Trim(services[k].servicePorts[i].name) == ""
    case SamePort(k, i, j) =>
      k < |services| && i < j < |services[k].servicePorts| &&
      services[k].servicePorts[i].name == services[k].servicePorts[j].name
    case UnknownPort(k, i) =>
      k < |services| && i < |services[k].routes| &&
      forall p :: p in services[k].servicePorts ==> p.name != services[k].routes[i].servicePort
  }

  /** A preview is refused exactly for a manifest with one of these defects. */
  lemma RefusedExactly(manifest: DeployManifest)
    ensures !ValidManifest(manifest) <==> exists d :: Has(manifest, d)
  {
    if d :| Has(manifest, d) { DefectIsRefused(manifest, d); }
    if !ValidManifest(manifest) {
      var d := FindDefect(manifest);
    }
  }

  lemma DefectIsRefused(manifest: DeployManifest, d: Defect)
    requires Has(manifest, d)
    ensures !ValidManifest(manifest)
  {
    hide Trim;
    if !(d.BlankNamespace? || d.NoServices? || d.SameName?) {
      var spec := manifest.services[d.k];
      assert spec in manifest.services;
      if d.UnknownPort? { assert spec.routes[d.i] in spec.routes; }
    }
  }

  lemma FindDefect(manifest: DeployManifest) returns (d: Defect)
    requires !ValidManifest(manifest)
    ensures Has(manifest, d)
  {
    var services := manifest.services;
    if Trim(manifest.namespace) == "" {
      d := BlankNamespace;
    } else if services == [] {
      d := NoServices;
    } else if i, j :| 0 <= i < j < |services| && services[i].name == services[j].name {
      d := SameName(i, j);
    } else {
      var spec :| spec in services && !ValidSpec(spec);
      var k :| 0 <= k < |services| && services[k] == spec;
      d := FindSpecDefect(manifest, k);
    }
  }

  lemma FindSpecDefect(manifest: DeployManifest, k: nat) returns (d: Defect)
    requires k < |manifest.services| && !ValidSpec(manifest.services[k])
    ensures Has(manifest, d)
  {
    var spec := manifest.services[k];
    if Trim(spec.name) == "" {
      d := BlankName(k);
    } else if spec.placement == Replicated(0) {
      d := ZeroReplicas(k);
    } else if i :| 0 <= i < |spec.servicePorts| && Trim(spec.servicePorts[i].name) == "" {
      d := BlankPort(k, i);
    } else if i, j :| 0 <= i < j < |spec.servicePorts| && spec.servicePorts[i].name == spec.servicePorts[j].name {
      d := SamePort(k, i, j);
    } else {
      var r :| r in spec.routes && forall p :: p in spec.servicePorts ==> p.name != r.servicePort;
      var i :| 0 <= i < |spec.routes| && spec.routes[i] == r;
      d := UnknownPort(k, i);
    }
  }
}
