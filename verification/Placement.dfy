/** Which machines may run a service, and which slots a service wants on them. */
module Placement {
  import opened Arithmetic
  import opened Model
  import opened Permutations
  import opened Sorting
  import opened Strings

  const STALE_HEARTBEAT_SECS: nat := 30

  predicate MachineIsFresh(m: MachineRecord, now: nat) {
    && m.status != Down
    && m.lastHeartbeat != 0
    && now - m.lastHeartbeat <= STALE_HEARTBEAT_SECS
  }

  predicate Deployable(m: MachineRecord, now: nat) {
    m.participation == Enabled && MachineIsFresh(m, now)
  }

  function DeployableId(now: nat): MachineRecord -> seq<MachineId> {
    m => if Deployable(m, now) then [m.id] else []
  }

  function DeployableIds(machines: seq<MachineRecord>, now: nat): seq<MachineId> {
    Flat(DeployableId(now), machines)
  }

  /** Enabled machines with a fresh heartbeat, sorted; the local machine when there are none. */
  function DeployableMachines(machines: seq<MachineRecord>, local: MachineId, now: nat): (ids: seq<MachineId>)
    ensures ids != []
  {
    var enabled := Sort(StrLe, DeployableIds(machines, now));
    if enabled == [] then [local] else enabled
  }

  lemma {:induction false} DeployableIdsMember(machines: seq<MachineRecord>, now: nat, id: MachineId)
    ensures id in DeployableIds(machines, now) <==> exists m :: m in machines && Deployable(m, now) && m.id == id
  {
    if machines != [] {
      var n := |machines| - 1;
      DeployableIdsMember(machines[..n], now, id);
      assert forall m :: m in machines <==> m in machines[..n] || m == machines[n];
    }
  }

  /** Enabled, not known to be down, and heard from within the last 30 seconds. */
  ghost predicate Eligible(m: MachineRecord, now: nat) {
    m.participation == Enabled && m.status != Down && m.lastHeartbeat != 0 && now <= m.lastHeartbeat + 30
  }

  /** The candidates are exactly the enabled machines with a recent sign of life, or the local one if there are none. */
  lemma DeployableMachinesExact(machines: seq<MachineRecord>, local: MachineId, now: nat, id: MachineId)
    ensures id in DeployableMachines(machines, local, now) <==>
      || (exists m :: m in machines && m.id == id && Eligible(m, now))
      || (id == local && forall m :: m in machines ==> !Eligible(m, now))
  {
    var ids := DeployableIds(machines, now);
    DeployableIdsMember(machines, now, id);
    assert id in Sort(StrLe, ids) <==> id in multiset(ids);
    if ids == [] {
      forall m | m in machines ensures !Deployable(m, now) { DeployableIdsMember(machines, now, m.id); }
    } else {
      DeployableIdsMember(machines, now, ids[0]);
      assert |multiset(Sort(StrLe, ids))| == |multiset(ids)|;
    }
  }

  lemma StrLeTotalPreorder()
    ensures TotalPreorder(StrLe)
  {
    forall x, y ensures StrLe(x, y) || StrLe(y, x) { StrLeTotal(x, y); }
    forall x, y, z | StrLe(x, y) && StrLe(y, z) ensures StrLe(x, z) { StrLeTransitive(x, y, z); }
  }

  /** The candidate list does not depend on the order in which the store lists machines. */
  lemma DeployableMachinesPermute(s: seq<MachineRecord>, t: seq<MachineRecord>, local: MachineId, now: nat)
    requires multiset(s) == multiset(t)
    ensures DeployableMachines(s, local, now) == DeployableMachines(t, local, now)
  {
    var a, b := DeployableIds(s, now), DeployableIds(t, now);
    FlatPermutes(DeployableId(now), s, t);
    StrLeTotalPreorder();
    SortSorted(StrLe, a);
    SortSorted(StrLe, b);
    forall x, y | StrLe(x, y) && StrLe(y, x) ensures x == y { StrLeAntisymmetric(x, y); }
    SortedUnique(StrLe, Sort(StrLe, a), Sort(StrLe, b));
  }

  /** The candidates are in the order of their ids. */
  lemma CandidatesSorted(machines: seq<MachineRecord>, local: MachineId, now: nat, i: nat, j: nat)
    requires i < j < |DeployableMachines(machines, local, now)|
    ensures StrLe(DeployableMachines(machines, local, now)[i], DeployableMachines(machines, local, now)[j])
  {
    StrLeTotalPreorder();
    SortSorted(StrLe, DeployableIds(machines, now));
  }

  // ---------------------------------------------------------------------------
  // Slots
  // ---------------------------------------------------------------------------

  datatype DesiredSlot = DesiredSlot(slotId: SlotId, machineId: MachineId)

  function SlotNumber(index: nat): string { ZeroPad(Decimal(index + 1), 4) }

  /** `slot-0001`, `slot-0002`, ... */
  function SlotIdAt(index: nat): SlotId { "slot-" + SlotNumber(index) }

  lemma {:induction false} SlotNumberValue(index: nat)
    ensures DecimalValue(SlotNumber(index)) == index + 1
  {
    ZeroPadValue(Decimal(index + 1), 4);
    DecimalRoundTrip(index + 1);
  }

  lemma {:induction false} SlotIdsDistinct(i: nat, j: nat)
    requires SlotIdAt(i) == SlotIdAt(j)
    ensures i == j
  {
    SlotNumberValue(i);
    SlotNumberValue(j);
    SamePrefix("slot-", SlotNumber(i), SlotNumber(j));
  }

  lemma SamePrefix(p: string, a: string, b: string)
    requires p + a == p + b
    ensures a == b
  {
    assert a == (p + a)[|p|..];
  }

  function FindSlot(slots: seq<Slot>, id: SlotId): Option<Slot> {
    if slots == [] then None else if slots[0].slotId == id then Some(slots[0]) else FindSlot(slots[1..], id)
  }

  lemma {:induction false} FindSlotAt(slots: seq<Slot>, id: SlotId)
    ensures FindSlot(slots, id).Some? ==> FindSlot(slots, id).value in slots && FindSlot(slots, id).value.slotId == id
    ensures FindSlot(slots, id).None? <==> forall s :: s in slots ==> s.slotId != id
  {
    if slots != [] && slots[0].slotId != id { FindSlotAt(slots[1..], id); }
  }

  function Candidates(machines: seq<MachineId>): (c: seq<MachineId>)
    ensures c != []
  {
    if machines == [] then ["local"] else machines
  }

  /** A slot that exists keeps its machine; a new one goes round robin. */
  function MachineFor(index: nat, candidates: seq<MachineId>, current: seq<Slot>): MachineId
    requires candidates != []
  {
    match FindSlot(current, SlotIdAt(index))
    case Some(slot) => slot.machineId
    case None => candidates[index % |candidates|]
  }

  function DesiredSlots(spec: ServiceSpec, machines: seq<MachineId>, current: seq<Slot>): seq<DesiredSlot> {
    var candidates := Candidates(machines);
    match spec.placement
    case Replicated(count) =>
      seq(count, i requires 0 <= i < count => DesiredSlot(SlotIdAt(i), MachineFor(i, candidates, current)))
    case Global =>
      seq(|candidates|, i requires 0 <= i < |candidates| => DesiredSlot("slot-" + candidates[i], candidates[i]))
  }

  /** The source's loops; zero replicas is the only error. */
  method ComputeDesiredSlots(spec: ServiceSpec, machines: seq<MachineId>, current: seq<Slot>)
    returns (r: Result<seq<DesiredSlot>, string>)
    ensures r.Err? <==> spec.placement == Replicated(0)
    ensures r.Ok? ==> r.value == DesiredSlots(spec, machines, current)
  {
    var candidates := Candidates(machines);
    var desired: seq<DesiredSlot> := [];
    match spec.placement
    case Replicated(count) =>
      if count == 0 { return Err("zero replicas"); }
      for index := 0 to count
        invariant desired == DesiredSlots(spec, machines, current)[..index]
      {
        var slotId := SlotIdAt(index);
        var existing := FindSlot(current, slotId);
        var machineId := candidates[index % |candidates|];
        if existing.Some? { machineId := existing.value.machineId; }
        desired := desired + [DesiredSlot(slotId, machineId)];
      }
      return Ok(desired);
    case Global =>
      for index := 0 to |candidates|
        invariant desired == DesiredSlots(spec, machines, current)[..index]
      {
        desired := desired + [DesiredSlot("slot-" + candidates[index], candidates[index])];
      }
      return Ok(desired);
  }

  /** A replicated service of count n wants n distinct slots, and settled slots do not move. */
  lemma ReplicatedPlacement(spec: ServiceSpec, machines: seq<MachineId>, current: seq<Slot>)
    requires spec.placement.Replicated?
    ensures
      var desired := DesiredSlots(spec, machines, current);
      && |desired| == spec.placement.count
      && (forall i, j :: 0 <= i < j < |desired| ==> desired[i].slotId != desired[j].slotId)
      && (forall d :: d in desired && FindSlot(current, d.slotId).Some? ==>
            d.machineId == FindSlot(current, d.slotId).value.machineId)
      && (forall d :: d in desired && FindSlot(current, d.slotId).None? ==> d.machineId in Candidates(machines))
  {
    var desired := DesiredSlots(spec, machines, current);
    forall i, j | 0 <= i < j < |desired| ensures desired[i].slotId != desired[j].slotId {
      if SlotIdAt(i) == SlotIdAt(j) { SlotIdsDistinct(i, j); }
    }
  }

  ghost predicate DistinctIds(ids: seq<MachineId>) {
    forall i, j :: 0 <= i < j < |ids| ==> ids[i] != ids[j]
  }

  /** Slot ids of one service are distinct whenever the candidates are. */
  lemma DesiredSlotIdsDistinct(spec: ServiceSpec, machines: seq<MachineId>, current: seq<Slot>)
    requires spec.placement.Global? ==> DistinctIds(Candidates(machines))
    ensures
      var desired := DesiredSlots(spec, machines, current);
      forall i, j :: 0 <= i < j < |desired| ==> desired[i].slotId != desired[j].slotId
  {
    if spec.placement.Replicated? {
      ReplicatedPlacement(spec, machines, current);
    } else {
      var c := Candidates(machines);
      forall i, j | 0 <= i < j < |c| ensures "slot-" + c[i] != "slot-" + c[j] {
        if "slot-" + c[i] == "slot-" + c[j] { SamePrefix("slot-", c[i], c[j]); }
      }
    }
  }

  /** How many of the first `n` desired slots fall on `machine`. */
  ghost function Load(desired: seq<DesiredSlot>, machine: MachineId): nat {
    if desired == [] then 0
    else Load(desired[..|desired| - 1], machine) + if desired[|desired| - 1].machineId == machine then 1 else 0
  }

  lemma {:induction false} RoundRobinLoad(
    spec: ServiceSpec, machines: seq<MachineId>, desired: seq<DesiredSlot>, n: nat, j: nat)
    requires spec.placement.Replicated? && machines != [] && DistinctIds(machines) && j < |machines|
    requires desired == DesiredSlots(spec, machines, []) && n <= |desired|
    ensures Load(desired[..n], machines[j]) == n / |machines| + if j < n % |machines| then 1 else 0
  {
    if n > 0 {
      var k := |machines|;
      RoundRobinLoad(spec, machines, desired, n - 1, j);
      assert desired[..n][..n - 1] == desired[..n - 1];
      assert desired[n - 1].machineId == machines[(n - 1) % k];
      assert desired[n - 1].machineId == machines[j] <==> (n - 1) % k == j;
      StepDivMod(n - 1, k);
    }
  }

  /** A first deploy spreads evenly: the loads of two machines differ by at most one. */
  lemma FirstPlacementIsBalanced(spec: ServiceSpec, machines: seq<MachineId>, i: nat, j: nat)
    requires spec.placement.Replicated? && DistinctIds(machines) && i < |machines| && j < |machines|
    ensures
      var desired := DesiredSlots(spec, machines, []);
      Load(desired, machines[i]) <= Load(desired, machines[j]) + 1
  {
    var desired := DesiredSlots(spec, machines, []);
    assert desired[..|desired|] == desired;
    RoundRobinLoad(spec, machines, desired, |desired|, i);
    RoundRobinLoad(spec, machines, desired, |desired|, j);
  }
}
