/** The mesh's table of peers: stored ones from the machine table, transient ones from elsewhere. */
module PeerMap {
  import opened Model
  import opened Peers
  import opened RowCaches
  import opened Store

  type PeerTable = map<MachineId, Peer>

  /** Every peer sits under its own id and is well formed. */
  ghost predicate ValidTable(t: PeerTable) {
    forall id :: id in t ==> t[id].id == id && WellFormed(t[id])
  }

  function Upserted(t: PeerTable, m: MachineRecord, now: Time): PeerTable {
    t[m.id := if m.id in t then UpdatedFrom(t[m.id], m) else FromRecord(m, now)]
  }

  /** Records of machines not known yet are taken over, the first one for each machine. */
  function WithSnapshot(t: PeerTable, records: seq<MachineRecord>, now: Time): PeerTable {
    if records == [] then t
    else
      var before, m := WithSnapshot(t, records[..|records| - 1], now), records[|records| - 1];
      if m.id in before then before else before[m.id := FromRecord(m, now)]
  }

  /** A known machine keeps its peer; a new one gets the peer of its first record. */
  lemma {:induction false} SnapshotKeeps(t: PeerTable, records: seq<MachineRecord>, now: Time, id: MachineId)
    ensures id in t ==> id in WithSnapshot(t, records, now) && WithSnapshot(t, records, now)[id] == t[id]
    ensures id !in t && id in WithSnapshot(t, records, now) ==>
      exists i :: 0 <= i < |records| && records[i].id == id && (forall j :: 0 <= j < i ==> records[j].id != id)
        && WithSnapshot(t, records, now)[id] == FromRecord(records[i], now)
    ensures id !in WithSnapshot(t, records, now) ==> forall i :: 0 <= i < |records| ==> records[i].id != id
  {
    if records != [] {
      var n := |records| - 1;
      SnapshotKeeps(t, records[..n], now, id);
      assert forall i :: 0 <= i < n ==> records[..n][i] == records[i];
    }
  }

  /** The report for a key: when the device lists a key twice, the later entry counts. */
  function DeviceFor(devices: seq<DevicePeer>, key: string): Option<DevicePeer> {
    if devices == [] then None
    else if devices[|devices| - 1].publicKey == key then Some(devices[|devices| - 1])
    else DeviceFor(devices[..|devices| - 1], key)
  }

  function SeededBy(p: Peer, devices: seq<DevicePeer>, now: Time): Peer {
    var d := DeviceFor(devices, p.publicKey);
    if d.Some? then Seeded(p, d.value, now) else p
  }

  function SeededTable(t: PeerTable, devices: seq<DevicePeer>, now: Time): PeerTable {
    map id | id in t :: SeededBy(t[id], devices, now)
  }

  function RefreshedBy(p: Peer, devices: seq<DevicePeer>, now: Time): (Peer, bool) {
    Refreshed(p, DeviceFor(devices, p.publicKey), now)
  }

  function RefreshedTable(t: PeerTable, devices: seq<DevicePeer>, now: Time): PeerTable {
    map id | id in t :: RefreshedBy(t[id], devices, now).0
  }

  predicate AnyMoved(t: PeerTable, devices: seq<DevicePeer>, now: Time) {
    exists id :: id in t && RefreshedBy(t[id], devices, now).1
  }

  // ---------------------------------------------------------------------------
  // The plan
  // ---------------------------------------------------------------------------

  function PlannedRecord(p: Peer): MachineRecord {
    MachineRecord(p.id, p.publicKey, p.overlayIp, p.subnet, p.bridgeIp, PlannedEndpoints(p), Unknown, Disabled, 0)
  }

  /** Every peer but the local machine that can be reached somewhere; a stored peer hides a transient one. */
  function PlanOf(stored: PeerTable, transient: PeerTable, local: MachineId): map<MachineId, MachineRecord> {
    var peers := transient + stored;
    map id | id in peers && id != local && peers[id].runtime.endpoints != [] :: PlannedRecord(peers[id])
  }

  predicate Plannable(t: PeerTable, local: MachineId, hidden: set<MachineId>, id: MachineId) {
    id in t && id != local && id !in hidden && t[id].runtime.endpoints != []
  }

  /** The plan of one table, leaving out the ids in `hidden`. */
  function PlanIn(t: PeerTable, local: MachineId, hidden: set<MachineId>): map<MachineId, MachineRecord> {
    map id | id in t && Plannable(t, local, hidden, id) :: PlannedRecord(t[id])
  }

  /** The planned records of one table, in an order of the table's own choosing. */
  method PlanTable(t: PeerTable, local: MachineId, hidden: set<MachineId>) returns (planned: seq<MachineRecord>)
    requires ValidTable(t)
    ensures Lists(MachineKey, planned, PlanIn(t, local, hidden))
  {
    planned := [];
    var todo := t.Keys;
    while todo != {}
      invariant todo <= t.Keys
      invariant forall i :: 0 <= i < |planned| ==>
        var id := planned[i].id; Plannable(t, local, hidden, id) && planned[i] == PlannedRecord(t[id]) && id !in todo
      invariant forall id :: Plannable(t, local, hidden, id) && id !in todo ==> PlannedRecord(t[id]) in planned
      invariant forall i, j :: 0 <= i < j < |planned| ==> planned[i].id != planned[j].id
      decreases todo
    {
      var id :| id in todo;
      todo := todo - {id};
      if t[id].id != local && t[id].id !in hidden && t[id].runtime.endpoints != [] {
        planned := planned + [PlannedRecord(t[id])];
      }
    }
  }

  lemma PlansJoin(
    a: seq<MachineRecord>, b: seq<MachineRecord>, stored: PeerTable, transient: PeerTable, local: MachineId)
    requires Lists(MachineKey, a, PlanIn(stored, local, {}))
    requires Lists(MachineKey, b, PlanIn(transient, local, stored.Keys))
    ensures Lists(MachineKey, a + b, PlanOf(stored, transient, local))
  {
    hide PlannedRecord, PlanOf, PlanIn;
    var ma, mb, m := PlanIn(stored, local, {}), PlanIn(transient, local, stored.Keys), PlanOf(stored, transient, local);
    forall k ensures Splits(ma, mb, m, k) { PlanSplit(stored, transient, local, k); }
    ListsJoin(MachineKey, a, b, ma, mb, m);
  }

  /** `m` says about `k` what exactly one of `a` and `b` says. */
  ghost predicate Splits<K, V>(a: map<K, V>, b: map<K, V>, m: map<K, V>, k: K) {
    && !(k in a && k in b)
    && (k in m <==> k in a || k in b)
    && (k in a ==> m[k] == a[k])
    && (k in b ==> m[k] == b[k])
  }

  lemma PlanSplit(stored: PeerTable, transient: PeerTable, local: MachineId, k: MachineId)
    ensures Splits(
      PlanIn(stored, local, {}), PlanIn(transient, local, stored.Keys), PlanOf(stored, transient, local), k)
  {
    hide PlannedRecord;
  }

  lemma ListsJoin<K(!new), V>(key: V -> K, a: seq<V>, b: seq<V>, ma: map<K, V>, mb: map<K, V>, m: map<K, V>)
    requires Lists(key, a, ma) && Lists(key, b, mb) && forall k :: Splits(ma, mb, m, k)
    ensures Lists(key, a + b, m)
  {
    var l := a + b;
    forall i | 0 <= i < |l| ensures key(l[i]) in m && m[key(l[i])] == l[i] {
      assert Splits(ma, mb, m, key(l[i]));
    }
    forall k | k in m ensures m[k] in l {
      assert Splits(ma, mb, m, k);
    }
    forall i, j | 0 <= i < j < |l| ensures key(l[i]) != key(l[j]) {
      if i < |a| <= j { assert Splits(ma, mb, m, key(l[i])); }
    }
  }

  // ---------------------------------------------------------------------------
  // The table as an object
  // ---------------------------------------------------------------------------

  datatype Operation =
    | Init(records: seq<MachineRecord>)
    | UpsertStoredOp(record: MachineRecord)
    | UpsertTransientOp(record: MachineRecord)
    | EventOp(event: MachineEvent)
    | RemoveTransientOp(id: MachineId)
    | SeedOp(devices: seq<DevicePeer>)
    | RefreshOp(devices: seq<DevicePeer>)
    | ProbeOp(id: MachineId, results: map<string, ProbeResult>)

  datatype Tables = Tables(stored: PeerTable, transient: PeerTable)

  function RankedTable(t: PeerTable, id: MachineId, results: map<string, ProbeResult>, now: Time): PeerTable
    requires id in t
  {
    t[id := Ranked(t[id], results, now).0]
  }

  /** What an operation makes of the tables. */
  function AfterOperation(t: Tables, op: Operation, now: Time): Tables {
    match op
    case Init(records) => t.(stored := WithSnapshot(t.stored, records, now))
    case UpsertStoredOp(m) => Tables(Upserted(t.stored, m, now), t.transient - {m.id})
    case UpsertTransientOp(m) => if m.id in t.stored then t else t.(transient := Upserted(t.transient, m, now))
    case EventOp(RemovedMachine(m)) => t.(stored := t.stored - {m.id})
    case EventOp(event) => Tables(Upserted(t.stored, event.record, now), t.transient - {event.record.id})
    case RemoveTransientOp(id) => t.(transient := t.transient - {id})
    case SeedOp(devices) => Tables(SeededTable(t.stored, devices, now), SeededTable(t.transient, devices, now))
    case RefreshOp(devices) => Tables(RefreshedTable(t.stored, devices, now), RefreshedTable(t.transient, devices, now))
    case ProbeOp(id, results) =>
      if id in t.stored then t.(stored := RankedTable(t.stored, id, results, now))
      else if id in t.transient then t.(transient := RankedTable(t.transient, id, results, now))
      else t
  }

  function AfterOperations(t: Tables, ops: seq<(Operation, Time)>, n: nat): Tables
    requires n <= |ops|
  {
    if n == 0 then t else AfterOperation(AfterOperations(t, ops, n - 1), ops[n - 1].0, ops[n - 1].1)
  }

  class PeerStateMap {
    var stored: PeerTable
    var transient: PeerTable

    ghost predicate Valid()
      reads this
    {
      ValidTable(stored) && ValidTable(transient)
    }

    ghost function Value(): Tables
      reads this
    {
      Tables(stored, transient)
    }

    constructor ()
      ensures Valid() && Value() == Tables(map[], map[])
    {
      stored, transient := map[], map[];
    }

    method InitFromSnapshot(records: seq<MachineRecord>, now: Time)
      requires Valid()
      modifies this
      ensures Valid() && transient == old(transient) && stored == WithSnapshot(old(stored), records, now)
    {
      for i := 0 to |records|
        invariant Valid() && transient == old(transient) && stored == WithSnapshot(old(stored), records[..i], now)
      {
        assert records[..i + 1][..i] == records[..i];
        RecordIsWellFormed(records[i], now);
        if records[i].id !in stored {
          stored := stored[records[i].id := FromRecord(records[i], now)];
        }
      }
      assert records[..|records|] == records;
    }

    method UpsertStored(m: MachineRecord, now: Time)
      requires Valid()
      modifies this
      ensures Valid() && stored == Upserted(old(stored), m, now) && transient == old(transient) - {m.id}
    {
      stored := UpsertInto(stored, m, now);
      transient := transient - {m.id};
    }

    method UpsertTransient(m: MachineRecord, now: Time)
      requires Valid()
      modifies this
      ensures Valid() && stored == old(stored)
      ensures transient == if m.id in stored then old(transient) else Upserted(old(transient), m, now)
    {
      if m.id in stored {
        return;
      }
      transient := UpsertInto(transient, m, now);
    }

    method ApplyEvent(event: MachineEvent, now: Time)
      requires Valid()
      modifies this
      ensures Valid()
      ensures event.RemovedMachine? ==> stored.Keys == old(stored).Keys - {event.record.id}
      ensures !event.RemovedMachine? ==> stored.Keys == old(stored).Keys + {event.record.id}
      ensures Value() == AfterOperation(old(Value()), EventOp(event), now)
    {
      match event {
        case Added(m) => UpsertStored(m, now);
        case Updated(m) => UpsertStored(m, now);
        case RemovedMachine(m) => stored := stored - {m.id};
      }
    }

    method RemoveTransient(id: MachineId)
      requires Valid()
      modifies this
      ensures Valid() && stored == old(stored) && transient == old(transient) - {id}
    {
      transient := transient - {id};
    }

    method SeedFromDevicePeers(devices: seq<DevicePeer>, now: Time)
      requires Valid()
      modifies this
      ensures Valid()
      ensures stored == SeededTable(old(stored), devices, now) && transient == SeededTable(old(transient), devices, now)
    {
      stored := SeedTable(stored, devices, now);
      transient := SeedTable(transient, devices, now);
    }

    method RefreshFromDevicePeers(devices: seq<DevicePeer>, now: Time) returns (changed: bool)
      requires Valid()
      modifies this
      ensures Valid()
      ensures stored == RefreshedTable(old(stored), devices, now)
      ensures transient == RefreshedTable(old(transient), devices, now)
      ensures changed == (AnyMoved(old(stored), devices, now) || AnyMoved(old(transient), devices, now))
    {
      hide RefreshedTable, AnyMoved;
      var moved, movedToo;
      stored, moved := RefreshTable(stored, devices, now);
      transient, movedToo := RefreshTable(transient, devices, now);
      changed := moved || movedToo;
    }

    method ApplyProbes(id: MachineId, results: map<string, ProbeResult>, now: Time) returns (changed: bool)
      requires Valid()
      modifies this
      ensures Valid() && Value() == AfterOperation(old(Value()), ProbeOp(id, results), now)
      ensures changed == if id in old(stored) then Ranked(old(stored)[id], results, now).1
                         else id in old(transient) && Ranked(old(transient)[id], results, now).1
    {
      hide Ranked;
      if id in stored {
        stored, changed := RankIn(stored, id, results, now);
      } else if id in transient {
        transient, changed := RankIn(transient, id, results, now);
      } else {
        changed := false;
      }
    }

    /** The records handed to the network: one for each peer that can be reached, none for the local machine. */
    method PlanMeshPeers(local: MachineId) returns (planned: seq<MachineRecord>)
      requires Valid()
      ensures Lists(MachineKey, planned, PlanOf(stored, transient, local))
    {
      hide PlanOf, PlanIn, Lists;
      var a := PlanTable(stored, local, {});
      var b := PlanTable(transient, local, stored.Keys);
      PlansJoin(a, b, stored, transient, local);
      planned := a + b;
    }

    method Perform(op: Operation, now: Time)
      requires Valid()
      modifies this
      ensures Valid() && Value() == AfterOperation(old(Value()), op, now)
    {
      hide Upserted, WithSnapshot, SeededTable, RefreshedTable, RankedTable, ValidTable;
      match op {
        case Init(records) => InitFromSnapshot(records, now);
        case UpsertStoredOp(m) => UpsertStored(m, now);
        case UpsertTransientOp(m) => UpsertTransient(m, now);
        case EventOp(event) => ApplyEvent(event, now);
        case RemoveTransientOp(id) => RemoveTransient(id);
        case SeedOp(devices) => SeedFromDevicePeers(devices, now);
        case RefreshOp(devices) => var changed := RefreshFromDevicePeers(devices, now);
        case ProbeOp(id, results) => var changed := ApplyProbes(id, results, now);
      }
    }
  }

  // ---------------------------------------------------------------------------
  // Borrowing a peer from a table
  // ---------------------------------------------------------------------------

  method UpsertInto(t: PeerTable, m: MachineRecord, now: Time) returns (r: PeerTable)
    requires ValidTable(t)
    ensures ValidTable(r) && r == Upserted(t, m, now)
  {
    if m.id in t {
      var p := new PeerState(t[m.id]);
      p.UpdateFromRecord(m);
      var v := p.Get();
      UpdateKeepsWellFormed(t[m.id], m);
      r := t[m.id := v];
    } else {
      RecordIsWellFormed(m, now);
      r := t[m.id := FromRecord(m, now)];
    }
  }

  method SeedTable(t: PeerTable, devices: seq<DevicePeer>, now: Time) returns (r: PeerTable)
    requires ValidTable(t)
    ensures ValidTable(r) && r == SeededTable(t, devices, now)
  {
    hide Seeded, WellFormed;
    r := t;
    var todo := t.Keys;
    while todo != {}
      invariant todo <= t.Keys && r.Keys == t.Keys && ValidTable(r)
      invariant forall id :: id in t ==> r[id] == if id in todo then t[id] else SeededBy(t[id], devices, now)
      decreases todo
    {
      var id :| id in todo;
      todo := todo - {id};
      var d := DeviceFor(devices, r[id].publicKey);
      if d.Some? {
        var p := new PeerState(r[id]);
        p.SeedFromDevice(d.value, now);
        var v := p.Get();
        SeedKeepsWellFormed(t[id], d.value, now);
        SeedKeepsId(t[id], d.value, now);
        r := r[id := v];
      }
    }
  }

  method RefreshTable(t: PeerTable, devices: seq<DevicePeer>, now: Time) returns (r: PeerTable, changed: bool)
    requires ValidTable(t)
    ensures ValidTable(r) && r == RefreshedTable(t, devices, now) && changed == AnyMoved(t, devices, now)
  {
    hide Refreshed, WellFormed;
    r, changed := t, false;
    var todo := t.Keys;
    while todo != {}
      invariant todo <= t.Keys && r.Keys == t.Keys && ValidTable(r)
      invariant forall id :: id in t ==> r[id] == if id in todo then t[id] else RefreshedBy(t[id], devices, now).0
      invariant changed <==> exists id :: id in t && id !in todo && RefreshedBy(t[id], devices, now).1
      decreases todo
    {
      var id :| id in todo;
      todo := todo - {id};
      var p := new PeerState(r[id]);
      var moved := p.RefreshFromDevice(DeviceFor(devices, r[id].publicKey), now);
      var v := p.Get();
      RefreshKeepsWellFormed(t[id], DeviceFor(devices, t[id].publicKey), now);
      RefreshKeepsId(t[id], DeviceFor(devices, t[id].publicKey), now);
      r := r[id := v];
      changed := changed || moved;
    }
  }

  method RankIn(t: PeerTable, id: MachineId, results: map<string, ProbeResult>, now: Time)
    returns (r: PeerTable, changed: bool)
    requires ValidTable(t) && id in t
    ensures ValidTable(r) && r == t[id := Ranked(t[id], results, now).0] && changed == Ranked(t[id], results, now).1
  {
    hide WellFormed;
    var p := new PeerState(t[id]);
    changed := p.ApplyProbeResults(results, now);
    var v := p.Get();
    RankKeepsWellFormed(t[id], results, now);
    r := t[id := v];
  }

  lemma SeedKeepsId(p: Peer, d: DevicePeer, now: Time)
    ensures Seeded(p, d, now).id == p.id
  {
  }

  lemma RefreshKeepsId(p: Peer, d: Option<DevicePeer>, now: Time)
    ensures Refreshed(p, d, now).0.id == p.id
  {
  }

  // ---------------------------------------------------------------------------
  // Runs
  // ---------------------------------------------------------------------------

  /**
   * After any sequence of operations: every record of the plan goes once around the endpoints of
   * the peer it is for, starting at the active one; ids are planned at most once and never the
   * local one.
   */
  method PlanAfter(peers: PeerStateMap, ops: seq<(Operation, Time)>, local: MachineId)
    returns (planned: seq<MachineRecord>)
    requires peers.Valid()
    modifies peers
    ensures peers.Valid() && peers.Value() == AfterOperations(old(peers.Value()), ops, |ops|)
    ensures forall i, j :: 0 <= i < j < |planned| ==> planned[i].id != planned[j].id
    ensures forall i :: 0 <= i < |planned| ==>
      PlannedFrom(planned[i], if planned[i].id in peers.stored then peers.stored else peers.transient, local)
    ensures forall id :: Reachable(peers.stored, peers.transient, local, id) ==>
      exists i :: 0 <= i < |planned| && planned[i].id == id
  {
    hide PlanOf, PlannedFrom, Lists, ValidTable, AfterOperation;
    ghost var first := peers.Value();
    for i := 0 to |ops|
      invariant peers.Valid() && peers.Value() == AfterOperations(first, ops, i)
    {
      peers.Perform(ops[i].0, ops[i].1);
    }
    planned := peers.PlanMeshPeers(local);
    PlanMeaning(planned, peers.stored, peers.transient, local);
  }

  lemma PlanMeaning(planned: seq<MachineRecord>, stored: PeerTable, transient: PeerTable, local: MachineId)
    requires ValidTable(stored) && ValidTable(transient) && Lists(MachineKey, planned, PlanOf(stored, transient, local))
    ensures forall i, j :: 0 <= i < j < |planned| ==> planned[i].id != planned[j].id
    ensures forall i :: 0 <= i < |planned| ==>
      PlannedFrom(planned[i], if planned[i].id in stored then stored else transient, local)
    ensures forall id :: Reachable(stored, transient, local, id) ==>
      exists i :: 0 <= i < |planned| && planned[i].id == id
  {
    hide PlanOf, PlannedFrom, PlannedRecord, WellFormed, Reachable;
    var m := PlanOf(stored, transient, local);
    forall i, j | 0 <= i < j < |planned| ensures planned[i].id != planned[j].id {
      assert MachineKey(planned[i]) != MachineKey(planned[j]);
    }
    forall i | 0 <= i < |planned|
      ensures PlannedFrom(planned[i], if planned[i].id in stored then stored else transient, local)
    {
      assert MachineKey(planned[i]) == planned[i].id;
      PlannedOne(stored, transient, local, planned[i].id);
    }
    forall id | Reachable(stored, transient, local, id) ensures exists i :: 0 <= i < |planned| && planned[i].id == id {
      ReachableIsPlanned(stored, transient, local, id);
      assert m[id] in planned;
    }
  }

  lemma PlannedOne(stored: PeerTable, transient: PeerTable, local: MachineId, id: MachineId)
    requires ValidTable(stored) && ValidTable(transient) && id in PlanOf(stored, transient, local)
    ensures PlannedFrom(PlanOf(stored, transient, local)[id], if id in stored then stored else transient, local)
  {
    hide PlannedEndpoints;
    PlanIsRotation(if id in stored then stored[id] else transient[id]);
  }

  lemma ReachableIsPlanned(stored: PeerTable, transient: PeerTable, local: MachineId, id: MachineId)
    requires ValidTable(stored) && ValidTable(transient) && Reachable(stored, transient, local, id)
    ensures id in PlanOf(stored, transient, local) && PlanOf(stored, transient, local)[id].id == id
  {
    hide PlannedEndpoints;
  }

  /** A remote machine whose peer, the stored one if there is one, has an endpoint. */
  predicate Reachable(stored: PeerTable, transient: PeerTable, local: MachineId, id: MachineId) {
    id != local &&
    if id in stored then stored[id].runtime.endpoints != []
    else id in transient && transient[id].runtime.endpoints != []
  }

  /** The record goes once around the endpoints of its peer, starting at the active one. */
  ghost predicate PlannedFrom(m: MachineRecord, t: PeerTable, local: MachineId) {
    && m.id != local && m.id in t
    && var r := t[m.id].runtime;
    && m.publicKey == t[m.id].publicKey && m.overlayIp == t[m.id].overlayIp && m.subnet == t[m.id].subnet
    && r.endpoints != [] && |m.endpoints| == |r.endpoints| && Some(m.endpoints[0]) == ActiveEndpoint(r)
    && forall i :: 0 <= i < |r.endpoints| ==> m.endpoints[i] == r.endpoints[(r.active + i) % |r.endpoints|]
  }

  /** The stored peers are exactly the machines a subscriber of the machine feed knows. */
  method FollowFeed(
    peers: PeerStateMap, ghost known: map<MachineId, MachineRecord>, events: seq<MachineEvent>, now: Time)
    requires peers.Valid() && peers.stored.Keys == known.Keys
    modifies peers
    ensures peers.Valid() && peers.stored.Keys == Replay(known, events).Keys
  {
    hide Upserted;
    for i := 0 to |events|
      invariant peers.Valid() && peers.stored.Keys == Replay(known, events[..i]).Keys
    {
      assert events[..i + 1][..i] == events[..i];
      peers.ApplyEvent(events[i], now);
    }
    assert events[..|events|] == events;
  }
}
