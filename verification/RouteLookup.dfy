/** The packet classifier's route table: how it is searched and how it is kept. */
module RouteLookup {
  import opened Arithmetic
  import opened Ipam
  import opened Model
  import opened RowCaches

  datatype RouteKey = RouteKey(network: nat, prefixLen: nat)

  type Routes = map<RouteKey, nat>

  /** The lengths the classifier probes, longest first. */
  const PROBED: seq<nat> := [32, 24, 16, 8]

  /** A key the classifier can find: a network address with a length it probes. */
  predicate Eligible(k: RouteKey) {
    k.prefixLen in PROBED && k.network % Size(k.prefixLen) == 0
  }

  predicate Matches(k: RouteKey, ip: nat) {
    k.prefixLen <= 32 && k.network <= ip < k.network + Size(k.prefixLen)
  }

  /** `k` is the most specific of the eligible routes that match. */
  ghost predicate Longest(routes: Routes, ip: nat, k: RouteKey) {
    && k in routes && Eligible(k) && Matches(k, ip)
    && forall other :: other in routes && Eligible(other) && Matches(other, ip) ==> other.prefixLen <= k.prefixLen
  }

  /** The probe key for a length: the address with its host part cleared. */
  function ProbeKey(ip: nat, prefixLen: nat): RouteKey
    requires prefixLen <= 32
  {
    RouteKey(Floor(ip, Size(prefixLen)), prefixLen)
  }

  /** Among the routes of one length, only the probe key can match. */
  lemma OnlyProbeMatches(ip: nat, k: RouteKey)
    requires Eligible(k)
    ensures Matches(k, ip) <==> k == ProbeKey(ip, k.prefixLen)
  {
    hide Size;
    var s := Size(k.prefixLen);
    if Matches(k, ip) {
      MultipleOf(k.network, s);
      DivModOf(ip, s, k.network / s, ip - k.network);
    }
  }

  lemma ProbeIsEligible(ip: nat, prefixLen: nat)
    requires prefixLen in PROBED
    ensures Eligible(ProbeKey(ip, prefixLen)) && Matches(ProbeKey(ip, prefixLen), ip)
  {
    hide Size;
    var s := Size(prefixLen);
    DivModOf(Floor(ip, s), s, ip / s, 0);
  }

  /** Probing four lengths is longest-prefix matching. */
  method Classify(routes: Routes, ip: nat) returns (r: Option<nat>)
    ensures r.Some? ==> exists k :: Longest(routes, ip, k) && routes[k] == r.value
    ensures r.None? ==> forall k :: k in routes && Eligible(k) ==> !Matches(k, ip)
  {
    hide Floor, Size;
    for i := 0 to |PROBED|
      invariant forall j :: 0 <= j < i ==> ProbeKey(ip, PROBED[j]) !in routes
    {
      var prefixLen := PROBED[i];
      var key := ProbeKey(ip, prefixLen);
      if key in routes {
        ProbeIsEligible(ip, prefixLen);
        forall other | other in routes && Eligible(other) && Matches(other, ip) ensures other.prefixLen <= prefixLen {
          OnlyProbeMatches(ip, other);
          var j :| 0 <= j < |PROBED| && PROBED[j] == other.prefixLen;
          assert j >= i;
        }
        assert Longest(routes, ip, key);
        return Some(routes[key]);
      }
    }
    forall k | k in routes && Eligible(k) ensures !Matches(k, ip) {
      OnlyProbeMatches(ip, k);
    }
    return None;
  }

  /** There is at most one longest match, so the answer does not depend on how it is found. */
  lemma LongestUnique(routes: Routes, ip: nat, a: RouteKey, b: RouteKey)
    requires Longest(routes, ip, a) && Longest(routes, ip, b)
    ensures a == b
  {
    hide Matches, Size, Floor;
    OnlyProbeMatches(ip, a);
    OnlyProbeMatches(ip, b);
  }

  /** A route of any other length is never used. */
  lemma OtherLengthsAreInvisible(routes: Routes, k: RouteKey, ifindex: nat, ip: nat, best: RouteKey)
    requires !Eligible(k) && k !in routes
    ensures Longest(routes[k := ifindex], ip, best) <==> Longest(routes, ip, best)
  {
    hide Eligible, Matches;
    assert forall other :: other in routes[k := ifindex] && Eligible(other) <==> other in routes && Eligible(other);
  }

  // ---------------------------------------------------------------------------
  // Keeping the table
  // ---------------------------------------------------------------------------

  function KeyOf(subnet: Ipv4Net): RouteKey
    requires ValidNet(subnet)
  {
    RouteKey(Network(subnet), subnet.prefixLen)
  }

  type Known = map<MachineId, MachineRecord>

  predicate ValidSubnet(m: MachineRecord) { m.subnet.Some? ==> ValidNet(m.subnet.value) }

  ghost predicate ValidKnown(known: Known) {
    forall id :: id in known ==> known[id].id == id && ValidSubnet(known[id])
  }

  /** The route a known machine should have, if it is a remote one with a subnet. */
  function RouteOf(known: Known, local: MachineId, id: MachineId): Option<RouteKey>
    requires id in known ==> ValidSubnet(known[id])
  {
    if id in known && id != local && known[id].subnet.Some? then Some(KeyOf(known[id].subnet.value)) else None
  }

  /** No two remote machines have the same subnet. */
  ghost predicate DistinctSubnets(known: Known, local: MachineId)
    requires ValidKnown(known)
  {
    forall a, b :: a in known && b in known && a != b && RouteOf(known, local, a).Some? ==>
      RouteOf(known, local, a) != RouteOf(known, local, b)
  }

  /** The table routes exactly the subnets of the known remote machines to WireGuard. */
  ghost predicate RoutesInStep(routes: Routes, known: Known, local: MachineId, ifindex: nat)
    requires ValidKnown(known)
  {
    && (forall id :: id in known && RouteOf(known, local, id).Some? ==> RouteOf(known, local, id).value in routes)
    && (forall k :: k in routes ==>
      routes[k] == ifindex && exists id :: id in known && RouteOf(known, local, id) == Some(k))
  }

  function RoutesAfter(routes: Routes, event: MachineEvent, local: MachineId, ifindex: nat): Routes
    requires ValidSubnet(event.record)
  {
    if event.record.id == local || event.record.subnet.None? then routes
    else if event.RemovedMachine? then routes - {KeyOf(event.record.subnet.value)}
    else routes[KeyOf(event.record.subnet.value) := ifindex]
  }

  /** The event is about a known machine exactly as it is known, or about a new or changed one. */
  predicate Truthful(known: Known, event: MachineEvent) {
    && ValidSubnet(event.record)
    && (event.RemovedMachine? ==> event.record.id in known && known[event.record.id] == event.record)
  }

  /** A machine that already has a route keeps it. */
  predicate KeepsSubnet(known: Known, event: MachineEvent, local: MachineId)
    requires Truthful(known, event) && (event.record.id in known ==> ValidSubnet(known[event.record.id]))
  {
    event.RemovedMachine? || RouteOf(known, local, event.record.id).None? ||
    (event.record.subnet.Some? && RouteOf(known, local, event.record.id) == Some(KeyOf(event.record.subnet.value)))
  }

  /**
   * With distinct subnets before and after, an event keeps the table in step exactly when it keeps
   * the machine's subnet.
   */
  lemma EventKeepsStep(routes: Routes, known: Known, event: MachineEvent, local: MachineId, ifindex: nat)
    requires ValidKnown(known) && Truthful(known, event) && ValidKnown(Told(known, event))
    requires DistinctSubnets(known, local) && DistinctSubnets(Told(known, event), local)
    requires RoutesInStep(routes, known, local, ifindex)
    ensures RoutesInStep(RoutesAfter(routes, event, local, ifindex), Told(known, event), local, ifindex) <==>
            KeepsSubnet(known, event, local)
  {
    hide KeyOf;
    if event.RemovedMachine? {
      RemovalKeepsStep(routes, known, event, local, ifindex);
    } else if KeepsSubnet(known, event, local) {
      SteadyUpsertKeepsStep(routes, known, event, local, ifindex);
    } else {
      StaleRouteStays(routes, known, event, local, ifindex);
    }
  }

  lemma RemovalKeepsStep(routes: Routes, known: Known, event: MachineEvent, local: MachineId, ifindex: nat)
    requires ValidKnown(known) && Truthful(known, event) && event.RemovedMachine? && ValidKnown(Told(known, event))
    requires DistinctSubnets(known, local) && RoutesInStep(routes, known, local, ifindex)
    ensures RoutesInStep(RoutesAfter(routes, event, local, ifindex), Told(known, event), local, ifindex)
  {
    hide KeyOf;
    var after, routes', id := Told(known, event), RoutesAfter(routes, event, local, ifindex), event.record.id;
    forall o | o in after && RouteOf(after, local, o).Some? ensures RouteOf(after, local, o).value in routes' {
      assert RouteOf(after, local, o) == RouteOf(known, local, o);
    }
    forall k | k in routes' ensures exists o :: o in after && RouteOf(after, local, o) == Some(k) {
      var o :| o in known && RouteOf(known, local, o) == Some(k);
      assert o in after && RouteOf(after, local, o) == Some(k);
    }
  }

  lemma SteadyUpsertKeepsStep(routes: Routes, known: Known, event: MachineEvent, local: MachineId, ifindex: nat)
    requires ValidKnown(known) && Truthful(known, event) && !event.RemovedMachine? && ValidKnown(Told(known, event))
    requires RoutesInStep(routes, known, local, ifindex) && KeepsSubnet(known, event, local)
    ensures RoutesInStep(RoutesAfter(routes, event, local, ifindex), Told(known, event), local, ifindex)
  {
    hide KeyOf;
    var after, routes', id := Told(known, event), RoutesAfter(routes, event, local, ifindex), event.record.id;
    forall o | o in after && RouteOf(after, local, o).Some? ensures RouteOf(after, local, o).value in routes' {
      if o != id { assert RouteOf(after, local, o) == RouteOf(known, local, o); }
    }
    forall k | k in routes'
      ensures routes'[k] == ifindex && exists o :: o in after && RouteOf(after, local, o) == Some(k)
    {
      if k in routes {
        var o :| o in known && RouteOf(known, local, o) == Some(k);
        assert o in after && RouteOf(after, local, o) == Some(k);
      } else {
        assert RouteOf(after, local, id) == Some(k);
      }
    }
  }

  /** When a machine changes or loses its subnet, the route to the old one is left behind. */
  lemma StaleRouteStays(routes: Routes, known: Known, event: MachineEvent, local: MachineId, ifindex: nat)
    requires ValidKnown(known) && Truthful(known, event) && !event.RemovedMachine? && ValidKnown(Told(known, event))
    requires DistinctSubnets(known, local) && RoutesInStep(routes, known, local, ifindex)
    requires !KeepsSubnet(known, event, local)
    ensures RouteOf(known, local, event.record.id).value in RoutesAfter(routes, event, local, ifindex)
    ensures !RoutesInStep(RoutesAfter(routes, event, local, ifindex), Told(known, event), local, ifindex)
  {
    hide KeyOf;
    var after, id := Told(known, event), event.record.id;
    var k := RouteOf(known, local, id).value;
    forall o | o in after ensures RouteOf(after, local, o) != Some(k) {
      if o != id { assert RouteOf(after, local, o) == RouteOf(known, local, o); }
    }
  }

  // ---------------------------------------------------------------------------
  // The sync task
  // ---------------------------------------------------------------------------

  class EbpfSync {
    const local: MachineId
    const ifindex: nat
    var routes: Routes

    constructor (local: MachineId, ifindex: nat)
      ensures this.local == local && this.ifindex == ifindex && routes == map[]
    {
      this.local, this.ifindex, routes := local, ifindex, map[];
    }

    /** Seeds a route for every remote machine of the snapshot that has a subnet. */
    method Seed(snapshot: seq<MachineRecord>, ghost known: Known)
      requires ValidKnown(known) && Lists(MachineKey, snapshot, known) && routes == map[]
      modifies this
      ensures RoutesInStep(routes, known, local, ifindex)
    {
      for i := 0 to |snapshot|
        invariant forall j :: 0 <= j < i && RouteOf(known, local, snapshot[j].id).Some? ==>
          RouteOf(known, local, snapshot[j].id).value in routes
        invariant forall k :: k in routes ==>
          routes[k] == ifindex && exists id :: id in known && RouteOf(known, local, id) == Some(k)
      {
        var machine := snapshot[i];
        assert MachineKey(machine) in known && known[MachineKey(machine)] == machine;
        if machine.id != local && machine.subnet.Some? {
          assert RouteOf(known, local, machine.id) == Some(KeyOf(machine.subnet.value));
          routes := routes[KeyOf(machine.subnet.value) := ifindex];
        }
      }
      forall id | id in known && RouteOf(known, local, id).Some? ensures RouteOf(known, local, id).value in routes {
        assert known[id] in snapshot;
        var j :| 0 <= j < |snapshot| && snapshot[j] == known[id];
      }
    }

    method HandleEvent(event: MachineEvent)
      requires ValidSubnet(event.record)
      modifies this
      ensures routes == RoutesAfter(old(routes), event, local, ifindex)
    {
      match event {
        case Added(m) => Upsert(m);
        case Updated(m) => Upsert(m);
        case RemovedMachine(m) =>
          if m.id == local {
            return;
          }
          if m.subnet.Some? {
            routes := routes - {KeyOf(m.subnet.value)};
          }
      }
    }

    method Upsert(m: MachineRecord)
      requires ValidSubnet(m)
      modifies this
      ensures routes == RoutesAfter(old(routes), Added(m), local, ifindex)
    {
      if m.id == local {
        return;
      }
      if m.subnet.Some? {
        routes := routes[KeyOf(m.subnet.value) := ifindex];
      }
    }
  }

  /** A truthful event that leaves subnets valid, distinct and where they were. */
  ghost predicate Stable(known: Known, event: MachineEvent, local: MachineId)
    requires ValidKnown(known)
  {
    && Truthful(known, event) && KeepsSubnet(known, event, local)
    && ValidKnown(Told(known, event)) && DistinctSubnets(Told(known, event), local)
  }

  ghost predicate StableRun(known: Known, events: seq<MachineEvent>, local: MachineId)
    requires ValidKnown(known)
    decreases |events|
  {
    events == [] || (Stable(known, events[0], local) && StableRun(Told(known, events[0]), events[1..], local))
  }

  ghost function KnownAfter(known: Known, events: seq<MachineEvent>): Known
    decreases |events|
  {
    if events == [] then known else KnownAfter(Told(known, events[0]), events[1..])
  }

  /** After any stable run of events the table is in step with what is known. */
  method Follow(sync: EbpfSync, ghost known: Known, events: seq<MachineEvent>)
    requires ValidKnown(known) && DistinctSubnets(known, sync.local)
    requires RoutesInStep(sync.routes, known, sync.local, sync.ifindex)
    requires StableRun(known, events, sync.local)
    modifies sync
    ensures ValidKnown(KnownAfter(known, events))
    ensures RoutesInStep(sync.routes, KnownAfter(known, events), sync.local, sync.ifindex)
  {
    hide RoutesInStep, DistinctSubnets, KeepsSubnet, RoutesAfter;
    ghost var current := known;
    for i := 0 to |events|
      invariant ValidKnown(current) && DistinctSubnets(current, sync.local)
      invariant RoutesInStep(sync.routes, current, sync.local, sync.ifindex)
      invariant StableRun(current, events[i..], sync.local)
      invariant KnownAfter(current, events[i..]) == KnownAfter(known, events)
    {
      assert events[i..][0] == events[i] && events[i..][1..] == events[i + 1..];
      EventKeepsStep(sync.routes, current, events[i], sync.local, sync.ifindex);
      sync.HandleEvent(events[i]);
      current := Told(current, events[i]);
    }
    assert events[|events|..] == [];
  }

  /**
   * A table in step redirects an address exactly when it lies in the subnet of a known remote
   * machine, provided machine subnets have lengths the classifier probes.
   */
  lemma RedirectsExactly(routes: Routes, known: Known, local: MachineId, ifindex: nat, ip: nat)
    requires ValidKnown(known) && RoutesInStep(routes, known, local, ifindex)
    requires forall id :: id in known && known[id].subnet.Some? ==> known[id].subnet.value.prefixLen in PROBED
    ensures
      (exists k :: Longest(routes, ip, k)) <==>
      (exists id :: id in known && id != local && known[id].subnet.Some? && Covers(known[id].subnet.value, ip))
    ensures forall k :: Longest(routes, ip, k) ==> routes[k] == ifindex
  {
    hide Size, Floor;
    if k :| Longest(routes, ip, k) {
      var id :| id in known && RouteOf(known, local, id) == Some(k);
      assert Covers(known[id].subnet.value, ip);
    }
    if id :| id in known && id != local && known[id].subnet.Some? && Covers(known[id].subnet.value, ip) {
      var k := KeyOf(known[id].subnet.value);
      assert RouteOf(known, local, id) == Some(k);
      KeyIsEligible(known[id].subnet.value);
      SomeLongest(routes, ip, k);
    }
  }

  lemma KeyIsEligible(subnet: Ipv4Net)
    requires ValidNet(subnet) && subnet.prefixLen in PROBED
    ensures Eligible(KeyOf(subnet))
  {
    hide Size;
    var s := Size(subnet.prefixLen);
    DivModOf(Network(subnet), s, subnet.addr / s, 0);
  }

  /** If any eligible route matches, one is the longest. */
  lemma {:induction false} SomeLongest(routes: Routes, ip: nat, k: RouteKey)
    requires k in routes && Eligible(k) && Matches(k, ip)
    ensures exists best :: Longest(routes, ip, best)
    decreases 32 - k.prefixLen
  {
    hide Matches, Size;
    if other :| other in routes && Eligible(other) && Matches(other, ip) && other.prefixLen > k.prefixLen {
      SomeLongest(routes, ip, other);
    } else {
      assert Longest(routes, ip, k);
    }
  }

  /** The classifier sees the networks of four lengths, and no others. */
  lemma EligibleExact(k: RouteKey)
    ensures Eligible(k) <==>
      (k.prefixLen == 8 || k.prefixLen == 16 || k.prefixLen == 24 || k.prefixLen == 32) &&
      k.network % Size(k.prefixLen) == 0
  {
    assert PROBED[0] == 32 && PROBED[1] == 24 && PROBED[2] == 16 && PROBED[3] == 8;
  }

  /** A known machine other than this one has that subnet. */
  ghost predicate Behind(known: Known, local: MachineId, id: MachineId, k: RouteKey)
    requires ValidKnown(known)
  {
    && id in known && id != local && known[id].subnet.Some?
    && k == RouteKey(Network(known[id].subnet.value), known[id].subnet.value.prefixLen)
  }

  /** A table in step has a route for a key exactly when there is a machine behind it, and to WireGuard. */
  lemma InStepExact(routes: Routes, known: Known, local: MachineId, ifindex: nat, k: RouteKey)
    requires ValidKnown(known) && RoutesInStep(routes, known, local, ifindex)
    ensures k in routes <==> exists id :: Behind(known, local, id, k)
    ensures k in routes ==> routes[k] == ifindex
  {
    hide Network;
    if k in routes {
      var id :| id in known && RouteOf(known, local, id) == Some(k);
      assert Behind(known, local, id, k);
    }
    if id :| Behind(known, local, id, k) { assert RouteOf(known, local, id) == Some(k); }
  }
}
