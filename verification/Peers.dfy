/** WireGuard peers: which endpoint each one uses, and how healthy it is. */
module Peers {
  import opened Arithmetic
  import opened Model
  import opened Permutations
  import opened Sorting

  /** A monotonic instant in nanoseconds. */
  type Time = nat

  const ENDPOINT_CONNECTION_TIMEOUT: Time := 15_000_000_000
  const PEER_DOWN_INTERVAL: Time := 275_000_000_000

  datatype PeerStatus = PeerUp | PeerDown | PeerUnknown

  /** `duration_since`, which is zero for instants to come. */
  function Elapsed(now: Time, since: Time): Time {
    if now < since then 0 else now - since
  }

  function Position(endpoints: seq<string>, endpoint: string): Option<nat> {
    if endpoints == [] then None
    else if endpoints[0] == endpoint then Some(0)
    else
      var rest := Position(endpoints[1..], endpoint);
      if rest.Some? then Some(rest.value + 1) else None
  }

  lemma {:induction false} PositionFinds(endpoints: seq<string>, endpoint: string)
    ensures var p := Position(endpoints, endpoint);
      && (p.Some? <==> endpoint in endpoints)
      && (p.Some? ==> p.value < |endpoints| && endpoints[p.value] == endpoint && endpoint !in endpoints[..p.value])
  {
    if endpoints != [] && endpoints[0] != endpoint {
      PositionFinds(endpoints[1..], endpoint);
      var p := Position(endpoints, endpoint);
      assert endpoints == [endpoints[0]] + endpoints[1..];
      if p.Some? { assert endpoints[..p.value] == [endpoints[0]] + endpoints[1..][..p.value - 1]; }
    }
  }

  // ---------------------------------------------------------------------------
  // Endpoint rotation
  // ---------------------------------------------------------------------------

  datatype Runtime = Runtime(
    endpoints: seq<string>, active: nat, lastChange: Time, lastHandshake: Option<Time>, status: PeerStatus)

  /** The active index names an endpoint, unless there is none. */
  predicate ActiveValid(r: Runtime) {
    r.active < |r.endpoints| || (r.endpoints == [] && r.active == 0)
  }

  function ActiveEndpoint(r: Runtime): Option<string> {
    if r.active < |r.endpoints| then Some(r.endpoints[r.active]) else None
  }

  /** Up while a handshake is recent enough for the time spent on the endpoint; Unknown only at first. */
  function StatusAt(r: Runtime, now: Time): PeerStatus {
    var sinceChange := Elapsed(now, r.lastChange);
    if sinceChange < PEER_DOWN_INTERVAL then
      if r.lastHandshake.Some? && r.lastHandshake.value >= r.lastChange then PeerUp
      else if sinceChange < ENDPOINT_CONNECTION_TIMEOUT then PeerUnknown
      else PeerDown
    else if r.lastHandshake.Some? && Elapsed(now, r.lastHandshake.value) < PEER_DOWN_INTERVAL then PeerUp
    else PeerDown
  }

  function Rotated(r: Runtime, now: Time): Runtime {
    if r.endpoints == [] then r
    else r.(active := (r.active + 1) % |r.endpoints|, lastChange := now, status := PeerUnknown)
  }

  function WithEndpoints(r: Runtime, endpoints: seq<string>): Runtime {
    var kept := if ActiveEndpoint(r).Some? then Position(endpoints, ActiveEndpoint(r).value) else None;
    r.(endpoints := endpoints, active := if kept.Some? then kept.value else 0)
  }

  /** A new endpoint list keeps the active endpoint if it is still advertised, and otherwise starts over. */
  lemma UpdateKeepsActive(r: Runtime, endpoints: seq<string>)
    ensures ActiveValid(WithEndpoints(r, endpoints))
    ensures ActiveEndpoint(r).Some? && ActiveEndpoint(r).value in endpoints ==>
      ActiveEndpoint(WithEndpoints(r, endpoints)) == ActiveEndpoint(r)
    ensures !(ActiveEndpoint(r).Some? && ActiveEndpoint(r).value in endpoints) ==>
      WithEndpoints(r, endpoints).active == 0
  {
    if ActiveEndpoint(r).Some? { PositionFinds(endpoints, ActiveEndpoint(r).value); }
  }

  class WireGuardPeer {
    var endpoints: seq<string>
    var activeEndpoint: nat
    var lastEndpointChange: Time
    var lastHandshake: Option<Time>
    var status: PeerStatus

    ghost function Value(): Runtime
      reads this
    {
      Runtime(endpoints, activeEndpoint, lastEndpointChange, lastHandshake, status)
    }

    constructor (r: Runtime)
      ensures Value() == r
    {
      endpoints, activeEndpoint, lastEndpointChange, lastHandshake, status :=
        r.endpoints, r.active, r.lastChange, r.lastHandshake, r.status;
    }

    method Get() returns (r: Runtime)
      ensures r == Value()
    {
      r := Runtime(endpoints, activeEndpoint, lastEndpointChange, lastHandshake, status);
    }

    method CalculateStatus(now: Time)
      modifies this`status
      ensures Value() == old(Value()).(status := StatusAt(old(Value()), now))
    {
      var sinceChange := Elapsed(now, lastEndpointChange);
      if sinceChange < ENDPOINT_CONNECTION_TIMEOUT {
        status := if lastHandshake.Some? && lastHandshake.value >= lastEndpointChange then PeerUp else PeerUnknown;
      } else if sinceChange < PEER_DOWN_INTERVAL {
        status := if lastHandshake.Some? && lastHandshake.value >= lastEndpointChange then PeerUp else PeerDown;
      } else {
        status :=
          if lastHandshake.Some? && Elapsed(now, lastHandshake.value) < PEER_DOWN_INTERVAL then PeerUp else PeerDown;
      }
    }

    method RotateEndpoint(now: Time)
      modifies this
      ensures Value() == Rotated(old(Value()), now)
    {
      if endpoints == [] {
        return;
      }
      activeEndpoint := (activeEndpoint + 1) % |endpoints|;
      lastEndpointChange := now;
      status := PeerUnknown;
    }

    method UpdateEndpoints(updated: seq<string>)
      modifies this`endpoints, this`activeEndpoint
      ensures Value() == WithEndpoints(old(Value()), updated)
    {
      if updated == [] {
        endpoints, activeEndpoint := [], 0;
        return;
      }
      var current := if activeEndpoint < |endpoints| then Some(endpoints[activeEndpoint]) else None;
      endpoints := updated;
      if current.Some? {
        var pos := Position(endpoints, current.value);
        if pos.Some? {
          activeEndpoint := pos.value;
          return;
        }
      }
      activeEndpoint := 0;
    }
  }

  // ---------------------------------------------------------------------------
  // Candidates and their ranking
  // ---------------------------------------------------------------------------

  datatype SelectionReason = AdvertisedOrder | PreservedLiveEndpoint | TcpProbeRanking | WireguardFallback

  datatype Candidate = Candidate(
    endpoint: string, advertisedIndex: nat, rtt: Option<nat>, reachable: bool,
    success: Option<Time>, failure: Option<Time>)

  datatype ProbeResult = ProbeResult(reachable: bool, rtt: Option<nat>)

  function Spelled(candidates: seq<Candidate>): seq<string> {
    seq(|candidates|, i requires 0 <= i < |candidates| => candidates[i].endpoint)
  }

  /** The first candidate for an endpoint, or the number of candidates. */
  function FindCandidate(candidates: seq<Candidate>, endpoint: string): (k: nat)
    ensures k <= |candidates|
  {
    if candidates == [] || candidates[0].endpoint == endpoint then 0 else 1 + FindCandidate(candidates[1..], endpoint)
  }

  function MarkSuccess(candidates: seq<Candidate>, endpoint: string, at: Time): seq<Candidate> {
    var k := FindCandidate(candidates, endpoint);
    if k < |candidates| then candidates[k := candidates[k].(success := Some(at))] else candidates
  }

  function MarkFailure(candidates: seq<Candidate>, endpoint: string, at: Time): seq<Candidate> {
    var k := FindCandidate(candidates, endpoint);
    if k < |candidates| then candidates[k := candidates[k].(failure := Some(at))] else candidates
  }

  function BuildCandidate(endpoint: string, index: nat, existing: seq<Candidate>): Candidate {
    var c := Candidate(endpoint, index, None, false, None, None);
    var k := FindCandidate(existing, endpoint);
    if k < |existing| then
      c.(rtt := existing[k].rtt, reachable := existing[k].reachable,
         success := existing[k].success, failure := existing[k].failure)
    else c
  }

  function BuildCandidates(endpoints: seq<string>, existing: seq<Candidate>): seq<Candidate> {
    seq(|endpoints|, i requires 0 <= i < |endpoints| => BuildCandidate(endpoints[i], i, existing))
  }

  function Compare(a: int, b: int): int { if a < b then -1 else if a > b then 1 else 0 }

  function CompareDurationAsc(a: Option<nat>, b: Option<nat>): int {
    if a.Some? && b.Some? then Compare(a.value, b.value) else if a.Some? then -1 else if b.Some? then 1 else 0
  }

  function CompareInstantDesc(a: Option<nat>, b: Option<nat>): int {
    if a.Some? && b.Some? then Compare(b.value, a.value) else if a.Some? then -1 else if b.Some? then 1 else 0
  }

  /** Reachable first, then the shortest round trip, then the latest success, then the advertised order. */
  function CompareCandidates(a: Candidate, b: Candidate): int {
    if a.reachable && !b.reachable then -1
    else if !a.reachable && b.reachable then 1
    else if CompareDurationAsc(a.rtt, b.rtt) != 0 then CompareDurationAsc(a.rtt, b.rtt)
    else if CompareInstantDesc(a.success, b.success) != 0 then CompareInstantDesc(a.success, b.success)
    else Compare(a.advertisedIndex, b.advertisedIndex)
  }

  predicate CandidateLe(a: Candidate, b: Candidate) { CompareCandidates(a, b) <= 0 }

  /** A measured round trip is faster than a longer one or none. */
  predicate Faster(a: Option<nat>, b: Option<nat>) {
    a.Some? && (b.None? || a.value < b.value)
  }

  /** A success is fresher than an earlier one or none. */
  predicate Fresher(a: Option<Time>, b: Option<Time>) {
    a.Some? && (b.None? || a.value > b.value)
  }

  predicate Better(a: Candidate, b: Candidate) {
    || (a.reachable && !b.reachable)
    || (a.reachable == b.reachable && Faster(a.rtt, b.rtt))
    || (a.reachable == b.reachable && a.rtt == b.rtt && Fresher(a.success, b.success))
    || (a.reachable == b.reachable && a.rtt == b.rtt && a.success == b.success && a.advertisedIndex < b.advertisedIndex)
  }

  /** The comparison orders by what is better, and ties only what measures alike at one place. */
  lemma ComparisonMeaning(a: Candidate, b: Candidate)
    ensures CompareCandidates(a, b) < 0 <==> Better(a, b)
    ensures CompareCandidates(a, b) > 0 <==> Better(b, a)
    ensures CompareCandidates(a, b) == 0 <==>
      a.reachable == b.reachable && a.rtt == b.rtt && a.success == b.success && a.advertisedIndex == b.advertisedIndex
  {
  }

  lemma RankingOrder()
    ensures TotalPreorder(CandidateLe)
  {
  }

  function Probe(c: Candidate, results: map<string, ProbeResult>): Candidate {
    if c.endpoint in results then c.(reachable := results[c.endpoint].reachable, rtt := results[c.endpoint].rtt) else c
  }

  function Probed(candidates: seq<Candidate>, results: map<string, ProbeResult>): seq<Candidate> {
    seq(|candidates|, i requires 0 <= i < |candidates| => Probe(candidates[i], results))
  }

  method ProbeAll(candidates: seq<Candidate>, results: map<string, ProbeResult>) returns (updated: seq<Candidate>)
    ensures updated == Probed(candidates, results)
  {
    updated := [];
    for i := 0 to |candidates|
      invariant |updated| == i && forall j :: 0 <= j < i ==> updated[j] == Probe(candidates[j], results)
    {
      var c := candidates[i];
      if c.endpoint in results {
        c := c.(reachable := results[c.endpoint].reachable, rtt := results[c.endpoint].rtt);
      }
      updated := updated + [c];
    }
  }

  predicate AnyReachable(candidates: seq<Candidate>) {
    exists i :: 0 <= i < |candidates| && candidates[i].reachable
  }

  // ---------------------------------------------------------------------------
  // Peer state
  // ---------------------------------------------------------------------------

  datatype DevicePeer = DevicePeer(publicKey: string, endpoint: Option<string>, lastHandshake: Option<Time>)

  datatype Peer = Peer(
    id: MachineId, publicKey: string, overlayIp: string, subnet: Option<Ipv4Net>, bridgeIp: Option<string>,
    runtime: Runtime, candidates: seq<Candidate>, reason: SelectionReason, needsRanking: bool)

  /** The candidates spell the endpoint list and the active index is valid. */
  predicate WellFormed(p: Peer) {
    Spelled(p.candidates) == p.runtime.endpoints && ActiveValid(p.runtime)
  }

  function FromRecord(m: MachineRecord, now: Time): Peer {
    Peer(m.id, m.publicKey, m.overlayIp, m.subnet, m.bridgeIp,
         Runtime(m.endpoints, 0, now, None, PeerUnknown), BuildCandidates(m.endpoints, []),
         AdvertisedOrder, m.endpoints != [])
  }

  function UpdatedFrom(p: Peer, m: MachineRecord): Peer {
    var active := ActiveEndpoint(p.runtime);
    var lost := active.Some? && active.value !in m.endpoints;
    p.(publicKey := m.publicKey, overlayIp := m.overlayIp, subnet := m.subnet, bridgeIp := m.bridgeIp,
       candidates := BuildCandidates(m.endpoints, p.candidates), runtime := WithEndpoints(p.runtime, m.endpoints),
       needsRanking := m.endpoints != [] && !(p.runtime.status.PeerUp? && !lost))
  }

  /** The device has heard from the peer on an advertised endpoint within the last 275 seconds. */
  predicate Live(d: DevicePeer, endpoints: seq<string>, now: Time) {
    && d.endpoint.Some? && d.endpoint.value in endpoints
    && d.lastHandshake.Some? && d.lastHandshake.value <= now && now - d.lastHandshake.value < PEER_DOWN_INTERVAL
  }

  function Seeded(p: Peer, d: DevicePeer, now: Time): Peer {
    if !Live(d, p.runtime.endpoints, now) || Position(p.runtime.endpoints, d.endpoint.value).None? then p
    else
      var hs := d.lastHandshake.value;
      var r := p.runtime.(
        active := Position(p.runtime.endpoints, d.endpoint.value).value, lastChange := hs, lastHandshake := Some(hs));
      p.(runtime := r.(status := StatusAt(r, now)), candidates := MarkSuccess(p.candidates, d.endpoint.value, hs),
         reason := PreservedLiveEndpoint, needsRanking := false)
  }

  function Observed(p: Peer, d: Option<DevicePeer>, now: Time): Peer {
    if d.None? then p.(runtime := p.runtime.(lastHandshake := None))
    else
      var s := Seeded(p, d.value, now);
      var known := d.value.endpoint.Some? && d.value.endpoint.value in s.runtime.endpoints;
      s.(runtime := s.runtime.(lastHandshake := if known then d.value.lastHandshake else None),
         candidates := if d.value.endpoint.Some? && d.value.lastHandshake.Some?
                       then MarkSuccess(s.candidates, d.value.endpoint.value, d.value.lastHandshake.value)
                       else s.candidates)
  }

  /** A refresh from the device, and whether it moved the peer to another endpoint. */
  function Refreshed(p: Peer, d: Option<DevicePeer>, now: Time): (Peer, bool) {
    var o := Observed(p, d, now);
    var r := o.runtime.(status := StatusAt(o.runtime, now));
    if r.status.PeerDown? && |r.endpoints| > 1 then
      var active := ActiveEndpoint(r);
      (o.(runtime := Rotated(r, now), reason := WireguardFallback, needsRanking := false,
          candidates := if active.Some? then MarkFailure(o.candidates, active.value, now) else o.candidates),
       active != ActiveEndpoint(Rotated(r, now)))
    else (o.(runtime := r, needsRanking := false), false)
  }

  /** The verdict of a round of probes, and whether it moved the peer to another endpoint. */
  function Ranked(p: Peer, results: map<string, ProbeResult>, now: Time): (Peer, bool) {
    var probed := Probed(p.candidates, results);
    if AnyReachable(probed) then
      var sorted := Sort(CandidateLe, probed);
      var r := Runtime(Spelled(sorted), 0, now, None, PeerUnknown);
      (p.(runtime := r, candidates := sorted, reason := TcpProbeRanking, needsRanking := false),
       ActiveEndpoint(p.runtime) != ActiveEndpoint(r))
    else (p.(candidates := probed, needsRanking := false), false)
  }

  class PeerState {
    const id: MachineId
    var publicKey: string
    var overlayIp: string
    var subnet: Option<Ipv4Net>
    var bridgeIp: Option<string>
    const runtime: WireGuardPeer
    var candidates: seq<Candidate>
    var reason: SelectionReason
    var needsRanking: bool

    ghost function Value(): Peer
      reads this, runtime
    {
      Peer(id, publicKey, overlayIp, subnet, bridgeIp, runtime.Value(), candidates, reason, needsRanking)
    }

    constructor (p: Peer)
      ensures Value() == p && fresh(runtime)
    {
      id, publicKey, overlayIp, subnet, bridgeIp := p.id, p.publicKey, p.overlayIp, p.subnet, p.bridgeIp;
      runtime := new WireGuardPeer(p.runtime);
      candidates, reason, needsRanking := p.candidates, p.reason, p.needsRanking;
    }

    method Get() returns (p: Peer)
      ensures p == Value()
    {
      var r := runtime.Get();
      p := Peer(id, publicKey, overlayIp, subnet, bridgeIp, r, candidates, reason, needsRanking);
    }

    method UpdateFromRecord(m: MachineRecord)
      requires m.id == id
      modifies this, runtime
      ensures Value() == UpdatedFrom(old(Value()), m)
    {
      var r := runtime.Get();
      var previousActive := ActiveEndpoint(r);
      publicKey, overlayIp, subnet, bridgeIp := m.publicKey, m.overlayIp, m.subnet, m.bridgeIp;
      candidates := BuildCandidates(m.endpoints, candidates);
      runtime.UpdateEndpoints(m.endpoints);
      if runtime.endpoints == [] {
        needsRanking := false;
        return;
      }
      var activeRemoved := previousActive.Some? && previousActive.value !in runtime.endpoints;
      needsRanking := !(runtime.status.PeerUp? && !activeRemoved);
    }

    method SeedFromDevice(d: DevicePeer, now: Time)
      modifies this, runtime
      ensures Value() == Seeded(old(Value()), d, now)
    {
      if d.endpoint.None? || d.lastHandshake.None? {
        return;
      }
      var endpoint, lastHandshake := d.endpoint.value, d.lastHandshake.value;
      if now < lastHandshake || now - lastHandshake >= PEER_DOWN_INTERVAL {
        return;
      }
      var active := Position(runtime.endpoints, endpoint);
      PositionFinds(runtime.endpoints, endpoint);
      if active.None? {
        return;
      }
      runtime.activeEndpoint := active.value;
      runtime.lastEndpointChange := lastHandshake;
      runtime.lastHandshake := Some(lastHandshake);
      runtime.CalculateStatus(now);
      candidates := MarkSuccess(candidates, endpoint, lastHandshake);
      reason := PreservedLiveEndpoint;
      needsRanking := false;
    }

    /** The part of a refresh that takes over what the device reports. */
    method Observe(d: Option<DevicePeer>, now: Time)
      modifies this, runtime
      ensures Value() == Observed(old(Value()), d, now)
    {
      if d.Some? {
        SeedFromDevice(d.value, now);
        var matchesKnownEndpoint := d.value.endpoint.Some? && d.value.endpoint.value in runtime.endpoints;
        runtime.lastHandshake := if matchesKnownEndpoint then d.value.lastHandshake else None;
        if d.value.endpoint.Some? && d.value.lastHandshake.Some? {
          candidates := MarkSuccess(candidates, d.value.endpoint.value, d.value.lastHandshake.value);
        }
      } else {
        runtime.lastHandshake := None;
      }
    }

    method RefreshFromDevice(d: Option<DevicePeer>, now: Time) returns (changed: bool)
      modifies this, runtime
      ensures (Value(), changed) == Refreshed(old(Value()), d, now)
    {
      hide Seeded;
      Observe(d, now);
      runtime.CalculateStatus(now);
      if runtime.status == PeerUp {
        needsRanking := false;
        return false;
      }
      if runtime.status == PeerDown && |runtime.endpoints| > 1 {
        var before := runtime.Get();
        var previousActive := ActiveEndpoint(before);
        if previousActive.Some? {
          candidates := MarkFailure(candidates, previousActive.value, now);
        }
        runtime.RotateEndpoint(now);
        reason := WireguardFallback;
        needsRanking := false;
        var after := runtime.Get();
        return previousActive != ActiveEndpoint(after);
      }
      needsRanking := false;
      return false;
    }

    method ApplyProbeResults(results: map<string, ProbeResult>, now: Time) returns (changed: bool)
      modifies this, runtime
      ensures (Value(), changed) == Ranked(old(Value()), results, now)
    {
      hide Sort, Spelled, AnyReachable, Probed;
      candidates := ProbeAll(candidates, results);
      if AnyReachable(candidates) {
        var before := runtime.Get();
        candidates := Sort(CandidateLe, candidates);
        runtime.endpoints := Spelled(candidates);
        runtime.activeEndpoint := 0;
        runtime.lastEndpointChange := now;
        runtime.lastHandshake := None;
        runtime.status := PeerUnknown;
        reason := TcpProbeRanking;
        needsRanking := false;
        var after := runtime.Get();
        return ActiveEndpoint(before) != ActiveEndpoint(after);
      }
      needsRanking := false;
      return false;
    }
  }

  // ---------------------------------------------------------------------------
  // What every operation keeps
  // ---------------------------------------------------------------------------

  lemma RecordIsWellFormed(m: MachineRecord, now: Time)
    ensures WellFormed(FromRecord(m, now))
  {
  }

  lemma UpdateKeepsWellFormed(p: Peer, m: MachineRecord)
    requires WellFormed(p)
    ensures WellFormed(UpdatedFrom(p, m))
  {
    UpdateKeepsActive(p.runtime, m.endpoints);
  }

  lemma MarksKeepSpelling(candidates: seq<Candidate>, endpoint: string, at: Time)
    ensures Spelled(MarkSuccess(candidates, endpoint, at)) == Spelled(candidates)
    ensures Spelled(MarkFailure(candidates, endpoint, at)) == Spelled(candidates)
  {
  }

  lemma SeedKeepsWellFormed(p: Peer, d: DevicePeer, now: Time)
    requires WellFormed(p)
    ensures WellFormed(Seeded(p, d, now)) && Seeded(p, d, now).runtime.endpoints == p.runtime.endpoints
  {
    hide Spelled, MarkSuccess, Position;
    if d.endpoint.Some? && d.lastHandshake.Some? {
      PositionFinds(p.runtime.endpoints, d.endpoint.value);
      MarksKeepSpelling(p.candidates, d.endpoint.value, d.lastHandshake.value);
    }
  }

  lemma ObserveKeepsWellFormed(p: Peer, d: Option<DevicePeer>, now: Time)
    requires WellFormed(p)
    ensures WellFormed(Observed(p, d, now)) && Observed(p, d, now).runtime.endpoints == p.runtime.endpoints
  {
    hide Spelled, MarkSuccess, Seeded;
    if d.Some? {
      SeedKeepsWellFormed(p, d.value, now);
      if d.value.endpoint.Some? && d.value.lastHandshake.Some? {
        MarksKeepSpelling(Seeded(p, d.value, now).candidates, d.value.endpoint.value, d.value.lastHandshake.value);
      }
    }
  }

  lemma RefreshKeepsWellFormed(p: Peer, d: Option<DevicePeer>, now: Time)
    requires WellFormed(p)
    ensures WellFormed(Refreshed(p, d, now).0) && Refreshed(p, d, now).0.runtime.endpoints == p.runtime.endpoints
  {
    hide Spelled, MarkFailure, Observed;
    ObserveKeepsWellFormed(p, d, now);
    var o := Observed(p, d, now);
    var active := ActiveEndpoint(o.runtime);
    if active.Some? { MarksKeepSpelling(o.candidates, active.value, now); }
  }

  lemma RankKeepsWellFormed(p: Peer, results: map<string, ProbeResult>, now: Time)
    requires WellFormed(p)
    ensures WellFormed(Ranked(p, results, now).0)
  {
    var probed := Probed(p.candidates, results);
    assert Spelled(probed) == Spelled(p.candidates);
    if AnyReachable(probed) {
      SameLength(Sort(CandidateLe, probed), probed);
    }
  }

  lemma SameLength<T>(a: seq<T>, b: seq<T>)
    requires multiset(a) == multiset(b)
    ensures |a| == |b|
  {
    assert |multiset(a)| == |a| && |multiset(b)| == |b|;
  }

  // ---------------------------------------------------------------------------
  // A live endpoint is kept
  // ---------------------------------------------------------------------------

  /** If the device reports a live handshake, a refresh ends Up on exactly that endpoint and asks for nothing. */
  lemma LiveEndpointIsKept(p: Peer, d: DevicePeer, now: Time)
    requires WellFormed(p) && Live(d, p.runtime.endpoints, now)
    ensures
      var (q, changed) := Refreshed(p, Some(d), now);
      && !changed && !q.needsRanking && q.runtime.status.PeerUp?
      && ActiveEndpoint(q.runtime) == d.endpoint && q.runtime.lastHandshake == d.lastHandshake
      && q.reason == PreservedLiveEndpoint
  {
    hide MarkSuccess, MarkFailure, Position;
    PositionFinds(p.runtime.endpoints, d.endpoint.value);
  }

  // ---------------------------------------------------------------------------
  // Rotation in quiet runs
  // ---------------------------------------------------------------------------

  /** The device knows no handshake on an advertised endpoint that is less than 275 seconds old. */
  predicate Quiet(d: Option<DevicePeer>, endpoints: seq<string>, now: Time) {
    d.Some? && d.value.endpoint.Some? && d.value.endpoint.value in endpoints && d.value.lastHandshake.Some? ==>
      d.value.lastHandshake.value + PEER_DOWN_INTERVAL <= now
  }

  predicate Due(r: Runtime, now: Time) {
    |r.endpoints| > 1 && r.lastChange + ENDPOINT_CONNECTION_TIMEOUT <= now
  }

  /** `k` places on from `a` around a list of `n`. */
  function Around(a: nat, k: nat, n: nat): (r: nat)
    requires n > 0
    ensures r < n
  {
    (a + k) % n
  }

  /** A quiet refresh rotates exactly when the endpoint has had its 15 seconds and there is another one. */
  lemma QuietRefresh(p: Peer, d: Option<DevicePeer>, now: Time)
    requires WellFormed(p) && Quiet(d, p.runtime.endpoints, now)
    ensures
      var r := Refreshed(p, d, now).0.runtime;
      if Due(p.runtime, now) then
        r.active == Around(p.runtime.active, 1, |p.runtime.endpoints|) && r.lastChange == now && r.status.PeerUnknown?
      else r.active == p.runtime.active && r.lastChange == p.runtime.lastChange && !r.status.PeerUp?
  {
    hide MarkSuccess, MarkFailure, Position;
  }

  datatype Tick = Tick(device: Option<DevicePeer>, now: Time)

  function RefreshRun(p: Peer, ticks: seq<Tick>): Peer {
    if ticks == [] then p
    else
      var last := ticks[|ticks| - 1];
      Refreshed(RefreshRun(p, ticks[..|ticks| - 1]), last.device, last.now).0
  }

  predicate QuietRun(p: Peer, ticks: seq<Tick>) {
    forall t :: t in ticks ==> Quiet(t.device, p.runtime.endpoints, t.now)
  }

  /** When the run rotated. */
  function Rotations(p: Peer, ticks: seq<Tick>): seq<Time> {
    if ticks == [] then []
    else
      var last := ticks[|ticks| - 1];
      Rotations(p, ticks[..|ticks| - 1]) +
      if Due(RefreshRun(p, ticks[..|ticks| - 1]).runtime, last.now) then [last.now] else []
  }

  /**
   * In a quiet run the active index counts the rotations around the list, and rotations are at least
   * 15 seconds apart, whatever the clock does in between.
   */
  lemma {:induction false} QuietRunRotates(p: Peer, ticks: seq<Tick>)
    requires WellFormed(p) && QuietRun(p, ticks)
    ensures
      var q, times := RefreshRun(p, ticks), Rotations(p, ticks);
      && WellFormed(q) && q.runtime.endpoints == p.runtime.endpoints
      && (times == [] ==> q.runtime.active == p.runtime.active && q.runtime.lastChange == p.runtime.lastChange)
      && (times != [] ==>
        && |p.runtime.endpoints| > 1 && times[0] >= p.runtime.lastChange + ENDPOINT_CONNECTION_TIMEOUT
        && q.runtime.active == Around(p.runtime.active, |times|, |p.runtime.endpoints|)
        && q.runtime.lastChange == times[|times| - 1])
      && (forall i :: 0 < i < |times| ==> times[i] >= times[i - 1] + ENDPOINT_CONNECTION_TIMEOUT)
  {
    hide Refreshed, Quiet, Around;
    if ticks != [] {
      var n := |ticks| - 1;
      QuietRunRotates(p, ticks[..n]);
      var q, last := RefreshRun(p, ticks[..n]), ticks[n];
      assert last in ticks;
      QuietRefresh(q, last.device, last.now);
      RefreshKeepsWellFormed(q, last.device, last.now);
      if Due(q.runtime, last.now) { AroundNext(p.runtime.active, |Rotations(p, ticks[..n])|, |p.runtime.endpoints|); }
    }
  }

  lemma AroundNext(a: nat, k: nat, n: nat)
    requires n > 1 && a < n
    ensures Around(Around(a, k, n), 1, n) == Around(a, k + 1, n)
    ensures Around(a, 0, n) == a
  {
    DivModOf(a, n, 0, a);
    StepDivMod(a + k, n);
    var r := (a + k) % n;
    DivModOf(r + 1, n, if r + 1 == n then 1 else 0, if r + 1 == n then 0 else r + 1);
  }

  lemma {:induction false} RotationsByOne(p: Peer, ticks: seq<Tick>, k: nat)
    requires k <= |Rotations(p, ticks)|
    ensures exists i :: 0 <= i <= |ticks| && |Rotations(p, ticks[..i])| == k
  {
    hide RefreshRun, Due;
    if |Rotations(p, ticks)| == k {
      assert ticks[..|ticks|] == ticks;
    } else {
      var n := |ticks| - 1;
      RotationsByOne(p, ticks[..n], k);
      var i :| 0 <= i <= n && |Rotations(p, ticks[..n][..i])| == k;
      assert ticks[..n][..i] == ticks[..i];
    }
  }

  /** So as many rotations as there are endpoints leave no endpoint untried. */
  lemma RotationsVisitAll(p: Peer, ticks: seq<Tick>, e: nat)
    requires WellFormed(p) && QuietRun(p, ticks) && e < |p.runtime.endpoints| <= |Rotations(p, ticks)|
    ensures exists i :: 0 <= i <= |ticks| && RefreshRun(p, ticks[..i]).runtime.active == e
  {
    hide RefreshRun, Rotations, Around;
    var k := PlacesTo(p.runtime.active, e, |p.runtime.endpoints|);
    RotationsByOne(p, ticks, k);
    var i :| 0 <= i <= |ticks| && |Rotations(p, ticks[..i])| == k;
    ActiveAfter(p, ticks, i);
  }

  lemma PlacesTo(a: nat, e: nat, n: nat) returns (k: nat)
    requires a < n && e < n
    ensures k < n && Around(a, k, n) == e
  {
    k := if e >= a then e - a else e + n - a;
    DivModOf(a + k, n, if e >= a then 0 else 1, e);
  }

  lemma ActiveAfter(p: Peer, ticks: seq<Tick>, i: nat)
    requires WellFormed(p) && QuietRun(p, ticks) && i <= |ticks| && p.runtime.endpoints != []
    ensures RefreshRun(p, ticks[..i]).runtime.active ==
      Around(p.runtime.active, |Rotations(p, ticks[..i])|, |p.runtime.endpoints|)
  {
    hide RefreshRun, Rotations, Around;
    assert forall t :: t in ticks[..i] ==> t in ticks;
    QuietRunRotates(p, ticks[..i]);
    if Rotations(p, ticks[..i]) == [] && |p.runtime.endpoints| > 1 {
      AroundNext(p.runtime.active, 0, |p.runtime.endpoints|);
    }
    if |p.runtime.endpoints| == 1 { assert 0 <= Around(p.runtime.active, |Rotations(p, ticks[..i])|, 1) < 1; }
  }

  // ---------------------------------------------------------------------------
  // Ranking
  // ---------------------------------------------------------------------------

  /** If a probe got through, the best candidate becomes active, and the list is reordered but loses nothing. */
  lemma RankingPutsBestFirst(p: Peer, results: map<string, ProbeResult>, now: Time)
    requires WellFormed(p) && AnyReachable(Probed(p.candidates, results))
    ensures
      var q := Ranked(p, results, now).0;
      && multiset(q.runtime.endpoints) == multiset(p.runtime.endpoints)
      && q.candidates != [] && q.candidates[0].reachable && ActiveEndpoint(q.runtime) == Some(q.candidates[0].endpoint)
      && (forall c :: c in Probed(p.candidates, results) ==> !Better(c, q.candidates[0]))
      && (forall i, j :: 0 <= i < j < |q.candidates| ==> !Better(q.candidates[j], q.candidates[i]))
  {
    hide CompareCandidates, Probe, Better;
    var probed := Probed(p.candidates, results);
    var sorted := Sort(CandidateLe, probed);
    RankingOrder();
    SortSorted(CandidateLe, probed);
    SameLength(sorted, probed);
    ProbingKeepsSpelling(p.candidates, results);
    SpelledPermutes(sorted, probed);
    forall c | c in probed ensures CandidateLe(sorted[0], c) && !Better(c, sorted[0]) {
      assert c in multiset(sorted);
      var i :| 0 <= i < |sorted| && sorted[i] == c;
      ComparisonMeaning(sorted[0], c);
    }
    forall i, j | 0 <= i < j < |sorted| ensures !Better(sorted[j], sorted[i]) {
      ComparisonMeaning(sorted[i], sorted[j]);
    }
    var i :| 0 <= i < |probed| && probed[i].reachable;
    assert probed[i] in probed;
    ReachableFirst(sorted[0], probed[i]);
  }

  lemma ProbingKeepsSpelling(candidates: seq<Candidate>, results: map<string, ProbeResult>)
    ensures Spelled(Probed(candidates, results)) == Spelled(candidates)
  {
  }

  lemma ReachableFirst(a: Candidate, b: Candidate)
    requires CandidateLe(a, b) && b.reachable
    ensures a.reachable
  {
  }

  function Spelling(c: Candidate): seq<string> { [c.endpoint] }

  lemma {:induction false} SpelledIsFlat(candidates: seq<Candidate>)
    ensures Spelled(candidates) == Flat(Spelling, candidates)
  {
    if candidates != [] {
      var n := |candidates| - 1;
      SpelledIsFlat(candidates[..n]);
      assert Spelled(candidates) == Spelled(candidates[..n]) + [candidates[n].endpoint];
    }
  }

  lemma SpelledPermutes(a: seq<Candidate>, b: seq<Candidate>)
    requires multiset(a) == multiset(b)
    ensures multiset(Spelled(a)) == multiset(Spelled(b))
  {
    SpelledIsFlat(a);
    SpelledIsFlat(b);
    FlatPermutes(Spelling, a, b);
  }

  // ---------------------------------------------------------------------------
  // The planned endpoint list
  // ---------------------------------------------------------------------------

  /** `rotate_left` by the active index. */
  function PlannedEndpoints(p: Peer): seq<string> {
    if p.runtime.endpoints == [] then []
    else
      var active := p.runtime.active % |p.runtime.endpoints|;
      p.runtime.endpoints[active..] + p.runtime.endpoints[..active]
  }

  /** A planned list starts at the active endpoint and goes once around. */
  lemma PlanIsRotation(p: Peer)
    requires WellFormed(p) && p.runtime.endpoints != []
    ensures |PlannedEndpoints(p)| == |p.runtime.endpoints|
    ensures Some(PlannedEndpoints(p)[0]) == ActiveEndpoint(p.runtime)
    ensures forall i :: 0 <= i < |p.runtime.endpoints| ==>
      PlannedEndpoints(p)[i] == p.runtime.endpoints[(p.runtime.active + i) % |p.runtime.endpoints|]
  {
    var n, a := |p.runtime.endpoints|, p.runtime.active;
    DivModOf(a, n, 0, a);
    forall i | 0 <= i < n ensures PlannedEndpoints(p)[i] == p.runtime.endpoints[(a + i) % n] {
      DivModOf(a + i, n, if a + i < n then 0 else 1, if a + i < n then a + i else a + i - n);
    }
  }
}
