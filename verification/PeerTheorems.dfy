/** What peers make of records, handshakes and probes, told from those inputs alone. */
module PeerTheorems {
  import opened Model
  import opened PeerMap
  import opened Peers
  import opened RowCaches
  import opened Sorting

  // ---------------------------------------------------------------------------
  // Health
  // ---------------------------------------------------------------------------

  /** The handshake counts: on this endpoint while that is younger than 275 s, and afterwards if itself younger. */
  ghost predicate HandshakeCounts(r: Runtime, now: Time) {
    match r.lastHandshake
    case None => false
    case Some(at) =>
      if now < r.lastChange + 275_000_000_000 then at >= r.lastChange else now < at + 275_000_000_000
  }

  /** Up exactly with such a handshake; without one, Unknown exactly for the first 15 s on an endpoint. */
  lemma StatusExact(r: Runtime, now: Time)
    ensures StatusAt(r, now) == PeerUp <==> HandshakeCounts(r, now)
    ensures StatusAt(r, now) == PeerUnknown <==> !HandshakeCounts(r, now) && now < r.lastChange + 15_000_000_000
  {
  }

  // ---------------------------------------------------------------------------
  // Records
  // ---------------------------------------------------------------------------

  /** The first candidate for an endpoint. */
  ghost predicate FirstFor(candidates: seq<Candidate>, endpoint: string, c: Candidate) {
    exists i :: 0 <= i < |candidates| && candidates[i] == c && c.endpoint == endpoint &&
      forall j :: 0 <= j < i ==> candidates[j].endpoint != endpoint
  }

  lemma {:induction false} FindCandidateFirst(candidates: seq<Candidate>, endpoint: string)
    ensures var k := FindCandidate(candidates, endpoint);
      && (k < |candidates| ==> candidates[k].endpoint == endpoint)
      && forall j :: 0 <= j < k ==> candidates[j].endpoint != endpoint
  {
    if candidates != [] && candidates[0].endpoint != endpoint {
      FindCandidateFirst(candidates[1..], endpoint);
      forall j | 0 <= j < FindCandidate(candidates, endpoint) ensures candidates[j].endpoint != endpoint {
        if j > 0 { assert candidates[j] == candidates[1..][j - 1]; }
      }
    }
  }

  /**
   * After an update the peer has the record's key, addresses and endpoints, in the advertised order;
   * an endpoint that it knew keeps its measurements and a new one has none; and it asks for a ranking
   * unless it has no endpoint, or is Up on one that it still has.
   */
  lemma UpdateExact(p: Peer, m: MachineRecord)
    requires WellFormed(p)
    ensures
      var q := UpdatedFrom(p, m);
      && q.id == p.id && q.publicKey == m.publicKey && q.overlayIp == m.overlayIp
      && q.subnet == m.subnet && q.bridgeIp == m.bridgeIp && q.reason == p.reason
      && q.runtime.endpoints == m.endpoints && q.runtime.status == p.runtime.status
      && q.runtime.lastChange == p.runtime.lastChange && q.runtime.lastHandshake == p.runtime.lastHandshake
      && |q.candidates| == |m.endpoints|
      && (forall i :: 0 <= i < |m.endpoints| ==>
        q.candidates[i].endpoint == m.endpoints[i] && q.candidates[i].advertisedIndex == i)
      && (q.needsRanking <==>
        && m.endpoints != []
        && (p.runtime.status == PeerUp ==>
          p.runtime.endpoints != [] && p.runtime.endpoints[p.runtime.active] !in m.endpoints))
  {
  }

  lemma UpdateKeepsMeasurements(p: Peer, m: MachineRecord, i: nat, c: Candidate)
    requires i < |m.endpoints| == |UpdatedFrom(p, m).candidates|
    ensures
      var d := UpdatedFrom(p, m).candidates[i];
      && (FirstFor(p.candidates, m.endpoints[i], c) ==>
        d.reachable == c.reachable && d.rtt == c.rtt && d.success == c.success && d.failure == c.failure)
      && ((forall k :: k in p.candidates ==> k.endpoint != m.endpoints[i]) ==>
        !d.reachable && d.rtt == None && d.success == None && d.failure == None)
  {
    FindCandidateFirst(p.candidates, m.endpoints[i]);
  }

  /** A peer made from a record has nothing but the record, starts on the first endpoint and asks for a ranking. */
  lemma RecordExact(m: MachineRecord, now: Time)
    ensures
      var p := FromRecord(m, now);
      && p.id == m.id && p.publicKey == m.publicKey && p.overlayIp == m.overlayIp
      && p.subnet == m.subnet && p.bridgeIp == m.bridgeIp
      && p.runtime.endpoints == m.endpoints && p.runtime.active == 0 && p.runtime.lastChange == now
      && p.runtime.lastHandshake == None && p.runtime.status == PeerUnknown
      && (p.needsRanking <==> m.endpoints != []) && p.reason == AdvertisedOrder
      && (forall c :: c in p.candidates ==> !c.reachable && c.rtt == None && c.success == None && c.failure == None)
  {
  }

  /** Whatever was known before, the plan after a stored record has its key and addresses, and its endpoints around. */
  lemma RecordReachesPlan(t: Tables, m: MachineRecord, now: Time, local: MachineId)
    requires ValidTable(t.stored) && ValidTable(t.transient) && m.endpoints != [] && m.id != local
    ensures
      var u := AfterOperation(t, UpsertStoredOp(m), now);
      var plan := PlanOf(u.stored, u.transient, local);
      && m.id in plan && plan[m.id].id == m.id && plan[m.id].publicKey == m.publicKey
      && plan[m.id].overlayIp == m.overlayIp && plan[m.id].subnet == m.subnet && plan[m.id].bridgeIp == m.bridgeIp
      && |plan[m.id].endpoints| == |m.endpoints| && multiset(plan[m.id].endpoints) == multiset(m.endpoints)
  {
    hide WithEndpoints, BuildCandidates;
    var u := AfterOperation(t, UpsertStoredOp(m), now);
    var p := u.stored[m.id];
    if m.id in t.stored { UpdateExact(t.stored[m.id], m); }
    var n := p.runtime.active % |m.endpoints|;
    assert m.endpoints == m.endpoints[..n] + m.endpoints[n..];
  }

  // ---------------------------------------------------------------------------
  // Handshakes
  // ---------------------------------------------------------------------------

  /** A device report is taken over only if it is of a known endpoint and younger than 275 s. */
  lemma StaleReportIsIgnored(p: Peer, d: DevicePeer, now: Time)
    requires match (d.endpoint, d.lastHandshake)
      case (Some(e), Some(at)) => e !in p.runtime.endpoints || now < at || at + 275_000_000_000 <= now
      case _ => true
    ensures Seeded(p, d, now) == p
  {
  }

  /** Otherwise the peer is on that endpoint since the handshake, Up, and the endpoint has a success to its name. */
  lemma LiveReportIsTaken(p: Peer, d: DevicePeer, now: Time, e: string, at: Time)
    requires WellFormed(p) && d.endpoint == Some(e) && d.lastHandshake == Some(at)
    requires e in p.runtime.endpoints && at <= now < at + 275_000_000_000
    ensures
      var q := Seeded(p, d, now);
      && ActiveEndpoint(q.runtime) == Some(e) && q.runtime.lastChange == at && q.runtime.lastHandshake == Some(at)
      && q.runtime.status == PeerUp && q.reason == PreservedLiveEndpoint && !q.needsRanking
      && q.runtime.endpoints == p.runtime.endpoints && |q.candidates| == |p.candidates|
      && (forall i :: 0 <= i < |p.candidates| ==>
        q.candidates[i] == p.candidates[i] || q.candidates[i] == p.candidates[i].(success := Some(at)))
      && exists c :: c in q.candidates && c.endpoint == e && c.success == Some(at)
  {
    PositionFinds(p.runtime.endpoints, e);
    FindCandidateFirst(p.candidates, e);
    var i := Position(p.runtime.endpoints, e).value;
    assert Spelled(p.candidates)[i] == e && p.candidates[i].endpoint == e;
    var k := FindCandidate(p.candidates, e);
    assert Seeded(p, d, now).candidates[k].success == Some(at);
    assert Seeded(p, d, now).candidates[k] in Seeded(p, d, now).candidates;
  }

  /** A refresh that moves the peer on marks the endpoint it leaves as failed, and reports whether the text changed. */
  lemma RotationIsMarked(p: Peer, d: Option<DevicePeer>, now: Time)
    requires WellFormed(p) && Quiet(d, p.runtime.endpoints, now) && Due(p.runtime, now)
    ensures
      var (q, changed) := Refreshed(p, d, now);
      && (changed <==> ActiveEndpoint(q.runtime) != ActiveEndpoint(p.runtime))
      && q.reason == WireguardFallback && !q.needsRanking
      && exists c :: c in q.candidates && Some(c.endpoint) == ActiveEndpoint(p.runtime) && c.failure == Some(now)
  {
    hide MarkSuccess, Position, Spelled;
    ObserveKeepsWellFormed(p, d, now);
    var o, e := Observed(p, d, now), p.runtime.endpoints[p.runtime.active];
    SpelledAt(o, p.runtime.active);
    FindCandidateFirst(o.candidates, e);
    var k := FindCandidate(o.candidates, e);
    var q := Refreshed(p, d, now).0;
    assert q.candidates[k].failure == Some(now) && q.candidates[k] in q.candidates;
  }

  lemma SpelledAt(p: Peer, i: nat)
    requires WellFormed(p) && i < |p.runtime.endpoints|
    ensures i < |p.candidates| && p.candidates[i].endpoint == p.runtime.endpoints[i]
  {
    assert Spelled(p.candidates)[i] == p.runtime.endpoints[i];
  }

  ghost predicate LastFor(devices: seq<DevicePeer>, key: string, i: nat)
    requires i < |devices|
  {
    devices[i].publicKey == key && forall j :: i < j < |devices| ==> devices[j].publicKey != key
  }

  /** Of several reports for a key the last one counts. */
  lemma {:induction false} LastReportCounts(devices: seq<DevicePeer>, key: string)
    ensures DeviceFor(devices, key).None? <==> forall d :: d in devices ==> d.publicKey != key
    ensures DeviceFor(devices, key).Some? ==>
      exists i :: 0 <= i < |devices| && DeviceFor(devices, key) == Some(devices[i]) && LastFor(devices, key, i)
  {
    if devices != [] {
      var n := |devices| - 1;
      assert forall d :: d in devices <==> d in devices[..n] || d == devices[n];
      LastReportCounts(devices[..n], key);
      if devices[n].publicKey == key {
        assert LastFor(devices, key, n);
      } else if i :| 0 <= i < n && DeviceFor(devices, key) == Some(devices[..n][i]) && LastFor(devices[..n], key, i) {
        assert LastFor(devices, key, i);
      }
    }
  }

  /** After a refresh every peer with a live report, stored or not, is Up on the endpoint reported. */
  lemma LivePeersAreUp(t: Tables, devices: seq<DevicePeer>, now: Time, id: MachineId, d: DevicePeer)
    requires ValidTable(t.stored) && ValidTable(t.transient)
    requires id in t.stored || id in t.transient
    requires var p := if id in t.stored then t.stored[id] else t.transient[id];
      DeviceFor(devices, p.publicKey) == Some(d) && Live(d, p.runtime.endpoints, now)
    ensures
      var u := AfterOperation(t, RefreshOp(devices), now);
      && u.stored.Keys == t.stored.Keys && u.transient.Keys == t.transient.Keys
      && var q := if id in u.stored then u.stored[id] else u.transient[id];
      q.runtime.status == PeerUp && ActiveEndpoint(q.runtime) == d.endpoint
  {
    hide Refreshed;
    LiveEndpointIsKept(if id in t.stored then t.stored[id] else t.transient[id], d, now);
  }

  // ---------------------------------------------------------------------------
  // Probes
  // ---------------------------------------------------------------------------

  /** A candidate with the measurements of a round of probes: its own where it was not probed. */
  ghost predicate MeasuredAs(c: Candidate, results: map<string, ProbeResult>, d: Candidate) {
    && d.endpoint == c.endpoint && d.advertisedIndex == c.advertisedIndex
    && d.success == c.success && d.failure == c.failure
    && (c.endpoint in results ==> d.reachable == results[c.endpoint].reachable && d.rtt == results[c.endpoint].rtt)
    && (c.endpoint !in results ==> d.reachable == c.reachable && d.rtt == c.rtt)
  }

  /** After a round every candidate is there with its measurements, and nothing else is. */
  lemma RoundExact(p: Peer, results: map<string, ProbeResult>, now: Time)
    ensures
      var q := Ranked(p, results, now).0;
      && (forall c :: c in p.candidates ==> exists d :: d in q.candidates && MeasuredAs(c, results, d))
      && (forall d :: d in q.candidates ==> exists c :: c in p.candidates && MeasuredAs(c, results, d))
      && |q.candidates| == |p.candidates| && !q.needsRanking
      && q.publicKey == p.publicKey && q.overlayIp == p.overlayIp && q.subnet == p.subnet && q.bridgeIp == p.bridgeIp
  {
    hide Ranked, MeasuredAs;
    RankedCandidates(p, results, now);
    ProbedMeasured(p.candidates, results);
  }

  lemma RankedCandidates(p: Peer, results: map<string, ProbeResult>, now: Time)
    ensures
      var q, probed := Ranked(p, results, now).0, Probed(p.candidates, results);
      && (forall d :: d in q.candidates <==> d in probed) && |q.candidates| == |probed| && !q.needsRanking
      && q.publicKey == p.publicKey && q.overlayIp == p.overlayIp && q.subnet == p.subnet && q.bridgeIp == p.bridgeIp
  {
    hide Sort, Probed;
    var q, probed := Ranked(p, results, now).0, Probed(p.candidates, results);
    forall d ensures d in q.candidates <==> d in probed {
      assert d in Sort(CandidateLe, probed) <==> d in multiset(probed);
    }
    SameLength(Sort(CandidateLe, probed), probed);
  }

  lemma ProbedMeasured(candidates: seq<Candidate>, results: map<string, ProbeResult>)
    ensures
      var probed := Probed(candidates, results);
      && |probed| == |candidates|
      && (forall c :: c in candidates ==> exists d :: d in probed && MeasuredAs(c, results, d))
      && (forall d :: d in probed ==> exists c :: c in candidates && MeasuredAs(c, results, d))
  {
    hide MeasuredAs, Probe;
    var probed := Probed(candidates, results);
    forall i | 0 <= i < |candidates| ensures MeasuredAs(candidates[i], results, probed[i]) && probed[i] in probed {
      ProbeMeasures(candidates[i], results);
    }
  }

  lemma ProbeMeasures(c: Candidate, results: map<string, ProbeResult>)
    ensures MeasuredAs(c, results, Probe(c, results))
  {
  }

  /** If no candidate is reachable then, the peer stays where it is. */
  lemma NothingReachableMovesNothing(p: Peer, results: map<string, ProbeResult>, now: Time)
    requires forall c, d :: c in p.candidates && MeasuredAs(c, results, d) ==> !d.reachable
    ensures Ranked(p, results, now).0.runtime == p.runtime && !Ranked(p, results, now).1
  {
    forall i | 0 <= i < |p.candidates| ensures !Probe(p.candidates[i], results).reachable {
      ProbeMeasures(p.candidates[i], results);
      assert p.candidates[i] in p.candidates;
    }
  }

  /**
   * If every endpoint was probed and some answered, the peer moves to one that did, at least as fast
   * as every other that did, starts afresh there, and reports whether that is another endpoint.
   */
  lemma RankingChoosesFastest(p: Peer, results: map<string, ProbeResult>, now: Time)
    requires WellFormed(p) && (forall e :: e in p.runtime.endpoints ==> e in results)
    requires exists e :: e in p.runtime.endpoints && results[e].reachable
    ensures
      var (q, changed) := Ranked(p, results, now);
      && q.runtime.endpoints != [] && q.runtime.active == 0
      && q.runtime.lastChange == now && q.runtime.lastHandshake == None && q.runtime.status == PeerUnknown
      && (changed <==> ActiveEndpoint(p.runtime) != ActiveEndpoint(q.runtime))
      && var e := q.runtime.endpoints[0];
      && e in p.runtime.endpoints && results[e].reachable
      && forall f :: f in p.runtime.endpoints && results[f].reachable && results[f].rtt.Some? ==>
        results[e].rtt.Some? && results[e].rtt.value <= results[f].rtt.value
  {
    hide Sort, Probed, Spelled, Better, AnyReachable, WellFormed, Ranked;
    ReachableIsMeasured(p, results);
    RankingPutsBestFirst(p, results, now);
    MovedAfresh(p, results, now);
    BestMeasured(p, results, now);
    var best := Ranked(p, results, now).0.candidates[0];
    forall f | f in p.runtime.endpoints && results[f].reachable && results[f].rtt.Some?
      ensures results[best.endpoint].rtt.Some? && results[best.endpoint].rtt.value <= results[f].rtt.value
    {
      NotSlower(p, results, best, f);
    }
  }

  lemma MovedAfresh(p: Peer, results: map<string, ProbeResult>, now: Time)
    requires AnyReachable(Probed(p.candidates, results))
    ensures
      var (q, changed) := Ranked(p, results, now);
      && q.candidates != [] && q.runtime.endpoints != [] && q.runtime.endpoints[0] == q.candidates[0].endpoint
      && q.runtime == Runtime(q.runtime.endpoints, 0, now, None, PeerUnknown)
      && (changed <==> ActiveEndpoint(p.runtime) != ActiveEndpoint(q.runtime))
  {
    hide Sort, Probed;
    SameLength(Sort(CandidateLe, Probed(p.candidates, results)), Probed(p.candidates, results));
  }

  lemma BestMeasured(p: Peer, results: map<string, ProbeResult>, now: Time)
    requires WellFormed(p) && (forall e :: e in p.runtime.endpoints ==> e in results)
    requires Ranked(p, results, now).0.candidates != []
    ensures
      var best := Ranked(p, results, now).0.candidates[0];
      && best.endpoint in p.runtime.endpoints
      && best.reachable == results[best.endpoint].reachable && best.rtt == results[best.endpoint].rtt
  {
    hide Ranked, WellFormed;
    RoundExact(p, results, now);
    var q := Ranked(p, results, now).0;
    assert q.candidates[0] in q.candidates;
    var c :| c in p.candidates && MeasuredAs(c, results, q.candidates[0]);
    CandidateSpelled(p, c);
  }

  lemma NotSlower(p: Peer, results: map<string, ProbeResult>, best: Candidate, f: string)
    requires WellFormed(p) && best.reachable && forall c :: c in Probed(p.candidates, results) ==> !Better(c, best)
    requires f in p.runtime.endpoints && f in results && results[f].reachable && results[f].rtt.Some?
    ensures best.rtt.Some? && best.rtt.value <= results[f].rtt.value
  {
    hide Probed, WellFormed;
    var d := EndpointMeasured(p, results, f);
  }

  lemma CandidateSpelled(p: Peer, c: Candidate)
    requires WellFormed(p) && c in p.candidates
    ensures c.endpoint in p.runtime.endpoints
  {
    var i :| 0 <= i < |p.candidates| && p.candidates[i] == c;
    assert Spelled(p.candidates)[i] == c.endpoint;
  }

  lemma EndpointMeasured(p: Peer, results: map<string, ProbeResult>, f: string) returns (d: Candidate)
    requires WellFormed(p) && f in p.runtime.endpoints && f in results
    ensures d in Probed(p.candidates, results)
    ensures d.endpoint == f && d.reachable == results[f].reachable && d.rtt == results[f].rtt
  {
    var i :| 0 <= i < |p.runtime.endpoints| && p.runtime.endpoints[i] == f;
    SpelledAt(p, i);
    ProbeMeasures(p.candidates[i], results);
    d := Probed(p.candidates, results)[i];
  }

  lemma ReachableIsMeasured(p: Peer, results: map<string, ProbeResult>)
    requires WellFormed(p) && exists e :: e in p.runtime.endpoints && e in results && results[e].reachable
    ensures AnyReachable(Probed(p.candidates, results))
  {
    var e :| e in p.runtime.endpoints && e in results && results[e].reachable;
    var d := EndpointMeasured(p, results, e);
    var probed := Probed(p.candidates, results);
    var i :| 0 <= i < |probed| && probed[i] == d;
  }

  // ---------------------------------------------------------------------------
  // Which peers an operation touches
  // ---------------------------------------------------------------------------

  /** A peer other than the one an operation names is as before, whichever table it is in. */
  lemma OthersStay(t: Tables, op: Operation, now: Time, id: MachineId)
    requires match op
      case UpsertStoredOp(m) => m.id != id
      case UpsertTransientOp(m) => m.id != id
      case EventOp(e) => e.record.id != id
      case RemoveTransientOp(other) => other != id
      case ProbeOp(other, _) => other != id
      case Init(records) => forall m :: m in records ==> m.id != id
      case _ => false
    ensures
      var u := AfterOperation(t, op, now);
      && (id in u.stored <==> id in t.stored) && (id in t.stored ==> u.stored[id] == t.stored[id])
      && (id in u.transient <==> id in t.transient) && (id in t.transient ==> u.transient[id] == t.transient[id])
  {
    if op.Init? { SnapshotOthers(t.stored, op.records, now, id); }
  }

  lemma {:induction false} SnapshotOthers(t: PeerTable, records: seq<MachineRecord>, now: Time, id: MachineId)
    requires forall m :: m in records ==> m.id != id
    ensures id in WithSnapshot(t, records, now) <==> id in t
    ensures id in t ==> WithSnapshot(t, records, now)[id] == t[id]
  {
    if records != [] { SnapshotOthers(t, records[..|records| - 1], now, id); }
  }

  /** A stored machine is never transient as well, and a transient record never replaces a stored one. */
  lemma StoredComesFirst(t: Tables, m: MachineRecord, now: Time)
    ensures
      var u := AfterOperation(t, UpsertStoredOp(m), now);
      m.id in u.stored && m.id !in u.transient
    ensures m.id in t.stored ==> AfterOperation(t, UpsertTransientOp(m), now) == t
    ensures m.id !in t.stored ==> m.id in AfterOperation(t, UpsertTransientOp(m), now).transient
    ensures m.id !in AfterOperation(t, EventOp(RemovedMachine(m)), now).stored
    ensures m.id !in AfterOperation(t, RemoveTransientOp(m.id), now).transient
  {
  }

  /**
   * A round of probes moves the peer it is for, the stored one if there is one, to the fastest
   * endpoint that answered.
   */
  lemma ProbesReachPeer(t: Tables, id: MachineId, results: map<string, ProbeResult>, now: Time)
    requires ValidTable(t.stored) && ValidTable(t.transient) && (id in t.stored || id in t.transient)
    requires var p := if id in t.stored then t.stored[id] else t.transient[id];
      && (forall e :: e in p.runtime.endpoints ==> e in results)
      && exists e :: e in p.runtime.endpoints && results[e].reachable
    ensures
      var u := AfterOperation(t, ProbeOp(id, results), now);
      && (id in u.stored <==> id in t.stored) && (id in u.stored || id in u.transient)
      && var q := if id in u.stored then u.stored[id] else u.transient[id];
      && q.runtime.endpoints != [] && q.runtime.active == 0
      && var e := q.runtime.endpoints[0];
      && e in results && results[e].reachable
      && forall f :: f in q.runtime.endpoints && f in results && results[f].reachable && results[f].rtt.Some? ==>
        results[e].rtt.Some? && results[e].rtt.value <= results[f].rtt.value
  {
    hide Ranked;
    var p := if id in t.stored then t.stored[id] else t.transient[id];
    RankingChoosesFastest(p, results, now);
    ReachableIsMeasured(p, results);
    RankingPutsBestFirst(p, results, now);
    var q := Ranked(p, results, now).0;
    forall f | f in q.runtime.endpoints ensures f in p.runtime.endpoints {
      assert f in multiset(q.runtime.endpoints);
    }
  }

  /** Seeding puts every peer with a live report, stored or not, on the endpoint reported. */
  lemma SeedsReachPeers(t: Tables, devices: seq<DevicePeer>, now: Time, id: MachineId, d: DevicePeer)
    requires ValidTable(t.stored) && ValidTable(t.transient)
    requires id in t.stored || id in t.transient
    requires var p := if id in t.stored then t.stored[id] else t.transient[id];
      DeviceFor(devices, p.publicKey) == Some(d) && Live(d, p.runtime.endpoints, now)
    ensures
      var u := AfterOperation(t, SeedOp(devices), now);
      && u.stored.Keys == t.stored.Keys && u.transient.Keys == t.transient.Keys
      && var q := if id in u.stored then u.stored[id] else u.transient[id];
      q.runtime.status == PeerUp && ActiveEndpoint(q.runtime) == d.endpoint
  {
    hide Seeded;
    LiveReportIsTaken(
      if id in t.stored then t.stored[id] else t.transient[id], d, now, d.endpoint.value, d.lastHandshake.value);
  }
}
