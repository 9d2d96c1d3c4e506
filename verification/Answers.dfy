/** What the gateway's tables and answers are, told from store records and requests alone. */
module Answers {
  import opened Model
  import opened Permutations
  import opened RouteConflicts
  import opened Routes
  import opened RoutingTheorems
  import opened Sorting
  import opened Strings

  // ---------------------------------------------------------------------------
  // Hosts and paths
  // ---------------------------------------------------------------------------

  ghost predicate Blank(s: string) { forall c :: c in s ==> IsWhitespace(c) }

  ghost predicate Dots(s: string) { forall c :: c in s ==> c == '.' }

  lemma {:induction false} TrimStartExact(before: string, t: string)
    requires Blank(before) && (t != "" ==> !IsWhitespace(t[0]))
    ensures TrimStart(before + t) == t
  {
    var s := before + t;
    if before != "" {
      assert s[1..] == before[1..] + t && before[0] in before;
      TrimStartExact(before[1..], t);
    } else {
      assert s == t;
    }
  }

  lemma {:induction false} TrimEndExact(t: string, after: string)
    requires Blank(after) && (t != "" ==> !IsWhitespace(t[|t| - 1]))
    ensures TrimEnd(t + after) == t
  {
    var s := t + after;
    if after != "" {
      var n := |after| - 1;
      assert s[..|s| - 1] == t + after[..n] && after[n] in after && s[|s| - 1] == after[n];
      TrimEndExact(t, after[..n]);
    } else {
      assert s == t;
    }
  }

  /** `t` between white space is what trimming leaves of it. */
  ghost predicate Core(t: string) { t != "" ==> !IsWhitespace(t[0]) && !IsWhitespace(t[|t| - 1]) }

  lemma TrimExact(before: string, t: string, after: string)
    requires Blank(before) && Core(t) && Blank(after)
    ensures Trim(before + t + after) == t
  {
    if t == "" {
      assert before + t + after == (before + after) + "";
      assert forall c :: c in before + after ==> c in before || c in after;
      TrimStartExact(before + after, "");
    } else {
      assert before + t + after == before + (t + after);
      TrimStartExact(before, t + after);
      TrimEndExact(t, after);
    }
  }

  lemma {:induction false} DotsTrimmed(t: string, dots: string)
    requires Dots(dots) && (t != "" ==> t[|t| - 1] != '.')
    ensures TrimTrailingDots(t + dots) == t
  {
    var s := t + dots;
    if dots != "" {
      var n := |dots| - 1;
      assert s[..|s| - 1] == t + dots[..n] && dots[n] in dots && s[|s| - 1] == dots[n];
      assert forall c :: c in dots[..n] ==> c in dots;
      DotsTrimmed(t, dots[..n]);
    } else {
      assert s == t;
    }
  }

  /** A request's host is `t`, up to white space around it and dots at its end. */
  ghost predicate HostText(host: string, t: string) {
    exists before, dots, after ::
      && host == before + (t + dots) + after && Blank(before) && Blank(after) && Dots(dots)
      && Core(t + dots) && (t != "" ==> t[|t| - 1] != '.')
  }

  lemma HostTrimmed(host: string, t: string)
    requires HostText(host, t)
    ensures TrimTrailingDots(Trim(host)) == t
  {
    var before, dots, after :|
      && host == before + (t + dots) + after && Blank(before) && Blank(after) && Dots(dots)
      && Core(t + dots) && (t != "" ==> t[|t| - 1] != '.');
    TrimExact(before, t + dots, after);
    DotsTrimmed(t, dots);
  }

  /** Every host has such a text, so the lemmas below cover every host. */
  lemma HostHasText(host: string) returns (t: string)
    ensures HostText(host, t)
  {
    var before, rest := SplitStart(host);
    var core, after := SplitEnd(rest);
    var dots;
    t, dots := SplitDots(core);
    assert host == before + (t + dots) + after;
  }

  lemma {:induction false} SplitStart(s: string) returns (before: string, t: string)
    ensures s == before + t && Blank(before) && (t != "" ==> !IsWhitespace(t[0]))
  {
    if s == "" || !IsWhitespace(s[0]) {
      before, t := "", s;
    } else {
      before, t := SplitStart(s[1..]);
      before := [s[0]] + before;
    }
  }

  lemma {:induction false} SplitEnd(s: string) returns (t: string, after: string)
    requires s != "" ==> !IsWhitespace(s[0])
    ensures s == t + after && Blank(after) && Core(t)
  {
    if s == "" || !IsWhitespace(s[|s| - 1]) {
      t, after := s, "";
    } else {
      t, after := SplitEnd(s[..|s| - 1]);
      after := after + [s[|s| - 1]];
    }
  }

  lemma {:induction false} SplitDots(s: string) returns (t: string, dots: string)
    ensures s == t + dots && Dots(dots) && (t != "" ==> t[|t| - 1] != '.')
  {
    if s == "" || s[|s| - 1] != '.' {
      t, dots := s, "";
    } else {
      t, dots := SplitDots(s[..|s| - 1]);
      dots := dots + ".";
    }
  }

  lemma {:induction false} DropPortAt(left: string, right: string, end: nat)
    requires ':' !in right && |left| + 1 <= end <= |left| + 1 + |right|
    ensures DropPort(left + ":" + right, end) == if AllDigits(right) then left else left + ":" + right
    decreases end
  {
    var s := left + ":" + right;
    if end == |left| + 1 {
      assert s[end..] == right && s[..end - 1] == left;
    } else {
      assert s[end - 1] == right[end - 2 - |left|];
      DropPortAt(left, right, end - 1);
    }
  }

  lemma {:induction false} DropPortNone(s: string, end: nat)
    requires end <= |s| && ':' !in s
    ensures DropPort(s, end) == s
  {
    if end > 0 { DropPortNone(s, end - 1); }
  }

  lemma {:induction false} UpToFirst(a: string, c: char, rest: string)
    requires c !in a
    ensures UpTo(a + [c] + rest, c) == a
  {
    var s := a + [c] + rest;
    if a != "" {
      assert s[1..] == a[1..] + [c] + rest && s[0] == a[0];
      UpToFirst(a[1..], c, rest);
    }
  }

  lemma {:induction false} UpToNone(a: string, c: char)
    requires c !in a
    ensures UpTo(a, c) == a
  {
    if a != "" { UpToNone(a[1..], c); }
  }

  /** A port of digits after the last colon does not count, in whatever case the host is spelled. */
  lemma HostWithPort(host: string, left: string, right: string)
    requires HostText(host, left + ":" + right) && ':' !in right && (left == "" || left[0] != '[')
    ensures NormalizeRequestHost(host) ==
      AsciiLower(if forall c :: c in right ==> '0' <= c <= '9' then left else left + ":" + right)
  {
    var t := left + ":" + right;
    HostTrimmed(host, t);
    assert t[0] == if left == "" then ':' else left[0];
    DropPortAt(left, right, |t|);
    DigitsOnly(right);
  }

  lemma DigitsOnly(s: string)
    ensures AllDigits(s) <==> forall c :: c in s ==> '0' <= c <= '9'
  {
    if forall c :: c in s ==> '0' <= c <= '9' {
      forall i | 0 <= i < |s| ensures '0' <= s[i] <= '9' { assert s[i] in s; }
    }
  }

  lemma HostWithoutPort(host: string, t: string)
    requires HostText(host, t) && ':' !in t && (t == "" || t[0] != '[')
    ensures NormalizeRequestHost(host) == AsciiLower(t)
  {
    HostTrimmed(host, t);
    DropPortNone(t, |t|);
  }

  /** Of a bracketed address only what the brackets hold counts. */
  lemma HostInBrackets(host: string, address: string, rest: string)
    requires HostText(host, "[" + address + rest) && ']' !in address && (rest == "" || rest[0] == ']')
    ensures NormalizeRequestHost(host) == AsciiLower(address)
  {
    var t := "[" + address + rest;
    HostTrimmed(host, t);
    assert t[1..] == address + rest;
    if rest == "" {
      assert address + rest == address;
      UpToNone(address, ']');
    } else {
      assert address + rest == address + [']'] + rest[1..];
      UpToFirst(address, ']', rest[1..]);
    }
  }

  /** So a request for "Example.com:8080" is one for "example.com". */
  lemma PortAndCaseAreIgnored()
    ensures NormalizeRequestHost("Example.com:8080") == NormalizeRequestHost("example.com") == "example.com"
  {
    hide AsciiLower, HostText;
    var name := "Example.com";
    assert "Example.com:8080" == name + ":" + "8080";
    PlainText(name + ":" + "8080");
    PlainText("example.com");
    HostWithPort(name + ":" + "8080", name, "8080");
    HostWithoutPort("example.com", "example.com");
    LowerExample();
  }

  lemma LowerExample()
    ensures AsciiLower("Example.com") == AsciiLower("example.com") == "example.com"
  {
  }

  lemma PlainText(t: string)
    requires Core(t) && (t != "" ==> t[|t| - 1] != '.')
    ensures HostText(t, t)
  {
    assert t == "" + (t + "") + "" && t + "" == t;
    assert Blank("") && Dots("");
  }

  /** A path prefix starts with a slash and is otherwise as written, up to white space around it. */
  lemma PathPrefixExact(before: string, t: string, after: string)
    requires Blank(before) && Core(t) && Blank(after)
    ensures NormalizePathPrefix(before + t + after) == if t != "" && t[0] == '/' then t else "/" + t
  {
    TrimExact(before, t, after);
  }

  // ---------------------------------------------------------------------------
  // Backends
  // ---------------------------------------------------------------------------

  /** Traffic for a release may go to this revision. */
  ghost predicate RevisionServes(release: Release, hash: RevisionHash) {
    match release.routing
    case Direct(chosen) => hash == chosen
    case Split(allocations) =>
      if allocations == [] then hash in release.referencedRevisionHashes
      else exists a :: a in allocations && a.revisionHash == hash
  }

  /**
   * Backend `b` is that of `slot`: the slot's instance is recorded for exactly this slot, at a
   * revision that serves, healthy, and with the address and port that `b` carries.
   */
  ghost predicate BackendOf(
    rec: ReleaseRecord, instances: map<InstanceId, InstanceStatus>, port: string, slot: Slot, b: BackendView)
  {
    && slot in rec.release.slots && slot.activeInstanceId in instances
    && var inst := instances[slot.activeInstanceId];
    && inst.namespace == rec.namespace && inst.service == rec.service
    && inst.slotId == slot.slotId && inst.machineId == slot.machineId && inst.revisionHash == slot.revisionHash
    && RevisionServes(rec.release, inst.revisionHash)
    && inst.ready && inst.phase == Ready && inst.drainState == NoDrain && inst.error == None
    && inst.overlayIp.Some? && port in inst.backendPorts
    && b == BackendView(inst.instanceId, inst.machineId, port, (inst.overlayIp.value, inst.backendPorts[port]))
  }

  lemma AllowedExact(release: Release, hash: RevisionHash)
    ensures hash in AllowedRevisionHashes(release) <==> RevisionServes(release, hash)
  {
    match release.routing
    case Direct(_) =>
    case Split(allocations) =>
      var hashes := set a | a in allocations :: a.revisionHash;
      if allocations != [] {
        assert allocations[0] in allocations && allocations[0].revisionHash in hashes;
        assert AllowedRevisionHashes(release) == hashes;
      } else {
        assert hashes == {};
      }
  }

  lemma {:induction false} SlotBackendsMember(
    rec: ReleaseRecord, slots: seq<Slot>, instances: map<InstanceId, InstanceStatus>, port: string, b: BackendView)
    ensures b in SlotBackends(rec, slots, instances, port) <==>
      exists slot :: slot in slots && b in SlotBackend(rec, slot, instances, port)
  {
    hide SlotBackend;
    if slots != [] {
      var n := |slots| - 1;
      SlotBackendsMember(rec, slots[..n], instances, port, b);
      assert forall slot :: slot in slots <==> slot in slots[..n] || slot == slots[n];
    }
  }

  /** A port lists exactly the backends of the release's slots, if the spec has that port. */
  lemma BackendListed(
    rec: ReleaseRecord, spec: ServiceSpec, instances: map<InstanceId, InstanceStatus>, port: string, b: BackendView)
    ensures b in BackendsFor(rec, spec, instances, port) <==>
      (exists p :: p in spec.servicePorts && p.name == port) && exists slot :: BackendOf(rec, instances, port, slot, b)
  {
    hide SlotBackends, Sort, AllowedRevisionHashes, RevisionServes;
    var slots := rec.release.slots;
    SlotBackendsMember(rec, slots, instances, port, b);
    assert b in Sort(BackendLe, SlotBackends(rec, slots, instances, port)) <==>
      b in multiset(SlotBackends(rec, slots, instances, port));
    forall slot | slot in slots
      ensures b in SlotBackend(rec, slot, instances, port) <==> BackendOf(rec, instances, port, slot, b)
    {
      if slot.activeInstanceId in instances {
        AllowedExact(rec.release, instances[slot.activeInstanceId].revisionHash);
      }
    }
  }

  lemma BackendOrder()
    ensures TotalPreorder(BackendLe)
  {
    forall x, y ensures BackendLe(x, y) || BackendLe(y, x) {
      StrLeTotal(x.machineId, y.machineId);
      StrLeTotal(x.instanceId, y.instanceId);
    }
    forall x, y, z | BackendLe(x, y) && BackendLe(y, z) ensures BackendLe(x, z) {
      OrderChain(x.machineId, y.machineId, z.machineId);
      OrderChain(x.instanceId, y.instanceId, z.instanceId);
    }
  }

  /** And lists them by machine, then instance, then address. */
  lemma BackendsOrdered(
    rec: ReleaseRecord, spec: ServiceSpec, instances: map<InstanceId, InstanceStatus>, port: string, i: nat, j: nat)
    requires i < j < |BackendsFor(rec, spec, instances, port)|
    ensures
      var a, b := BackendsFor(rec, spec, instances, port)[i], BackendsFor(rec, spec, instances, port)[j];
      && StrLe(a.machineId, b.machineId)
      && (a.machineId == b.machineId ==> StrLe(a.instanceId, b.instanceId))
      && (a.machineId == b.machineId && a.instanceId == b.instanceId ==>
        a.address.0 < b.address.0 || (a.address.0 == b.address.0 && a.address.1 <= b.address.1))
  {
    BackendOrder();
    SortSorted(BackendLe, SlotBackends(rec, rec.release.slots, instances, port));
    var l := BackendsFor(rec, spec, instances, port);
    StrLeTotal(l[i].machineId, l[i].machineId);
    StrLeTotal(l[i].instanceId, l[i].instanceId);
  }

  // ---------------------------------------------------------------------------
  // Tables
  // ---------------------------------------------------------------------------

  /** The revision whose spec routes a release: the one it sends all traffic to, or else its primary one. */
  ghost predicate RoutedBy(rec: ReleaseRecord, revisions: map<RevisionKey, RevisionRecord>, revision: RevisionRecord) {
    var hash := match rec.release.routing case Direct(h) => h case Split(_) => rec.release.primaryRevisionHash;
    (rec.namespace, rec.service, hash) in revisions && revisions[(rec.namespace, rec.service, hash)] == revision
  }

  /** Route `i` of the release under `k`, as the gateway shows it over HTTP. */
  ghost predicate HttpRouteOf(v: StoreView, k: ReleaseKey, revision: RevisionRecord, i: nat, r: HttpRouteView) {
    && k in v.releases && RoutedBy(v.releases[k], v.revisions, revision) && revision.specJson.Json?
    && var spec := revision.specJson.spec;
    && i < |spec.routes| && spec.routes[i].Http?
    && r.namespace == revision.namespace && r.service == spec.name && r.revisionHash == revision.revisionHash
    && r.routeId == "http:" + r.namespace + ":" + r.service + ":" + Decimal(i)
    && (forall h :: h in r.hostnames <==>
      h != "" && exists name :: name in spec.routes[i].hostnames && NormalizeRequestHost(name) == h)
    && r.pathPrefix == NormalizePathPrefix(spec.routes[i].pathPrefix)
    && r.backends == BackendsFor(v.releases[k], spec, v.instances, spec.routes[i].servicePort)
  }

  ghost predicate TcpRouteOf(v: StoreView, k: ReleaseKey, revision: RevisionRecord, i: nat, r: TcpRouteView) {
    && k in v.releases && RoutedBy(v.releases[k], v.revisions, revision) && revision.specJson.Json?
    && var spec := revision.specJson.spec;
    && i < |spec.routes| && spec.routes[i].Tcp?
    && r.namespace == revision.namespace && r.service == spec.name && r.revisionHash == revision.revisionHash
    && r.routeId == "tcp:" + r.namespace + ":" + r.service + ":" + Decimal(i)
    && r.listenPort == spec.routes[i].listenPort
    && r.backends == BackendsFor(v.releases[k], spec, v.instances, spec.routes[i].servicePort)
  }

  lemma HttpViewExact(v: StoreView, k: ReleaseKey, revision: RevisionRecord, i: nat, r: HttpRouteView)
    requires k in v.releases && ResolvableRelease(v.releases[k], v.revisions)
    requires revision == v.revisions[RoutingRevisionKey(v.releases[k])]
    requires i < |revision.specJson.spec.routes| && revision.specJson.spec.routes[i].Http?
    ensures r == HttpView(v.releases[k], revision, revision.specJson.spec, v.instances, i) <==>
      HttpRouteOf(v, k, revision, i, r)
  {
    hide BackendsFor, NormalizeRequestHost, NormalizePathPrefix, Decimal;
    var view := HttpView(v.releases[k], revision, revision.specJson.spec, v.instances, i);
    if HttpRouteOf(v, k, revision, i, r) { assert r.hostnames == view.hostnames; }
  }

  lemma HttpRoutesOfMember(v: StoreView, k: ReleaseKey, r: HttpRouteView)
    requires k in v.releases
    ensures r in HttpIn(v.revisions, v.instances)(v.releases[k]) <==>
      exists revision, i :: HttpRouteOf(v, k, revision, i, r)
  {
    hide HttpViews, HttpView, BackendsFor, NormalizeRequestHost, NormalizePathPrefix, Decimal;
    var rec := v.releases[k];
    if ResolvableRelease(rec, v.revisions) {
      var revision := v.revisions[RoutingRevisionKey(rec)];
      var spec := revision.specJson.spec;
      HttpViewsMember(rec, revision, spec, v.instances, |spec.routes|, r);
      forall i: nat | i < |spec.routes| && spec.routes[i].Http?
        ensures r == HttpView(rec, revision, spec, v.instances, i) <==> HttpRouteOf(v, k, revision, i, r)
      {
        HttpViewExact(v, k, revision, i, r);
      }
    }
  }

  lemma TcpRoutesOfMember(v: StoreView, k: ReleaseKey, r: TcpRouteView)
    requires k in v.releases
    ensures r in TcpIn(v.revisions, v.instances)(v.releases[k]) <==>
      exists revision, i :: TcpRouteOf(v, k, revision, i, r)
  {
    hide TcpViews, BackendsFor, Decimal;
    var rec := v.releases[k];
    if ResolvableRelease(rec, v.revisions) {
      var revision := v.revisions[RoutingRevisionKey(rec)];
      var spec := revision.specJson.spec;
      TcpViewsMember(rec, revision, spec, v.instances, |spec.routes|, r);
      forall i: nat | i < |spec.routes| && spec.routes[i].Tcp?
        ensures r == TcpView(rec, revision, spec, v.instances, i) <==> TcpRouteOf(v, k, revision, i, r)
      {
      }
    }
  }

  /** An accepted state's HTTP table holds exactly the HTTP routes of its releases. */
  lemma HttpTableExact(v: StoreView, state: RoutingState, r: HttpRouteView)
    requires Keyed(v) && ListsView(state, v) && ProjectOf(state).Some?
    ensures r in ProjectOf(state).value.httpRoutes <==> exists k, revision, i :: HttpRouteOf(v, k, revision, i, r)
  {
    hide HttpIn, TcpIn, Flat, Sort, HttpRouteOf;
    ListedRoutes(state, v);
    var f := HttpIn(v.revisions, v.instances);
    assert r in Sort(RouteLe, HttpRoutes(state)) <==> r in multiset(HttpRoutes(state));
    FlatMember(f, state.releases, r);
    forall k | k in v.releases
      ensures r in f(v.releases[k]) <==> exists revision, i :: HttpRouteOf(v, k, revision, i, r)
    {
      HttpRoutesOfMember(v, k, r);
    }
    HttpRouteInStore(v, r);
    ListedRelease(v, state);
  }

  lemma HttpRouteInStore(v: StoreView, r: HttpRouteView)
    ensures forall k, revision, i :: HttpRouteOf(v, k, revision, i, r) ==> k in v.releases
  {
  }

  lemma TcpRouteInStore(v: StoreView, r: TcpRouteView)
    ensures forall k, revision, i :: TcpRouteOf(v, k, revision, i, r) ==> k in v.releases
  {
  }

  lemma ListedRelease(v: StoreView, state: RoutingState)
    requires ListsView(state, v)
    ensures forall k :: k in v.releases ==> exists i :: 0 <= i < |state.releases| && state.releases[i] == v.releases[k]
    ensures forall i :: 0 <= i < |state.releases| ==>
      ReleaseKeyOf(state.releases[i]) in v.releases && v.releases[ReleaseKeyOf(state.releases[i])] == state.releases[i]
  {
  }

  lemma TcpTableExact(v: StoreView, state: RoutingState, r: TcpRouteView)
    requires Keyed(v) && ListsView(state, v) && ProjectOf(state).Some?
    ensures r in ProjectOf(state).value.tcpRoutes <==> exists k, revision, i :: TcpRouteOf(v, k, revision, i, r)
  {
    hide HttpIn, TcpIn, Flat, Sort, TcpRouteOf;
    ListedRoutes(state, v);
    var f := TcpIn(v.revisions, v.instances);
    assert r in Sort(TcpLe, TcpRoutes(state)) <==> r in multiset(TcpRoutes(state));
    FlatMember(f, state.releases, r);
    forall k | k in v.releases
      ensures r in f(v.releases[k]) <==> exists revision, i :: TcpRouteOf(v, k, revision, i, r)
    {
      TcpRoutesOfMember(v, k, r);
    }
    TcpRouteInStore(v, r);
    ListedRelease(v, state);
  }

  // ---------------------------------------------------------------------------
  // Requests
  // ---------------------------------------------------------------------------

  /** The route is for any host or for this one, and for this path. */
  ghost predicate MeantFor(r: HttpRouteView, host: string, path: string) {
    (r.hostnames == {} || (host != "" && host in r.hostnames)) && r.pathPrefix <= path
  }

  /** A request without a host is one for the empty host. */
  function HostOf(host: Option<string>): string {
    match host case None => "" case Some(name) => NormalizeRequestHost(name)
  }

  /**
   * A request is answered exactly when some route of the table is meant for it, and then by the one
   * that names its host if there is such a one, and has the longest prefix among those of its kind.
   */
  lemma AnswerExact(state: RoutingState, host: Option<string>, path: string)
    requires ProjectOf(state).Some?
    ensures
      var routes, answer := ProjectOf(state).value.httpRoutes, MatchHttpRoute(ProjectOf(state).value, host, path);
      var name, target := HostOf(host), NormalizePathPrefix(path);
      && (answer.None? <==> forall r :: r in routes ==> !MeantFor(r, name, target))
      && (answer.Some? ==>
        && answer.value in routes && MeantFor(answer.value, name, target)
        && forall r :: r in routes && MeantFor(r, name, target) && r != answer.value ==>
          || (answer.value.hostnames != {} && r.hostnames == {})
          || ((answer.value.hostnames == {}) == (r.hostnames == {}) && |r.pathPrefix| < |answer.value.pathPrefix|))
  {
    hide NormalizeRequestHost, NormalizePathPrefix, Flat, HttpRoutes, FindRoute;
    MatchIsUniqueBest(state, host, path);
    var routes := ProjectOf(state).value.httpRoutes;
    forall r ensures r in routes <==> r in multiset(HttpRoutes(state)) { SortedMembers(state, r); }
    forall r
      ensures Meant(r, RequestHost(host), NormalizePathPrefix(path)) <==>
        MeantFor(r, HostOf(host), NormalizePathPrefix(path))
    {
    }
  }

  lemma SortedMembers(state: RoutingState, r: HttpRouteView)
    requires ProjectOf(state).Some?
    ensures r in ProjectOf(state).value.httpRoutes <==> r in multiset(HttpRoutes(state))
  {
    assert r in Sort(RouteLe, HttpRoutes(state)) <==> r in multiset(HttpRoutes(state));
  }

  // ---------------------------------------------------------------------------
  // Order
  // ---------------------------------------------------------------------------

  /** The HTTP table has routes for named hosts first, longer prefixes before shorter ones, and is sorted otherwise. */
  lemma HttpTableOrdered(state: RoutingState, i: nat, j: nat)
    requires ProjectOf(state).Some? && i < j < |ProjectOf(state).value.httpRoutes|
    ensures
      var a, b := ProjectOf(state).value.httpRoutes[i], ProjectOf(state).value.httpRoutes[j];
      && (a.hostnames == {} ==> b.hostnames == {})
      && ((a.hostnames == {}) == (b.hostnames == {}) ==>
        && Utf8Length(a.pathPrefix) >= Utf8Length(b.pathPrefix)
        && (Utf8Length(a.pathPrefix) == Utf8Length(b.pathPrefix) ==>
          && StrLe(a.namespace, b.namespace)
          && (a.namespace == b.namespace ==> StrLe(a.service, b.service))
          && (a.namespace == b.namespace && a.service == b.service ==> StrLe(a.routeId, b.routeId))))
  {
    RouteLeTotalPreorder();
    SortSorted(RouteLe, HttpRoutes(state));
    var a := ProjectOf(state).value.httpRoutes[i];
    StrLeTotal(a.namespace, a.namespace);
    StrLeTotal(a.service, a.service);
  }

  /** The TCP table is sorted by port. */
  lemma TcpTableOrdered(state: RoutingState, i: nat, j: nat)
    requires ProjectOf(state).Some? && i < j < |ProjectOf(state).value.tcpRoutes|
    ensures ProjectOf(state).value.tcpRoutes[i].listenPort < ProjectOf(state).value.tcpRoutes[j].listenPort
  {
    TcpLeTotalPreorder();
    SortSorted(TcpLe, TcpRoutes(state));
    TcpConflictPermutes(TcpRoutes(state), Sort(TcpLe, TcpRoutes(state)));
  }
}
