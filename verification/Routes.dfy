/** The gateway's projection of the store into routes, and its request matcher. */
module Routes {
  import opened Model
  import opened Permutations
  import opened Sorting
  import opened Strings

  datatype BackendView = BackendView(
    instanceId: InstanceId, machineId: MachineId, servicePort: string, address: (nat, U16))

  /** `hostnames` is the sorted duplicate-free list of the source, which a set determines. */
  datatype HttpRouteView = HttpRouteView(
    routeId: string, namespace: Namespace, service: string, revisionHash: RevisionHash,
    hostnames: set<string>, pathPrefix: string, backends: seq<BackendView>)

  datatype TcpRouteView = TcpRouteView(
    routeId: string, namespace: Namespace, service: string, revisionHash: RevisionHash,
    listenPort: U16, backends: seq<BackendView>)

  datatype GatewaySnapshot = GatewaySnapshot(
    httpRoutes: seq<HttpRouteView>, tcpRoutes: seq<TcpRouteView>)

  datatype ProjectionError =
    | MissingRevision(namespace: Namespace, service: string, revisionHash: RevisionHash)
    | InvalidRevisionSpec(namespace: Namespace, service: string)
    | HttpRouteConflict(left: string, right: string, host: string, pathPrefix: string)
    | TcpRouteConflict(leftTcp: string, rightTcp: string, listenPort: U16)

  // ---------------------------------------------------------------------------
  // Normalization
  // ---------------------------------------------------------------------------

  function TrimTrailingDots(s: string): string {
    if s != "" && s[|s| - 1] == '.' then TrimTrailingDots(s[..|s| - 1]) else s
  }

  /** The text before the first `c`, or the whole text. */
  function UpTo(s: string, c: char): string {
    if s == "" || s[0] == c then "" else [s[0]] + UpTo(s[1..], c)
  }

  predicate AllDigits(s: string) {
    forall i :: 0 <= i < |s| ==> '0' <= s[i] <= '9'
  }

  /** Drops a trailing `:port`: the last colon and what follows it, when that is all digits. */
  function DropPort(s: string, end: nat): string
    requires end <= |s|
  {
    if end == 0 then s
    else if s[end - 1] == ':' then (if AllDigits(s[end..]) then s[..end - 1] else s)
    else DropPort(s, end - 1)
  }

  function NormalizeRequestHost(host: string): string {
    var trimmed := TrimTrailingDots(Trim(host));
    if trimmed == "" then ""
    else if trimmed[0] == '[' then AsciiLower(UpTo(trimmed[1..], ']'))
    else AsciiLower(DropPort(trimmed, |trimmed|))
  }

  function NormalizePathPrefix(pathPrefix: string): string {
    var trimmed := Trim(pathPrefix);
    if trimmed == "" then "/" else if trimmed[0] == '/' then trimmed else "/" + trimmed
  }

  // ---------------------------------------------------------------------------
  // Which instances a release routes to
  // ---------------------------------------------------------------------------

  function RoutingRevisionHash(release: Release): RevisionHash {
    match release.routing
    case Direct(hash) => hash
    case Split(_) => release.primaryRevisionHash
  }

  function RoutingRevisionKey(rec: ReleaseRecord): RevisionKey {
    (rec.namespace, rec.service, RoutingRevisionHash(rec.release))
  }

  function AllowedRevisionHashes(release: Release): set<RevisionHash> {
    match release.routing
    case Direct(hash) => {hash}
    case Split(allocations) =>
      var hashes := set a | a in allocations :: a.revisionHash;
      if hashes == {} then set h | h in release.referencedRevisionHashes else hashes
  }

  predicate IsRoutableInstance(
    inst: InstanceStatus, slot: Slot, namespace: Namespace, service: string,
    allowed: set<RevisionHash>)
  {
    && inst.namespace == namespace
    && inst.service == service
    && inst.slotId == slot.slotId
    && inst.machineId == slot.machineId
    && inst.revisionHash == slot.revisionHash
    && inst.revisionHash in allowed
    && inst.ready
    && inst.phase == Ready
    && inst.drainState == NoDrain
    && inst.error == None
  }

  function PortNames(spec: ServiceSpec): set<string> {
    set p | p in spec.servicePorts :: p.name
  }

  function PortBackend(inst: InstanceStatus, ip: nat, port: string): seq<BackendView> {
    if port in inst.backendPorts
    then [BackendView(inst.instanceId, inst.machineId, port, (ip, inst.backendPorts[port]))] else []
  }

  /** The backend, if any, that `slot` contributes to `port`. */
  function SlotBackend(
    rec: ReleaseRecord, slot: Slot, instances: map<InstanceId, InstanceStatus>, port: string)
    : seq<BackendView>
  {
    if slot.activeInstanceId !in instances then []
    else
      var inst := instances[slot.activeInstanceId];
      if !IsRoutableInstance(inst, slot, rec.namespace, rec.service, AllowedRevisionHashes(rec.release)) then []
      else if inst.overlayIp.None? then []
      else PortBackend(inst, inst.overlayIp.value, port)
  }

  function SlotBackends(
    rec: ReleaseRecord, slots: seq<Slot>, instances: map<InstanceId, InstanceStatus>, port: string)
    : seq<BackendView>
  {
    if slots == [] then []
    else
      SlotBackends(rec, slots[..|slots| - 1], instances, port) +
      SlotBackend(rec, slots[|slots| - 1], instances, port)
  }

  predicate BackendLe(a: BackendView, b: BackendView) {
    if a.machineId != b.machineId then StrLe(a.machineId, b.machineId)
    else if a.instanceId != b.instanceId then StrLe(a.instanceId, b.instanceId)
    else if a.address.0 != b.address.0 then a.address.0 < b.address.0
    else a.address.1 <= b.address.1
  }

  function BackendsFor(
    rec: ReleaseRecord, spec: ServiceSpec, instances: map<InstanceId, InstanceStatus>, port: string)
    : seq<BackendView>
  {
    if port in PortNames(spec) then Sort(BackendLe, SlotBackends(rec, rec.release.slots, instances, port)) else []
  }

  function BackendsAt(backends: map<string, seq<BackendView>>, port: string): seq<BackendView> {
    if port in backends then backends[port] else []
  }

  /** Pushes the backends of one routable instance, one per service port that it exposes. */
  method PushInstance(
    backends: map<string, seq<BackendView>>, ports: set<string>, inst: InstanceStatus, ip: nat)
    returns (r: map<string, seq<BackendView>>)
    requires backends.Keys <= ports
    ensures r.Keys <= ports
    ensures forall port :: port in ports ==>
      BackendsAt(r, port) == BackendsAt(backends, port) + PortBackend(inst, ip, port)
  {
    r := backends;
    var todo := ports;
    while todo != {}
      invariant todo <= ports && r.Keys <= ports
      invariant forall port :: port in todo ==> BackendsAt(r, port) == BackendsAt(backends, port)
      invariant forall port :: port in ports - todo ==>
        BackendsAt(r, port) == BackendsAt(backends, port) + PortBackend(inst, ip, port)
      decreases todo
    {
      var port :| port in todo;
      todo := todo - {port};
      if port in inst.backendPorts {
        r := r[port := BackendsAt(r, port) +
          [BackendView(inst.instanceId, inst.machineId, port, (ip, inst.backendPorts[port]))]];
      }
    }
  }

  /** One pass over the slots, then a sort per port. */
  method RoutableBackendsByPort(
    spec: ServiceSpec, rec: ReleaseRecord, instances: map<InstanceId, InstanceStatus>)
    returns (backends: map<string, seq<BackendView>>)
    ensures forall port :: BackendsAt(backends, port) == BackendsFor(rec, spec, instances, port)
  {
    var slots := rec.release.slots;
    var allowed := AllowedRevisionHashes(rec.release);
    var ports := PortNames(spec);
    backends := map[];
    for i := 0 to |slots|
      invariant backends.Keys <= ports
      invariant forall port :: port in ports ==>
        BackendsAt(backends, port) == SlotBackends(rec, slots[..i], instances, port)
    {
      var slot := slots[i];
      assert slots[..i + 1][..i] == slots[..i];
      if slot.activeInstanceId !in instances { continue; }
      var inst := instances[slot.activeInstanceId];
      if !IsRoutableInstance(inst, slot, rec.namespace, rec.service, allowed) { continue; }
      if inst.overlayIp.None? { continue; }
      backends := PushInstance(backends, ports, inst, inst.overlayIp.value);
    }
    assert slots[..|slots|] == slots;
    backends := map port | port in backends :: Sort(BackendLe, backends[port]);
  }

  // ---------------------------------------------------------------------------
  // Views of one release
  // ---------------------------------------------------------------------------

  function HttpView(
    rec: ReleaseRecord, revision: RevisionRecord, spec: ServiceSpec,
    instances: map<InstanceId, InstanceStatus>, index: nat)
    : HttpRouteView
    requires index < |spec.routes| && spec.routes[index].Http?
  {
    var route := spec.routes[index];
    HttpRouteView(
      "http:" + revision.namespace + ":" + spec.name + ":" + Decimal(index),
      revision.namespace, spec.name, revision.revisionHash,
      (set h | h in route.hostnames && NormalizeRequestHost(h) != "" :: NormalizeRequestHost(h)),
      NormalizePathPrefix(route.pathPrefix),
      BackendsFor(rec, spec, instances, route.servicePort))
  }

  function TcpView(
    rec: ReleaseRecord, revision: RevisionRecord, spec: ServiceSpec,
    instances: map<InstanceId, InstanceStatus>, index: nat)
    : TcpRouteView
    requires index < |spec.routes| && spec.routes[index].Tcp?
  {
    var route := spec.routes[index];
    TcpRouteView(
      "tcp:" + revision.namespace + ":" + spec.name + ":" + Decimal(index),
      revision.namespace, spec.name, revision.revisionHash, route.listenPort,
      BackendsFor(rec, spec, instances, route.servicePort))
  }

  /** The HTTP views of the first `n` routes of a spec. */
  function HttpViews(
    rec: ReleaseRecord, revision: RevisionRecord, spec: ServiceSpec,
    instances: map<InstanceId, InstanceStatus>, n: nat)
    : seq<HttpRouteView>
    requires n <= |spec.routes|
  {
    if n == 0 then []
    else
      HttpViews(rec, revision, spec, instances, n - 1) +
      if spec.routes[n - 1].Http? then [HttpView(rec, revision, spec, instances, n - 1)] else []
  }

  function TcpViews(
    rec: ReleaseRecord, revision: RevisionRecord, spec: ServiceSpec,
    instances: map<InstanceId, InstanceStatus>, n: nat)
    : seq<TcpRouteView>
    requires n <= |spec.routes|
  {
    if n == 0 then []
    else
      TcpViews(rec, revision, spec, instances, n - 1) +
      if spec.routes[n - 1].Tcp? then [TcpView(rec, revision, spec, instances, n - 1)] else []
  }

  predicate ResolvableRelease(rec: ReleaseRecord, revisions: map<RevisionKey, RevisionRecord>) {
    RoutingRevisionKey(rec) in revisions && revisions[RoutingRevisionKey(rec)].specJson.Json?
  }

  function HttpRoutesOf(
    rec: ReleaseRecord, revisions: map<RevisionKey, RevisionRecord>,
    instances: map<InstanceId, InstanceStatus>)
    : seq<HttpRouteView>
  {
    if !ResolvableRelease(rec, revisions) then []
    else
      var revision := revisions[RoutingRevisionKey(rec)];
      HttpViews(rec, revision, revision.specJson.spec, instances, |revision.specJson.spec.routes|)
  }

  function TcpRoutesOf(
    rec: ReleaseRecord, revisions: map<RevisionKey, RevisionRecord>,
    instances: map<InstanceId, InstanceStatus>)
    : seq<TcpRouteView>
  {
    if !ResolvableRelease(rec, revisions) then []
    else
      var revision := revisions[RoutingRevisionKey(rec)];
      TcpViews(rec, revision, revision.specJson.spec, instances, |revision.specJson.spec.routes|)
  }

  // ---------------------------------------------------------------------------
  // The whole projection
  // ---------------------------------------------------------------------------

  function HttpIn(
    revisions: map<RevisionKey, RevisionRecord>, instances: map<InstanceId, InstanceStatus>)
    : ReleaseRecord -> seq<HttpRouteView>
  {
    rec => HttpRoutesOf(rec, revisions, instances)
  }

  function TcpIn(
    revisions: map<RevisionKey, RevisionRecord>, instances: map<InstanceId, InstanceStatus>)
    : ReleaseRecord -> seq<TcpRouteView>
  {
    rec => TcpRoutesOf(rec, revisions, instances)
  }

  /** The (host, path prefix) pairs that a route claims. */
  function Claims(r: HttpRouteView): set<(string, string)> {
    if r.hostnames == {} then {("*", r.pathPrefix)} else set h | h in r.hostnames :: (h, r.pathPrefix)
  }

  ghost predicate NoHttpConflict(routes: seq<HttpRouteView>) {
    forall i, j :: 0 <= i < j < |routes| ==> Claims(routes[i]) !! Claims(routes[j])
  }

  ghost predicate NoTcpConflict(routes: seq<TcpRouteView>) {
    forall i, j :: 0 <= i < j < |routes| ==> routes[i].listenPort != routes[j].listenPort
  }

  /** Host-specific routes first, then longer prefixes, then namespace, service and route id. */
  predicate RouteLe(a: HttpRouteView, b: HttpRouteView) {
    if (a.hostnames == {}) != (b.hostnames == {}) then b.hostnames == {}
    else if Utf8Length(a.pathPrefix) != Utf8Length(b.pathPrefix) then
      Utf8Length(a.pathPrefix) > Utf8Length(b.pathPrefix)
    else if a.namespace != b.namespace then StrLe(a.namespace, b.namespace)
    else if a.service != b.service then StrLe(a.service, b.service)
    else StrLe(a.routeId, b.routeId)
  }

  predicate TcpLe(a: TcpRouteView, b: TcpRouteView) {
    if a.listenPort != b.listenPort then a.listenPort < b.listenPort else StrLe(a.routeId, b.routeId)
  }

  ghost predicate AllResolvable(releases: seq<ReleaseRecord>, revisions: map<RevisionKey, RevisionRecord>) {
    forall i :: 0 <= i < |releases| ==> ResolvableRelease(releases[i], revisions)
  }

  /** The projection as a function; `None` when the source reports an error. */
  ghost function ProjectOf(state: RoutingState): Option<GatewaySnapshot> {
    var revisions := CollectBy(RevisionKeyOf, state.revisions);
    var instances := CollectBy(InstanceKeyOf, state.instances);
    var http := Flat(HttpIn(revisions, instances), state.releases);
    var tcp := Flat(TcpIn(revisions, instances), state.releases);
    if AllResolvable(state.releases, revisions) && NoHttpConflict(http) && NoTcpConflict(tcp)
    then Some(GatewaySnapshot(Sort(RouteLe, http), Sort(TcpLe, tcp)))
    else None
  }

  /** What a reported error says about the state it was computed from. */
  ghost predicate Explains(state: RoutingState, error: ProjectionError) {
    var revisions := CollectBy(RevisionKeyOf, state.revisions);
    match error
    case MissingRevision(ns, service, hash) =>
      (ns, service, hash) !in revisions &&
      exists rec :: rec in state.releases && RoutingRevisionKey(rec) == (ns, service, hash)
    case InvalidRevisionSpec(ns, service) =>
      exists rec :: rec in state.releases && rec.namespace == ns && rec.service == service &&
                    RoutingRevisionKey(rec) in revisions && revisions[RoutingRevisionKey(rec)].specJson.Malformed?
    case HttpRouteConflict(left, right, host, prefix) =>
      var http := Flat(HttpIn(revisions, CollectBy(InstanceKeyOf, state.instances)), state.releases);
      exists i, j :: 0 <= i < j < |http| && http[i].routeId == left && http[j].routeId == right &&
                     (host, prefix) in Claims(http[i]) && (host, prefix) in Claims(http[j])
    case TcpRouteConflict(left, right, port) =>
      var tcp := Flat(TcpIn(revisions, CollectBy(InstanceKeyOf, state.instances)), state.releases);
      exists i, j :: 0 <= i < j < |tcp| && tcp[i].routeId == left && tcp[j].routeId == right &&
                     tcp[i].listenPort == port == tcp[j].listenPort
  }

  /** Records the claims of one route, or reports one that is already taken. */
  method ClaimAll(seen: map<(string, string), string>, claims: set<(string, string)>, id: string)
    returns (taken: Option<(string, string)>, r: map<(string, string), string>)
    ensures taken.Some? ==> taken.value in claims && taken.value in seen
    ensures taken.None? ==> claims !! seen.Keys && r == seen + map k | k in claims :: id
  {
    r := seen;
    var todo := claims;
    while todo != {}
      invariant todo <= claims && (claims - todo) !! seen.Keys
      invariant r == seen + map k | k in claims - todo :: id
      decreases todo
    {
      var k :| k in todo;
      if k in r { return Some(k), r; }
      todo := todo - {k};
      r := r[k := id];
    }
    taken := None;
  }

  method ValidateHttpConflicts(routes: seq<HttpRouteView>) returns (error: Option<ProjectionError>)
    ensures error.None? <==> NoHttpConflict(routes)
    ensures error.Some? ==> error.value.HttpRouteConflict? && exists i, j ::
      0 <= i < j < |routes| && routes[i].routeId == error.value.left && routes[j].routeId == error.value.right &&
      (error.value.host, error.value.pathPrefix) in Claims(routes[i]) &&
      (error.value.host, error.value.pathPrefix) in Claims(routes[j])
  {
    hide Claims;
    var seen: map<(string, string), string> := map[];
    for j := 0 to |routes|
      invariant forall a, b :: 0 <= a < b < j ==> Claims(routes[a]) !! Claims(routes[b])
      invariant forall k :: k in seen ==>
        exists i :: 0 <= i < j && k in Claims(routes[i]) && seen[k] == routes[i].routeId
      invariant forall i :: 0 <= i < j ==> Claims(routes[i]) <= seen.Keys
    {
      var taken, seen' := ClaimAll(seen, Claims(routes[j]), routes[j].routeId);
      if taken.Some? {
        var k := taken.value;
        var i :| 0 <= i < j && k in Claims(routes[i]) && seen[k] == routes[i].routeId;
        return Some(HttpRouteConflict(seen[k], routes[j].routeId, k.0, k.1));
      }
      seen := seen';
    }
    error := None;
  }

  method ValidateTcpConflicts(routes: seq<TcpRouteView>) returns (error: Option<ProjectionError>)
    ensures error.None? <==> NoTcpConflict(routes)
    ensures error.Some? ==> error.value.TcpRouteConflict? && exists i, j ::
      0 <= i < j < |routes| && routes[i].routeId == error.value.leftTcp && routes[j].routeId == error.value.rightTcp &&
      routes[i].listenPort == error.value.listenPort == routes[j].listenPort
  {
    var seen: map<U16, string> := map[];
    for j := 0 to |routes|
      invariant NoTcpConflict(routes[..j])
      invariant forall p :: p in seen ==>
        exists i :: 0 <= i < j && routes[i].listenPort == p && routes[i].routeId == seen[p]
      invariant forall i :: 0 <= i < j ==> routes[i].listenPort in seen
    {
      var route := routes[j];
      if route.listenPort in seen {
        return Some(TcpRouteConflict(seen[route.listenPort], route.routeId, route.listenPort));
      }
      seen := seen[route.listenPort := route.routeId];
    }
    assert routes[..|routes|] == routes;
    error := None;
  }

  /** The inner loop over the routes of one release. */
  method ProjectRelease(
    rec: ReleaseRecord, revision: RevisionRecord, spec: ServiceSpec,
    instances: map<InstanceId, InstanceStatus>)
    returns (http: seq<HttpRouteView>, tcp: seq<TcpRouteView>)
    ensures http == HttpViews(rec, revision, spec, instances, |spec.routes|)
    ensures tcp == TcpViews(rec, revision, spec, instances, |spec.routes|)
  {
    var backends := RoutableBackendsByPort(spec, rec, instances);
    http, tcp := [], [];
    for n := 0 to |spec.routes|
      invariant http == HttpViews(rec, revision, spec, instances, n)
      invariant tcp == TcpViews(rec, revision, spec, instances, n)
    {
      var route := spec.routes[n];
      var targets := BackendsAt(backends, route.servicePort);
      match route
      case Http(_, hostnames, pathPrefix) =>
        http := http + [HttpRouteView(
          "http:" + revision.namespace + ":" + spec.name + ":" + Decimal(n),
          revision.namespace, spec.name, revision.revisionHash,
          (set h | h in hostnames && NormalizeRequestHost(h) != "" :: NormalizeRequestHost(h)),
          NormalizePathPrefix(pathPrefix), targets)];
      case Tcp(_, listenPort) =>
        tcp := tcp + [TcpRouteView(
          "tcp:" + revision.namespace + ":" + spec.name + ":" + Decimal(n),
          revision.namespace, spec.name, revision.revisionHash, listenPort, targets)];
    }
  }

  lemma ResolvedRoutes(
    rec: ReleaseRecord, revisions: map<RevisionKey, RevisionRecord>, instances: map<InstanceId, InstanceStatus>)
    requires ResolvableRelease(rec, revisions)
    ensures
      var revision := revisions[RoutingRevisionKey(rec)];
      var spec := revision.specJson.spec;
      && HttpIn(revisions, instances)(rec) == HttpViews(rec, revision, spec, instances, |spec.routes|)
      && TcpIn(revisions, instances)(rec) == TcpViews(rec, revision, spec, instances, |spec.routes|)
  {
  }

  /** `error` names the routing revision of `rec` as absent or as not parsing. */
  ghost predicate Unresolved(rec: ReleaseRecord, revisions: map<RevisionKey, RevisionRecord>, error: ProjectionError) {
    var key := RoutingRevisionKey(rec);
    if key !in revisions then error == MissingRevision(key.0, key.1, key.2)
    else revisions[key].specJson.Malformed? && error == InvalidRevisionSpec(key.0, key.1)
  }

  /** The outer loop over the releases, up to the first that does not resolve. */
  method CollectRoutes(
    releases: seq<ReleaseRecord>, revisions: map<RevisionKey, RevisionRecord>,
    instances: map<InstanceId, InstanceStatus>)
    returns (http: seq<HttpRouteView>, tcp: seq<TcpRouteView>, error: Option<ProjectionError>)
    requires KeyedBy(RevisionKeyOf, revisions)
    ensures error.None? <==> AllResolvable(releases, revisions)
    ensures error.None? ==> http == Flat(HttpIn(revisions, instances), releases)
    ensures error.None? ==> tcp == Flat(TcpIn(revisions, instances), releases)
    ensures error.Some? ==> exists i :: 0 <= i < |releases| && Unresolved(releases[i], revisions, error.value)
  {
    hide Flat, HttpIn, TcpIn, HttpViews, TcpViews;
    http, tcp := [], [];
    FlatEmpty(HttpIn(revisions, instances));
    FlatEmpty(TcpIn(revisions, instances));
    for i := 0 to |releases|
      invariant http == Flat(HttpIn(revisions, instances), releases[..i])
      invariant tcp == Flat(TcpIn(revisions, instances), releases[..i])
      invariant forall k :: 0 <= k < i ==> ResolvableRelease(releases[k], revisions)
    {
      var rec := releases[i];
      var key := RoutingRevisionKey(rec);
      if key !in revisions {
        return http, tcp, Some(MissingRevision(key.0, key.1, key.2));
      }
      var revision := revisions[key];
      if revision.specJson.Malformed? {
        return http, tcp, Some(InvalidRevisionSpec(revision.namespace, revision.service));
      }
      var moreHttp, moreTcp := ProjectRelease(rec, revision, revision.specJson.spec, instances);
      ResolvedRoutes(rec, revisions, instances);
      FlatNext(HttpIn(revisions, instances), releases, i);
      FlatNext(TcpIn(revisions, instances), releases, i);
      http, tcp := http + moreHttp, tcp + moreTcp;
    }
    assert releases[..|releases|] == releases;
    error := None;
  }

  method Project(state: RoutingState) returns (r: Result<GatewaySnapshot, ProjectionError>)
    ensures r.Ok? <==> ProjectOf(state).Some?
    ensures r.Ok? ==> r.value == ProjectOf(state).value
    ensures r.Err? ==> Explains(state, r.error)
  {
    var revisions := CollectBy(RevisionKeyOf, state.revisions);
    var instances := CollectBy(InstanceKeyOf, state.instances);
    var http, tcp, error := CollectRoutes(state.releases, revisions, instances);
    if error.Some? {
      ghost var i :| 0 <= i < |state.releases| && Unresolved(state.releases[i], revisions, error.value);
      assert state.releases[i] in state.releases;
      return Err(error.value);
    }
    var conflict := ValidateHttpConflicts(http);
    if conflict.Some? { return Err(conflict.value); }
    conflict := ValidateTcpConflicts(tcp);
    if conflict.Some? { return Err(conflict.value); }
    r := Ok(GatewaySnapshot(Sort(RouteLe, http), Sort(TcpLe, tcp)));
  }

  // ---------------------------------------------------------------------------
  // Matching a request
  // ---------------------------------------------------------------------------

  predicate RouteMatchesHost(route: HttpRouteView, host: Option<string>) {
    route.hostnames == {} || (host.Some? && host.value in route.hostnames)
  }

  predicate RouteMatches(route: HttpRouteView, host: Option<string>, path: string) {
    RouteMatchesHost(route, host) && route.pathPrefix <= path
  }

  function FindRoute(routes: seq<HttpRouteView>, host: Option<string>, path: string): Option<HttpRouteView> {
    if routes == [] then None
    else if RouteMatches(routes[0], host, path) then Some(routes[0])
    else FindRoute(routes[1..], host, path)
  }

  function RequestHost(host: Option<string>): Option<string> {
    if host.Some? && NormalizeRequestHost(host.value) != "" then Some(NormalizeRequestHost(host.value)) else None
  }

  function MatchHttpRoute(snapshot: GatewaySnapshot, host: Option<string>, path: string): Option<HttpRouteView> {
    FindRoute(snapshot.httpRoutes, RequestHost(host), NormalizePathPrefix(path))
  }
}
