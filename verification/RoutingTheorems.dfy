/** What the matcher answers, and why the answer depends on the store's contents alone. */
module RoutingTheorems {
  import opened Model
  import opened Permutations
  import opened Sorting
  import opened Strings
  import opened Routes

  lemma HttpConflictPermutes(s: seq<HttpRouteView>, t: seq<HttpRouteView>)
    requires multiset(s) == multiset(t) && NoHttpConflict(s)
    ensures NoHttpConflict(t)
  {
    PairwisePermutes((a, b) => Claims(a) !! Claims(b), s, t);
  }

  lemma TcpConflictPermutes(s: seq<TcpRouteView>, t: seq<TcpRouteView>)
    requires multiset(s) == multiset(t) && NoTcpConflict(s)
    ensures NoTcpConflict(t)
  {
    PairwisePermutes((a: TcpRouteView, b: TcpRouteView) => a.listenPort != b.listenPort, s, t);
  }

  // ---------------------------------------------------------------------------
  // The route order
  // ---------------------------------------------------------------------------

  lemma RouteLeTotalPreorder()
    ensures TotalPreorder(RouteLe)
  {
    forall x, y ensures RouteLe(x, y) || RouteLe(y, x) {
      StrLeTotal(x.namespace, y.namespace);
      StrLeTotal(x.service, y.service);
      StrLeTotal(x.routeId, y.routeId);
    }
    forall x, y, z | RouteLe(x, y) && RouteLe(y, z) ensures RouteLe(x, z) {
      RouteLeTransitive(x, y, z);
    }
  }

  lemma RouteLeTransitive(x: HttpRouteView, y: HttpRouteView, z: HttpRouteView)
    requires RouteLe(x, y) && RouteLe(y, z)
    ensures RouteLe(x, z)
  {
    OrderChain(x.namespace, y.namespace, z.namespace);
    OrderChain(x.service, y.service, z.service);
    OrderChain(x.routeId, y.routeId, z.routeId);
  }

  /** Composing two comparisons of one text field, equal or strict. */
  lemma OrderChain(a: string, b: string, c: string)
    ensures StrLe(a, b) && StrLe(b, c) ==> StrLe(a, c)
    ensures StrLe(a, b) && StrLe(b, c) && a == c ==> a == b
  {
    if StrLe(a, b) && StrLe(b, c) {
      StrLeTransitive(a, b, c);
      if a == c { StrLeAntisymmetric(a, b); }
    }
  }

  lemma TcpLeTotalPreorder()
    ensures TotalPreorder(TcpLe)
  {
    forall x, y ensures TcpLe(x, y) || TcpLe(y, x) {
      StrLeTotal(x.routeId, y.routeId);
    }
    forall x, y, z | TcpLe(x, y) && TcpLe(y, z) ensures TcpLe(x, z) {
      OrderChain(x.routeId, y.routeId, z.routeId);
    }
  }

  // ---------------------------------------------------------------------------
  // The unique best match
  // ---------------------------------------------------------------------------

  /** A host-specific route beats a wildcard; within one kind the longer prefix wins. */
  predicate Beats(a: HttpRouteView, b: HttpRouteView) {
    if (a.hostnames == {}) != (b.hostnames == {}) then b.hostnames == {}
    else |a.pathPrefix| > |b.pathPrefix|
  }

  /** The route is for any host or for this one, and for this path. */
  ghost predicate Meant(r: HttpRouteView, host: Option<string>, path: string) {
    (r.hostnames == {} || (host.Some? && host.value in r.hostnames)) && r.pathPrefix <= path
  }

  /** `best` is the one route meant for the request that beats every other; `None` when there is none. */
  ghost predicate BestMatch(
    routes: multiset<HttpRouteView>, host: Option<string>, path: string, best: Option<HttpRouteView>)
  {
    match best
    case None => forall r :: r in routes ==> !Meant(r, host, path)
    case Some(b) =>
      && b in routes && Meant(b, host, path)
      && forall r :: r in routes && Meant(r, host, path) && r != b ==> Beats(b, r)
  }

  lemma BestMatchUnique(
    routes: multiset<HttpRouteView>, host: Option<string>, path: string,
    x: Option<HttpRouteView>, y: Option<HttpRouteView>)
    requires BestMatch(routes, host, path, x) && BestMatch(routes, host, path, y)
    ensures x == y
  {
  }

  lemma {:induction false} FindRouteFirst(routes: seq<HttpRouteView>, host: Option<string>, path: string)
    returns (i: nat)
    ensures i <= |routes| && forall j :: 0 <= j < i ==> !RouteMatches(routes[j], host, path)
    ensures i == |routes| ==> FindRoute(routes, host, path) == None
    ensures i < |routes| ==> RouteMatches(routes[i], host, path) && FindRoute(routes, host, path) == Some(routes[i])
  {
    if routes == [] || RouteMatches(routes[0], host, path) {
      i := 0;
    } else {
      var k := FindRouteFirst(routes[1..], host, path);
      i := k + 1;
      forall j | 0 <= j < i ensures !RouteMatches(routes[j], host, path) {
        if j > 0 { assert routes[j] == routes[1..][j - 1]; }
      }
    }
  }

  /** Two matching routes of one kind and one prefix claim a common (host, prefix) pair. */
  lemma TiedMatchesClash(a: HttpRouteView, b: HttpRouteView, host: Option<string>, path: string)
    requires RouteMatches(a, host, path) && RouteMatches(b, host, path)
    requires (a.hostnames == {}) == (b.hostnames == {}) && a.pathPrefix == b.pathPrefix
    ensures !(Claims(a) !! Claims(b))
  {
    var claim := (if a.hostnames == {} then "*" else host.value, a.pathPrefix);
    assert claim in Claims(a) && claim in Claims(b);
  }

  /** In a sorted conflict-free list an earlier match beats a later one. */
  lemma EarlierMatchBeats(a: HttpRouteView, b: HttpRouteView, host: Option<string>, path: string)
    requires RouteLe(a, b) && Claims(a) !! Claims(b)
    requires RouteMatches(a, host, path) && RouteMatches(b, host, path)
    ensures Beats(a, b)
  {
    PrefixUtf8Length(a.pathPrefix, b.pathPrefix, path);
    if (a.hostnames == {}) == (b.hostnames == {}) && a.pathPrefix == b.pathPrefix {
      TiedMatchesClash(a, b, host, path);
    }
  }

  lemma SortedMatchIsBest(routes: seq<HttpRouteView>, host: Option<string>, path: string)
    requires Sorted(RouteLe, routes) && NoHttpConflict(routes)
    ensures BestMatch(multiset(routes), host, path, FindRoute(routes, host, path))
  {
    var i := FindRouteFirst(routes, host, path);
    if i < |routes| {
      forall r | r in multiset(routes) && RouteMatches(r, host, path) && r != routes[i] ensures Beats(routes[i], r) {
        var j :| 0 <= j < |routes| && routes[j] == r;
        EarlierMatchBeats(routes[i], routes[j], host, path);
      }
    }
  }

  /** All HTTP routes that a state gives rise to, before sorting. */
  ghost function HttpRoutes(state: RoutingState): seq<HttpRouteView> {
    Flat(HttpIn(CollectBy(RevisionKeyOf, state.revisions), CollectBy(InstanceKeyOf, state.instances)), state.releases)
  }

  ghost function TcpRoutes(state: RoutingState): seq<TcpRouteView> {
    Flat(TcpIn(CollectBy(RevisionKeyOf, state.revisions), CollectBy(InstanceKeyOf, state.instances)), state.releases)
  }

  /** Every accepted projection answers every request with its unique best match. */
  lemma MatchIsUniqueBest(state: RoutingState, host: Option<string>, path: string)
    requires ProjectOf(state).Some?
    ensures
      var answer := MatchHttpRoute(ProjectOf(state).value, host, path);
      && BestMatch(multiset(HttpRoutes(state)), RequestHost(host), NormalizePathPrefix(path), answer)
      && forall other ::
           BestMatch(multiset(HttpRoutes(state)), RequestHost(host), NormalizePathPrefix(path), other) ==>
             other == answer
  {
    var routes := Sort(RouteLe, HttpRoutes(state));
    RouteLeTotalPreorder();
    SortSorted(RouteLe, HttpRoutes(state));
    HttpConflictPermutes(HttpRoutes(state), routes);
    SortedMatchIsBest(routes, RequestHost(host), NormalizePathPrefix(path));
    forall other | BestMatch(multiset(routes), RequestHost(host), NormalizePathPrefix(path), other)
      ensures other == MatchHttpRoute(ProjectOf(state).value, host, path)
    {
      BestMatchUnique(multiset(routes), RequestHost(host), NormalizePathPrefix(path), other,
                      MatchHttpRoute(ProjectOf(state).value, host, path));
    }
  }

  // ---------------------------------------------------------------------------
  // Equal routing
  // ---------------------------------------------------------------------------

  /** Both states are rejected, or both are accepted and serve every request and port alike. */
  ghost predicate SameAnswers(s: RoutingState, t: RoutingState) {
    && (ProjectOf(s).Some? <==> ProjectOf(t).Some?)
    && (ProjectOf(s).Some? ==>
      && ProjectOf(s).value.tcpRoutes == ProjectOf(t).value.tcpRoutes
      && forall host, path ::
        MatchHttpRoute(ProjectOf(s).value, host, path) == MatchHttpRoute(ProjectOf(t).value, host, path))
  }

  ghost predicate AllReleasesResolve(state: RoutingState) {
    AllResolvable(state.releases, CollectBy(RevisionKeyOf, state.revisions))
  }

  /** Routing depends only on the bag of routes. */
  lemma SameBagSameAnswers(s: RoutingState, t: RoutingState)
    requires AllReleasesResolve(s) <==> AllReleasesResolve(t)
    requires multiset(HttpRoutes(s)) == multiset(HttpRoutes(t))
    requires multiset(TcpRoutes(s)) == multiset(TcpRoutes(t))
    ensures SameAnswers(s, t)
  {
    if NoHttpConflict(HttpRoutes(s)) { HttpConflictPermutes(HttpRoutes(s), HttpRoutes(t)); }
    if NoHttpConflict(HttpRoutes(t)) { HttpConflictPermutes(HttpRoutes(t), HttpRoutes(s)); }
    if NoTcpConflict(TcpRoutes(s)) { TcpConflictPermutes(TcpRoutes(s), TcpRoutes(t)); }
    if NoTcpConflict(TcpRoutes(t)) { TcpConflictPermutes(TcpRoutes(t), TcpRoutes(s)); }
    if ProjectOf(s).Some? {
      assert ProjectOf(t).Some?;
      SameBagSameTcp(TcpRoutes(s), TcpRoutes(t));
      forall host, path
        ensures MatchHttpRoute(ProjectOf(s).value, host, path) == MatchHttpRoute(ProjectOf(t).value, host, path)
      {
        MatchIsUniqueBest(s, host, path);
        MatchIsUniqueBest(t, host, path);
      }
    }
  }

  lemma SameBagSameTcp(s: seq<TcpRouteView>, t: seq<TcpRouteView>)
    requires multiset(s) == multiset(t) && NoTcpConflict(s)
    ensures Sort(TcpLe, s) == Sort(TcpLe, t)
  {
    TcpLeTotalPreorder();
    SortSorted(TcpLe, s);
    SortSorted(TcpLe, t);
    var a := Sort(TcpLe, s);
    TcpConflictPermutes(s, a);
    forall x, y | x in a && y in a && TcpLe(x, y) && TcpLe(y, x) ensures x == y {
      var i :| 0 <= i < |a| && a[i] == x;
      var j :| 0 <= j < |a| && a[j] == y;
    }
    SortedUnique(TcpLe, a, Sort(TcpLe, t));
  }

  ghost predicate SameRevision(
    rec: ReleaseRecord, v: map<RevisionKey, RevisionRecord>, w: map<RevisionKey, RevisionRecord>)
  {
    var key := RoutingRevisionKey(rec);
    && (ResolvableRelease(rec, v) <==> ResolvableRelease(rec, w))
    && (ResolvableRelease(rec, v) ==> v[key].(createdBy := w[key].createdBy) == w[key])
  }

  ghost predicate SameBackends(
    rec: ReleaseRecord, v: map<InstanceId, InstanceStatus>, w: map<InstanceId, InstanceStatus>)
  {
    forall slot, port :: slot in rec.release.slots ==>
      SlotBackend(rec, slot, v, port) == SlotBackend(rec, slot, w, port)
  }

  /** The two stores hold the same releases, each backed by the same revision and backends. */
  ghost predicate SameRouting(v: StoreView, w: StoreView) {
    && v.releases == w.releases
    && forall k :: k in v.releases ==>
      SameRevision(v.releases[k], v.revisions, w.revisions) && SameBackends(v.releases[k], v.instances, w.instances)
  }

  lemma SameRoutingTransitive(u: StoreView, v: StoreView, w: StoreView)
    requires SameRouting(u, v) && SameRouting(v, w)
    ensures SameRouting(u, w)
  {
    forall k | k in u.releases ensures SameBackends(u.releases[k], u.instances, w.instances) {
      var rec := u.releases[k];
      forall slot, port | slot in rec.release.slots
        ensures SlotBackend(rec, slot, u.instances, port) == SlotBackend(rec, slot, w.instances, port)
      {
        assert SlotBackend(rec, slot, u.instances, port) == SlotBackend(rec, slot, v.instances, port);
      }
    }
  }

  lemma SameRoutingSymmetric(v: StoreView, w: StoreView)
    requires SameRouting(v, w)
    ensures SameRouting(w, v)
  {
  }

  lemma SameRoutingReflexive(v: StoreView)
    ensures SameRouting(v, v)
  {
  }

  lemma {:induction false} SameSlotBackends(
    rec: ReleaseRecord, slots: seq<Slot>, v: map<InstanceId, InstanceStatus>,
    w: map<InstanceId, InstanceStatus>, port: string)
    requires forall slot :: slot in slots ==> SlotBackend(rec, slot, v, port) == SlotBackend(rec, slot, w, port)
    ensures SlotBackends(rec, slots, v, port) == SlotBackends(rec, slots, w, port)
  {
    if slots != [] { SameSlotBackends(rec, slots[..|slots| - 1], v, w, port); }
  }

  lemma {:induction false} SameViews(
    rec: ReleaseRecord, r: RevisionRecord, q: RevisionRecord, spec: ServiceSpec,
    v: map<InstanceId, InstanceStatus>, w: map<InstanceId, InstanceStatus>, n: nat)
    requires n <= |spec.routes| && r.(createdBy := q.createdBy) == q && SameBackends(rec, v, w)
    ensures HttpViews(rec, r, spec, v, n) == HttpViews(rec, q, spec, w, n)
    ensures TcpViews(rec, r, spec, v, n) == TcpViews(rec, q, spec, w, n)
  {
    if n > 0 {
      SameViews(rec, r, q, spec, v, w, n - 1);
      SameSlotBackends(rec, rec.release.slots, v, w, spec.routes[n - 1].servicePort);
    }
  }

  lemma SameReleaseRoutes(rec: ReleaseRecord, v: StoreView, w: StoreView)
    requires SameRevision(rec, v.revisions, w.revisions) && SameBackends(rec, v.instances, w.instances)
    ensures HttpIn(v.revisions, v.instances)(rec) == HttpIn(w.revisions, w.instances)(rec)
    ensures TcpIn(v.revisions, v.instances)(rec) == TcpIn(w.revisions, w.instances)(rec)
  {
    if ResolvableRelease(rec, v.revisions) {
      var r, q := v.revisions[RoutingRevisionKey(rec)], w.revisions[RoutingRevisionKey(rec)];
      SameViews(rec, r, q, r.specJson.spec, v.instances, w.instances, |r.specJson.spec.routes|);
    }
  }

  lemma ListedResolvable(state: RoutingState, v: StoreView)
    requires Keyed(v) && ListsView(state, v)
    ensures AllReleasesResolve(state) <==> forall k :: k in v.releases ==> ResolvableRelease(v.releases[k], v.revisions)
  {
    CollectLists(RevisionKeyOf, state.revisions, v.revisions);
    if AllReleasesResolve(state) {
      forall k | k in v.releases ensures ResolvableRelease(v.releases[k], v.revisions) {
        var i :| 0 <= i < |state.releases| && state.releases[i] == v.releases[k];
      }
    }
  }

  /** The bag of routes of a listing is that of the tables it lists. */
  lemma ListedRoutes(state: RoutingState, v: StoreView)
    requires Keyed(v) && ListsView(state, v)
    ensures HttpRoutes(state) == Flat(HttpIn(v.revisions, v.instances), state.releases)
    ensures TcpRoutes(state) == Flat(TcpIn(v.revisions, v.instances), state.releases)
  {
    CollectLists(RevisionKeyOf, state.revisions, v.revisions);
    CollectLists(InstanceKeyOf, state.instances, v.instances);
  }

  lemma SameRoutingSameBags(v: StoreView, w: StoreView, s: seq<ReleaseRecord>, t: seq<ReleaseRecord>)
    requires SameRouting(v, w) && Lists(ReleaseKeyOf, s, v.releases) && Lists(ReleaseKeyOf, t, w.releases)
    ensures multiset(Flat(HttpIn(v.revisions, v.instances), s)) == multiset(Flat(HttpIn(w.revisions, w.instances), t))
    ensures multiset(Flat(TcpIn(v.revisions, v.instances), s)) == multiset(Flat(TcpIn(w.revisions, w.instances), t))
  {
    hide HttpIn, TcpIn, Flat, SameRevision, SameBackends;
    forall rec | rec in s
      ensures HttpIn(v.revisions, v.instances)(rec) == HttpIn(w.revisions, w.instances)(rec)
      ensures TcpIn(v.revisions, v.instances)(rec) == TcpIn(w.revisions, w.instances)(rec)
    {
      SameReleaseRoutes(rec, v, w);
    }
    FlatAgrees(HttpIn(v.revisions, v.instances), HttpIn(w.revisions, w.instances), s);
    FlatAgrees(TcpIn(v.revisions, v.instances), TcpIn(w.revisions, w.instances), s);
    ListingsPermute(ReleaseKeyOf, s, t, v.releases);
    FlatPermutes(HttpIn(w.revisions, w.instances), s, t);
    FlatPermutes(TcpIn(w.revisions, w.instances), s, t);
  }

  /** Stores with the same routing answer alike, in whatever order their records are listed. */
  lemma SameRoutingSameAnswers(v: StoreView, w: StoreView, s: RoutingState, t: RoutingState)
    requires Keyed(v) && Keyed(w) && SameRouting(v, w)
    requires ListsView(s, v) && ListsView(t, w)
    ensures SameAnswers(s, t)
  {
    hide HttpIn, TcpIn, Flat, HttpRoutes, TcpRoutes, SameBackends, Lists, SameAnswers, AllReleasesResolve;
    ListedRoutes(s, v);
    ListedRoutes(t, w);
    ListedResolvable(s, v);
    ListedResolvable(t, w);
    SameRoutingSameBags(v, w, s.releases, t.releases);
    SameBagSameAnswers(s, t);
  }

  /** The order in which the store lists its records never shows. */
  lemma AnswersIgnoreListing(v: StoreView, s: RoutingState, t: RoutingState)
    requires Keyed(v) && ListsView(s, v) && ListsView(t, v)
    ensures SameAnswers(s, t)
  {
    SameRoutingSameAnswers(v, v, s, t);
  }
}
