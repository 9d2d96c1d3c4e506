/** Which sets of live services the gateway can route at once, told from their specs alone. */
module RouteConflicts {
  import opened Model
  import opened Permutations
  import opened Routes
  import opened RoutingTheorems

  /** What no two routes may share: a host with a path prefix, or a port. */
  datatype Claim = Web(host: string, pathPrefix: string) | Port(listenPort: U16)

  function RouteClaims(route: RouteSpec): set<Claim> {
    match route
    case Http(_, hostnames, pathPrefix) =>
      var hosts := set h | h in hostnames && NormalizeRequestHost(h) != "" :: NormalizeRequestHost(h);
      set h | h in (if hosts == {} then {"*"} else hosts) :: Web(h, NormalizePathPrefix(pathPrefix))
    case Tcp(_, listenPort) => {Port(listenPort)}
  }

  /** The first `n` routes of `a` claim nothing that the first `m` of `b` do. */
  ghost predicate Apart(a: ServiceSpec, n: nat, b: ServiceSpec, m: nat)
    requires n <= |a.routes| && m <= |b.routes|
  {
    forall i, j :: 0 <= i < n && 0 <= j < m ==> RouteClaims(a.routes[i]) !! RouteClaims(b.routes[j])
  }

  ghost predicate SelfApart(a: ServiceSpec, n: nat)
    requires n <= |a.routes|
  {
    forall i, j :: 0 <= i < j < n ==> RouteClaims(a.routes[i]) !! RouteClaims(a.routes[j])
  }

  ghost predicate SpecsApart(a: ServiceSpec, b: ServiceSpec) { Apart(a, |a.routes|, b, |b.routes|) }

  /** The spec that a release is routed by, when its revision is stored and parses. */
  function SpecOf(rec: ReleaseRecord, revisions: map<RevisionKey, RevisionRecord>): Option<ServiceSpec> {
    if ResolvableRelease(rec, revisions) then Some(revisions[RoutingRevisionKey(rec)].specJson.spec) else None
  }

  type Live = map<ReleaseKey, Option<ServiceSpec>>

  function LiveIn(v: StoreView): Live {
    map k | k in v.releases :: SpecOf(v.releases[k], v.revisions)
  }

  /** The service under `k` has a spec that claims nothing twice. */
  ghost predicate Consistent(live: Live, k: ReleaseKey)
    requires k in live
  {
    live[k].Some? && SelfApart(live[k].value, |live[k].value.routes|)
  }

  /** The services under `k` and `l` claim nothing in common. */
  ghost predicate Disjoint(live: Live, k: ReleaseKey, l: ReleaseKey)
    requires k in live && l in live
  {
    live[k].Some? && live[l].Some? && SpecsApart(live[k].value, live[l].value)
  }

  /** Every release has a spec, and no claim is made twice. */
  ghost predicate Compatible(live: Live) {
    && (forall k :: k in live ==> Consistent(live, k))
    && (forall k, l :: k in live && l in live && k != l ==> Disjoint(live, k, l))
  }

  // ---------------------------------------------------------------------------
  // Views and claims
  // ---------------------------------------------------------------------------

  predicate HttpApart(a: HttpRouteView, b: HttpRouteView) { Claims(a) !! Claims(b) }

  predicate TcpApart(a: TcpRouteView, b: TcpRouteView) { a.listenPort != b.listenPort }

  lemma ViewClaims(
    rec: ReleaseRecord, r: RevisionRecord, spec: ServiceSpec, instances: map<InstanceId, InstanceStatus>, i: nat,
    c: Claim)
    requires i < |spec.routes| && spec.routes[i].Http?
    ensures c in RouteClaims(spec.routes[i]) <==>
      c.Web? && (c.host, c.pathPrefix) in Claims(HttpView(rec, r, spec, instances, i))
  {
    var view := HttpView(rec, r, spec, instances, i);
    if c in RouteClaims(spec.routes[i]) {
      assert c.Web? && c.pathPrefix == view.pathPrefix;
    }
  }

  lemma ViewsApart(
    rec: ReleaseRecord, r: RevisionRecord, a: ServiceSpec, i: nat,
    rec': ReleaseRecord, r': RevisionRecord, b: ServiceSpec, j: nat, instances: map<InstanceId, InstanceStatus>)
    requires i < |a.routes| && a.routes[i].Http? && j < |b.routes| && b.routes[j].Http?
    ensures HttpApart(HttpView(rec, r, a, instances, i), HttpView(rec', r', b, instances, j)) <==>
      RouteClaims(a.routes[i]) !! RouteClaims(b.routes[j])
  {
    hide Claims, RouteClaims, HttpView;
    var x, y := HttpView(rec, r, a, instances, i), HttpView(rec', r', b, instances, j);
    forall c ensures c in RouteClaims(a.routes[i]) <==> c.Web? && (c.host, c.pathPrefix) in Claims(x) {
      ViewClaims(rec, r, a, instances, i, c);
    }
    forall c ensures c in RouteClaims(b.routes[j]) <==> c.Web? && (c.host, c.pathPrefix) in Claims(y) {
      ViewClaims(rec', r', b, instances, j, c);
    }
    if !(Claims(x) !! Claims(y)) {
      var p :| p in Claims(x) && p in Claims(y);
      assert Web(p.0, p.1) in RouteClaims(a.routes[i]) && Web(p.0, p.1) in RouteClaims(b.routes[j]);
    }
  }

  lemma {:induction false} HttpViewsMember(
    rec: ReleaseRecord, r: RevisionRecord, spec: ServiceSpec, instances: map<InstanceId, InstanceStatus>, n: nat,
    x: HttpRouteView)
    requires n <= |spec.routes|
    ensures x in HttpViews(rec, r, spec, instances, n) <==>
      exists i :: 0 <= i < n && spec.routes[i].Http? && x == HttpView(rec, r, spec, instances, i)
  {
    hide HttpView;
    if n > 0 { HttpViewsMember(rec, r, spec, instances, n - 1, x); }
  }

  lemma {:induction false} TcpViewsMember(
    rec: ReleaseRecord, r: RevisionRecord, spec: ServiceSpec, instances: map<InstanceId, InstanceStatus>, n: nat,
    x: TcpRouteView)
    requires n <= |spec.routes|
    ensures x in TcpViews(rec, r, spec, instances, n) <==>
      exists i :: 0 <= i < n && spec.routes[i].Tcp? && x == TcpView(rec, r, spec, instances, i)
  {
    hide TcpView;
    if n > 0 { TcpViewsMember(rec, r, spec, instances, n - 1, x); }
  }

  lemma HttpAcrossApart(
    rec: ReleaseRecord, r: RevisionRecord, a: ServiceSpec, n: nat,
    rec': ReleaseRecord, r': RevisionRecord, b: ServiceSpec, m: nat, instances: map<InstanceId, InstanceStatus>)
    requires n <= |a.routes| && m <= |b.routes|
    ensures Across(HttpApart, HttpViews(rec, r, a, instances, n), HttpViews(rec', r', b, instances, m)) <==>
      forall i, j :: 0 <= i < n && 0 <= j < m && a.routes[i].Http? && b.routes[j].Http? ==>
        RouteClaims(a.routes[i]) !! RouteClaims(b.routes[j])
  {
    hide HttpViews, HttpView, RouteClaims, HttpApart;
    var xs, ys := HttpViews(rec, r, a, instances, n), HttpViews(rec', r', b, instances, m);
    forall x
      ensures x in xs <==> exists i :: 0 <= i < n && a.routes[i].Http? && x == HttpView(rec, r, a, instances, i)
    {
      HttpViewsMember(rec, r, a, instances, n, x);
    }
    forall y
      ensures y in ys <==> exists j :: 0 <= j < m && b.routes[j].Http? && y == HttpView(rec', r', b, instances, j)
    {
      HttpViewsMember(rec', r', b, instances, m, y);
    }
    forall i, j | 0 <= i < n && 0 <= j < m && a.routes[i].Http? && b.routes[j].Http?
      ensures HttpApart(HttpView(rec, r, a, instances, i), HttpView(rec', r', b, instances, j)) <==>
        RouteClaims(a.routes[i]) !! RouteClaims(b.routes[j])
      ensures HttpView(rec, r, a, instances, i) in xs && HttpView(rec', r', b, instances, j) in ys
    {
      ViewsApart(rec, r, a, i, rec', r', b, j, instances);
    }
  }

  lemma TcpAcrossApart(
    rec: ReleaseRecord, r: RevisionRecord, a: ServiceSpec, n: nat,
    rec': ReleaseRecord, r': RevisionRecord, b: ServiceSpec, m: nat, instances: map<InstanceId, InstanceStatus>)
    requires n <= |a.routes| && m <= |b.routes|
    ensures Across(TcpApart, TcpViews(rec, r, a, instances, n), TcpViews(rec', r', b, instances, m)) <==>
      forall i, j :: 0 <= i < n && 0 <= j < m && a.routes[i].Tcp? && b.routes[j].Tcp? ==>
        RouteClaims(a.routes[i]) !! RouteClaims(b.routes[j])
  {
    hide TcpViews;
    var xs, ys := TcpViews(rec, r, a, instances, n), TcpViews(rec', r', b, instances, m);
    forall x ensures x in xs <==> exists i :: 0 <= i < n && a.routes[i].Tcp? && x == TcpView(rec, r, a, instances, i) {
      TcpViewsMember(rec, r, a, instances, n, x);
    }
    forall y
      ensures y in ys <==> exists j :: 0 <= j < m && b.routes[j].Tcp? && y == TcpView(rec', r', b, instances, j)
    {
      TcpViewsMember(rec', r', b, instances, m, y);
    }
    forall i, j | 0 <= i < n && 0 <= j < m && a.routes[i].Tcp? && b.routes[j].Tcp?
      ensures TcpApart(TcpView(rec, r, a, instances, i), TcpView(rec', r', b, instances, j)) <==>
        RouteClaims(a.routes[i]) !! RouteClaims(b.routes[j])
      ensures TcpView(rec, r, a, instances, i) in xs && TcpView(rec', r', b, instances, j) in ys
    {
      assert Port(a.routes[i].listenPort) in RouteClaims(a.routes[i]);
    }
  }

  /** Two releases do not clash exactly when their specs do not. */
  lemma AcrossApart(
    rec: ReleaseRecord, r: RevisionRecord, a: ServiceSpec, n: nat,
    rec': ReleaseRecord, r': RevisionRecord, b: ServiceSpec, m: nat, instances: map<InstanceId, InstanceStatus>)
    requires n <= |a.routes| && m <= |b.routes|
    ensures Apart(a, n, b, m) <==>
      && Across(HttpApart, HttpViews(rec, r, a, instances, n), HttpViews(rec', r', b, instances, m))
      && Across(TcpApart, TcpViews(rec, r, a, instances, n), TcpViews(rec', r', b, instances, m))
  {
    hide HttpViews, TcpViews, Across;
    HttpAcrossApart(rec, r, a, n, rec', r', b, m, instances);
    TcpAcrossApart(rec, r, a, n, rec', r', b, m, instances);
    forall i, j | 0 <= i < n && 0 <= j < m && a.routes[i].Http? != b.routes[j].Http?
      ensures RouteClaims(a.routes[i]) !! RouteClaims(b.routes[j])
    {
    }
  }

  function LastHttp(
    rec: ReleaseRecord, r: RevisionRecord, spec: ServiceSpec, instances: map<InstanceId, InstanceStatus>, n: nat)
    : seq<HttpRouteView>
    requires 0 < n <= |spec.routes|
  {
    if spec.routes[n - 1].Http? then [HttpView(rec, r, spec, instances, n - 1)] else []
  }

  function LastTcp(
    rec: ReleaseRecord, r: RevisionRecord, spec: ServiceSpec, instances: map<InstanceId, InstanceStatus>, n: nat)
    : seq<TcpRouteView>
    requires 0 < n <= |spec.routes|
  {
    if spec.routes[n - 1].Tcp? then [TcpView(rec, r, spec, instances, n - 1)] else []
  }

  lemma LastHttpApart(
    rec: ReleaseRecord, r: RevisionRecord, spec: ServiceSpec, instances: map<InstanceId, InstanceStatus>, n: nat)
    requires 0 < n <= |spec.routes|
    ensures Across(HttpApart, HttpViews(rec, r, spec, instances, n - 1), LastHttp(rec, r, spec, instances, n)) <==>
      (spec.routes[n - 1].Http? ==> forall i :: 0 <= i < n - 1 && spec.routes[i].Http? ==>
        RouteClaims(spec.routes[i]) !! RouteClaims(spec.routes[n - 1]))
  {
    hide HttpViews, HttpView, RouteClaims, HttpApart;
    if spec.routes[n - 1].Http? {
      var xs, y := HttpViews(rec, r, spec, instances, n - 1), HttpView(rec, r, spec, instances, n - 1);
      forall x
        ensures x in xs <==>
          exists i :: 0 <= i < n - 1 && spec.routes[i].Http? && x == HttpView(rec, r, spec, instances, i)
      {
        HttpViewsMember(rec, r, spec, instances, n - 1, x);
      }
      forall i | 0 <= i < n - 1 && spec.routes[i].Http?
        ensures HttpView(rec, r, spec, instances, i) in xs
        ensures HttpApart(HttpView(rec, r, spec, instances, i), y) <==>
          RouteClaims(spec.routes[i]) !! RouteClaims(spec.routes[n - 1])
      {
        ViewsApart(rec, r, spec, i, rec, r, spec, n - 1, instances);
      }
    }
  }

  lemma LastTcpApart(
    rec: ReleaseRecord, r: RevisionRecord, spec: ServiceSpec, instances: map<InstanceId, InstanceStatus>, n: nat)
    requires 0 < n <= |spec.routes|
    ensures Across(TcpApart, TcpViews(rec, r, spec, instances, n - 1), LastTcp(rec, r, spec, instances, n)) <==>
      (spec.routes[n - 1].Tcp? ==> forall i :: 0 <= i < n - 1 && spec.routes[i].Tcp? ==>
        RouteClaims(spec.routes[i]) !! RouteClaims(spec.routes[n - 1]))
  {
    hide TcpViews;
    if spec.routes[n - 1].Tcp? {
      var xs, y := TcpViews(rec, r, spec, instances, n - 1), TcpView(rec, r, spec, instances, n - 1);
      forall x
        ensures x in xs <==>
          exists i :: 0 <= i < n - 1 && spec.routes[i].Tcp? && x == TcpView(rec, r, spec, instances, i)
      {
        TcpViewsMember(rec, r, spec, instances, n - 1, x);
      }
      forall i | 0 <= i < n - 1 && spec.routes[i].Tcp?
        ensures TcpView(rec, r, spec, instances, i) in xs
        ensures TcpApart(TcpView(rec, r, spec, instances, i), y) <==>
          RouteClaims(spec.routes[i]) !! RouteClaims(spec.routes[n - 1])
      {
        assert Port(y.listenPort) in RouteClaims(spec.routes[n - 1]);
      }
    }
  }

  lemma SelfApartNext(spec: ServiceSpec, n: nat)
    requires 0 < n <= |spec.routes|
    ensures SelfApart(spec, n) <==> SelfApart(spec, n - 1) && forall i :: 0 <= i < n - 1 ==>
      RouteClaims(spec.routes[i]) !! RouteClaims(spec.routes[n - 1])
  {
    hide RouteClaims;
  }

  /** A release does not clash with itself exactly when its spec does not. */
  lemma {:induction false} OwnViewsApart(
    rec: ReleaseRecord, r: RevisionRecord, spec: ServiceSpec, instances: map<InstanceId, InstanceStatus>, n: nat)
    requires n <= |spec.routes|
    ensures SelfApart(spec, n) <==>
      && Pairwise(HttpApart, HttpViews(rec, r, spec, instances, n))
      && Pairwise(TcpApart, TcpViews(rec, r, spec, instances, n))
  {
    hide SelfApart, Across, RouteClaims, HttpView, TcpView;
    if n == 0 {
      NothingClashes(spec);
    } else {
      OwnViewsApart(rec, r, spec, instances, n - 1);
      PairwiseConcat(HttpApart, HttpViews(rec, r, spec, instances, n - 1), LastHttp(rec, r, spec, instances, n));
      PairwiseConcat(TcpApart, TcpViews(rec, r, spec, instances, n - 1), LastTcp(rec, r, spec, instances, n));
      LastHttpApart(rec, r, spec, instances, n);
      LastTcpApart(rec, r, spec, instances, n);
      SelfApartNext(spec, n);
      forall i | 0 <= i < n && spec.routes[i].Http? != spec.routes[n - 1].Http?
        ensures RouteClaims(spec.routes[i]) !! RouteClaims(spec.routes[n - 1])
      {
        KindsApart(spec.routes[i], spec.routes[n - 1]);
      }
    }
  }

  lemma NothingClashes(spec: ServiceSpec)
    ensures SelfApart(spec, 0)
  {
  }

  lemma KindsApart(a: RouteSpec, b: RouteSpec)
    requires a.Http? != b.Http?
    ensures RouteClaims(a) !! RouteClaims(b)
  {
  }

  // ---------------------------------------------------------------------------
  // Whole states
  // ---------------------------------------------------------------------------

  ghost predicate SelfRoutes(rec: ReleaseRecord, v: StoreView) {
    && Pairwise(HttpApart, HttpIn(v.revisions, v.instances)(rec))
    && Pairwise(TcpApart, TcpIn(v.revisions, v.instances)(rec))
  }

  ghost predicate PairRoutes(rec: ReleaseRecord, rec': ReleaseRecord, v: StoreView) {
    && Across(HttpApart, HttpIn(v.revisions, v.instances)(rec), HttpIn(v.revisions, v.instances)(rec'))
    && Across(TcpApart, TcpIn(v.revisions, v.instances)(rec), TcpIn(v.revisions, v.instances)(rec'))
  }

  lemma SelfRoutesExact(rec: ReleaseRecord, v: StoreView)
    requires ResolvableRelease(rec, v.revisions)
    ensures SelfRoutes(rec, v) <==> var spec := SpecOf(rec, v.revisions).value; SelfApart(spec, |spec.routes|)
  {
    hide Pairwise, SelfApart, HttpViews, TcpViews;
    var r := v.revisions[RoutingRevisionKey(rec)];
    OwnViewsApart(rec, r, r.specJson.spec, v.instances, |r.specJson.spec.routes|);
  }

  lemma PairRoutesExact(rec: ReleaseRecord, rec': ReleaseRecord, v: StoreView)
    requires ResolvableRelease(rec, v.revisions) && ResolvableRelease(rec', v.revisions)
    ensures PairRoutes(rec, rec', v) <==>
      SpecsApart(SpecOf(rec, v.revisions).value, SpecOf(rec', v.revisions).value)
  {
    hide Across, Apart, HttpViews, TcpViews;
    var r, q := v.revisions[RoutingRevisionKey(rec)], v.revisions[RoutingRevisionKey(rec')];
    var a, b := r.specJson.spec, q.specJson.spec;
    AcrossApart(rec, r, a, |a.routes|, rec', q, b, |b.routes|, v.instances);
  }

  lemma SpecsApartSymmetric(a: ServiceSpec, b: ServiceSpec)
    requires SpecsApart(a, b)
    ensures SpecsApart(b, a)
  {
    hide RouteClaims;
  }

  /** The routes of the releases in a list have no clash. */
  ghost predicate ListRoutes(releases: seq<ReleaseRecord>, v: StoreView) {
    && (forall i :: 0 <= i < |releases| ==> SelfRoutes(releases[i], v))
    && (forall i, j :: 0 <= i < j < |releases| ==> PairRoutes(releases[i], releases[j], v))
  }

  lemma ListRoutesExact(releases: seq<ReleaseRecord>, v: StoreView)
    ensures ListRoutes(releases, v) <==>
      && NoHttpConflict(Flat(HttpIn(v.revisions, v.instances), releases))
      && NoTcpConflict(Flat(TcpIn(v.revisions, v.instances), releases))
  {
    hide HttpIn, TcpIn, Across, Flat, Claims;
    var http, tcp := HttpIn(v.revisions, v.instances), TcpIn(v.revisions, v.instances);
    FlatPairwise(HttpApart, http, releases);
    FlatPairwise(TcpApart, tcp, releases);
    NoConflictIsPairwise(Flat(http, releases), Flat(tcp, releases));
    PartsAreRoutes(releases, v);
  }

  lemma NoConflictIsPairwise(http: seq<HttpRouteView>, tcp: seq<TcpRouteView>)
    ensures NoHttpConflict(http) <==> Pairwise(HttpApart, http)
    ensures NoTcpConflict(tcp) <==> Pairwise(TcpApart, tcp)
  {
    hide Claims;
    if Pairwise(HttpApart, http) {
      forall i, j | 0 <= i < j < |http| ensures Claims(http[i]) !! Claims(http[j]) {
        assert HttpApart(http[i], http[j]);
      }
    }
    if Pairwise(TcpApart, tcp) {
      forall i, j | 0 <= i < j < |tcp| ensures tcp[i].listenPort != tcp[j].listenPort {
        assert TcpApart(tcp[i], tcp[j]);
      }
    }
  }

  lemma PartsAreRoutes(releases: seq<ReleaseRecord>, v: StoreView)
    ensures ListRoutes(releases, v) <==>
      && PartsPairwise(HttpApart, HttpIn(v.revisions, v.instances), releases, |releases|)
      && PartsPairwise(TcpApart, TcpIn(v.revisions, v.instances), releases, |releases|)
  {
    hide HttpIn, TcpIn, Across, Pairwise, HttpApart, TcpApart;
    if ListRoutes(releases, v) {
      forall i | 0 <= i < |releases|
        ensures Pairwise(HttpApart, HttpIn(v.revisions, v.instances)(releases[i]))
        ensures Pairwise(TcpApart, TcpIn(v.revisions, v.instances)(releases[i]))
      {
        assert SelfRoutes(releases[i], v);
      }
      forall i, j | 0 <= i < j < |releases|
        ensures Across(HttpApart, HttpIn(v.revisions, v.instances)(releases[i]),
          HttpIn(v.revisions, v.instances)(releases[j]))
        ensures Across(TcpApart, TcpIn(v.revisions, v.instances)(releases[i]),
          TcpIn(v.revisions, v.instances)(releases[j]))
      {
        assert PairRoutes(releases[i], releases[j], v);
      }
    }
  }

  lemma LiveAt(releases: seq<ReleaseRecord>, v: StoreView, i: nat)
    requires Lists(ReleaseKeyOf, releases, v.releases) && i < |releases|
    requires ResolvableRelease(releases[i], v.revisions)
    ensures ReleaseKeyOf(releases[i]) in LiveIn(v)
    ensures LiveIn(v)[ReleaseKeyOf(releases[i])] == SpecOf(releases[i], v.revisions)
    ensures SelfRoutes(releases[i], v) <==> Consistent(LiveIn(v), ReleaseKeyOf(releases[i]))
  {
    hide SelfRoutes, SelfApart;
    SelfRoutesExact(releases[i], v);
  }

  lemma LivePair(releases: seq<ReleaseRecord>, v: StoreView, i: nat, j: nat)
    requires Lists(ReleaseKeyOf, releases, v.releases) && i < j < |releases|
    requires ResolvableRelease(releases[i], v.revisions) && ResolvableRelease(releases[j], v.revisions)
    ensures ReleaseKeyOf(releases[i]) in LiveIn(v) && ReleaseKeyOf(releases[j]) in LiveIn(v)
    ensures PairRoutes(releases[i], releases[j], v) <==>
      Disjoint(LiveIn(v), ReleaseKeyOf(releases[i]), ReleaseKeyOf(releases[j]))
    ensures PairRoutes(releases[i], releases[j], v) <==>
      Disjoint(LiveIn(v), ReleaseKeyOf(releases[j]), ReleaseKeyOf(releases[i]))
  {
    hide PairRoutes, SpecsApart;
    PairRoutesExact(releases[i], releases[j], v);
    var a, b := SpecOf(releases[i], v.revisions).value, SpecOf(releases[j], v.revisions).value;
    if SpecsApart(a, b) { SpecsApartSymmetric(a, b); }
    if SpecsApart(b, a) { SpecsApartSymmetric(b, a); }
  }

  /** A listing of the releases has no clash exactly when the live specs have none. */
  lemma ListedLive(releases: seq<ReleaseRecord>, v: StoreView)
    requires KeyedBy(ReleaseKeyOf, v.releases) && Lists(ReleaseKeyOf, releases, v.releases)
    requires forall i :: 0 <= i < |releases| ==> ResolvableRelease(releases[i], v.revisions)
    ensures ListRoutes(releases, v) <==> Compatible(LiveIn(v))
  {
    hide SelfRoutes, PairRoutes, Consistent, Disjoint, ResolvableRelease, SpecOf;
    var live := LiveIn(v);
    forall i | 0 <= i < |releases|
      ensures ReleaseKeyOf(releases[i]) in live
      ensures SelfRoutes(releases[i], v) <==> Consistent(live, ReleaseKeyOf(releases[i]))
    {
      LiveAt(releases, v, i);
    }
    forall i, j | 0 <= i < j < |releases|
      ensures PairRoutes(releases[i], releases[j], v) <==>
        Disjoint(live, ReleaseKeyOf(releases[i]), ReleaseKeyOf(releases[j]))
      ensures PairRoutes(releases[i], releases[j], v) <==>
        Disjoint(live, ReleaseKeyOf(releases[j]), ReleaseKeyOf(releases[i]))
    {
      LivePair(releases, v, i, j);
    }
    if ListRoutes(releases, v) {
      forall k | k in live ensures Consistent(live, k) {
        var i := Place(releases, v, k);
      }
      forall k, l | k in live && l in live && k != l ensures Disjoint(live, k, l) {
        var i := Place(releases, v, k);
        var j := Place(releases, v, l);
        if i < j {
          assert PairRoutes(releases[i], releases[j], v);
        } else {
          assert PairRoutes(releases[j], releases[i], v);
        }
      }
    }
  }

  lemma Place(releases: seq<ReleaseRecord>, v: StoreView, k: ReleaseKey) returns (i: nat)
    requires KeyedBy(ReleaseKeyOf, v.releases) && Lists(ReleaseKeyOf, releases, v.releases) && k in v.releases
    ensures i < |releases| && ReleaseKeyOf(releases[i]) == k
  {
    i :| i < |releases| && releases[i] == v.releases[k];
  }

  /** The gateway takes a state in, however it is listed, exactly when the specs of its releases are compatible. */
  lemma ProjectsExactly(v: StoreView, state: RoutingState)
    requires Keyed(v) && ListsView(state, v)
    ensures ProjectOf(state).Some? <==> Compatible(LiveIn(v))
  {
    hide Flat, HttpIn, TcpIn, NoHttpConflict, NoTcpConflict, ListRoutes, Disjoint, ResolvableRelease;
    ListedResolvable(state, v);
    ListedRoutes(state, v);
    ListRoutesExact(state.releases, v);
    if AllReleasesResolve(state) {
      ListedLive(state.releases, v);
    } else {
      var k :| k in v.releases && !ResolvableRelease(v.releases[k], v.revisions);
      assert k in LiveIn(v) && !Consistent(LiveIn(v), k);
    }
  }

  lemma {:induction false} SomeListing<K, V>(key: V -> K, m: map<K, V>) returns (l: seq<V>)
    requires KeyedBy(key, m)
    ensures Lists(key, l, m)
    decreases |m|
  {
    if m == map[] {
      l := [];
    } else {
      var k :| k in m;
      var rest := m - {k};
      assert rest.Keys == m.Keys - {k};
      var others := SomeListing(key, rest);
      l := others + [m[k]];
      forall k' | k' in m ensures m[k'] in l {
        if k' != k { assert rest[k'] in others; }
      }
    }
  }

  lemma SomeViewListing(v: StoreView) returns (state: RoutingState)
    requires Keyed(v)
    ensures ListsView(state, v)
  {
    var revisions := SomeListing(RevisionKeyOf, v.revisions);
    var releases := SomeListing(ReleaseKeyOf, v.releases);
    var instances := SomeListing(InstanceKeyOf, v.instances);
    state := RoutingState(revisions, releases, instances);
  }
}
