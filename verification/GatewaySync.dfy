/** The gateway's refresh loop running beside the writers of the store it reads. */
module GatewaySync {
  import opened Model
  import opened Placement
  import opened Planner
  import opened QuietWrites
  import opened RolloutTheorems
  import opened RolloutTrace
  import opened RouteConflicts
  import opened Routes
  import opened RoutingTheorems
  import opened Store
  import opened Strings

  /** Where the loop is: in `recv`, asleep, in the `try_recv` loop, about to load, or holding a loaded state. */
  datatype Pc = Waiting | Debouncing | Emptying | Loading | Projecting(state: RoutingState)

  /**
   * The store's routing history, the loop, and three positions in the history: the state the snapshot
   * was made from, the state of the last load call, and the state in which the loop subscribed.
   */
  datatype World = World(
    history: seq<StoreView>, channel: Channel, pc: Pc, snapshot: GatewaySnapshot,
    shown: nat, attempted: nat, since: nat, loadFailed: bool)

  /** Everything that can happen next; loads may list records in any order, or fail. */
  datatype Event = Write(view: StoreView) | Receive | Wake | TryReceive | Load(listing: Option<RoutingState>) | Show

  function Consumed(c: Channel): Channel
    requires c.pending > 0
  {
    c.(pending := c.pending - 1)
  }

  ghost function Last(s: World): StoreView
    requires s.history != []
  {
    s.history[|s.history| - 1]
  }

  ghost predicate Step(s: World, e: Event, t: World) {
    s.history != [] &&
    match e
    case Write(v) => Keyed(v) && t == s.(history := s.history + [v], channel := Notified(s.channel))
    case Receive => s.pc.Waiting? && s.channel.pending > 0 && t == s.(channel := Consumed(s.channel), pc := Debouncing)
    case Wake => s.pc.Debouncing? && t == s.(pc := Emptying)
    case TryReceive =>
      s.pc.Emptying? && t == (if s.channel.pending > 0 then s.(channel := Consumed(s.channel)) else s.(pc := Loading))
    case Load(listing) =>
      && s.pc.Loading?
      && (listing.Some? ==> ListsView(listing.value, Last(s)))
      && t == s.(attempted := |s.history| - 1, loadFailed := listing.None?,
                 pc := if listing.Some? then Projecting(listing.value) else Waiting)
    case Show =>
      && s.pc.Projecting?
      && t == match ProjectOf(s.pc.state) {
           case Some(snapshot) => s.(snapshot := snapshot, shown := s.attempted, pc := Waiting)
           case None => s.(pc := Waiting)
         }
  }

  /** A run: each state follows from the one before it by some event. */
  ghost predicate Runs(states: seq<World>, events: seq<Event>) {
    |states| == |events| + 1 && forall i :: 0 <= i < |events| ==> Step(states[i], events[i], states[i + 1])
  }

  // ---------------------------------------------------------------------------
  // What a snapshot says
  // ---------------------------------------------------------------------------

  ghost predicate SameTables(a: GatewaySnapshot, b: GatewaySnapshot) {
    a.tcpRoutes == b.tcpRoutes && forall host, path :: MatchHttpRoute(a, host, path) == MatchHttpRoute(b, host, path)
  }

  ghost predicate Shows(snapshot: GatewaySnapshot, v: StoreView) {
    exists state :: ListsView(state, v) && ProjectOf(state) == Some(snapshot)
  }

  ghost predicate Projectable(v: StoreView) {
    forall state :: ListsView(state, v) ==> ProjectOf(state).Some?
  }

  /** However `v` is listed, the snapshot answers every request as a fresh projection would. */
  ghost predicate AnswersAs(snapshot: GatewaySnapshot, v: StoreView) {
    forall state :: ListsView(state, v) ==> ProjectOf(state).Some? && SameTables(snapshot, ProjectOf(state).value)
  }

  lemma ShowsAnswers(snapshot: GatewaySnapshot, v: StoreView, w: StoreView)
    requires Shows(snapshot, v) && Keyed(v) && Keyed(w) && SameRouting(v, w)
    ensures AnswersAs(snapshot, w)
  {
    hide SameRouting, Keyed, ListsView, ProjectOf, MatchHttpRoute;
    var state :| ListsView(state, v) && ProjectOf(state) == Some(snapshot);
    forall other | ListsView(other, w) ensures ProjectOf(other).Some? && SameTables(snapshot, ProjectOf(other).value) {
      SameRoutingSameAnswers(v, w, state, other);
    }
  }

  /** One listing that does not project means that none does. */
  lemma ProjectableByListing(v: StoreView, state: RoutingState)
    requires Keyed(v) && ListsView(state, v)
    ensures Projectable(v) <==> ProjectOf(state).Some?
  {
    hide Keyed, ListsView, ProjectOf, MatchHttpRoute;
    forall other | ListsView(other, v) ensures ProjectOf(other).Some? <==> ProjectOf(state).Some? {
      AnswersIgnoreListing(v, state, other);
    }
  }

  // ---------------------------------------------------------------------------
  // The invariant
  // ---------------------------------------------------------------------------

  /** The initial snapshot was loaded at `attempted`; only then did the loop subscribe, at `since`. */
  ghost predicate Start(s: World) {
    && s.history != [] && (forall v :: v in s.history ==> Keyed(v))
    && s.channel == Channel(0, false) && s.pc == Waiting && !s.loadFailed
    && s.shown == s.attempted < |s.history| && s.since == |s.history| - 1
    && Shows(s.snapshot, s.history[s.shown])
  }

  ghost predicate Positions(s: World) {
    && s.history != [] && (forall v :: v in s.history ==> Keyed(v))
    && s.channel.pending <= CHANNEL_CAPACITY
    && s.shown <= s.attempted < |s.history| && s.since < |s.history|
  }

  /** Between loads, a state not yet looked at has left a token in the channel. */
  ghost predicate NoLostRefresh(s: World) {
    (s.pc.Waiting? || s.pc.Projecting?) && s.channel.pending == 0 ==>
      s.attempted == |s.history| - 1 || s.since == |s.history| - 1
  }

  ghost predicate Faithful(s: World)
    requires Positions(s)
  {
    && Shows(s.snapshot, s.history[s.shown])
    && (s.pc.Projecting? ==> !s.loadFailed && ListsView(s.pc.state, s.history[s.attempted]))
    && (!s.loadFailed && !s.pc.Projecting? && Projectable(s.history[s.attempted]) ==> s.shown == s.attempted)
  }

  ghost predicate Inv(s: World) {
    Positions(s) && NoLostRefresh(s) && Faithful(s)
  }

  lemma StartInv(s: World)
    requires Start(s)
    ensures Inv(s)
  {
  }

  lemma StepKeepsPositions(s: World, e: Event, t: World)
    requires Positions(s) && NoLostRefresh(s) && Step(s, e, t)
    ensures Positions(t) && NoLostRefresh(t)
    ensures s.history <= t.history && s.shown <= t.shown
  {
    hide Keyed, ListsView, ProjectOf;
  }

  lemma StepKeepsFaithful(s: World, e: Event, t: World)
    requires Positions(s) && Positions(t) && Faithful(s) && Step(s, e, t)
    ensures Faithful(t)
  {
    hide Keyed, ListsView, ProjectOf, Projectable, Shows;
    if e.Show? {
      ProjectableByListing(s.history[s.attempted], s.pc.state);
      if ProjectOf(s.pc.state).Some? { ShowsListing(t.snapshot, s.history[s.attempted], s.pc.state); }
    }
  }

  lemma ShowsListing(snapshot: GatewaySnapshot, v: StoreView, state: RoutingState)
    requires ListsView(state, v) && ProjectOf(state) == Some(snapshot)
    ensures Shows(snapshot, v)
  {
  }

  /** Every state of every run keeps the invariant; the history only grows and the snapshot never goes back. */
  lemma {:induction false} RunKeepsInv(states: seq<World>, events: seq<Event>, i: nat, j: nat)
    requires Runs(states, events) && Start(states[0]) && i <= j < |states|
    ensures Inv(states[i]) && Inv(states[j])
    ensures states[i].history <= states[j].history && states[i].shown <= states[j].shown
    decreases j
  {
    hide Step, Positions, NoLostRefresh, Faithful, Start;
    if j == 0 {
      StartInv(states[0]);
    } else {
      RunKeepsInv(states, events, if i < j then i else j - 1, j - 1);
      StepKeepsPositions(states[j - 1], events[j - 1], states[j]);
      StepKeepsFaithful(states[j - 1], events[j - 1], states[j]);
    }
  }

  // ---------------------------------------------------------------------------
  // Convergence
  // ---------------------------------------------------------------------------

  predicate Quiescent(s: World) { s.pc.Waiting? && s.channel.pending == 0 }

  /** Steps the loop still has to take if nothing more is written. */
  function Rank(s: World): nat {
    6 * s.channel.pending +
    match s.pc { case Waiting => 0 case Debouncing => 5 case Emptying => 4 case Loading => 3 case Projecting(_) => 1 }
  }

  /** Every step of the loop brings it closer to rest, and it is never stuck before. */
  lemma LoopProgress(s: World, e: Event, t: World)
    requires Step(s, e, t) && !e.Write?
    ensures Rank(t) < Rank(s)
  {
    hide Keyed, ListsView, ProjectOf;
  }

  lemma LoopNotStuck(s: World)
    requires Positions(s)
    ensures Rank(s) == 0 <==> Quiescent(s)
    ensures !Quiescent(s) ==> exists e: Event, t: World :: !e.Write? && Step(s, e, t)
  {
    hide Keyed, ListsView, ProjectOf;
    match s.pc
    case Waiting =>
      if s.channel.pending > 0 { assert Step(s, Receive, s.(channel := Consumed(s.channel), pc := Debouncing)); }
    case Debouncing => assert Step(s, Wake, s.(pc := Emptying));
    case Emptying =>
      var t := if s.channel.pending > 0 then s.(channel := Consumed(s.channel)) else s.(pc := Loading);
      assert Step(s, TryReceive, t);
    case Loading =>
      assert Step(s, Load(None), s.(attempted := |s.history| - 1, loadFailed := true, pc := Waiting));
    case Projecting(l) =>
      var t := match ProjectOf(l) {
        case Some(snapshot) => s.(snapshot := snapshot, shown := s.attempted, pc := Waiting)
        case None => s.(pc := Waiting)
      };
      assert Step(s, Show, t);
  }

  /** Without further writes the loop takes at most `Rank` steps. */
  lemma {:induction false} RunsAreShort(states: seq<World>, events: seq<Event>)
    requires Runs(states, events) && forall i :: 0 <= i < |events| ==> !events[i].Write?
    ensures |events| + Rank(states[|events|]) <= Rank(states[0])
  {
    hide Step, Rank;
    var n := |events|;
    if n > 0 {
      assert Runs(states[..n], events[..n - 1]) by {
        forall i | 0 <= i < n - 1 ensures Step(states[..n][i], events[..n - 1][i], states[..n][i + 1]) {
          assert Step(states[i], events[i], states[i + 1]);
        }
      }
      RunsAreShort(states[..n], events[..n - 1]);
      assert Step(states[n - 1], events[n - 1], states[n]);
      LoopProgress(states[n - 1], events[n - 1], states[n]);
    }
  }

  /**
   * At rest the loop has looked at the newest state, with exactly one exception: the store changed
   * between the initial load and the subscription and has not changed since.
   */
  lemma RestIsUpToDate(s: World)
    requires Inv(s) && Quiescent(s)
    ensures s.attempted == |s.history| - 1 <==> !(s.attempted < s.since == |s.history| - 1)
  {
  }

  /**
   * The exception does occur: a world that starts at rest, on the empty store's snapshot, with a
   * newer state unseen.
   */
  lemma ChangeBeforeSubscribing(v: StoreView) returns (s: World)
    requires Keyed(v)
    ensures Start(s) && Quiescent(s) && s.history == [StoreView(map[], map[], map[]), v]
    ensures s.attempted < s.since == |s.history| - 1 && s.snapshot == GatewaySnapshot([], [])
  {
    var nothing, listing := StoreView(map[], map[], map[]), RoutingState([], [], []);
    assert ListsView(listing, nothing) && ProjectOf(listing) == Some(GatewaySnapshot([], []));
    s := World([nothing, v], Channel(0, false), Waiting, GatewaySnapshot([], []), 0, 0, 1, false);
  }

  /** If that last look succeeded, every request is answered as the newest state demands. */
  lemma RestAnswersCurrentState(s: World)
    requires Inv(s) && Quiescent(s) && !s.loadFailed && s.attempted == |s.history| - 1 && Projectable(Last(s))
    ensures AnswersAs(s.snapshot, Last(s))
  {
    hide Keyed, Shows, Projectable, AnswersAs;
    SameRoutingReflexive(Last(s));
    ShowsAnswers(s.snapshot, Last(s), Last(s));
  }

  /** A run from `s` that ends at rest with `v` stored, its last load failed and its snapshot still that of `s`. */
  ghost predicate StalesAfter(states: seq<World>, events: seq<Event>, s: World, v: StoreView) {
    Runs(states, events) && states[0] == s &&
    var t := states[|events|];
    Quiescent(t) && t.history == s.history + [v] && t.snapshot == s.snapshot && t.loadFailed
  }

  /** A load that fails is not retried: the loop comes to rest on the old snapshot. */
  lemma FailedLoadIsForgotten(s: World, v: StoreView)
    requires Inv(s) && Quiescent(s) && Keyed(v)
    ensures exists states, events :: StalesAfter(states, events, s, v)
  {
    hide Keyed, ListsView, ProjectOf, Projectable, Shows;
    var s1 := s.(history := s.history + [v], channel := Notified(s.channel));
    var s2 := s1.(channel := Consumed(s1.channel), pc := Debouncing);
    var s3 := s2.(pc := Emptying);
    var s4 := s3.(pc := Loading);
    var s5 := s4.(attempted := |s4.history| - 1, loadFailed := true, pc := Waiting);
    var states, events := [s, s1, s2, s3, s4, s5], [Write(v), Receive, Wake, TryReceive, Load(None)];
    assert StalesAfter(states, events, s, v);
  }

  // ---------------------------------------------------------------------------
  // A deploy beside the loop
  // ---------------------------------------------------------------------------

  /**
   * While a deploy with commit point `c` writes its history, in any interleaving with the loop, a
   * snapshot that was current when the deploy began answers as the state before the deploy or as
   * the committed state, and nothing in between.
   */
  lemma AtomicCutover(
    job: Job, h: seq<StoreView>, from: nat, c: nat, recs: seq<ReleaseRecord>, removed: seq<string>, s: World)
    requires CommitsAt(job, h, from, c, recs, removed) && DistinctNames(job.manifest.services)
    requires Clean(job, h[from - 1])
    requires Inv(s) && s.history <= h && from - 1 <= s.shown
    ensures AnswersAs(s.snapshot, if s.shown < c then h[from - 1] else h[c])
  {
    hide CommitsAt, DistinctNames, Clean, AnswersAs, Keyed, Shows, SameRouting, Projectable, NoLostRefresh;
    CommitInHistory(job, h, from, c, recs, removed);
    var side := if s.shown < c then from - 1 else c;
    RoutingMovesOnlyAtCommit(job, h, from, c, recs, removed, s.shown);
    RoutingMovesOnlyAtCommit(job, h, from, c, recs, removed, side);
    SameRoutingSymmetric(h[side], h[s.shown]);
    ShowsAnswers(s.snapshot, h[s.shown], h[side]);
  }

  /** Seen over a whole run, there is one switch: no state before it shows the new routing, none after it the old. */
  lemma CutoverHappensOnce(
    job: Job, h: seq<StoreView>, from: nat, c: nat, recs: seq<ReleaseRecord>, removed: seq<string>,
    states: seq<World>, events: seq<Event>, i: nat, j: nat)
    requires CommitsAt(job, h, from, c, recs, removed) && DistinctNames(job.manifest.services)
    requires Clean(job, h[from - 1])
    requires Runs(states, events) && Start(states[0]) && i <= j < |states|
    requires states[j].history <= h && from - 1 <= states[i].shown
    ensures AnswersAs(states[i].snapshot, h[from - 1]) || AnswersAs(states[j].snapshot, h[c])
    ensures AnswersAs(states[i].snapshot, h[from - 1]) || AnswersAs(states[i].snapshot, h[c])
    ensures AnswersAs(states[j].snapshot, h[from - 1]) || AnswersAs(states[j].snapshot, h[c])
  {
    hide CommitsAt, DistinctNames, Clean, AnswersAs, Runs, Start, Inv;
    CommitInHistory(job, h, from, c, recs, removed);
    RunKeepsInv(states, events, i, j);
    AtomicCutover(job, h, from, c, recs, removed, states[i]);
    AtomicCutover(job, h, from, c, recs, removed, states[j]);
  }

  // ---------------------------------------------------------------------------
  // When a deploy is seen at all
  // ---------------------------------------------------------------------------

  lemma ProjectableExact(v: StoreView)
    requires Keyed(v)
    ensures Projectable(v) <==> Compatible(LiveIn(v))
  {
    hide Keyed, ListsView, ProjectOf, Compatible;
    var state := SomeViewListing(v);
    ProjectableByListing(v, state);
    ProjectsExactly(v, state);
  }

  /** The first `n` services of the manifest, under their keys. */
  function ManifestLive(job: Job, n: nat): Live
    requires n <= |job.manifest.services|
  {
    if n == 0 then map[]
    else
      var spec := job.manifest.services[n - 1];
      ManifestLive(job, n - 1)[(job.manifest.namespace, spec.name) := Some(spec)]
  }

  /** What would be live after the deploy: the manifest's services beside those of the other namespaces. */
  function LiveAfter(job: Job, v: StoreView): Live {
    (map k | k in v.releases && k.0 != job.manifest.namespace :: SpecOf(v.releases[k], v.revisions)) +
    ManifestLive(job, |job.manifest.services|)
  }

  lemma {:induction false} ManifestLiveAt(job: Job, n: nat, k: ReleaseKey)
    requires n <= |job.manifest.services| && DistinctNames(job.manifest.services)
    ensures k in ManifestLive(job, n) <==>
      k.0 == job.manifest.namespace && exists i :: 0 <= i < n && job.manifest.services[i].name == k.1
    ensures forall i :: 0 <= i < n && k == (job.manifest.namespace, job.manifest.services[i].name) ==>
      k in ManifestLive(job, n) && ManifestLive(job, n)[k] == Some(job.manifest.services[i])
  {
    if n > 0 { ManifestLiveAt(job, n - 1, k); }
  }

  lemma CommittedSpec(
    job: Job, v: StoreView, machines: seq<MachineId>, recs: seq<ReleaseRecord>, removed: seq<string>, k: ReleaseKey)
    requires Clean(job, v) && DistinctNames(job.manifest.services) && k.0 == job.manifest.namespace
    requires ReleasesFor(job, machines, ByService(v.releases, job.manifest.namespace), recs)
    requires RemovesExactly(removed, job.manifest, ByService(v.releases, job.manifest.namespace))
    requires RevisionsStored(job, v.revisions.Keys, |job.manifest.services|)
    ensures
      var after := AfterCommit(v.releases, CommitFor(job, recs, removed));
      var live := ManifestLive(job, |job.manifest.services|);
      (k in after <==> k in live) && (k in after ==> SpecOf(after[k], v.revisions) == live[k])
  {
    hide Keyed, Integrity, OwnIds, Referenced, AfterCommit, ByService, RemovesExactly, Realizes, Wanted, SlotsOf,
         ManifestLive;
    var current, services := ByService(v.releases, job.manifest.namespace), job.manifest.services;
    CommittedAt(job, v.releases, machines, recs, removed, k);
    ManifestLiveAt(job, |services|, k);
    forall i | 0 <= i < |services| && services[i].name == k.1
      ensures recs[i] in recs && ReleaseKeyOf(recs[i]) == k && SpecOf(recs[i], v.revisions) == Some(services[i])
    {
      assert ReleaseFor(job, machines, current, services[i], recs[i]);
      assert services[i] in services && RoutingRevisionKey(recs[i]) == RevisionKeyFor(job, services[i]);
    }
    forall r | r in recs && ReleaseKeyOf(r) == k ensures exists i :: 0 <= i < |services| && services[i].name == k.1 {
      var i :| 0 <= i < |recs| && recs[i] == r;
      assert ReleaseFor(job, machines, current, services[i], recs[i]);
    }
  }

  lemma SameRoutingSameSpec(v: StoreView, w: StoreView, k: ReleaseKey)
    requires SameRouting(v, w) && k in v.releases
    ensures SpecOf(v.releases[k], v.revisions) == SpecOf(v.releases[k], w.revisions)
  {
    assert SameRevision(v.releases[k], v.revisions, w.revisions);
  }

  /** The commit makes live exactly what could be foreseen before the deploy. */
  lemma LiveAtCommit(job: Job, h: seq<StoreView>, from: nat, c: nat, recs: seq<ReleaseRecord>, removed: seq<string>)
    requires CommitsAt(job, h, from, c, recs, removed) && DistinctNames(job.manifest.services)
    requires Clean(job, h[from - 1])
    ensures LiveIn(h[c]) == LiveAfter(job, h[from - 1])
  {
    hide Clean, DistinctNames, SameRouting, PreSteps, ReleasesFor, RemovesExactly, RevisionsStored, AfterCommit, SpecOf,
         ManifestLive, CleanupSteps, ByService, RunMachines;
    var v, w, ns := h[from - 1], h[c - 1], job.manifest.namespace;
    PreStepsAreQuiet(job, h[..c], from, c - 1);
    var live, after := LiveIn(h[c]), LiveAfter(job, v);
    forall k ensures (k in live <==> k in after) && (k in live ==> live[k] == after[k]) {
      CommittedAt(job, w.releases, RunMachines(job), recs, removed, k);
      if k.0 == ns {
        CommittedSpec(job, w, RunMachines(job), recs, removed, k);
      } else {
        OthersNotInManifest(job, k);
        if k in v.releases { SameRoutingSameSpec(v, w, k); }
      }
    }
  }

  lemma OthersNotInManifest(job: Job, k: ReleaseKey)
    requires k.0 != job.manifest.namespace && DistinctNames(job.manifest.services)
    ensures k !in ManifestLive(job, |job.manifest.services|)
  {
    ManifestLiveAt(job, |job.manifest.services|, k);
  }

  lemma LiveStays(
    job: Job, h: seq<StoreView>, from: nat, c: nat, recs: seq<ReleaseRecord>, removed: seq<string>, i: nat)
    requires CommitsAt(job, h, from, c, recs, removed) && DistinctNames(job.manifest.services) && Keyed(h[from - 1])
    requires c <= i < |h|
    ensures Keyed(h[i]) && LiveIn(h[i]) == LiveIn(h[c])
  {
    hide Keyed, DistinctNames, Covers, SameRouting, ReadyToCommit, CleanupStep, SpecOf;
    CommitPoint(job, h, from, c, recs, removed);
    CleanupStepsAreQuiet(job.manifest.namespace, ActiveIds(recs), h, c, i);
  }

  /**
   * When everything is at rest after the deploy, clients see the committed routing exactly when the
   * routes of the manifest clash neither with each other nor with those of the other namespaces.
   */
  lemma CutoverCompletes(
    job: Job, h: seq<StoreView>, from: nat, c: nat, recs: seq<ReleaseRecord>, removed: seq<string>, s: World)
    requires CommitsAt(job, h, from, c, recs, removed) && DistinctNames(job.manifest.services)
    requires Clean(job, h[from - 1])
    requires Inv(s) && s.history == h && s.since < c && Quiescent(s) && !s.loadFailed
    ensures AnswersAs(s.snapshot, h[c]) <==> Compatible(LiveAfter(job, h[from - 1]))
  {
    hide CommitsAt, DistinctNames, Clean, AnswersAs, Keyed, Shows, SameRouting, Projectable, Compatible, LiveIn,
         LiveAfter;
    CommitInHistory(job, h, from, c, recs, removed);
    CleanIsKeyed(job, h[from - 1]);
    LiveAtCommit(job, h, from, c, recs, removed);
    LiveStays(job, h, from, c, recs, removed, c);
    LiveStays(job, h, from, c, recs, removed, |h| - 1);
    ProjectableExact(h[c]);
    ProjectableExact(h[|h| - 1]);
    RestIsUpToDate(s);
    if Projectable(h[|h| - 1]) {
      AtomicCutover(job, h, from, c, recs, removed, s);
    } else {
      NoAnswerUnprojectable(s.snapshot, h[c]);
    }
  }

  /** A spec that listens on a port. */
  function Listener(name: string, port: U16): ServiceSpec {
    ServiceSpec(name, Replicated(1), [ServicePort("p", 1)], [Tcp("p", port)], "")
  }

  lemma ListenerIsValid(name: string, port: U16)
    requires Trim(name) != ""
    ensures ValidSpec(Listener(name, port))
  {
    assert ServicePort("p", 1) in Listener(name, port).servicePorts;
  }

  lemma ListenersClash(live: Live, k: ReleaseKey, l: ReleaseKey, port: U16)
    requires k in live && l in live && k != l
    requires live[k] == Some(Listener(k.1, port)) && live[l] == Some(Listener(l.1, port))
    ensures !Compatible(live)
  {
    var a, b := Listener(k.1, port), Listener(l.1, port);
    assert Port(port) in RouteClaims(a.routes[0]) && Port(port) in RouteClaims(b.routes[0]);
    assert !Disjoint(live, k, l);
  }

  /** A valid manifest may clash with itself: here two services listen on one port. */
  lemma ValidManifestCanClash(job: Job, v: StoreView)
    requires job.manifest == DeployManifest("n", [Listener("a", 80), Listener("b", 80)])
    ensures ValidManifest(job.manifest) && !Compatible(LiveAfter(job, v))
  {
    hide Compatible, Listener, ValidSpec;
    ListenerIsValid("a", 80);
    ListenerIsValid("b", 80);
    NamedListener("a");
    NamedListener("b");
    ManifestLiveAt(job, 2, ("n", "a"));
    ManifestLiveAt(job, 2, ("n", "b"));
    ListenersClash(LiveAfter(job, v), ("n", "a"), ("n", "b"), 80);
  }

  lemma NamedListener(name: string)
    ensures Listener(name, 80).name == name
  {
  }

  lemma NoAnswerUnprojectable(snapshot: GatewaySnapshot, v: StoreView)
    requires !Projectable(v)
    ensures !AnswersAs(snapshot, v)
  {
  }

  /** A deploy that fails before its commit is never seen. */
  lemma FailedDeployNeverShows(job: Job, h: seq<StoreView>, from: nat, s: World)
    requires 0 < from <= |h| && PreSteps(job, h, from) && DistinctNames(job.manifest.services)
    requires Clean(job, h[from - 1])
    requires Inv(s) && s.history <= h && from - 1 <= s.shown
    ensures AnswersAs(s.snapshot, h[from - 1])
  {
    hide DistinctNames, Clean, AnswersAs, Keyed, Shows, SameRouting, Projectable, NoLostRefresh, PreSteps;
    PreStepsAreQuiet(job, h, from, s.shown);
    CleanIsKeyed(job, h[from - 1]);
    SameRoutingSymmetric(h[from - 1], h[s.shown]);
    ShowsAnswers(s.snapshot, h[s.shown], h[from - 1]);
  }
}
