/** The in-memory store: routing tables, deploy records and refresh subscribers. */
module Store {
  import opened Model
  import opened Permutations

  /** Capacity of a subscriber's channel. */
  const CHANNEL_CAPACITY: nat := 64

  /** A refresh channel seen from both ends: the tokens in it, and whether the reader is gone. */
  datatype Channel = Channel(pending: nat, closed: bool)

  /** `try_send`: a full channel keeps what it has and the token is dropped. */
  function Notified(c: Channel): Channel {
    if c.pending < CHANNEL_CAPACITY then c.(pending := c.pending + 1) else c
  }

  /** `retain`: readers that are gone are forgotten, the others are notified. */
  function Broadcast(subscribers: map<nat, Channel>): map<nat, Channel> {
    map id | id in subscribers && !subscribers[id].closed :: Notified(subscribers[id])
  }

  datatype DeployCommit = DeployCommit(
    namespace: Namespace, removedServices: seq<string>, releases: seq<ReleaseRecord>, deploy: DeployRecord)

  function InsertAll(releases: map<ReleaseKey, ReleaseRecord>, recs: seq<ReleaseRecord>)
    : map<ReleaseKey, ReleaseRecord>
  {
    if recs == [] then releases
    else InsertAll(releases, recs[..|recs| - 1])[ReleaseKeyOf(recs[|recs| - 1]) := recs[|recs| - 1]]
  }

  predicate Touches(commit: DeployCommit, k: ReleaseKey) {
    k.0 == commit.namespace &&
    (k.1 in commit.removedServices || exists r :: r in commit.releases && r.service == k.1)
  }

  function Untouched(releases: map<ReleaseKey, ReleaseRecord>, commit: DeployCommit): map<ReleaseKey, ReleaseRecord> {
    map k | k in releases && !Touches(commit, k) :: releases[k]
  }

  function AfterCommit(releases: map<ReleaseKey, ReleaseRecord>, commit: DeployCommit): map<ReleaseKey, ReleaseRecord> {
    InsertAll(Untouched(releases, commit), commit.releases)
  }

  lemma {:induction false} InsertAllAt(
    releases: map<ReleaseKey, ReleaseRecord>, recs: seq<ReleaseRecord>, k: ReleaseKey)
    requires forall i, j :: 0 <= i < j < |recs| ==> ReleaseKeyOf(recs[i]) != ReleaseKeyOf(recs[j])
    ensures k in InsertAll(releases, recs) <==> k in releases || exists r :: r in recs && ReleaseKeyOf(r) == k
    ensures forall r :: r in recs && ReleaseKeyOf(r) == k ==> InsertAll(releases, recs)[k] == r
    ensures k in releases && (forall r :: r in recs ==> ReleaseKeyOf(r) != k) ==>
      InsertAll(releases, recs)[k] == releases[k]
  {
    if recs != [] {
      var n := |recs| - 1;
      InsertAllAt(releases, recs[..n], k);
      assert forall r :: r in recs <==> r in recs[..n] || r == recs[n];
    }
  }

  function ReleasesIn(releases: map<ReleaseKey, ReleaseRecord>, namespace: Namespace): map<ReleaseKey, ReleaseRecord> {
    map k | k in releases && k.0 == namespace :: releases[k]
  }

  function InstancesIn(instances: map<InstanceId, InstanceStatus>, namespace: Namespace)
    : map<InstanceId, InstanceStatus>
  {
    map k | k in instances && instances[k].namespace == namespace :: instances[k]
  }

  /** A list of a namespace's releases holds every record of that namespace and nothing else. */
  lemma ReleasesListed(l: seq<ReleaseRecord>, releases: map<ReleaseKey, ReleaseRecord>, ns: Namespace, r: ReleaseRecord)
    requires KeyedBy(ReleaseKeyOf, releases) && Lists(ReleaseKeyOf, l, ReleasesIn(releases, ns))
    ensures r in l <==> r.namespace == ns && ReleaseKeyOf(r) in releases && releases[ReleaseKeyOf(r)] == r
  {
    if ReleaseKeyOf(r) in releases && releases[ReleaseKeyOf(r)] == r && r.namespace == ns {
      assert ReleasesIn(releases, ns)[ReleaseKeyOf(r)] == r;
    }
  }

  lemma InstancesListed(
    l: seq<InstanceStatus>, instances: map<InstanceId, InstanceStatus>, ns: Namespace, s: InstanceStatus)
    requires KeyedBy(InstanceKeyOf, instances) && Lists(InstanceKeyOf, l, InstancesIn(instances, ns))
    ensures s in l <==> s.namespace == ns && s.instanceId in instances && instances[s.instanceId] == s
  {
    if s.instanceId in instances && instances[s.instanceId] == s && s.namespace == ns {
      assert InstancesIn(instances, ns)[s.instanceId] == s;
    }
    if s in l { assert InstanceKeyOf(s) in InstancesIn(instances, ns); }
  }

  /** Walks a hash map in an order of its own choosing. */
  method Enumerate<K(==), V>(ghost key: V -> K, m: map<K, V>) returns (l: seq<V>)
    requires KeyedBy(key, m)
    ensures Lists(key, l, m)
  {
    l := [];
    var todo := m.Keys;
    while todo != {}
      invariant todo <= m.Keys
      invariant forall i :: 0 <= i < |l| ==> key(l[i]) in m && m[key(l[i])] == l[i] && key(l[i]) !in todo
      invariant forall k :: k in m && k !in todo ==> m[k] in l
      invariant forall i, j :: 0 <= i < j < |l| ==> key(l[i]) != key(l[j])
      decreases todo
    {
      var k :| k in todo;
      todo := todo - {k};
      l := l + [m[k]];
    }
  }

  ghost predicate KeyedReleases(m: map<ReleaseKey, ReleaseRecord>) { KeyedBy(ReleaseKeyOf, m) }

  class MemoryStore {
    var revisions: map<RevisionKey, RevisionRecord>
    var releases: map<ReleaseKey, ReleaseRecord>
    var instances: map<InstanceId, InstanceStatus>
    var deploys: map<DeployId, DeployRecord>
    var subscribers: map<nat, Channel>

    /** Every routing state the store has been in, oldest first. */
    ghost var history: seq<StoreView>

    ghost function View(): StoreView
      reads this
    {
      StoreView(revisions, releases, instances)
    }

    ghost predicate Valid()
      reads this
    {
      Keyed(View()) && history != [] && history[|history| - 1] == View()
    }

    constructor ()
      ensures Valid() && View() == StoreView(map[], map[], map[]) && history == [View()]
      ensures deploys == map[] && subscribers == map[]
    {
      revisions, releases, instances, deploys, subscribers := map[], map[], map[], map[], map[];
      history := [StoreView(map[], map[], map[])];
    }

    /** Ends every routing write: subscribers are told, and the new state joins the history. */
    method BroadcastRoutingRefresh()
      requires Keyed(View())
      modifies this`subscribers, this`history
      ensures Valid() && history == old(history) + [View()] && subscribers == Broadcast(old(subscribers))
      ensures forall id :: id in subscribers <==> id in old(subscribers) && !old(subscribers)[id].closed
      ensures forall id :: id in subscribers ==> subscribers[id].pending > 0
      ensures forall id :: id in subscribers && old(subscribers)[id].pending < 64 ==>
        subscribers[id].pending == old(subscribers)[id].pending + 1
    {
      subscribers := Broadcast(subscribers);
      history := history + [View()];
    }

    /** Registers a new channel, known here by a number that no other channel has. */
    method SubscribeRoutingInvalidations(id: nat)
      requires Valid() && id !in subscribers
      modifies this`subscribers
      ensures Valid() && subscribers == old(subscribers)[id := Channel(0, false)]
    {
      subscribers := subscribers[id := Channel(0, false)];
    }

    method LoadRoutingState() returns (state: RoutingState)
      requires Valid()
      ensures ListsView(state, View())
    {
      var r := Enumerate(RevisionKeyOf, revisions);
      var s := Enumerate(ReleaseKeyOf, releases);
      var i := Enumerate(InstanceKeyOf, instances);
      state := RoutingState(r, s, i);
    }

    method ListServiceReleases(namespace: Namespace) returns (l: seq<ReleaseRecord>)
      requires Valid()
      ensures Lists(ReleaseKeyOf, l, ReleasesIn(releases, namespace))
    {
      var found := map k | k in releases && releases[k].namespace == namespace :: releases[k];
      assert found == ReleasesIn(releases, namespace) by {
        assert forall k :: k in releases ==> ReleaseKeyOf(releases[k]) == k;
      }
      l := Enumerate(ReleaseKeyOf, found);
    }

    method ListInstanceStatus(namespace: Namespace) returns (l: seq<InstanceStatus>)
      requires Valid()
      ensures Lists(InstanceKeyOf, l, InstancesIn(instances, namespace))
    {
      l := Enumerate(InstanceKeyOf, InstancesIn(instances, namespace));
    }

    method UpsertServiceRevision(record: RevisionRecord)
      requires Valid()
      modifies this
      ensures Valid() && View() == old(View()).(revisions := old(revisions)[RevisionKeyOf(record) := record])
      ensures history == old(history) + [View()] && deploys == old(deploys)
      ensures subscribers == Broadcast(old(subscribers))
    {
      revisions := revisions[RevisionKeyOf(record) := record];
      BroadcastRoutingRefresh();
    }

    method UpsertServiceRelease(record: ReleaseRecord)
      requires Valid()
      modifies this
      ensures Valid() && View() == old(View()).(releases := old(releases)[ReleaseKeyOf(record) := record])
      ensures history == old(history) + [View()] && deploys == old(deploys)
      ensures subscribers == Broadcast(old(subscribers))
    {
      releases := releases[ReleaseKeyOf(record) := record];
      BroadcastRoutingRefresh();
    }

    method DeleteServiceRelease(namespace: Namespace, service: string)
      requires Valid()
      modifies this
      ensures Valid() && View() == old(View()).(releases := old(releases) - {(namespace, service)})
      ensures history == old(history) + [View()] && deploys == old(deploys)
      ensures subscribers == Broadcast(old(subscribers))
    {
      releases := releases - {(namespace, service)};
      BroadcastRoutingRefresh();
    }

    method UpsertInstanceStatus(record: InstanceStatus)
      requires Valid()
      modifies this
      ensures Valid() && View() == old(View()).(instances := old(instances)[record.instanceId := record])
      ensures history == old(history) + [View()] && deploys == old(deploys)
      ensures subscribers == Broadcast(old(subscribers))
    {
      instances := instances[record.instanceId := record];
      BroadcastRoutingRefresh();
    }

    method DeleteInstanceStatus(id: InstanceId)
      requires Valid()
      modifies this
      ensures Valid() && View() == old(View()).(instances := old(instances) - {id})
      ensures history == old(history) + [View()] && deploys == old(deploys)
      ensures subscribers == Broadcast(old(subscribers))
    {
      instances := instances - {id};
      BroadcastRoutingRefresh();
    }

    /** Deploy records are not routing state: nobody is notified. */
    method UpsertDeploy(record: DeployRecord)
      requires Valid()
      modifies this`deploys
      ensures Valid() && deploys == old(deploys)[record.deployId := record]
    {
      deploys := deploys[record.deployId := record];
    }

    /** Replaces the touched releases of a namespace in one step that readers see whole. */
    method ApplyDeployCommit(commit: DeployCommit)
      requires Valid()
      modifies this
      ensures Valid() && View() == old(View()).(releases := AfterCommit(old(releases), commit))
      ensures history == old(history) + [View()]
      ensures deploys == old(deploys)[commit.deploy.deployId := commit.deploy]
      ensures subscribers == Broadcast(old(subscribers))
    {
      releases := Untouched(releases, commit);
      for i := 0 to |commit.releases|
        invariant releases == InsertAll(Untouched(old(releases), commit), commit.releases[..i])
        invariant KeyedReleases(releases)
        invariant revisions == old(revisions) && instances == old(instances)
        invariant history == old(history) && deploys == old(deploys) && subscribers == old(subscribers)
      {
        assert commit.releases[..i + 1][..i] == commit.releases[..i];
        releases := releases[ReleaseKeyOf(commit.releases[i]) := commit.releases[i]];
      }
      assert commit.releases[..|commit.releases|] == commit.releases;
      deploys := deploys[commit.deploy.deployId := commit.deploy];
      BroadcastRoutingRefresh();
    }
  }
}
