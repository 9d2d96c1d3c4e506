/** Store writes that no request and no port can notice. */
module QuietWrites {
  import opened Model
  import opened Routes
  import opened RoutingTheorems

  /** Each release's routing revision is stored. */
  ghost predicate Integrity(v: StoreView) {
    forall k :: k in v.releases ==> RoutingRevisionKey(v.releases[k]) in v.revisions
  }

  ghost predicate Referenced(v: StoreView, id: InstanceId) {
    exists k, slot :: k in v.releases && slot in v.releases[k].release.slots && slot.activeInstanceId == id
  }

  /** With referential integrity a reader is never told that a revision is missing. */
  lemma IntegrityNeverMissing(v: StoreView, state: RoutingState, error: ProjectionError)
    requires Keyed(v) && Integrity(v) && ListsView(state, v) && Explains(state, error)
    ensures !error.MissingRevision?
  {
    CollectLists(RevisionKeyOf, state.revisions, v.revisions);
  }

  /** Storing a revision again under its own hash. */
  lemma RevisionWriteIsQuiet(v: StoreView, record: RevisionRecord)
    requires Keyed(v) && Integrity(v)
    requires RevisionKeyOf(record) in v.revisions ==> v.revisions[RevisionKeyOf(record)].specJson == record.specJson
    ensures SameRouting(v, v.(revisions := v.revisions[RevisionKeyOf(record) := record]))
  {
    var w := v.(revisions := v.revisions[RevisionKeyOf(record) := record]);
    forall k | k in v.releases ensures SameRevision(v.releases[k], v.revisions, w.revisions) {
      var key := RoutingRevisionKey(v.releases[k]);
      assert RevisionKeyOf(v.revisions[key]) == key;
    }
  }

  /** Publishing a candidate that no release names yet. */
  lemma CandidateWriteIsQuiet(v: StoreView, status: InstanceStatus)
    requires !Referenced(v, status.instanceId)
    ensures SameRouting(v, v.(instances := v.instances[status.instanceId := status]))
  {
  }

  /** Adopting a running container: its record carries no ports, so it serves none. */
  lemma AdoptionIsQuiet(v: StoreView, status: InstanceStatus)
    requires status.backendPorts == map[]
    requires status.instanceId in v.instances ==> v.instances[status.instanceId].backendPorts == map[]
    ensures SameRouting(v, v.(instances := v.instances[status.instanceId := status]))
  {
    var w := v.(instances := v.instances[status.instanceId := status]);
    forall k, slot, port | k in v.releases && slot in v.releases[k].release.slots
      ensures SlotBackend(v.releases[k], slot, v.instances, port) == SlotBackend(v.releases[k], slot, w.instances, port)
    {
    }
  }

  /** No release of `ns` routes to `id`. */
  ghost predicate Retired(v: StoreView, ns: Namespace, id: InstanceId) {
    forall k, slot :: k in v.releases && k.0 == ns && slot in v.releases[k].release.slots ==>
      slot.activeInstanceId != id
  }

  /** Draining or deleting an instance that its namespace has retired. */
  lemma CleanupIsQuiet(v: StoreView, ns: Namespace, id: InstanceId, next: Option<InstanceStatus>)
    requires Keyed(v) && id in v.instances && v.instances[id].namespace == ns && Retired(v, ns, id)
    requires next.Some? ==> next.value.namespace == ns
    ensures SameRouting(v, v.(instances := if next.Some? then v.instances[id := next.value] else v.instances - {id}))
  {
    var w := v.(instances := if next.Some? then v.instances[id := next.value] else v.instances - {id});
    forall k, slot, port | k in v.releases && slot in v.releases[k].release.slots
      ensures SlotBackend(v.releases[k], slot, v.instances, port) == SlotBackend(v.releases[k], slot, w.instances, port)
    {
      assert ReleaseKeyOf(v.releases[k]) == k;
    }
  }
}
