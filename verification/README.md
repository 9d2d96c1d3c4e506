# Verification of ployz

A Dafny model of the parts of ployz that decide what runs where and who reaches it, with proofs
about whole runs. `dafny verify dfyconfig.toml` checks everything.

- **Deploys** (`Model`, `Placement`, `Planner`, `Previews`, `Store`, `Rollout*`, `DeployRuns`, `Redeploy`, `Serving`).
  `apply` runs as a class over the in-memory store. Every call to the store, to a session or to an agent may fail
  before or after taking effect. The store keeps a ghost history of its routing states, so that
  statements can speak of every intermediate state.
- **Routing** (`Routes`, `RoutingTheorems`, `RouteConflicts`, `Answers`, `QuietWrites`, `GatewaySync`). The gateway's
  projection and matching, which sets of services it accepts, and its refresh loop as a state machine
  that interleaves with any writers.
- **Subscriptions** (`LineCodec`, `Subscription`, `RowCaches`). The line decoder, the reconnecting
  change stream, and the caches and event feeds drawn from it.
- **Peers and mesh** (`Peers`, `PeerMap`, `PeerTheorems`, `Mesh`). Endpoint rotation and ranking, the planned peer
  list, and the lifecycle of the mesh under failing components.
- **Addresses and files** (`Ipam`, `RouteLookup`, `Install`). The allocators, the packet
  classifier's lookup and its route table, and the install manifest.
- `Strings`, `Sorting`, `Permutations` and `Arithmetic` hold shared definitions and facts.

The main results, each for all inputs or all runs:

1. Routing moves only at a deploy's commit (`RoutingMovesOnlyAtCommit`, `DeployRuns.Deploy`), and a
   gateway running beside it shows the old routing, then the new one, and nothing in between (`AtomicCutover`,
   `CutoverHappensOnce`). It ends up showing the new one exactly when the routes of the manifest clash
   neither with each other nor with those of other namespaces (`CutoverCompletes`).
2. No refresh is lost, with one exact exception around subscription (`RunKeepsInv`, `RestIsUpToDate`).
3. A deploy that nothing hinders succeeds (`Apply`, `FirstDeploy`), starts what its preview announces
   (`PreviewTellsStarts`), and repeated starts nothing and plans no change (`DeployTwice`,
   `RedeployPreviewIsUnchanged`).
4. Nothing is drained or removed before the commit, and no committed instance ever is
   (`Apply`, `CleanupComesAfterCommit`, `ActiveInstancesUntouched`); what is committed is routed to, at
   the right address and port (`NewSlotsAreRouted`), and new slots are on machines that may have them
   (`NewSlotsWellPlaced`).
5. Every request gets its unique best match, independent of listing order (`AnswerExact`,
   `AnswersIgnoreListing`), from tables that hold exactly the healthy backends of what is released
   (`HttpTableExact`, `BackendListed`).
6. What a preview says is told by the manifest and the releases alone (`SlotPlanExact`, `ServicePlanExact`,
   `ParticipantsExact`, `RefusedExactly`).
7. The decoder, the change stream and the caches refine their simple readings (`DecodeStream`,
   `StreamExact`, `Drive`, `InStepThroughout`, `MachineFeed`, `RunFeed`).
8. Peers, mesh, allocators, route table and manifest keep their invariants over every run
   (`RotationsVisitAll`, `RankingChoosesFastest`, `PlanAfter`, `StartExact`, `Lifecycle`, `AllocateMany`,
   `PoolHistory`, `Follow`, `StoreLoadExact`).

Hypotheses about the deployment, where a theorem needs them: new instance ids are fresh and equal
revision hashes mean equal specs (`Clean`, `Unspent`), releases start out with stored revisions (`Clean`,
`Integrity`), a container that a session comes across under the run's namespace has no record under
another one (`Clean`, `OwnIds`), and nobody else writes the store during a run.

Where comments or expectations and code part, the model follows the code and states when they agree:

- `decode_eof` drops the last byte of an unterminated line: `LastLineExact`, `LastByteIsLost`.
- A start that fails only in its background tasks is torn down but stays Running: `CrippledExactly`,
  `SpawnCanFail`.
- A global service can be called Unchanged while a departed machine's slot goes: `GlobalKeepsSlotsExact`,
  `GlobalSlotDropped`.
- The route of a machine that changes its subnet is not withdrawn: `EventKeepsStep`.
- A row whose key changes leaves its old record in the cache: `ChangeKeepsStep`.
- The gateway loads its first snapshot before it subscribes, so a change in between waits for the
  next one: `RestIsUpToDate`, `ChangeBeforeSubscribing`.
- A valid manifest can commit routes that the gateway refuses, and then nothing it commits is shown:
  `CutoverCompletes`, `ValidManifestCanClash`.
- A load that fails is not tried again until the next change: `FailedLoadIsForgotten`.
- A change whose row does not decode is accepted but not delivered: `HeardIsDelivered`.

## Model

| member | source | states |
|---|---|---|
| `Store.MemoryStore.constructor` | crates/ployz-store-api/src/memory.rs:42-56 | a new store is empty and its history holds the empty state |
| `Store.MemoryStore.BroadcastRoutingRefresh` | crates/ployz-store-api/src/memory.rs:81-89 | exactly the subscribers that have not closed are kept, each gets one more token up to 64 and has at least one afterwards, and the new state joins the history |
| `Store.MemoryStore.SubscribeRoutingInvalidations` | crates/ployz-store-api/src/memory.rs:147-152 | a new channel starts empty and leaves the others alone |
| `Store.MemoryStore.LoadRoutingState` | crates/ployz-store-api/src/memory.rs:138-145 | the lists name every record of the three tables once, in some order |
| `Store.MemoryStore.ListServiceReleases` | crates/ployz-store-api/src/memory.rs:205-216 | the list names the releases of the namespace and no others |
| `Store.MemoryStore.ListInstanceStatus` | crates/ployz-store-api/src/memory.rs:218-229 | the list names the instances of the namespace and no others |
| `Store.MemoryStore.UpsertServiceRevision` | crates/ployz-store-api/src/memory.rs:239-249 | one revision is replaced under its own key, the rest stays, one notification |
| `Store.MemoryStore.UpsertServiceRelease` | crates/ployz-store-api/src/memory.rs:251-257 | one release is replaced under its own key, the rest stays, one notification |
| `Store.MemoryStore.DeleteServiceRelease` | crates/ployz-store-api/src/memory.rs:259-266 | one release goes, the rest stays, one notification |
| `Store.MemoryStore.UpsertInstanceStatus` | crates/ployz-store-api/src/memory.rs:268-275 | one status is replaced under its own id, the rest stays, one notification |
| `Store.MemoryStore.DeleteInstanceStatus` | crates/ployz-store-api/src/memory.rs:277-282 | one status goes, the rest stays, one notification |
| `Store.MemoryStore.UpsertDeploy` | crates/ployz-store-api/src/memory.rs:284-290 | deploy records are stored without touching routing state or subscribers |
| `Store.MemoryStore.ApplyDeployCommit` | crates/ployz-store-api/src/memory.rs:295-324 | all touched releases change in one step of the history, with one notification |
| `Store.InsertAllAt` | crates/ployz-store-api/src/memory.rs:311-316 | after inserting records with distinct keys, each key holds its record and the others what they held |
| `Store.ReleasesListed` | crates/ployz-store-api/src/memory.rs:205-216 | a record is in the list exactly when it is stored and of that namespace |
| `Store.InstancesListed` | crates/ployz-store-api/src/memory.rs:218-229 | the same for instance statuses |
| `Routes.PushInstance` | crates/ployz-gateway/src/routes.rs:270-283 | exactly the exposed service ports of a routable instance get its backend |
| `Routes.RoutableBackendsByPort` | crates/ployz-gateway/src/routes.rs:246-295 | each port lists the backends of the release's slots whose instances are routable, sorted by machine, instance and address |
| `Routes.ClaimAll` | crates/ployz-gateway/src/routes.rs:345-361 | a route's claims are recorded, or a claim taken before is reported with both owners |
| `Routes.ValidateHttpConflicts` | crates/ployz-gateway/src/routes.rs:340-363 | accepted exactly when no two routes claim the same host and prefix; an error names such a pair |
| `Routes.ValidateTcpConflicts` | crates/ployz-gateway/src/routes.rs:365-378 | accepted exactly when no two routes share a listen port; an error names such a pair |
| `Routes.ProjectRelease` | crates/ployz-gateway/src/routes.rs:173-220 | the HTTP and TCP views of one release |
| `Routes.CollectRoutes` | crates/ployz-gateway/src/routes.rs:150-221 | the views of all releases in order, or the first release whose revision is missing or malformed |
| `Routes.Project` | crates/ployz-gateway/src/routes.rs:128-244 | the sorted conflict-free tables, or an error that the state explains |
| `RoutingTheorems.RouteLeTotalPreorder` | crates/ployz-gateway/src/routes.rs:223-233 | the route order is total and transitive |
| `RoutingTheorems.BestMatchUnique` | crates/ployz-gateway/src/routes.rs:113-126 | at most one route is the best match of a request |
| `RoutingTheorems.TiedMatchesClash` | crates/ployz-gateway/src/routes.rs:340-363 | two matching routes of one kind and one prefix always conflict |
| `RoutingTheorems.SortedMatchIsBest` | crates/ployz-gateway/src/routes.rs:113-126 | in a sorted conflict-free table the first match is the best of the routes meant for the request |
| `RoutingTheorems.MatchIsUniqueBest` | crates/ployz-gateway/src/routes.rs:113-126 | every accepted projection answers every request with the one route meant for its host and path that beats all others: host-specific before wildcard, then the longest prefix |
| `RoutingTheorems.SameBagSameAnswers` | crates/ployz-gateway/src/routes.rs:128-244 | answers depend on the bag of projected routes alone |
| `RoutingTheorems.SameRoutingSameAnswers` | crates/ployz-gateway/src/routes.rs:128-314 | stores whose releases have the same revisions and backends answer alike, however listed |
| `RoutingTheorems.AnswersIgnoreListing` | crates/ployz-store-api/src/memory.rs:138-145 | the order in which the store lists its records never shows |
| `RouteConflicts.AcrossApart` | crates/ployz-gateway/src/routes.rs:340-378 | two releases have conflicting routes exactly when their specs claim a common host and prefix or port, whatever their instances |
| `RouteConflicts.OwnViewsApart` | crates/ployz-gateway/src/routes.rs:340-378 | the same for the routes of one release among themselves |
| `RouteConflicts.ProjectsExactly` | crates/ployz-gateway/src/routes.rs:128-244 | a state is accepted, however listed, exactly when every release has a spec and no claim is made twice |
| `Answers.AnswerExact` | crates/ployz-gateway/src/routes.rs:113-126 | a request is answered exactly when some route of the table names its host or none and has a prefix of its path; the answer is such a route, and beats every other by naming the host or by the longer prefix |
| `Answers.HttpTableExact` | crates/ployz-gateway/src/routes.rs:150-220 | the HTTP table holds exactly the HTTP routes of the releases, by the spec their traffic goes to: names, normalized hosts and prefix, and backends |
| `Answers.TcpTableExact` | crates/ployz-gateway/src/routes.rs:150-220 | the TCP table holds exactly their TCP routes |
| `Answers.BackendListed` | crates/ployz-gateway/src/routes.rs:246-314 | a backend is listed for a port exactly when the spec has the port and a slot names an instance recorded for this namespace, service, slot, machine and revision, at a revision that may serve, ready, in phase Ready, not draining, without error, with that address and port |
| `Answers.BackendsOrdered` | crates/ployz-gateway/src/routes.rs:286-294 | backends are listed by machine, instance and address |
| `Answers.AllowedExact` | crates/ployz-gateway/src/routes.rs:323-338 | a revision may serve exactly when traffic goes to it, or is split to it, or is split to none and the release refers to it |
| `Answers.HttpTableOrdered` | crates/ployz-gateway/src/routes.rs:223-233 | named hosts first, then longer prefixes in bytes, then namespace, service and route id |
| `Answers.TcpTableOrdered` | crates/ployz-gateway/src/routes.rs:234-239 | TCP routes have increasing ports |
| `Answers.HostWithPort` | crates/ployz-gateway/src/routes.rs:93-111 | a port of digits after the last colon is dropped, anything else is kept, and the rest is in lower case |
| `Answers.HostWithoutPort` | crates/ployz-gateway/src/routes.rs:93-111 | a host without a colon is put in lower case |
| `Answers.HostInBrackets` | crates/ployz-gateway/src/routes.rs:98-104 | of a bracketed address only what the brackets hold counts |
| `Answers.HostHasText` | crates/ployz-gateway/src/routes.rs:94 | every host is such a text, up to white space around it and dots at its end |
| `Answers.PortAndCaseAreIgnored` | crates/ployz-gateway/src/routes.rs:93-111 | Example.com:8080 is example.com |
| `Answers.PathPrefixExact` | crates/ployz-gateway/src/routes.rs:390-400 | a prefix starts with a slash and is otherwise as written, up to white space around it |
| `Strings.AsciiWhitespace` | crates/ployz-gateway/src/routes.rs:94 | which ASCII characters are trimmed |
| `QuietWrites.IntegrityNeverMissing` | crates/ployz-gateway/src/routes.rs:151-164 | if every release's routing revision is stored, no reader is told that one is missing |
| `QuietWrites.RevisionWriteIsQuiet` | crates/ployz-orchestrator/src/deploy/mod.rs:253-262 | storing a revision, where equal hashes mean equal specs, changes no answer |
| `QuietWrites.CandidateWriteIsQuiet` | crates/ployz-orchestrator/src/deploy/mod.rs:305-313 | publishing an instance that no release names changes no answer |
| `QuietWrites.AdoptionIsQuiet` | crates/ployzd/src/daemon/deploy_control/remote.rs:23-47 | adopting a running container changes no answer, because the record it writes has no ports |
| `QuietWrites.CleanupIsQuiet` | crates/ployz-orchestrator/src/deploy/mod.rs:382-406 | draining or deleting an instance that its namespace has retired changes no answer |
| `Placement.DeployableMachinesExact` | crates/ployz-orchestrator/src/deploy/mod.rs:439-455 | the candidates are exactly the enabled machines not known to be down with a heartbeat in the last 30 seconds, or the local machine when there are none |
| `Placement.CandidatesSorted` | crates/ployz-orchestrator/src/deploy/mod.rs:450-454 | the candidates are in the order of their ids |
| `Placement.DeployableMachinesPermute` | crates/ployz-orchestrator/src/deploy/mod.rs:439-455 | the candidate list does not depend on the order of the machine list |
| `Placement.SlotIdsDistinct` | crates/ployz-orchestrator/src/deploy/mod.rs:484 | zero-padded slot ids are distinct for distinct numbers |
| `Placement.ComputeDesiredSlots` | crates/ployz-orchestrator/src/deploy/mod.rs:457-518 | the loops compute the wanted slots; zero replicas is the only error |
| `Placement.ReplicatedPlacement` | crates/ployz-orchestrator/src/deploy/mod.rs:476-507 | a service of n replicas wants n slots, and a slot that exists keeps its machine |
| `Placement.DesiredSlotIdsDistinct` | crates/ployz-orchestrator/src/deploy/mod.rs:474-517 | the slot ids of one service are distinct whenever the candidates are |
| `Placement.RoundRobinLoad` | crates/ployz-orchestrator/src/deploy/mod.rs:493 | the load of a machine after n round-robin placements |
| `Placement.FirstPlacementIsBalanced` | crates/ployz-orchestrator/src/deploy/mod.rs:483-506 | on a first deploy the loads of two machines differ by at most one |
| `Planner.PlanDesired` | crates/ployz-orchestrator/src/deploy/mod.rs:75-100 | one plan per wanted slot, and the machines they involve |
| `Planner.PlanOne` | crates/ployz-orchestrator/src/deploy/mod.rs:60-127 | the plan of one service and the machines of its wanted and existing slots |
| `Planner.PlanServices` | crates/ployz-orchestrator/src/deploy/mod.rs:59-127 | the plans of all services of the manifest, in order |
| `Planner.PlanRemovals` | crates/ployz-orchestrator/src/deploy/mod.rs:129-156 | each deployed service that the manifest drops is planned for removal once |
| `Planner.Plan` | crates/ployz-orchestrator/src/deploy/mod.rs:24-165 | a preview is the wanted plans, then the removals, with every machine involved; it fails only on an invalid manifest |
| `Planner.ServiceMachinesParticipate` | crates/ployz-orchestrator/src/deploy/mod.rs:54-57 | every machine named by a wanted or existing slot takes part |
| `Previews.SlotPlanExact` | crates/ployz-orchestrator/src/deploy/mod.rs:75-100 | a slot plan is Create exactly when no current slot has its id, Unchanged exactly when the current one is on that machine at the wanted hash, Replace otherwise, and tells the current instance and hash |
| `Previews.PlannedSlotCount` | crates/ployz-orchestrator/src/deploy/mod.rs:457-518 | one slot per candidate for a global service, as many as it asks for otherwise |
| `Previews.PlannedSlotExact` | crates/ployz-orchestrator/src/deploy/mod.rs:474-517 | a planned slot is on its candidate, or where the slot is now, or on the next candidate in turn |
| `Previews.SlotNames` | crates/ployz-orchestrator/src/deploy/mod.rs:484 | slots are named slot-0001 and so on |
| `Previews.ServicePlanExact` | crates/ployz-orchestrator/src/deploy/mod.rs:106-127 | a service plan is Create exactly when there is no release, Unchanged exactly when the release is at the wanted hash and all slots stay, Replace otherwise |
| `Previews.RemovalPlanExact` | crates/ployz-orchestrator/src/deploy/mod.rs:129-156 | every further plan is the removal of one deployed service outside the manifest, with all its slots |
| `Previews.RemovalsComplete` | crates/ployz-orchestrator/src/deploy/mod.rs:129-133 | every such service has one |
| `Previews.ParticipantsExact` | crates/ployz-orchestrator/src/deploy/mod.rs:54-135 | the participants are exactly the candidates, the machines planned for a slot and those that have one now |
| `Previews.RefusedExactly` | crates/ployz-types/src/spec.rs:45-158 | a manifest gets no preview exactly when its namespace is blank, it has no services or two of one name, or a service has a blank name, no replicas, a blank or doubled port, or a route to a port it does not have |
| `Rollout.Run.Adopt` | crates/ployzd/src/daemon/deploy_control/remote.rs:23-47 | an adopted container is recorded as found, ready and with no ports; no other record changes |
| `Rollout.Run.OpenSession` | crates/ployzd/src/daemon/deploy_control/remote.rs:140-157 | opening locks the machine if it succeeds, which the machine decides; every container it comes across is then on record, those with a record in the namespace as before, the others as found; no other record changes |
| `Rollout.Run.StartCandidate` | crates/ployzd/src/daemon/deploy_control/remote.rs:169-222 | a started candidate is published under the next unused id, ready for exactly its slot, before the reply; no other record changes; it fails only if a call does |
| `Rollout.Run.PublishStatus` | crates/ployz-orchestrator/src/deploy/mod.rs:313 | the status of a chosen id is written, as a write allowed before the commit |
| `Rollout.Run.StartSlot` | crates/ployz-orchestrator/src/deploy/mod.rs:288-315 | on success the candidate is running for its slot; no record but that of the id it takes is written; it fails only without a session or if a call does |
| `Rollout.Run.StartOrKeep` | crates/ployz-orchestrator/src/deploy/mod.rs:272-322 | a slot on the right machine and revision keeps its instance, any other is started |
| `Rollout.Run.StartSlots` | crates/ployz-orchestrator/src/deploy/mod.rs:270-323 | the new slots realize the wanted ones, kept slots keep their instance, exactly the slots not kept are started, and their candidates run |
| `Rollout.Run.StartService` | crates/ployz-orchestrator/src/deploy/mod.rs:246-340 | the revision is stored before the slots are started, and the release names it |
| `Rollout.Run.StartServices` | crates/ployz-orchestrator/src/deploy/mod.rs:246-340 | the releases cover the manifest in order, all revisions are stored, and every slot not kept has a running candidate |
| `Rollout.Run.ReadCurrent` | crates/ployz-orchestrator/src/deploy/mod.rs:239-240 | the slots read are those of the namespace's releases |
| `Rollout.Run.Preview` | crates/ployz-orchestrator/src/deploy/mod.rs:24-165 | a preview of the current store that writes nothing |
| `Rollout.Run.PreviewRun` | crates/ployz-orchestrator/src/deploy/mod.rs:216-222 | the second preview: its removals and participants; it fails only on an invalid manifest or a failing call |
| `Rollout.Run.PreviewLocks` | crates/ployz-orchestrator/src/deploy/mod.rs:179 | the first preview returns exactly the machines that the manifest, the releases and the candidates involve, and fails only on an invalid manifest or a failing call |
| `Rollout.Run.CollectRemoved` | crates/ployz-orchestrator/src/deploy/mod.rs:342-349 | a name is collected exactly when some plan of the preview removes that service |
| `Rollout.Run.Commit` | crates/ployz-orchestrator/src/deploy/mod.rs:358-365 | the commit takes effect whole or not at all, and the run goes on only when told that it did |
| `Rollout.Run.DrainInstance` | crates/ployzd/src/daemon/deploy_control/remote.rs:224-244 | the local record of a retired instance is marked Draining, not ready and drain Requested, unless it is Draining already or the call has no effect; no other record changes |
| `Rollout.Run.Uninstall` | crates/ployzd/src/daemon/deploy_control/remote.rs:246-265 | the local record of a drained instance is deleted, unless the call has no effect; no other record changes |
| `Rollout.Run.Retire` | crates/ployz-orchestrator/src/deploy/mod.rs:383-405 | one listed instance: spared if active or elsewhere, otherwise drained and then removed |
| `Rollout.Run.Cleanup` | crates/ployz-orchestrator/src/deploy/mod.rs:382-406 | only instances that no committed slot names are drained and then removed; one failure does not stop the rest, so all that is left on the run's machines could not be drained or removed |
| `Rollout.Run.LockParticipants` | crates/ployz-orchestrator/src/deploy/mod.rs:179-213 | the machines locked are exactly the participants of the first preview, with only writes allowed before the commit; it fails only if something hinders the run; an invalid manifest writes nothing |
| `Rollout.Run.RecordDeploy` | crates/ployz-orchestrator/src/deploy/mod.rs:224-237 | the deploy record gets the state if the call succeeds, and routing state does not change |
| `Rollout.Run.StartRollout` | crates/ployz-orchestrator/src/deploy/mod.rs:216-340 | everything up to the commit: exactly the starts of the plan, over exactly the participants locked before; unhindered, it gets there |
| `Rollout.Run.FinishRollout` | crates/ployz-orchestrator/src/deploy/mod.rs:371-428 | after the commit only cleanup of retired instances; Committed means none is left, CleanupPending that what is left could not be removed, and is on record |
| `Rollout.Run.CommitRollout` | crates/ployz-orchestrator/src/deploy/mod.rs:342-428 | either nothing was committed and nothing was cleaned up, or the commit is one step of the history and cleanup follows it; it fails only if a call does |
| `Rollout.Run.Apply` | crates/ployz-orchestrator/src/deploy/mod.rs:167-437 | for every fault pattern: an uncommitted run leaves the releases alone; a committed one stores releases that realize the plan in one step, with every participant locked and actions in the order lock, start, commit, cleanup; new slots have running candidates at the commit; the reported state is on record, Committed means that nothing retired is left, CleanupPending that what is left could not be removed; an invalid manifest changes nothing; with an unchanged clock and machine list a session is always found; and a run succeeds, Committed if cleanup does too, whenever the manifest is valid, every call succeeds, every participant is known and opens, and the participants stay the same |
| `RolloutTheorems.PreStepIsQuiet` | crates/ployz-orchestrator/src/deploy/mod.rs:237-340 | no write before the commit changes an answer |
| `RolloutTheorems.PreStepsAreQuiet` | crates/ployz-orchestrator/src/deploy/mod.rs:237-340 | nor does any sequence of them, and ids and revisions stay free of collisions |
| `RolloutTheorems.CommittedAt` | crates/ployz-store-api/src/memory.rs:295-324 | after the commit the namespace holds exactly the new releases and other namespaces are as before |
| `RolloutTheorems.CleanupStepIsQuiet` | crates/ployz-orchestrator/src/deploy/mod.rs:382-406 | no cleanup write changes an answer |
| `RolloutTheorems.CleanupStepsAreQuiet` | crates/ployz-orchestrator/src/deploy/mod.rs:382-406 | nor does any sequence of them; releases and active instances are as at the commit |
| `RolloutTheorems.RoutingMovesOnlyAtCommit` | crates/ployz-orchestrator/src/deploy/mod.rs:215-429 | at every store state of a committed run routing is that of the start or that of the commit, and switches at the commit |
| `RolloutTheorems.AnswersMoveOnlyAtCommit` | crates/ployz-orchestrator/src/deploy/mod.rs:215-429 | the same for what clients observe, for any listing of the states |
| `RolloutTheorems.UncommittedRunIsInvisible` | crates/ployz-orchestrator/src/deploy/mod.rs:215-365 | a run that never commits changes no answer at any of its states |
| `RolloutTheorems.CommitKeepsIntegrity` | crates/ployz-store-api/src/memory.rs:295-324 | the commit leaves every release with a stored routing revision |
| `RolloutTheorems.IntegrityThroughout` | crates/ployz-orchestrator/src/deploy/mod.rs:246-406 | every store state of a committed run has a stored revision for every release |
| `RolloutTheorems.IntegrityOfUncommitted` | crates/ployz-orchestrator/src/deploy/mod.rs:246-340 | so does every state of a run that does not commit |
| `RolloutTheorems.NoMissingRevision` | crates/ployz-gateway/src/routes.rs:151-164 | no reader of any state of a run is told that a revision is missing |
| `RolloutTheorems.CleanupComesAfterCommit` | crates/ployz-orchestrator/src/deploy/mod.rs:358-406 | every drain and removal comes after the acknowledged commit and spares every committed instance |
| `RolloutTheorems.ActiveInstancesUntouched` | crates/ployz-orchestrator/src/deploy/mod.rs:371-406 | the status of a committed active instance is the same at every later state of the run |
| `RolloutTheorems.StartsAreCreateOrReplace` | crates/ployz-orchestrator/src/deploy/mod.rs:271-323 | for one service, the candidates started are those of exactly the slots its plan marks Create or Replace, in order |
| `RolloutTheorems.PreviewTellsStarts` | crates/ployz-orchestrator/src/deploy/mod.rs:246-323 | a run that commits has started exactly what a preview of its machines and releases marks Create or Replace, in order; removals start nothing |
| `RolloutTheorems.RunningServes` | crates/ployz-gateway/src/routes.rs:260-284 | a running candidate with an address contributes exactly one backend for every port of its service, with that address and the port number of the spec |
| `RolloutTheorems.NewSlotsServe` | crates/ployz-gateway/src/routes.rs:246-314 | from the commit on every newly filled slot contributes that backend, at the address its instance got |
| `RolloutTheorems.PortMapHas` | crates/ployz-runtime-backends/src/deploy/local.rs:280-285 | a candidate is published with each port under its name and number |
| `RolloutTheorems.NewSlotsWellPlaced` | crates/ployz-orchestrator/src/deploy/mod.rs:439-518 | a committed run has put every new slot, and every slot of a global service, on an enabled machine with a heartbeat in the last 30 seconds, or on its own if there was none |
| `RolloutTheorems.CommittedReleaseExact` | crates/ployz-orchestrator/src/deploy/mod.rs:325-340 | the release committed for a service sends all traffic to the revision stored for it, names no other, carries the deploy's id and has every slot at that revision |
| `RolloutTheorems.DrainedBeforeRemoved` | crates/ployz-orchestrator/src/deploy/mod.rs:393-405 | a retired instance is marked as draining before it is deleted, and nothing else happens to it |
| `RolloutTrace.AdoptedExact` | crates/ployz-runtime-backends/src/deploy/local.rs:33-62 | the record of an adopted container |
| `Serving.NewSlotsAreRouted` | crates/ployz-gateway/src/routes.rs:128-314 | whenever the gateway takes in a state from the commit on, every route of a deployed service leads to every newly filled slot, at its address and port |
| `DeployRuns.Deploy` | crates/ployz-orchestrator/src/deploy/mod.rs:167-437 | every run on a clean store: it commits at one step of the history or leaves the releases alone, each state up to the commit routes as the state found, each from it on as the committed one, every release always has its revision, and an unhindered run succeeds |
| `DeployRuns.CommittedRunRoutes` | crates/ployz-orchestrator/src/deploy/mod.rs:215-429 | the same for the history of a committed run |
| `DeployRuns.UncommittedRunRoutes` | crates/ployz-orchestrator/src/deploy/mod.rs:215-365 | and for that of a run without commit |
| `DeployRuns.EmptyStoreIsClean` | crates/ployz-store-api/src/memory.rs:42-56 | an empty store meets the hypotheses of these theorems |
| `DeployRuns.SteadyMachinesAreSmooth` | crates/ployz-orchestrator/src/deploy/mod.rs:179-222 | if the three readings of the machines agree and every participant opens, nothing but a failing call hinders a run |
| `DeployRuns.CalmRunIsSmooth` | crates/ployz-orchestrator/src/deploy/mod.rs:439-455 | so the first deploy of any valid manifest from one machine is unhindered |
| `DeployRuns.FirstDeploy` | crates/ployz-orchestrator/src/deploy/mod.rs:167-437 | it does commit, on a clean store, so the hypotheses of the theorems about committed runs can be met |
| `Redeploy.CommitSettles` | crates/ployz-orchestrator/src/deploy/mod.rs:246-365 | from the commit on the namespace holds what the plan wanted, and nothing else |
| `Redeploy.ReplicatedKeeps` | crates/ployz-orchestrator/src/deploy/mod.rs:476-507 | a deployed replicated service wants back the slots it has, on any set of machines |
| `Redeploy.GlobalRedeployExact` | crates/ployz-orchestrator/src/deploy/mod.rs:508-515 | a redeployed global service is unchanged exactly when every candidate had a slot before |
| `Redeploy.GlobalKeepsSlotsExact` | crates/ployz-orchestrator/src/deploy/mod.rs:106-112 | it keeps all its slots exactly when no machine of the earlier run has left, so Unchanged alone does not say so |
| `Redeploy.GlobalSlotDropped` | crates/ployz-orchestrator/src/deploy/mod.rs:106-112 | a concrete case: machine b has left, every wanted slot is kept, and the slot on b is no longer wanted |
| `Redeploy.SettledPreviewIsUnchanged` | crates/ployz-orchestrator/src/deploy/mod.rs:59-156 | over a settled namespace a preview plans no change and no removal |
| `Redeploy.SettledStartsNothing` | crates/ployz-orchestrator/src/deploy/mod.rs:271-315 | over a settled namespace no slot is started |
| `Redeploy.RedeployPreviewIsUnchanged` | crates/ployz-orchestrator/src/deploy/mod.rs:59-156 | after a committed run a preview of the same manifest plans no change and no removal |
| `Redeploy.RedeployStartsNothing` | crates/ployz-orchestrator/src/deploy/mod.rs:246-348 | and another run of it starts no candidate, for replicated services on any set of machines |
| `Redeploy.DeployTwice` | crates/ployz-orchestrator/src/deploy/mod.rs:167-437 | two runs of the same manifest over one store: the first is on record in the history; once it has committed the second makes no start call, however it ends; each succeeds if unhindered |
| `GatewaySync.StepKeepsPositions` | crates/ployz-gateway/src/sync.rs:38-55 | no lost refresh: between loads, a state not yet looked at has left a token, even if the channel was full; the snapshot never goes back |
| `GatewaySync.StepKeepsFaithful` | crates/ployz-gateway/src/sync.rs:41-54 | the snapshot is always a projection of some state of the store, the newest loaded one if that projects |
| `GatewaySync.RunKeepsInv` | crates/ployz-gateway/src/sync.rs:29-58 | both hold at every state of every interleaving of writers and loop |
| `GatewaySync.LoopProgress` | crates/ployz-gateway/src/sync.rs:38-55 | every step of the loop brings it closer to rest |
| `GatewaySync.LoopNotStuck` | crates/ployz-gateway/src/sync.rs:38-55 | the loop has a next step whenever it is not at rest |
| `GatewaySync.RunsAreShort` | crates/ployz-gateway/src/sync.rs:38-55 | without writes the loop takes no more steps than its rank |
| `GatewaySync.RestIsUpToDate` | crates/ployz-gateway/src/sync.rs:33-38 | at rest the newest state has been looked at, except exactly when the store changed between the initial load and the subscription and not since |
| `GatewaySync.ChangeBeforeSubscribing` | crates/ployz-gateway/src/sync.rs:31-38 | a concrete case of the exception: the loop starts at rest on the empty snapshot while a newer state is stored |
| `GatewaySync.RestAnswersCurrentState` | crates/ployz-gateway/src/sync.rs:41-47 | if that look succeeded, every request is answered as the newest state demands |
| `GatewaySync.FailedLoadIsForgotten` | crates/ployz-gateway/src/sync.rs:48-53 | from every state at rest a failing load can leave the loop at rest on the old snapshot |
| `GatewaySync.AtomicCutover` | crates/ployz-gateway/src/sync.rs:29-58 | beside a running deploy the snapshot answers as the state before it or as the committed one, never a mixture |
| `GatewaySync.CutoverHappensOnce` | crates/ployz-gateway/src/sync.rs:29-58 | over a run there is one switch from the old answers to the new ones |
| `GatewaySync.CutoverCompletes` | crates/ployz-gateway/src/sync.rs:29-58 | at rest after the deploy the answers are those of the commit exactly when the routes of the manifest clash neither with each other nor with those of the other namespaces before the deploy |
| `GatewaySync.ProjectableExact` | crates/ployz-gateway/src/routes.rs:128-244 | the gateway takes a state in exactly when the specs of its releases resolve and claim nothing twice |
| `GatewaySync.LiveAtCommit` | crates/ployz-orchestrator/src/deploy/mod.rs:351-365 | what is live after the commit is the manifest's services and the other namespaces' as they were |
| `GatewaySync.LiveStays` | crates/ployz-orchestrator/src/deploy/mod.rs:382-406 | and it stays so through cleanup |
| `GatewaySync.ValidManifestCanClash` | crates/ployz-gateway/src/routes.rs:365-378 | a concrete case: a valid manifest whose two services listen on one port, which no gateway will show |
| `GatewaySync.FailedDeployNeverShows` | crates/ployz-gateway/src/sync.rs:29-58 | a deploy that fails before its commit is never seen |
| `LineCodec.ParseIsIncremental` | crates/ployz-corrosion/src/client.rs:687-732 | reading a stream in two parts is reading it at once |
| `LineCodec.LinesBytesCodec.Decode` | crates/ployz-corrosion/src/client.rs:687-732 | a call reports the next line or refusal of the stream whatever follows, or nothing when there is none; the cursor is never out of bounds and the loop ends |
| `LineCodec.Truncated` | crates/ployz-corrosion/src/client.rs:715-719 | a line without its last byte and the carriage return before it |
| `LineCodec.LinesBytesCodec.DecodeEof` | crates/ployz-corrosion/src/client.rs:734-751 | at the end the remaining outcomes come first, then the unterminated tail without its last byte |
| `LineCodec.LastLineExact` | crates/ployz-corrosion/src/client.rs:741-745 | an unterminated line comes out right exactly when it ends in one carriage return |
| `LineCodec.LastByteIsLost` | crates/ployz-corrosion/src/client.rs:741-745 | a concrete case: a stream ending in ab without a newline yields the line a |
| `LineCodec.Drain` | crates/ployz-corrosion/src/client.rs:687-732 | decoding until nothing comes leaves only the undecided tail |
| `LineCodec.DecodeStream` | crates/ployz-corrosion/src/client.rs:667-752 | for every maximum and every cutting into chunks: one line without its carriage return for each line within the maximum, one error for each longer one |
| `LineCodec.RoundTrip` | crates/ployz-corrosion/src/client.rs:712-721 | lines sent with newlines, with or without carriage returns, are read back |
| `LineCodec.StreamExact` | crates/ployz-corrosion/src/client.rs:687-732 | whatever its bytes, a stream gives one outcome per line in order: the line without its carriage return if within the maximum, one refusal otherwise; a tail beyond the maximum is refused, a shorter one waits |
| `LineCodec.StreamSplits` | crates/ployz-corrosion/src/client.rs:687-732 | every stream has such lines and a tail |
| `Subscription.SubscriptionStream.constructor` | crates/ployz-corrosion/src/client.rs:508-525 | a stream resumed at an id counts as past its query |
| `Subscription.SubscriptionStream.HandleEoq` | crates/ployz-corrosion/src/client.rs:580-583 | the marker sets the position |
| `Subscription.SubscriptionStream.HandleChange` | crates/ployz-corrosion/src/client.rs:585-596 | a change is accepted exactly when it continues the sequence or starts it, and otherwise reported with the expected id |
| `Subscription.SubscriptionStream.PollReconnect` | crates/ployz-corrosion/src/client.rs:598-623 | a request is sent only after the query has ended, and from the last accepted id |
| `Subscription.SubscriptionStream.Track` | crates/ployz-corrosion/src/client.rs:547-565 | markers and changes of a decoded line are followed, a gap is reported |
| `Subscription.SubscriptionStream.PollStream` | crates/ployz-corrosion/src/client.rs:527-578 | what a poll yields and adds to the log in each case |
| `Subscription.SubscriptionStream.PollNext` | crates/ployz-corrosion/src/client.rs:629-660 | I/O errors become a pause until ten in a row; everything else is passed on; the new state, reply and log entries are those of the poll |
| `Subscription.AcceptedIdsAreConsecutive` | crates/ployz-corrosion/src/client.rs:585-617 | between markers accepted ids count up by one across any reconnects |
| `Subscription.AcceptedIdsContinueMarker` | crates/ployz-corrosion/src/client.rs:580-617 | the k-th change after a marker at m has id m + k |
| `Subscription.RetriesAreBounded` | crates/ployz-corrosion/src/client.rs:644-657 | the counter is the number of failures in a row, never above ten |
| `Subscription.HeardIsDelivered` | crates/ployz-corrosion/src/client.rs:557-568 | a poll hands over the change it accepts, except exactly when it accepts one whose row does not decode |
| `Subscription.PollDelivers` | crates/ployz-corrosion/src/client.rs:629-660 | while rows decode, one poll hands over exactly what it accepts |
| `Subscription.RunDelivers` | crates/ployz-corrosion/src/client.rs:527-661 | and so does any run of polls |
| `Subscription.ReplyExact` | crates/ployz-corrosion/src/client.rs:527-661 | which reply a poll gives, by whether there is a body, what it yields and how often the connection has failed |
| `Subscription.GapExact` | crates/ployz-corrosion/src/client.rs:585-596 | a gap is reported exactly for a decoded change out of sequence, with the expected id |
| `Subscription.EntriesExact` | crates/ployz-corrosion/src/client.rs:547-617 | which markers and changes a poll takes in, and when it sends a request and from where |
| `Subscription.FailureExact` | crates/ployz-corrosion/src/client.rs:640-657 | a failing connection is given up and paused, and nothing else is |
| `Subscription.ElevenFailures` | crates/ployz-corrosion/src/client.rs:640-657 | the consumer hears of the eleventh failure in a row and of none before |
| `Subscription.RequestExact` | crates/ployz-corrosion/src/client.rs:598-617 | an unanswered request is kept, and an answer of either kind settles it |
| `Subscription.Drive` | crates/ployz-corrosion/src/client.rs:527-661 | over any run every reply and the state in the end are those of the polls, the log stays gap-free and, while rows decode, the consumer gets exactly the accepted changes, once each and in order |
| `RowCaches.ChangeKeepsStep` | crates/ployz-corrosion/src/store/tables/machines.rs:145-165 | a cache that represents its table still does after a change exactly when the change keeps the row's key and no other row has it |
| `RowCaches.RekeyedRowLeaves` | crates/ployz-corrosion/src/store/tables/machines.rs:153-163 | a row that changes its key leaves a record that deleting the row does not remove |
| `RowCaches.InStepThroughout` | crates/ployz-corrosion/src/store/workflows/routing_state.rs:179-205 | over any run the cache represents the table all the time exactly when every change is orderly |
| `RowCaches.RowCache.ApplyChange` | crates/ployz-corrosion/src/store/workflows/routing_state.rs:179-205 | the map and row index after a change; cells that do not parse change nothing |
| `RowCaches.RowCache.HandleStreamEvent` | crates/ployz-corrosion/src/store/workflows/routing_state.rs:207-254 | each item steps the cache by its change or by nothing; the reply tells whether data changed, and is none exactly for the items that end the subscription |
| `RowCaches.EventRebuilds` | crates/ployz-corrosion/src/store/tables/machines.rs:167-210 | a change is told by its one event, or changes nothing |
| `RowCaches.ReplayRebuilds` | crates/ployz-corrosion/src/store/tables/machines.rs:145-210 | replaying the events of any changes over what was known rebuilds the map, orderly or not |
| `RowCaches.EventExact` | crates/ployz-corrosion/src/store/tables/machines.rs:167-210 | Added exactly for a machine not known, Updated for a known one, Removed with the record it had |
| `RowCaches.ItemExact` | crates/ployz-corrosion/src/store/workflows/routing_state.rs:207-254 | which items bring which change, and which end a subscription |
| `RowCaches.FeedEndsExact` | crates/ployz-corrosion/src/store/workflows/routing_state.rs:312-351 | a feed ends with a subscription, with its receiver, or when an unsent state finds no receiver |
| `RowCaches.OrderlyRecords` | crates/ployz-corrosion/src/store/workflows/routing_state.rs:57-63 | a cache in step holds exactly the live rows |
| `RowCaches.UpsertEvent` | crates/ployz-corrosion/src/store/tables/machines.rs:195-210 | Updated for a known machine, Added for a new one, nothing for cells that do not parse |
| `RowCaches.IntoMachineEvent` | crates/ployz-corrosion/src/store/tables/machines.rs:167-193 | the event tells exactly what changed in the map |
| `RowCaches.MachineFeed` | crates/ployz-corrosion/src/store/tables/machines.rs:85-116 | the feed stops exactly at the first item that ends it; the cache and the emitted events are those of the changes before it, and replaying the events over what was known rebuilds the map |
| `RowCaches.RoutingFeed.ToRoutingState` | crates/ployz-corrosion/src/store/workflows/routing_state.rs:57-63 | the state sent lists the three maps |
| `RowCaches.RoutingFeed.constructor` | crates/ployz-corrosion/src/store/workflows/routing_state.rs:304-308 | a new feed has sent the current state |
| `RowCaches.RoutingFeed.Flush` | crates/ployz-corrosion/src/store/workflows/routing_state.rs:335-342 | an unsent state is sent once; the feed ends exactly when its receiver is gone |
| `RowCaches.RoutingFeed.Turn` | crates/ployz-corrosion/src/store/workflows/routing_state.rs:312-351 | the three caches step by the event's change; unless dirty, the state last sent is the current one; when it is sent and when the task ends |
| `RowCaches.CleanFeedIsCurrent` | crates/ployz-corrosion/src/store/workflows/routing_state.rs:307-352 | a feed that is not dirty has sent exactly the live rows of each table whose changes were all orderly |
| `RowCaches.RunFeed` | crates/ployz-corrosion/src/store/workflows/routing_state.rs:307-352 | over any events: the feed ends exactly at the first that ends it, the tables are those of the changes before it, and unless something is unsent the state last sent lists exactly their rows |
| `Peers.UpdateKeepsActive` | crates/ployz-orchestrator/src/mesh/peer.rs:90-108 | a new endpoint list keeps the active endpoint if it is still there and otherwise starts over |
| `Peers.WireGuardPeer.CalculateStatus` | crates/ployz-orchestrator/src/mesh/peer.rs:52-71 | the status of the three time zones, nothing else changed |
| `Peers.WireGuardPeer.RotateEndpoint` | crates/ployz-orchestrator/src/mesh/peer.rs:80-87 | one place on around the list, with the clock restarted |
| `Peers.WireGuardPeer.UpdateEndpoints` | crates/ployz-orchestrator/src/mesh/peer.rs:90-108 | the list is replaced and the active endpoint kept where possible |
| `Peers.RankingOrder` | crates/ployz-orchestrator/src/mesh/peer_state.rs:444-481 | the candidate order is total and transitive |
| `Peers.ComparisonMeaning` | crates/ployz-orchestrator/src/mesh/peer_state.rs:444-481 | reachable before unreachable, then the shorter round trip, then the later success, then the advertised order |
| `Peers.ProbeAll` | crates/ployz-orchestrator/src/mesh/peer_state.rs:237-242 | results are taken over for the endpoints that were probed |
| `Peers.PeerState.UpdateFromRecord` | crates/ployz-orchestrator/src/mesh/peer_state.rs:80-106 | the peer after a new machine record |
| `Peers.PeerState.SeedFromDevice` | crates/ployz-orchestrator/src/mesh/peer_state.rs:122-157 | the peer takes over a live handshake on an advertised endpoint and nothing else |
| `Peers.PeerState.Observe` | crates/ployz-orchestrator/src/mesh/peer_state.rs:160-196 | what a refresh takes over from the device |
| `Peers.PeerState.RefreshFromDevice` | crates/ployz-orchestrator/src/mesh/peer_state.rs:159-230 | the peer after a refresh, and whether it moved |
| `Peers.PeerState.ApplyProbeResults` | crates/ployz-orchestrator/src/mesh/peer_state.rs:232-275 | the peer after a round of probes, and whether it moved |
| `Peers.RecordIsWellFormed` | crates/ployz-orchestrator/src/mesh/peer_state.rs:66-78 | a new peer's candidates spell its endpoints and its active index is valid |
| `Peers.UpdateKeepsWellFormed` | crates/ployz-orchestrator/src/mesh/peer_state.rs:80-106 | an update keeps that |
| `Peers.SeedKeepsWellFormed` | crates/ployz-orchestrator/src/mesh/peer_state.rs:122-157 | seeding keeps that |
| `Peers.RefreshKeepsWellFormed` | crates/ployz-orchestrator/src/mesh/peer_state.rs:159-230 | a refresh keeps that and the endpoint list |
| `Peers.RankKeepsWellFormed` | crates/ployz-orchestrator/src/mesh/peer_state.rs:232-275 | a ranking keeps that |
| `Peers.LiveEndpointIsKept` | crates/ployz-orchestrator/src/mesh/peer_state.rs:122-202 | a handshake under 275 s old on an advertised endpoint ends a refresh Up on that endpoint, reporting no change |
| `Peers.QuietRefresh` | crates/ployz-orchestrator/src/mesh/peer_state.rs:159-230 | without such a handshake a refresh rotates exactly when the endpoint has had 15 s and there is another |
| `Peers.QuietRunRotates` | crates/ployz-orchestrator/src/mesh/peer_state.rs:159-230 | in a quiet run rotations are at least 15 s apart and the active index counts them around the list |
| `Peers.RotationsVisitAll` | crates/ployz-orchestrator/src/mesh/peer_state.rs:204-226 | as many rotations as endpoints leave none untried |
| `Peers.RankingPutsBestFirst` | crates/ployz-orchestrator/src/mesh/peer_state.rs:244-271 | after a successful probe the best candidate is active and the list is a permutation, best first |
| `Peers.PlanIsRotation` | crates/ployz-orchestrator/src/mesh/peer_state.rs:108-116 | the planned list goes once around from the active endpoint |
| `PeerTheorems.StatusExact` | crates/ployz-orchestrator/src/mesh/peer.rs:52-71 | Up exactly with a handshake since the endpoint changed, or after 275 s on it one younger than 275 s; otherwise Unknown for the first 15 s and Down then |
| `PeerTheorems.RecordExact` | crates/ployz-orchestrator/src/mesh/peer_state.rs:66-78 | a new peer has what its record says and starts on the first endpoint |
| `PeerTheorems.UpdateExact` | crates/ployz-orchestrator/src/mesh/peer_state.rs:80-106 | an update takes over key, addresses and endpoints, and asks for a ranking exactly when there is an endpoint and the peer is not Up on one that it still has |
| `PeerTheorems.UpdateKeepsMeasurements` | crates/ployz-orchestrator/src/mesh/peer_state.rs:424-442 | a known endpoint keeps its measurements and a new one has none |
| `PeerTheorems.StaleReportIsIgnored` | crates/ployz-orchestrator/src/mesh/peer_state.rs:122-143 | a report of another endpoint or 275 s old changes nothing |
| `PeerTheorems.LiveReportIsTaken` | crates/ployz-orchestrator/src/mesh/peer_state.rs:122-157 | any other puts the peer on that endpoint, Up since the handshake, with a success to its name |
| `PeerTheorems.RotationIsMarked` | crates/ployz-orchestrator/src/mesh/peer_state.rs:204-226 | a refresh that moves on marks the endpoint it leaves as failed and reports whether the endpoint changed |
| `PeerTheorems.RoundExact` | crates/ployz-orchestrator/src/mesh/peer_state.rs:232-242 | after a round of probes every candidate has its result, or its old measurements if it was not probed |
| `PeerTheorems.NothingReachableMovesNothing` | crates/ployz-orchestrator/src/mesh/peer_state.rs:244-275 | if none is reachable the peer stays where it is |
| `PeerTheorems.RankingChoosesFastest` | crates/ployz-orchestrator/src/mesh/peer_state.rs:232-275 | if all were probed and one answered, the active endpoint is one that answered and none that answered is faster; the peer starts afresh there and reports whether it moved |
| `PeerMap.PeerStateMap.InitFromSnapshot` | crates/ployz-orchestrator/src/mesh/peer_state.rs:289-295 | machines not known get the peer of their first record, the others keep theirs |
| `PeerMap.SnapshotKeeps` | crates/ployz-orchestrator/src/mesh/peer_state.rs:289-295 | a known machine keeps its peer, and of several records for a new one the first counts |
| `PeerMap.PeerStateMap.UpsertStored` | crates/ployz-orchestrator/src/mesh/peer_state.rs:297-303 | the stored peer is updated or made and the transient one dropped |
| `PeerMap.PeerStateMap.UpsertTransient` | crates/ployz-orchestrator/src/mesh/peer_state.rs:305-314 | ignored for a stored machine |
| `PeerMap.PeerStateMap.ApplyEvent` | crates/ployz-orchestrator/src/mesh/peer_state.rs:316-325 | the stored peer follows the event, the others stay |
| `PeerMap.PeerStateMap.RemoveTransient` | crates/ployz-orchestrator/src/mesh/peer_state.rs:327-329 | one transient peer goes |
| `PeerMap.PeerStateMap.SeedFromDevicePeers` | crates/ployz-orchestrator/src/mesh/peer_state.rs:331-347 | every peer is seeded from the last report for its key |
| `PeerMap.PeerStateMap.RefreshFromDevicePeers` | crates/ployz-orchestrator/src/mesh/peer_state.rs:349-369 | every peer is refreshed once; changed exactly when one moved |
| `PeerMap.PeerStateMap.ApplyProbes` | crates/ployz-orchestrator/src/mesh/peer_state.rs:389-402 | a stored peer takes the results before a transient one |
| `PeerMap.PeerStateMap.Perform` | crates/ployz-orchestrator/src/mesh/peer_state.rs:278-403 | each operation has its own effect on the two tables, and keeps every peer well formed and under its own id |
| `PeerMap.UpsertInto` | crates/ployz-orchestrator/src/mesh/peer_state.rs:298-301 | a known peer is updated, a new one made |
| `PeerMap.SeedTable` | crates/ployz-orchestrator/src/mesh/peer_state.rs:337-341 | every peer of a table is seeded once |
| `PeerMap.RefreshTable` | crates/ployz-orchestrator/src/mesh/peer_state.rs:360-363 | every peer of a table is refreshed once, and whether one moved |
| `PeerMap.RankIn` | crates/ployz-orchestrator/src/mesh/peer_state.rs:395-397 | one peer takes probe results, the others stay |
| `PeerMap.PlanTable` | crates/ployz-orchestrator/src/mesh/peer_state.rs:501-507 | one record for each peer of a table that is reachable, remote and not hidden |
| `PeerMap.PeerStateMap.PlanMeshPeers` | crates/ployz-orchestrator/src/mesh/peer_state.rs:500-520 | one record for each reachable peer but the local machine, stored peers hiding transient ones |
| `PeerMap.PlanAfter` | crates/ployz-orchestrator/src/mesh/peer_state.rs:278-520 | after any sequence of operations the tables are those of the operations, and the plan has no id twice, never the local one, each record once around its peer's endpoints from the active one, and no reachable stored peer missing |
| `PeerMap.FollowFeed` | crates/ployz-orchestrator/src/mesh/peer_state.rs:316-325 | the stored peers are exactly the machines the event feed makes known |
| `PeerTheorems.RecordReachesPlan` | crates/ployz-orchestrator/src/mesh/peer_state.rs:297-520 | whatever was known, the plan after a stored record has its key, addresses and endpoints |
| `PeerTheorems.LastReportCounts` | crates/ployz-orchestrator/src/mesh/peer_state.rs:331-347 | of several reports for a key the last one counts |
| `PeerTheorems.LivePeersAreUp` | crates/ployz-orchestrator/src/mesh/peer_state.rs:349-369 | after a refresh every peer with a live report is Up on the endpoint reported |
| `PeerTheorems.SeedsReachPeers` | crates/ployz-orchestrator/src/mesh/peer_state.rs:331-347 | so is every such peer after seeding |
| `PeerTheorems.ProbesReachPeer` | crates/ployz-orchestrator/src/mesh/peer_state.rs:389-402 | a round of probes moves the stored peer, or else the transient one, to the fastest endpoint that answered |
| `PeerTheorems.OthersStay` | crates/ployz-orchestrator/src/mesh/peer_state.rs:289-402 | an operation on one machine leaves all others alone |
| `PeerTheorems.StoredComesFirst` | crates/ployz-orchestrator/src/mesh/peer_state.rs:297-329 | a stored machine is not transient as well, and a transient record never replaces it |
| `Mesh.RunningNeedsWholeStartup` | crates/ployz-orchestrator/src/mesh/phase.rs:47-118 | without failure, detach or destroy the only way to Running is the whole startup in order |
| `Mesh.Mesh.constructor` | crates/ployz-orchestrator/src/mesh/orchestrator.rs:82-121 | a new mesh is Stopped and bare |
| `Mesh.Mesh.Apply` | crates/ployz-orchestrator/src/mesh/orchestrator.rs:249-254 | an accepted event moves the phase, a refused one is reported and changes nothing |
| `Mesh.Mesh.StartPeerSyncTask` | crates/ployz-orchestrator/src/mesh/orchestrator.rs:329-364 | tasks, cancel token and sender appear together or not at all |
| `Mesh.Mesh.BootstrapGate` | crates/ployz-orchestrator/src/mesh/orchestrator.rs:711-778 | Running exactly when there is no remote peer, waiting is waived, or gossip connects |
| `Mesh.Mesh.SpawnBackgroundTasks` | crates/ployz-orchestrator/src/mesh/orchestrator.rs:366-482 | succeeds exactly when the self record and the subscriptions are there, with every task running; its two expects cannot fail |
| `Mesh.Mesh.SpawnWatchers` | crates/ployz-orchestrator/src/mesh/orchestrator.rs:454-479 | the subnet monitor and, with a dataplane, the route task, if their subscriptions succeed |
| `Mesh.Mesh.Provision` | crates/ployz-orchestrator/src/mesh/orchestrator.rs:275-312 | container network, dataplane and store; the first failure ends it |
| `Mesh.Mesh.BringUp` | crates/ployz-orchestrator/src/mesh/orchestrator.rs:270-327 | succeeds exactly when every component does; the phase is Running exactly when the gate was passed |
| `Mesh.Mesh.ClearTaskChannels` | crates/ployz-orchestrator/src/mesh/orchestrator.rs:484-492 | no channel and no cancel token is left |
| `Mesh.Mesh.StartOrTearDown` | crates/ployz-orchestrator/src/mesh/orchestrator.rs:259-267 | how a start ends, by which components work |
| `Mesh.Mesh.StopForRestart` | crates/ployz-orchestrator/src/mesh/orchestrator.rs:591-598 | stopped, bare and on the new network, about to start |
| `Mesh.Mesh.StopRuntime` | crates/ployz-orchestrator/src/mesh/orchestrator.rs:494-539 | nothing is left, and the first error is reported |
| `Mesh.Mesh.Up` | crates/ployz-orchestrator/src/mesh/orchestrator.rs:256-268 | Stopped and bare if it fails by the gate; Running and bare with a transition error if only the background tasks fail; full otherwise |
| `Mesh.Mesh.Detach` | crates/ployz-orchestrator/src/mesh/orchestrator.rs:547-555 | Stopped and bare with the dataplane left in place |
| `Mesh.Mesh.Destroy` | crates/ployz-orchestrator/src/mesh/orchestrator.rs:557-584 | Stopped and bare from any state, with an error exactly when a part fails to stop |
| `Mesh.Mesh.RestartRuntimeForSubnetChange` | crates/ployz-orchestrator/src/mesh/orchestrator.rs:586-620 | the old runtime is stopped, the network driver replaced, and the mesh ends like a start from rest with the new driver |
| `Mesh.CallCripples` | crates/ployz-orchestrator/src/mesh/orchestrator.rs:256-620 | a call leaves the mesh Running without tasks only by a failed spawn, or by a refused start on one that was so already |
| `Mesh.CrippledExactly` | crates/ployz-orchestrator/src/mesh/orchestrator.rs:249-620 | over any calls the mesh is Running without tasks exactly when its latest start failed to spawn them |
| `Mesh.FailedStartEnds` | crates/ployz-orchestrator/src/mesh/orchestrator.rs:256-268 | a start that fails by the gate leaves nothing; one that fails after it stays Running without tasks |
| `Mesh.StartExact` | crates/ployz-orchestrator/src/mesh/orchestrator.rs:256-482 | a start from rest works exactly when all its needs are met; otherwise it replies with the error of the first that is not, and is Running exactly from the gate on |
| `Mesh.TimesOutExactly` | crates/ployz-orchestrator/src/mesh/orchestrator.rs:711-778 | it times out exactly when all before the gate works, a remote peer is listed, waiting is not waived and gossip does not connect |
| `Mesh.RunningRefusesStart` | crates/ployz-orchestrator/src/mesh/orchestrator.rs:256-258 | a start is refused and changes nothing when the mesh is Running |
| `Mesh.RestartExact` | crates/ployz-orchestrator/src/mesh/orchestrator.rs:586-620 | a restart is a start from rest on the new network |
| `Mesh.TasksExact` | crates/ployz-orchestrator/src/mesh/orchestrator.rs:329-482 | which tasks a running mesh has |
| `Mesh.DestroyExact` | crates/ployz-orchestrator/src/mesh/orchestrator.rs:557-584 | nothing is left, and an error is reported exactly when a part that is there fails to stop |
| `Mesh.DetachExact` | crates/ployz-orchestrator/src/mesh/orchestrator.rs:547-555 | the tasks stop and the dataplane stays; refused at rest |
| `Mesh.EveryPhaseEnds` | crates/ployz-orchestrator/src/mesh/phase.rs:47-118 | a failing component ends a startup in any of its phases, and a teardown ends anything else |
| `Mesh.SpawnCanFail` | crates/ployz-orchestrator/src/mesh/orchestrator.rs:366-403 | a concrete case: every component works, the machine's own record is not found, and the mesh stays Running without tasks |
| `Mesh.Lifecycle` | crates/ployz-orchestrator/src/mesh/orchestrator.rs:249-620 | over any calls and failures every reply and the state in the end are those of the calls: Stopped or Running between calls, tasks and channels all there or none, and Running without tasks exactly when the latest start failed to spawn them |
| `Ipam.CanonicalDisjoint` | crates/ployz-orchestrator/src/ipam.rs:41-46 | two canonical networks of one length are equal or disjoint |
| `Ipam.Allocator.Allocate` | crates/ployz-orchestrator/src/ipam.rs:34-52 | the first free candidate, or every candidate is taken; arithmetic overflows only if the cluster ends at the last address |
| `Ipam.TriedExactly` | crates/ployz-orchestrator/src/ipam.rs:40-49 | the candidates are the 2^(difference) subnets of the cluster, less one for single addresses |
| `Ipam.InsideExact` | crates/ployz-orchestrator/src/ipam.rs:34-52 | a subnet handed out lies in the cluster exactly when it is no larger |
| `Ipam.AllocateMany` | crates/ployz-orchestrator/src/ipam.rs:34-52 | a run hands out subnets inside the cluster, disjoint from each other and from prior ones, and stops early exactly when all are taken |
| `Ipam.SubnetIpam.Allocate` | crates/ployz-orchestrator/src/ipam.rs:89-99 | the lowest free pooled address, none if none is free, an overflow exactly for subnets whose pool would run past the last address |
| `Ipam.SubnetIpam.Release` | crates/ployz-orchestrator/src/ipam.rs:101-103 | exactly that address becomes free |
| `Ipam.PoolInsideExact` | crates/ployz-orchestrator/src/ipam.rs:55-65 | the pool lies inside exactly for /24 or larger, and never holds the network, machine, container or broadcast address |
| `Ipam.AddressPlan` | crates/ployz-orchestrator/src/ipam.rs:54-99 | the machine has the first address, the container network the second, containers the third to the 254th |
| `Ipam.SizesInUse` | crates/ployz-orchestrator/src/ipam.rs:34-46 | how many addresses networks of the usual lengths have |
| `Ipam.PoolsDoNotCollide` | crates/ployz-orchestrator/src/ipam.rs:89-99 | pools of disjoint subnets share no address |
| `Ipam.PoolHistory` | crates/ployz-orchestrator/src/ipam.rs:89-103 | over any history every grant is the lowest pooled address free at that point, refused only when there is none, and no address is granted that was held before and not given back since |
| `Ipam.GrantsAreExclusive` | crates/ployz-orchestrator/src/ipam.rs:89-103 | an address granted twice was given back in between |
| `Ipam.GrantsSpareExisting` | crates/ployz-orchestrator/src/ipam.rs:82-103 | an address reserved from the start is granted only after it was given back |
| `Ipam.HistoriesDoNotCollide` | crates/ployz-orchestrator/src/ipam.rs:89-103 | histories of pools of disjoint subnets of /24 or larger grant no common address |
| `RouteLookup.OnlyProbeMatches` | ebpf/src/main.rs:75-80 | of the routes of one length only the masked address can match |
| `RouteLookup.Classify` | ebpf/src/main.rs:68-86 | the four probes find the longest eligible prefix that matches, or there is none (section 5.2.4.3 of RFC 1812) |
| `RouteLookup.LongestUnique` | ebpf/src/main.rs:74-84 | there is at most one longest match |
| `RouteLookup.OtherLengthsAreInvisible` | ebpf/src/main.rs:74 | a route of another length is never used |
| `RouteLookup.EligibleExact` | ebpf/src/main.rs:74-84 | the lengths are 8, 16, 24 and 32 |
| `RouteLookup.InStepExact` | crates/ployz-orchestrator/src/mesh/tasks/ebpf_sync.rs:16-57 | a table in step has a route for a key exactly when a known machine other than this one has that subnet, and to WireGuard |
| `RouteLookup.EventKeepsStep` | crates/ployz-orchestrator/src/mesh/tasks/ebpf_sync.rs:34-55 | with distinct subnets an event keeps the table in step exactly when the machine keeps its subnet |
| `RouteLookup.RemovalKeepsStep` | crates/ployz-orchestrator/src/mesh/tasks/ebpf_sync.rs:45-53 | removing a machine withdraws its route and no other |
| `RouteLookup.SteadyUpsertKeepsStep` | crates/ployz-orchestrator/src/mesh/tasks/ebpf_sync.rs:36-44 | a machine that keeps its subnet keeps its route |
| `RouteLookup.StaleRouteStays` | crates/ployz-orchestrator/src/mesh/tasks/ebpf_sync.rs:36-44 | otherwise the old route stays |
| `RouteLookup.EbpfSync.Seed` | crates/ployz-orchestrator/src/mesh/tasks/ebpf_sync.rs:16-26 | the table is in step with the snapshot |
| `RouteLookup.EbpfSync.HandleEvent` | crates/ployz-orchestrator/src/mesh/tasks/ebpf_sync.rs:34-55 | the table after an event |
| `RouteLookup.EbpfSync.Upsert` | crates/ployz-orchestrator/src/mesh/tasks/ebpf_sync.rs:36-44 | a remote machine with a subnet gets a route |
| `RouteLookup.Follow` | crates/ployz-orchestrator/src/mesh/tasks/ebpf_sync.rs:28-57 | after any stable run of events the table is in step |
| `RouteLookup.RedirectsExactly` | crates/ployz-bpfctl/src/linux.rs:244-250 | a table in step redirects an address exactly when it lies in a known remote machine's subnet |
| `Install.UnescapeEscape` | crates/ployzd/src/install.rs:712-726 | any text survives escaping |
| `Install.QuotedValueParses` | crates/ployzd/src/install.rs:716-726 | any quoted value parses back, quotes of both kinds, spaces and equals signs included |
| `Install.PrintedLineReads` | crates/ployzd/src/install.rs:97-128 | a printed line assigns its key its value |
| `Install.LoadText` | crates/ployzd/src/install.rs:92-150 | the loop over lines computes the manifest or the error |
| `Install.LoadedIsStorable` | crates/ployzd/src/install.rs:92-150 | whatever the file holds, a manifest read from it has no newline and no empty optional value |
| `Install.StoreLoadExact` | crates/ployzd/src/install.rs:153-195 | a stored manifest reads back as itself exactly when it has no newline and no empty optional value |
| `Install.SourceLines` | crates/ployzd/src/install.rs:168-173 | the first lines of the file |
| `Install.PathLines` | crates/ployzd/src/install.rs:173-178 | the lines with the directories, the config and the socket |
| `Install.BinaryLines` | crates/ployzd/src/install.rs:178-187 | the lines with the binaries |
| `Install.ServiceLines` | crates/ployzd/src/install.rs:187-193 | the lines with target, mode and backend, and the names of their values |
| `Install.QuotingExample` | crates/ployzd/src/install.rs:704-714 | how a quote in a value is written |
| `Install.OtherLines` | crates/ployzd/src/install.rs:92-103 | blank lines and comments are skipped, other lines without an equals sign refused |
| `Install.AssignmentRead` | crates/ployzd/src/install.rs:97-128 | an assignment to a known key replaces its value if it is fit, and is refused otherwise |
| `Install.OtherAssignment` | crates/ployzd/src/install.rs:104-127 | one to another name is skipped if its value can be read |
| `Install.BareValue` | crates/ployzd/src/install.rs:716-726 | a value without quotes is taken as it stands unless it has a space in it |
| `Install.FitValues` | crates/ployzd/src/install.rs:674-703 | only target, mode and backend are restricted, and to which values |
| `Install.LoadExact` | crates/ployzd/src/install.rs:130-150 | a file makes a manifest exactly when every line can be read and every key but the optional four is there |

## Left out

- Timestamps, manifest hashes, event texts and the summaries stored with deploy records.
- The sorted order in which participants are locked; any order is modelled.
- Writers of the store other than the run itself while `apply` runs.
- The machine list and the clock, which each reading of a run takes from its environment.
- Sessions that are closed at the end of a run, and the lock protocol behind `open`.
- Hostnames of a route as a sorted list; they are a set here.
- The end of the refresh loop when the store is dropped, and the length of its pause.
- Change ids at the top of the 64-bit range.
- The frame reader between the body and the decoder; a driver that appends chunks and decodes stands for it.
- The sorting of the machine snapshot by id.
- Updating peers inside the peer table in place: the table owns its peers by value, and an operation takes one out, changes it as an object and puts it back.
- `pending_rankings`, the probing itself and the peer-sync task's timers.
- The retries inside a start (`poll_until`), the seed peers set before it, and the network, store and container calls, which are inputs that succeed or fail.
- The interface index kept with the dataplane.
- Byte order of route keys: both sides swap it the same way. The classifier's mask is written as rounding down to a multiple.
- The limit of 256 routes and errors of the dataplane.
- IPv6 redirection and packet observation.
- Paths that are not valid Unicode, and everything the installer does besides its manifest.
- The DNS projection, which repeats the gateway's shape; spec validation beyond what the planner relies on; JSON, keys, signatures and transports.
