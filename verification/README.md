# Verified model of the Hypergate engine and operator

Hypergate is an Envoy external-processing engine with a Kubernetes operator. This project models five connected parts of
it in Dafny and proves what they promise over every input, every run or every interleaving.

- **Policy reload** (`ChainRegistry`, `PolicyBuild`, `PolicyManager`, `PolicyRuns`, `PolicySafety`, `PolicyDefinitions`,
  `SnapshotProtocol`). A reload reuses unchanged Redis clients and filters, publishes an immutable snapshot and closes
  what it dropped when the replaced snapshot drains. `Manager` and `SnapshotRegistry` are classes proved against
  relations between worlds; runs of those relations carry the safety and conservation theorems, and say which filter
  serves which definition. `SnapshotProtocol` repeats the reference count at the granularity of single atomic
  instructions.
- **Workload identity** (`RefCounts`, `IdentityTables`, `IdentityTruth`, `OperatorIndex`, `EngineIndex`, `DeltaSync`,
  `EngineReplica`). The operator's index keeps derived maps in step with base tables under events in any order, and
  answers what the events say; differences travel to the engine's own index, which is carried along every run.
- **Rate limiting** (`CreditBucket`, `RateUnits`, `TokenBucket`, `LeakyBucket`, `SlidingLog`, `FixedWindow`,
  `FixedWindowTotals`, `FixedWindowReports`, `RequestCost`). The Lua bodies over real numbers, with expiry, and the fixed
  window with its local block cache and its reports.
- **Request execution** (`Text`, `HeaderOverlay`, `ChainExecution`, `ChainMeaning`, `AuditExactness`, `ExtProcStream`,
  `StreamReplies`, `StreamMeaning`, `AuditedStreams`, `SteadyFilters`, `AuditedFirewall`, `ChainLimiter`). Header edits,
  audit mode, the six-message stream with what its replies mean to the proxy, and the concurrency limit.
- **Routing compilation** (`Selectors`, `SelectorMeaning`, `Router`, `RouteRules`, `RouteCompiler`, `RoutingRefinement`,
  `HeaderCollisions`, `IdentityResolution`, `ResolutionMeaning`, `ClusterServing`, `ServedPolicy`). HyperRoutes and
  HyperChains become an engine config, which the engine loads and serves by.

`Basics` holds shared definitions. `dafny verify dfyconfig.toml` checks everything.

Modelling choices:

- Iteration over a Go map is a loop that picks any remaining key, so results hold for every order.
- Addresses are values with the IPv4-mapped form apart (section 2.5.5.2 of RFC 4291); CIDR blocks follow section 3.1 of
  RFC 4632. Redis keys are tuples, YAML is the identity, numbers of the Lua bodies are reals.
- Filters are deterministic functions on the request; their verdict, header state and other fields are values. Factories
  return objects with fresh identities.
- Time, randomness, Redis dial errors, overload and deadlines are parameters. Time never runs backwards and fill and leak
  rates are positive.
- Regular expressions, durations and the text of selectors are abstract: a selector is given parsed, or as malformed.

Where the code does less than its comments promise, the exact condition is proved next to a concrete case:

- A stream two reloads old is not protected by the cleanup of the snapshot in between (`SafeIffOlderStreamsUnaffected`,
  `TwoReloads`).
- Between the decrement and the load of `retired` in `Release`, another stream can acquire a snapshot that is then cleaned
  (`CleansWithoutHolders`, `WindowLetsCleanupRunEarly`, `EarlyCleanupHappens`).
- A filter is rebuilt with its Redis service only if `redis_service` is a YAML string (`ReboundIffTyped`,
  `NumericServiceGoesStale`).
- Audit mode restores headers and path, not the other fields a filter may write (`NoTraceInChainsIffProper`,
  `TameIsNeeded`).
- An audited firewall denies nothing, and still makes the engine refuse a response when the body it asked for does not
  come. It shows exactly then (`AskersShowIffRefused`, `AuditedFirewallShowsIffWithheld`, `AuditedFirewallStillRefuses`).
- A timeout that is let through clears the block and not the mark of an answer (`HandedOnIsAuditableIffSteady`,
  `SteadyIsNeeded`).
- The sliding log counts members, and requests may bring the same one (`CountsRequestsIffDistinct`,
  `SharedMemberSharesPlace`).
- A HyperRoute whose header names differ only in case loses conditions, in a way that depends on map order
  (`RoutesRightlyIffNamesAgree`, `CollidingRouteMisroutes`).
- The concurrency limit can refuse a request while none runs (`RefusedIffFull`, `RefusedWhileIdle`).

## Model

| member | source | states |
|---|---|---|
| `ChainRegistry.SnapshotRegistry.AcquireCurrent` | internal/engine/registry.go:101-107 | Takes a reference on the current snapshot and no other; the new registry state in full. |
| `ChainRegistry.SnapshotRegistry.ReleaseSnapshot` | internal/engine/registry.go:67-71 | Drops one reference; if that was the last one of a retired snapshot, its cleanup closes exactly the resources attached to it, once. |
| `ChainRegistry.SnapshotRegistry.RetireSnapshot` | internal/engine/registry.go:73-79 | Attaches the cleanup and marks the snapshot; runs the cleanup at once if nobody holds it. |
| `ChainRegistry.SnapshotRegistry.SwapIn` | internal/engine/registry.go:111-117 | Publishes the next snapshot and retires only the one before it. |
| `ChainRegistry.AcquireKeeps` | internal/engine/registry.go:101-107 | Acquiring changes neither what waits for a drain nor what was closed, for every resource. |
| `ChainRegistry.ReleaseKeeps` | internal/engine/registry.go:67-71 | Per resource, pending plus closed is conserved by a release: a cleanup moves resources, it neither loses nor repeats one. |
| `ChainRegistry.SwapKeeps` | internal/engine/registry.go:111-117 | A swap adds exactly the attached resources to pending plus closed. |
| `PolicyManager.Manager.BuildRedis` | internal/policy/manager.go:109-127 | A service is reused exactly when its settings are unchanged and dialled otherwise; every new client is listed once for a rollback; fails only if a service cannot be dialled. |
| `PolicyManager.Manager.BuildChain` | internal/policy/manager.go:140-165 | Each position gets the instance under its key, reused from this config or the running one or made fresh; each new filter is listed once. |
| `PolicyManager.Manager.BuildFilters` | internal/policy/manager.go:136-168 | All chains are built against the new Redis entries, and nothing is kept that no chain uses. |
| `PolicyManager.Manager.Retired` | internal/policy/manager.go:170-182 | Lists, once each, exactly the filters and clients the new policy no longer uses. |
| `PolicyManager.Manager.Apply` | internal/policy/manager.go:95-215 | Either the complete new policy is published with everything it drops attached to the replaced snapshot, or the published state is untouched and exactly what the attempt created is closed; it succeeds whenever every part compiles. |
| `PolicyManager.Manager.Close` | internal/policy/manager.go:219-236 | Closes everything the active policy owns and nothing else. |
| `PolicyRuns.ReloadConserves` | internal/policy/manager.go:95-215 | For every resource, owned plus pending plus closed equals created across a reload. |
| `PolicyRuns.NextKeepsInv` | internal/policy/manager.go:95-236 | Reload, failed reload, acquire, release and shutdown all keep the manager invariant (conservation, fresh identities, Redis bindings). |
| `PolicyRuns.NothingClosedEarlyOrTwice` | internal/policy/manager.go:95-236 | Over every run: nothing is closed twice, nothing is closed that was not created, nothing of the published policy is closed before shutdown. |
| `PolicyRuns.EverythingClosedExactlyOnce` | internal/policy/manager.go:217-236 | Over every run that ends in shutdown and a full drain: every filter and client ever created was closed exactly once. |
| `PolicyRuns.FiltersBoundToOwnPolicy` | internal/policy/manager.go:109-168 | In every published policy of every run, a Redis-backed filter with a string-typed `redis_service` is bound to the client that policy stores under that name. |
| `PolicyRuns.RebuiltIffServiceRebuilt` | internal/policy/manager.go:238-253 | A filter definition that stays across a reload keeps its instance if and only if its Redis entry stays. |
| `PolicyRuns.ReboundIffTyped` | internal/policy/manager.go:241-253 | When a reload re-dials the service of a filter that stays, the filter is bound to the new client if and only if `redis_service` is a string. |
| `PolicyRuns.NumericServiceGoesStale` | internal/policy/manager.go:247-251 | Concrete input: two reloads with a numeric `redis_service` leave the filter on the replaced client. |
| `PolicyDefinitions.EveryPolicyIsAsConfigured` | internal/policy/manager.go:129-215 | Over every run, from the reload that published it on: each position of a policy holds a filter made with the type, options and Redis service of its definition, and is audited as configured. |
| `PolicyDefinitions.PoliciesStay` | internal/engine/registry.go:101-117 | Over every run, what was published once stays in the registry unchanged. |
| `PolicyDefinitions.SharedIffSameDefinition` | internal/policy/manager.go:129-165 | Two positions of a policy share a filter if and only if type, options and Redis service are the same. |
| `PolicyDefinitions.ReusedIffUnchanged` | internal/policy/manager.go:129-165 | Over every run, a reload keeps a filter if and only if the replaced policy had one made with the same type, options and Redis service, and the Redis entry is the same. |
| `PolicyDefinitions.RedisFiltersAreBound` | internal/filters/factory.go:20-95 | Rate limiters, API keys and the metadata enricher have a Redis client and no other filter has; a new one has the client stored under the name its option decodes to. |
| `PolicySafety.ReleaseIsSafe` | internal/engine/registry.go:66-71 | A release never closes a resource of a policy another stream holds, provided no younger snapshot is about to. |
| `PolicySafety.ReloadIsSafe` | internal/policy/manager.go:170-193 | A reload whose dropped resources no older stream uses keeps every in-flight stream safe. |
| `PolicySafety.CarefulRunIsSafe` | internal/policy/manager.go:170-193 | Over every run of such reloads, failed reloads, acquires and releases: no resource of any in-flight stream's policy is closed. |
| `PolicySafety.SafeIffOlderStreamsUnaffected` | internal/policy/manager.go:184-193 | Exact condition: after a reload every continuation by releases is safe if and only if no older stream uses a dropped resource. |
| `PolicySafety.DrainSnapshot` | internal/engine/registry.go:66-87 | Any retired snapshot can be drained by releases alone, which closes exactly its cleanup. |
| `PolicySafety.TwoReloads` | internal/policy/manager.go:184-193 | Concrete run: two reloads under one stream close a filter that stream's policy still uses. |
| `SnapshotProtocol.StepKeepsInv` | internal/engine/registry.go:66-117 | One atomic instruction of any thread keeps the protocol invariant, under every interleaving of Acquire, Release and Swap. |
| `SnapshotProtocol.CleanupAtMostOnce` | internal/engine/registry.go:81-87 | In every interleaving a cleanup runs at most once, and only after retirement. |
| `SnapshotProtocol.CleanupIsNeverLost` | internal/engine/registry.go:66-79 | In every interleaving, once no thread works on a replaced snapshot its cleanup has run. |
| `SnapshotProtocol.SomeoneWillNotice` | internal/engine/registry.go:68-78 | While a retired, unreferenced snapshot is not cleaned, either the retirer or a last releaser is about to see it. |
| `SnapshotProtocol.CleansWithoutHolders` | internal/engine/registry.go:66-87 | In every interleaving in which no Acquire falls between a Release's decrement and its load of `retired`, a cleaning thread finds no holder. |
| `SnapshotProtocol.WindowLetsCleanupRunEarly` | internal/engine/registry.go:67-71 | Conversely, whenever a stream has acquired the current snapshot inside that gap and a thread is free to swap, some continuation runs the cleanup under that live holder. |
| `SnapshotProtocol.EarlyCleanupHappens` | internal/engine/registry.go:67-71 | Concrete interleaving of three threads that does so. |
| `RefCounts.AddRefCounts` | hyper-operator/internal/identity/index.go:550-557 | Raises one (member, Service) count by one and no other. |
| `RefCounts.DropRefCounts` | hyper-operator/internal/identity/index.go:559-567 | Lowers one positive count by one and no other, leaving no zero entries. |
| `RefCounts.DropRefTracks` | hyper-operator/internal/identity/index.go:559-567 | While a slice is being removed, the entry to drop is always there. |
| `RefCounts.StoreSlice` | hyper-operator/internal/identity/index.go:308-314 | After all members of a new slice are counted, every count is the number of stored slices that contribute it. |
| `RefCounts.UnstoreSlice` | hyper-operator/internal/identity/index.go:326-339 | The same from the other side: a stored slice's members can all be dropped. |
| `RefCounts.ServicesAreContributed` | hyper-operator/internal/identity/index.go:519-528 | A member's Services are exactly those some stored slice puts it into. |
| `IdentityTables.UniqueAddrsAreUnique` | hyper-operator/internal/identity/index.go:569-581 | No duplicates, and exactly the valid inputs in unmapped form. |
| `IdentityTables.UniqueUidsAreUnique` | hyper-operator/internal/identity/index.go:583-591 | No duplicates, and exactly the non-empty inputs. |
| `IdentityTables.ListedHasOneOwner` | hyper-operator/internal/identity/index.go:281-293 | An IP that some pod lists has an owner, the newest by creation and UID, and no other. |
| `IdentityTables.AnswerMapIsComplete` | hyper-operator/internal/identity/index.go:464-480 | The published map and the single lookup agree on every IP. |
| `IdentityTables.TablesHoldLastPod` | hyper-operator/internal/identity/index.go:235-277 | After any event sequence the pod table holds what the last event about each pod says. |
| `IdentityTables.TablesHoldLastSlice` | hyper-operator/internal/identity/index.go:296-339 | Likewise for EndpointSlices. |
| `IdentityTables.TablesHoldLastCilium` | hyper-operator/internal/identity/index.go:378-393 | Likewise for Cilium endpoints. |
| `IdentityTables.Confluence` | hyper-operator/internal/identity/index.go:235-339 | Two event sequences, in any order, that end with the same last event per pod, slice and Cilium endpoint give the same tables and the same answer for every pod IP. |
| `IdentityTruth.PodsAreLive` | hyper-operator/internal/identity/index.go:235-279 | After any events the table holds a pod if and only if the last event about it is a record of a pod with a UID, off the host network and not finished; field by field what is stored. |
| `IdentityTruth.SlicesAreLive` | hyper-operator/internal/identity/index.go:296-340 | The same for slices: stored if and only if the last record names a Service. |
| `IdentityTruth.EndpointsAreLive` | hyper-operator/internal/identity/index.go:378-394 | The same for Cilium endpoints. |
| `IdentityTruth.ServicesAreServed` | hyper-operator/internal/identity/index.go:503-535 | A workload is in a Service if and only if a live slice of that Service lists its UID or its address. |
| `IdentityTruth.AnswersAreTrue` | hyper-operator/internal/identity/index.go:281-294 | After any events an address belongs to the newest live pod that names it, with that pod's identity field by field; an address no live pod names belongs to its node, if it has one. |
| `IdentityTruth.HostPodsAnswerAsNodes` | hyper-operator/internal/identity/index.go:235-254 | An address that only host-network or finished pods name is answered as the node's. |
| `OperatorIndex.ReassignIsSound` | hyper-operator/internal/identity/index.go:342-354 | After an upsert or a delete every reverse entry names a stored object that lists the address. |
| `OperatorIndex.CompleteIffDisjoint` | hyper-operator/internal/identity/index.go:342-354 | A complete reverse map stays complete through an upsert if and only if no two objects then share an address. |
| `OperatorIndex.ReverseMapStaysComplete` | hyper-operator/internal/identity/index.go:342-375 | Over every history of stores and deletes in which no two objects ever share an address, the reverse map is sound and complete. |
| `OperatorIndex.UniqueAddresses` | hyper-operator/internal/identity/index.go:569-581 | The loop computes the duplicate-free list. |
| `OperatorIndex.UniqueIds` | hyper-operator/internal/identity/index.go:583-591 | The loop computes the duplicate-free list. |
| `OperatorIndex.Index.Bump` | hyper-operator/internal/identity/index.go:212-218 | Advances the generation and leaves a notice, which is dropped, not blocked on, if one is waiting. |
| `OperatorIndex.Index.RemovePod` | hyper-operator/internal/identity/index.go:263-277 | Releases exactly this pod's claims: afterwards each claim list again holds exactly the pods that list the IP, once each. |
| `OperatorIndex.Index.UpsertPod` | hyper-operator/internal/identity/index.go:235-251 | Tables change as the event says; claims, counts and reverse maps keep agreeing with them; a notice is left. |
| `OperatorIndex.Index.DeletePod` | hyper-operator/internal/identity/index.go:256-261 | Likewise; a late delete touches no other pod's claims. |
| `OperatorIndex.Index.UpsertSlice` | hyper-operator/internal/identity/index.go:296-316 | Likewise; every count equals the number of contributing slices. |
| `OperatorIndex.Index.RemoveSlice` | hyper-operator/internal/identity/index.go:326-339 | Drops exactly this slice's contribution. |
| `OperatorIndex.Index.DeleteSlice` | hyper-operator/internal/identity/index.go:319-324 | Likewise, and a notice is left. |
| `OperatorIndex.Index.UpsertService` | hyper-operator/internal/identity/index.go:342-354 | Stores the Service and gives it its addresses; the reverse map stays sound. |
| `OperatorIndex.Index.RemoveService` | hyper-operator/internal/identity/index.go:364-375 | Releases only addresses that still point to this Service. |
| `OperatorIndex.Index.DeleteService` | hyper-operator/internal/identity/index.go:357-362 | Likewise, and a notice is left. |
| `OperatorIndex.Index.UpsertCiliumEndpoint` | hyper-operator/internal/identity/index.go:378-385 | Tables change as the event says. |
| `OperatorIndex.Index.DeleteCiliumEndpoint` | hyper-operator/internal/identity/index.go:388-393 | Tables change as the event says. |
| `OperatorIndex.Index.UpsertNode` | hyper-operator/internal/identity/index.go:396-406 | Stores the node and gives it its addresses; the reverse map stays sound. |
| `OperatorIndex.Index.RemoveNode` | hyper-operator/internal/identity/index.go:416-427 | Releases only addresses that still point to this node. |
| `OperatorIndex.Index.DeleteNode` | hyper-operator/internal/identity/index.go:409-414 | Likewise, and a notice is left. |
| `OperatorIndex.Index.Owner` | hyper-operator/internal/identity/index.go:281-293 | The scan finds the claimant with the greatest (creation time, UID), and none only if no stored pod lists the IP. |
| `OperatorIndex.Index.Lookup` | hyper-operator/internal/identity/index.go:430-441 | Equals the brute-force answer over the base tables: the newest pod listing the IP, else the node map entry. |
| `OperatorIndex.Index.WorkloadOf` | hyper-operator/internal/identity/index.go:503-535 | The workload carries exactly the Services some slice contributes by pod or by address. |
| `OperatorIndex.Index.Workloads` | hyper-operator/internal/identity/index.go:464-480 | Every IP with an answer, with that answer. |
| `OperatorIndex.Index.ServiceByClusterIP` | hyper-operator/internal/identity/index.go:444-453 | A found Service is stored and lists the address. |
| `EngineIndex.Index.ApplyWorkloads` | internal/identity/index.go:170-189 | For every IP: an update that carries it, else what was there unless removed; whatever the map order. |
| `EngineIndex.CanonicalPatch` | internal/identity/index.go:170-189 | With resources named by their own address, a batch is exactly a patch of the map. |
| `EngineIndex.Index.DropService` | internal/identity/index.go:212-223 | Releases only addresses that point to the very object dropped, and keeps every other Service complete. |
| `EngineIndex.Index.ApplyServices` | internal/identity/index.go:192-210 | Removals, then updates in any order: entries always name a stored Service that lists the IP; a complete reverse map is complete again if and only if no two Services then share an address. |
| `EngineIndex.UpdateStep` | internal/identity/index.go:199-205 | Replacing one Service in the middle of a batch keeps every finished Service complete, even if Services swap addresses. |
| `EngineIndex.StoredAsReceived` | internal/identity/index.go:256-267 | A stored Service has the name and ports received and exactly the addresses that parse, mapped ones as IPv4. |
| `EngineIndex.OrderIsIrrelevant` | internal/identity/index.go:192-223 | Two complete engines with the same Services answer every address alike, whatever orders their batches took. |
| `EngineIndex.Index.Lookup` | internal/identity/index.go:96-104 | The workload stored for the unmapped address; nothing for an invalid one. |
| `EngineIndex.Index.ServiceByClusterIP` | internal/identity/index.go:107-115 | A found Service lists the address. |
| `DeltaSync.ComputeDiff` | hyper-operator/internal/identity/server.go:189-206 | The two loops compute the exact difference: changed or new resources, and names that are gone. |
| `DeltaSync.DiffIsExact` | hyper-operator/internal/identity/server.go:189-206 | Applying the difference to the last push gives the next state, and it is empty if and only if nothing changed. |
| `DeltaSync.MergeIsSequential` | hyper-operator/internal/identity/server.go:205 | Two pending differences delivered as one have the effect of both in order. |
| `DeltaSync.NextKeepsInv` | hyper-operator/internal/identity/server.go:155-187 | Every step of index, sync loop and delivery keeps: what is in flight leads to the last push, and without a notice what was read is current. |
| `DeltaSync.SettledEngineAgrees` | hyper-operator/internal/identity/server.go:155-206 | Over every run, with coalesced notices and merged deliveries: when nothing is pending the engine holds exactly the operator's workloads and Services. |
| `DeltaSync.StepsComeToAnEnd` | hyper-operator/internal/identity/server.go:155-187 | Once the index stops changing, every step lowers a rank, so the engine catches up in boundedly many steps. |
| `DeltaSync.NeverStuck` | hyper-operator/internal/identity/server.go:155-187 | While the engine is behind, such a step is possible. |
| `DeltaSync.EngineHoldsAPublishedState` | hyper-operator/internal/identity/server.go:167-206 | In every state of every run the engine's workloads, and its Services, are what the operator held at some moment; never a mixture. |
| `EngineReplica.NextIsCanonical` | hyper-operator/internal/identity/server.go:167-206 | Every pushed, queued or merged difference is named by valid, unmapped addresses if the answers are. |
| `EngineReplica.StoringIsImporting` | internal/identity/index.go:170-189 | Storing a delivered difference, removals in any order, is storing the map received with it. |
| `EngineReplica.EngineHoldsReceived` | internal/identity/index.go:170-223 | In every state of every run, with the engine's own index beside the protocol, that index holds exactly the workloads and Services received, and its reverse map is sound. |
| `EngineReplica.EngineStaysComplete` | internal/identity/index.go:192-223 | If the operator's Services never share a cluster IP, the engine's reverse map is complete after every batch of every run. |
| `EngineReplica.AnswersAreCanonical` | hyper-operator/internal/identity/server.go:171-174 | What a valid operator index publishes is named by its own valid, unmapped address. |
| `EngineReplica.SettledLookupsAgree` | internal/identity/index.go:96-104 | When settled, a lookup in the engine's index gives, for every IP, the operator's brute-force answer, field by field; only the operator's index is assumed valid. |
| `EngineReplica.SettledServicesAgree` | internal/identity/index.go:107-115 | When settled, engine and operator give the same Service, all fields, for every cluster IP; only operator-side disjointness and completeness are assumed. |
| `CreditBucket.LevelIsLeastBudget` | internal/filters/rate_limiter/token_bucket.go:46-56 | The level of a bucket is the least budget left under any arrival curve, capped by the capacity. |
| `TokenBucket.TokenBucketStore.Eval` | internal/filters/rate_limiter/token_bucket.go:27-71 | The script on the stored hash: new entry and reply in full, other keys untouched, expired keys read as missing. |
| `TokenBucket.Ttl` | internal/filters/rate_limiter/token_bucket.go:164-171 | The TTL is at least the time the bucket needs to fill from empty. |
| `TokenBucket.ExpiredIsFull` | internal/filters/rate_limiter/token_bucket.go:164-171 | A bucket past its TTL would be full again, like a missing key. |
| `TokenBucket.ExpiryIsUnobservable` | internal/filters/rate_limiter/token_bucket.go:27-71 | Over every run every reply is the same as if keys never expired. |
| `TokenBucket.AdmittedIffCurveHasRoom` | internal/filters/rate_limiter/token_bucket.go:50-56 | Over every run a request is admitted if and only if its cost fits the bucket and, from every earlier request on, admitted cost plus its own stays within max_tokens + fill_rate * elapsed. |
| `TokenBucket.AdmittedCostIsBounded` | internal/filters/rate_limiter/token_bucket.go:46-56 | Between any two requests of any run at most max_tokens + fill_rate * elapsed is admitted. |
| `TokenBucket.TokensStayInBucket` | internal/filters/rate_limiter/token_bucket.go:48-54 | After every prefix of every run the stored level lies in [0, max_tokens], and so does every level reported. |
| `TokenBucket.DeniedResetIsExact` | internal/filters/rate_limiter/token_bucket.go:58-68 | Retrying a denied request after d whole seconds succeeds if and only if d is at least the reported reset. |
| `LeakyBucket.LeakyBucketStore.Eval` | internal/filters/rate_limiter/leaky_bucket.go:27-69 | The script on the stored hash, in full. |
| `LeakyBucket.Ttl` | internal/filters/rate_limiter/leaky_bucket.go:162-171 | The TTL is at least the time a full bucket needs to drain. |
| `RateUnits.UnitsNest` | internal/filters/rate_limiter/fixed_window.go:60-79 | A second is one, and each unit the right multiple of the one below; spelling in any case, and an unknown unit is a minute. |
| `LeakyBucket.RunsStayRelated` | internal/filters/rate_limiter/leaky_bucket.go:46-56 | Along every run the stored states of leaky and token bucket mirror each other: tokens = capacity - water. |
| `LeakyBucket.LeakyIsMirroredToken` | internal/filters/rate_limiter/leaky_bucket.go:27-69 | Along every run each reply is the token bucket's: same decision, same reset, mirrored level, including denials that write nothing. |
| `LeakyBucket.PouredIsSpent` | internal/filters/rate_limiter/leaky_bucket.go:50-56 | Both admit the same total cost over every span. |
| `LeakyBucket.PouredCostIsBounded` | internal/filters/rate_limiter/leaky_bucket.go:50-56 | Any span admits at most capacity plus what leaks meanwhile. |
| `SlidingLog.SlidingLogStore.Eval` | internal/filters/rate_limiter/sliding_window_log.go:30-57 | The script on the sorted set, in full, with the oldest entry found by scanning. |
| `SlidingLog.Oldest` | internal/filters/rate_limiter/sliding_window_log.go:46 | Returns the least score, and nothing only for an empty set. |
| `SlidingLog.ExpireSeconds` | internal/filters/rate_limiter/sliding_window_log.go:43 | The expiry covers the window and less than a second more. |
| `SlidingLog.CountedIsWindow` | internal/filters/rate_limiter/sliding_window_log.go:37-39 | After expiry and trimming at any later time the set holds exactly the members admitted in that window, each with its latest time: EXPIRE removes nothing that still counts. |
| `SlidingLog.RunIsFaithful` | internal/filters/rate_limiter/sliding_window_log.go:37-44 | Along every run, whatever members requests bring, the stored set is the members admitted in the current window. |
| `SlidingLog.AdmittedIffWindowHasRoom` | internal/filters/rate_limiter/sliding_window_log.go:41-44 | Over every run a request is admitted if and only if fewer than limit different members were admitted in the window that ends with it. |
| `SlidingLog.EveryWindowIsBounded` | internal/filters/rate_limiter/sliding_window_log.go:30-57 | Every half-open interval of one window length, wherever it starts, holds at most limit different admitted members. |
| `SlidingLog.CountsRequestsIffDistinct` | internal/filters/rate_limiter/sliding_window_log.go:37-44 | Exact condition: over every run the script counts the requests admitted in the window if and only if no two of them brought the same member. |
| `SlidingLog.DistinctAreCounted` | internal/filters/rate_limiter/sliding_window_log.go:204-224 | If every request has its own member, both results hold for requests counted one by one. |
| `SlidingLog.SharedMemberSharesPlace` | internal/filters/rate_limiter/sliding_window_log.go:214-224 | Requests with one member at one time are all admitted, however many, once the limit is above one. |
| `SlidingLog.DeniedResetIsExact` | internal/filters/rate_limiter/sliding_window_log.go:46-55 | A retry after d milliseconds is admitted if and only if d is at least the reported reset. |
| `FixedWindow.FixedWindowExecutor.Evaluate` | internal/filters/rate_limiter/fixed_window.go:82-267 | The loop over policies with its L1 cache, against a function of the stored state; state and decision in full. |
| `FixedWindow.KeyMatchesOnlyItsDimension` | internal/filters/rate_limiter/fixed_window.go:96-133 | A key determines which policies of its dimension match it. |
| `FixedWindow.ChargedByOwner` | internal/filters/rate_limiter/fixed_window.go:96-140 | First match per dimension charges a key to the same policy whatever request asks. |
| `FixedWindow.ChargeAgrees` | internal/filters/rate_limiter/fixed_window.go:184-256 | One policy charged with and without the cache gives the same outcome, and a cached key implies a Redis count at or above the limit. |
| `FixedWindow.RunsAgree` | internal/filters/rate_limiter/fixed_window.go:184-248 | That relation holds along every run with monotone time, costs of at least one and arbitrary cache eviction. |
| `FixedWindow.CacheIsInvisible` | internal/filters/rate_limiter/fixed_window.go:184-248 | Over every such run every decision with the cache equals the decision without it. |
| `FixedWindowTotals.KeysDiffer` | internal/filters/rate_limiter/fixed_window.go:96-182 | A request charges different policies under different keys, so it counts at most once per key. |
| `FixedWindowTotals.LoopCountsReached` | internal/filters/rate_limiter/fixed_window.go:101-257 | The policy loop blocks exactly if some enforced policy it charges is exceeded, and adds its cost to exactly the keys of the policies it reaches. |
| `FixedWindowTotals.CounterIsTotal` | internal/filters/rate_limiter/fixed_window.go:197-206 | For any list of policies, along every run, the counter of every open window is the total cost of the requests that reached the policy owning the key. |
| `FixedWindowTotals.BlockedIffSomeTotalExceedsLimit` | internal/filters/rate_limiter/fixed_window.go:220-248 | For any list of policies, cache or not, a request is blocked if and only if for one of the enforced policies it charges the window total with its own cost exceeds the limit. |
| `FixedWindowReports.LoopReportsLeast` | internal/filters/rate_limiter/fixed_window.go:101-257 | What the policy loop reports: the first policy exceeded, else the one with the least left. |
| `FixedWindowReports.DecisionsTellTheTruth` | internal/filters/rate_limiter/fixed_window.go:197-257 | Over every run, for any policies, cache or not: a block reports the limit of the first policy exceeded and nothing left, any other decision the limit and remainder of the charged policy with the least left; both the seconds to the end of its window. |
| `FixedWindowReports.CachedIffExhausted` | internal/filters/rate_limiter/fixed_window.go:224-248 | A block is cached if and only if an enforced policy is exceeded by a request of cost one or was exhausted before; a cached key blocks uncharged to the end of its window. |
| `FixedWindowReports.NothingStaleIsKept` | internal/filters/rate_limiter/fixed_window.go:197-206 | After a request neither Redis nor the cache holds a key past its time. |
| `RequestCost.WithDefaults` | internal/filters/rate_limiter/filter.go:74-77 | The fallback cost is at least one, a good one is kept, and so are the other settings. |
| `RequestCost.Cost` | internal/filters/rate_limiter/filter.go:119-132 | The cost is at least one if and only if the feature is off, the fallback is at least one or the header is a number of at least one; it never exceeds the cap. |
| `RequestCost.CostOf` | internal/filters/rate_limiter/filter.go:70-132 | Once defaults are applied the cost is at least one for every header. |
| `HeaderOverlay.UpsertHeader` | internal/engine/context.go:275-283 | The loop overwrites the first occurrence or appends. |
| `HeaderOverlay.RemoveHeader` | internal/engine/context.go:286-294 | The loop removes the first occurrence by swapping in the last. |
| `HeaderOverlay.AppendKey` | internal/engine/context.go:305-310 | Appends a name that is not there yet. |
| `HeaderOverlay.RemoveKey` | internal/engine/context.go:312-320 | Removes a name by swapping in the last. |
| `HeaderOverlay.ContainsKey` | internal/engine/context.go:296-303 | Finds a name if and only if it is listed. |
| `HeaderOverlay.UpsertedLists` | internal/engine/context.go:275-283 | On a duplicate-free list that holds a map, the edit is the map update; no duplicates arise. |
| `HeaderOverlay.WithoutHeaderLists` | internal/engine/context.go:286-294 | On such a list, swap-with-last is removal from the map. |
| `HeaderOverlay.WithoutNameLists` | internal/engine/context.go:312-320 | Likewise for the list of names. |
| `HeaderOverlay.RequestContext.GetHeader` | internal/engine/context.go:176-184 | Reads the header exactly as it will be sent upstream. |
| `HeaderOverlay.RequestContext.GetResponseHeader` | internal/engine/context.go:198-207 | Reads the response header as it will be sent to the client, under any case of the name. |
| `HeaderOverlay.RequestContext.SetHeaderUpstream` | internal/engine/context.go:216-221 | Lists stay duplicate-free and disjoint, shadow equals the set list, and the overlay gains exactly this value. |
| `HeaderOverlay.RequestContext.RemoveHeaderUpstream` | internal/engine/context.go:223-228 | Likewise for a removal. |
| `HeaderOverlay.RequestContext.SetHeaderDownstream` | internal/engine/context.go:230-235 | Likewise for the response. |
| `HeaderOverlay.RequestContext.RemoveHeaderDownstream` | internal/engine/context.go:239-244 | Likewise for the response. |
| `HeaderOverlay.RequestContext.SetPath` | internal/engine/context.go:211-214 | Path and `:path` change together. |
| `HeaderOverlay.BuildHeaderMutation` | internal/grpc/mutators.go:14-40 | Nothing to do gives no mutation; otherwise the lists go out unchanged and in order. |
| `HeaderOverlay.MutationMeansOverlay` | internal/grpc/mutators.go:14-40 | Applying the built mutation to the original headers gives exactly what filters read, whether sets or removals are applied first. |
| `HeaderOverlay.WritesAreRead` | internal/engine/context.go:211-245 | A header that was set is read and sent with its value, a removed one is not there, and others stay. |
| `HeaderOverlay.ReadsAreCaseSensitive` | internal/engine/context.go:176-184 | A request read sees the sent value if and only if the name is lower-case or that value is empty. |
| `HeaderOverlay.TouchedGrows` | internal/engine/context.go:216-228 | No sequence of edits forgets a header an earlier mutation decided about. |
| `HeaderOverlay.ResendingIsHarmless` | internal/grpc/handlers.go:313-325 | Sending the growing mutation again in every phase gives the headers that sending the last one alone gives, for every run of phases. |
| `ChainExecution.PhaseSupported` | internal/engine/executor.go:113-120 | Finds a phase if and only if it is declared. |
| `ChainExecution.Context.ExecuteAudited` | internal/engine/executor.go:87-110 | Records, rolls back and unblocks a denial or failure; lets answers through; the new state in full. |
| `ChainExecution.Context.ExecuteChain` | internal/engine/executor.go:21-82 | The loop over the chain: phase gating, stop at a block, failure as 500, against a recursive definition. |
| `ChainExecution.Context.Unblock` | internal/engine/audit.go:71-76 | Clears the whole verdict. |
| `ChainExecution.AuditIsTraceless` | internal/engine/executor.go:21-110 | For every chain and phase, deleting the recorded links changes nothing but the record. |
| `ChainExecution.AuditNoninterference` | internal/engine/executor.go:21-110 | Executing a chain of proper links equals executing it without the audited filters that deny or fail: same path, headers, block, answer, failure and blocking filter, with one hit per filter left out, in order. |
| `ChainMeaning.LinkIsSkipped` | internal/engine/executor.go:40-47 | A filter that does not declare the phase does nothing; one that declares none counts for request headers only. |
| `ChainMeaning.LinkIsEnforced` | internal/engine/executor.go:48-82 | An enforced link hands on what its filter made of the request; if that fails, a 500 with the filter's position. |
| `ChainMeaning.LinkIsAudited` | internal/engine/executor.go:84-110 | An audited link that denies or fails leaves path, headers and verdict as if it had not run and is recorded with its status; an answer is enforced. |
| `ChainMeaning.ChainsCompose` | internal/engine/executor.go:21-82 | A chain is its first part and then, unless that blocks or fails, its second on what the first handed on. |
| `ChainMeaning.OnlyLinksForPhaseRun` | internal/engine/executor.go:40-47 | A chain does in a phase exactly what its links for that phase do. |
| `ChainMeaning.UndeclaredRunOnHeadersOnly` | internal/engine/executor.go:40-47 | A chain of filters without declared phases leaves every later phase untouched. |
| `AuditExactness.AuditedAloneLeavesNoTraceIff` | internal/engine/executor.go:84-110 | Audited alone, a filter leaves no trace on any request if and only if its denying or failing runs in that phase write only what audit mode saves. |
| `AuditExactness.NoTraceInChainsIffProper` | internal/engine/executor.go:21-110 | Exact condition: a link leaves no trace in any chain of otherwise proper links, on any request, if and only if it is proper in that phase (leaves no verdict unless it blocks or fails; if audited, writes only saved fields when denying or failing). |
| `AuditExactness.PendingVerdictIsLost` | internal/engine/audit.go:70-76 | A verdict left behind without a block is cleared by a later audited denial. |
| `AuditExactness.TameIsNeeded` | internal/engine/audit.go:70-76 | Concrete filter that writes nothing unsaved and still leaves a trace. |
| `ExtProcStream.CopyHeaders` | internal/grpc/handlers.go:445-465 | Names lower-cased, repeated headers folded in order, cookies with their own separator. |
| `ExtProcStream.FoldedIsLower` | internal/grpc/handlers.go:445-465 | Only lower-case names are ever stored. |
| `Text.LowerLetters` | internal/grpc/handlers.go:451 | Lower-casing maps each capital to its small letter and changes nothing else. |
| `ExtProcStream.Stream.Resolve` | internal/grpc/handlers.go:101-135 | Routes once, by a function of the request; no policy, an unknown caller or a missing chain blocks with 503. |
| `ExtProcStream.Stream.Run` | internal/grpc/handlers.go:137-189 | Skips a blocked request, handles overload and deadline by the chain's settings; the new state in full. |
| `ExtProcStream.Stream.HandleRequestHeaders` | internal/grpc/handlers.go:238-292 | Receive, resolve, run, then the verdict or the header changes to go on with, as one function of the state. |
| `ExtProcStream.Stream.HandleRequestBody` | internal/grpc/handlers.go:295-326 | Likewise; marks the body as seen and sends the header changes again with the body changes. |
| `ExtProcStream.Stream.HandleRequestTrailers` | internal/grpc/handlers.go:329-352 | Likewise. |
| `ExtProcStream.Stream.HandleResponseHeaders` | internal/grpc/handlers.go:355-391 | Likewise, with the check for a body that never came. |
| `ExtProcStream.Stream.HandleResponseBody` | internal/grpc/handlers.go:394-419 | Likewise. |
| `ExtProcStream.Stream.HandleResponseTrailers` | internal/grpc/handlers.go:422-443 | Likewise; never an immediate response. |
| `ExtProcStream.Stream.ImmediateResponse` | internal/grpc/handlers.go:216-235 | Status and body of the block, 403 if no status was set, with the header changes meant for the client. |
| `ExtProcStream.Stream.Process` | internal/grpc/server.go:168-239 | The message loop: final state and all replies as functions of the message sequence. |
| `ExtProcStream.RoutedOnce` | internal/grpc/handlers.go:101-135 | Over every message sequence routing is decided by the first message, at most once, against the pinned snapshot. |
| `ExtProcStream.FirstMessageFailsClosed` | internal/grpc/handlers.go:101-135 | A first message that is let through had a policy, a known caller and an existing chain or none at all. |
| `ExtProcStream.ProceedingMeansAllowed` | internal/grpc/handlers.go:137-189 | A message goes on only if the chain did not block, or the chain's own settings say to go on after overload or timeout. |
| `ExtProcStream.BlockIsFinal` | internal/grpc/handlers.go:137-140 | After a handler ends blocked, over every continuation no chain is executed again and the verdict stands. |
| `ExtProcStream.BlockedIsAnswered` | internal/grpc/handlers.go:278-443 | Every later message except response trailers is answered with that verdict. |
| `ExtProcStream.UninspectedNeverPasses` | internal/grpc/handlers.go:366-379 | Over every message sequence: if a filter asked for the body, the request has one and none arrived, response headers are not let through. |
| `StreamReplies.RepliesMeanWhatFiltersRead` | internal/grpc/handlers.go:237-440 | Over every message sequence, a reply that lets a message go on makes the proxy send what filters read: request headers with the upstream changes, response headers with the downstream changes, trailers with theirs, and a body replaced if and only if that body was modified. |
| `StreamReplies.AnswersMeanTheBlock` | internal/grpc/handlers.go:216-235 | Over every message sequence, a blocked request is answered with the status and text of the block, by default 403, and the headers set for the client. |
| `StreamReplies.StreamStaysTidy` | internal/grpc/mutators.go:14-41 | Over every message sequence the header lists and the maps filters read agree. |
| `StreamMeaning.MessageIsSeen` | internal/grpc/handlers.go:237-440 | What filters see of each message: which headers, path or body it changes. |
| `StreamMeaning.OneMoreHeader` | internal/grpc/handlers.go:446-465 | Each received header goes under its lower-case name, after any value already there, cookies joined as cookies are. |
| `StreamMeaning.ChainIsGiven` | internal/grpc/handlers.go:101-135 | A stream is given the chain its route names once; no policy, an unknown caller or a missing chain is a 503, no route is no chain. |
| `StreamMeaning.TooManyRequests` | internal/grpc/handlers.go:141-157 | Over the concurrency limit a request goes on untouched if the chain says allow, else is a 503 with retry-after. |
| `StreamMeaning.ChainRunsOnce` | internal/grpc/handlers.go:159-189 | Otherwise the chain runs once and its decision stands, unless it failed past its deadline: then the block is lifted or is a 503, as the chain says. |
| `StreamMeaning.RefusedIffMissing` | internal/grpc/handlers.go:366-373 | Response headers, and nothing else, are refused with 500, and only while a body that was asked for is missing. |
| `AuditedStreams.ExecuteIsBare` | internal/engine/executor.go:21-110 | What the engine records about a request never influences what a chain does to it. |
| `AuditedStreams.StreamStaysInOrder` | internal/grpc/handlers.go:137-189 | Over every message sequence a request that goes on carries no verdict, also after an allowed timeout. |
| `AuditedStreams.StreamNoninterference` | internal/engine/executor.go:84-110 | Over every message sequence the replies are those of a stream that leaves out, in each message, exactly the audited filters that deny or fail there. |
| `SteadyFilters.HandedOnIsAuditableIffSteady` | internal/grpc/handlers.go:168-173 | Exact condition: whatever a proper filter hands on when its chain may be let through as too slow can be audited without a trace, by every chain of proper filters, if and only if it never fails after it answered. |
| `SteadyFilters.SteadyIsNeeded` | internal/grpc/handlers.go:168-173 | Concrete streams of proper links: after an allowed timeout of a filter that had answered, an audited denial is enforced, and leaving out a recorded filter changes a reply. |
| `AuditedStreams.ObserversAreInvisible` | internal/engine/executor.go:84-110 | Over every message sequence, taking audited filters that otherwise leave the request alone out of the policy changes no reply. |
| `AuditedFirewall.FirewallIsProper` | internal/filters/firewall/firewall.go:101-112 | The firewall is proper if its sidecar call is: asking for the body is not a denial. |
| `AuditedFirewall.AskersRun` | internal/engine/executor.go:21-110 | A chain with audited firewalls at any positions does what the chain without them does, and asks for the body exactly if it gets as far as one of them on headers that announce a body. |
| `AuditedFirewall.AskersAreInvisible` | internal/grpc/handlers.go:366-373 | In every stream under any policy, as long as no response arrives while a body asked for is missing, audited firewalls change no reply. |
| `AuditedFirewall.RefusalShows` | internal/grpc/handlers.go:366-373 | The first such response is answered with 500, and not so without the firewalls. |
| `AuditedFirewall.AskersShowIffRefused` | internal/grpc/handlers.go:366-373 | Exact condition for policies with audited firewalls anywhere among other filters: replies with and without them are the same if and only if no response arrives while a body asked for is missing, judged by the stream without them. |
| `AuditedFirewall.AuditedFirewallShowsIffWithheld` | internal/filters/firewall/firewall.go:98-112 | Exact condition on the messages alone for one audited firewall: the replies of every message sequence are those without it if and only if no response headers come after headers that announced a body and before that body. |
| `AuditedFirewall.AuditedFirewallStillRefuses` | internal/grpc/handlers.go:366-373 | Concrete case: a body an audited firewall asked for and never saw makes the engine answer 500, while without the filter the response goes through. |
| `ChainLimiter.NextKeepsInv` | internal/grpc/handlers.go:204-213 | Every atomic step, each request with the limit of its own snapshot, keeps the counter equal to the counted requests and the winners within the greatest limit. |
| `ChainLimiter.LimitHolds` | internal/grpc/handlers.go:191-213 | In every interleaving of requests that share a counter under different limits, no more run a chain's filters at once than the greatest limit allows. |
| `ChainLimiter.RefusedIffFull` | internal/grpc/handlers.go:204-211 | A request is refused if and only if as many requests as its own limit are counted as it enters; if let in, it finds fewer than that running. |
| `ChainLimiter.RefusedWhileIdle` | internal/grpc/handlers.go:204-211 | Concrete interleaving in which a request is refused while none runs. |
| `Selectors.Compile` | internal/selector/selector.go:339-384 | Rejects exactly the lists with a malformed, misplaced or unsupported selector; otherwise each table holds exactly the selectors of its kind. |
| `Selectors.Match` | internal/selector/selector.go:471-496 | The scan over addresses, blocks and hosts decides the network part. |
| `Selectors.MatchesLabels` | internal/selector/selector.go:430-440 | The loop decides the label condition. |
| `Selectors.MatchSource` | internal/selector/selector.go:398-428 | The branches and loops decide the source tables. |
| `Selectors.MatchDestination` | internal/selector/selector.go:444-458 | The loop decides the destination tables. |
| `Selectors.SourceSetIsItsList` | internal/selector/selector.go:394-440 | For every caller a compiled set matches if and only if some selector of its list does on its own. |
| `Selectors.DestinationSetIsItsList` | internal/selector/selector.go:442-496 | For every target likewise. |
| `SelectorMeaning.BlockIsRange` | internal/selector/selector.go:168-185 | A CIDR block is the range of addresses of its family that starts at its first address. |
| `SelectorMeaning.SuffixIsText` | internal/selector/selector.go:487-496 | A host suffix selects exactly the hosts with something before it. |
| `SelectorMeaning.SourceMeans` | internal/selector/selector.go:398-441 | What each kind of selector asks of a caller. |
| `SelectorMeaning.DestinationMeans` | internal/selector/selector.go:444-499 | What each kind of selector asks of a target. |
| `SelectorMeaning.AcceptedWhere` | internal/selector/selector.go:111-156 | Which kinds are accepted for callers and for targets, with and without a workload map. |
| `Router.Matches` | internal/router/matcher.go:77-126 | All conditions of a match, decided step by step. |
| `Router.RouteWith` | internal/router/matcher.go:31-74 | The first matching route wins; without one the target is the chain of the traffic class if set, else the default chain, else the last resort. |
| `RouteRules.LowerNames` | hyper-operator/internal/routes/routes.go:81-87 | Lower-cased names, each with the value of one of the names it stands for, whatever the map order. |
| `RouteRules.CompileMatch` | hyper-operator/internal/routes/routes.go:59-109 | Writes out a rule if and only if it is valid, unchanged but for traffic and header names. |
| `RouteRules.ParseMatch` | internal/config/parser.go:168-200 | The engine compiles every readable match and keeps what it says. |
| `RouteRules.WrittenIsReadable` | internal/config/routing.go:87-102 | What the operator accepts, the engine accepts. |
| `RouteRules.CompilationKeepsMeaning` | hyper-operator/internal/routes/routes.go:59-96 | Written and read back, a match matches every request its rule matches; and no other, if header names that differ only in case ask for the same. |
| `RouteRules.LoweringKeepsMeaning` | hyper-operator/internal/routes/routes.go:81-87 | Folding header names keeps the meaning if colliding names ask for the same. |
| `RouteRules.CollidingNamesWiden` | hyper-operator/internal/routes/routes.go:81-87 | The other half: if colliding names ask for different values, some way to fold them matches a request the rule excludes. |
| `RouteCompiler.CompileChain` | hyper-operator/internal/controller/hyperchain_master_compiler.go:232-401 | Compiles if and only if every filter exists and the limits make sense; filters in order, audit by reference before chain. |
| `RouteCompiler.CompileChains` | hyper-operator/internal/controller/hyperchain_master_compiler.go:231-428 | Every HyperChain is in the config under its name, compiled or denying; nothing else is; limits only for chains that compiled. |
| `RouteCompiler.CompileRoute` | hyper-operator/internal/routes/routes.go:35-57 | A route compiles if and only if target and all matches are valid. |
| `RouteCompiler.CompileRoutes` | hyper-operator/internal/controller/hyperchain_master_compiler.go:430-458 | The valid routes, in order; a route to a missing chain gets a denying one and no existing chain changes. |
| `RouteCompiler.ConfigChains` | hyper-operator/internal/controller/hyperchain_master_compiler.go:460-475 | Missing fallback chains deny; the table shared by all HyperConfigs is never changed although it is passed by reference. |
| `RouteCompiler.ValidateChainReferences` | internal/config/parser.go:270-293 | Accepts if and only if every route target and every fallback is defined. |
| `RouteCompiler.CompiledConfigPasses` | internal/config/parser.go:224-293 | Whatever the cluster holds, the compiled config passes the engine's checks of matches, limits and references. |
| `RouteCompiler.Reconcile` | hyper-operator/internal/controller/hyperchain_master_compiler.go:157-514 | All of it: one accepted config per namespace, from one shared policy. |
| `RoutingRefinement.ParseConfig` | internal/config/parser.go:168-239 | The engine loads every config that passes; what it loads has the written routes, good limits for existing chains and defined references. |
| `RoutingRefinement.RouteRefines` | hyper-operator/internal/routes/routes.go:35-96 | The loaded route matches what its HyperRoute applies to, and no more if its header names agree. |
| `RoutingRefinement.FirstIsBest` | hyper-operator/internal/controller/hyperchain_master_compiler.go:157-161 | In any order with priorities descending, the first match comes from a HyperRoute of the highest priority among those that apply. |
| `RoutingRefinement.NothingFallsThrough` | internal/router/matcher.go:34-55 | A request some valid HyperRoute applies to never gets a default chain, whatever its header names. |
| `RoutingRefinement.FoldedCompilation` | hyper-operator/internal/routes/routes.go:81-87 | What the operator writes is what it would write of the same HyperRoutes with header names folded in some way. |
| `RoutingRefinement.RouteThroughCluster` | hyper-operator/internal/controller/hyperchain_master_compiler.go:157-511 | Compile, load, route: every request gets the chain of a valid HyperRoute of the highest priority that applies under one-by-one selectors, else the default of its class. Header names count as folded in some way; as written, if names that collide ask for the same. The chain is the compiled HyperChain, or denies if it is missing or degraded. |
| `HeaderCollisions.FoldingCompiles` | hyper-operator/internal/routes/routes.go:81-87 | A valid rule can be written and loaded with any folding of its header names. |
| `HeaderCollisions.CollidingRouteMisroutes` | hyper-operator/internal/routes/routes.go:81-87 | A route whose colliding names ask for different values can be compiled so that a request it excludes goes to its chain. |
| `HeaderCollisions.RoutesRightlyIffNamesAgree` | hyper-operator/internal/controller/hyperchain_master_compiler.go:157-511 | Exact condition for a route with one rule that some request can meet apart from headers: every compilation sends every request where the route says if and only if names that differ only in case ask for the same. |
| `IdentityResolution.ResolveIdentity` | internal/grpc/handlers.go:65-87 | Caller, class and target of a request from the index, in the source's order of preference. |
| `IdentityResolution.TrafficOf` | internal/grpc/handlers.go:65-76 | The class is always settled; without one from the proxy it is east-west exactly if the caller is an indexed pod. |
| `IdentityResolution.FullHostNamesItsService` | internal/identity/index.go:269-279 | The full local host name of a Service leads back to it. |
| `IdentityResolution.SettledCallersAreTrue` | internal/grpc/handlers.go:65-76 | When settled, caller and inferred class are what the operator's base tables say about the client address. |
| `ResolutionMeaning.CallerIsKnown` | internal/grpc/handlers.go:70-73 | The caller is the workload stored for the client address, mapped or not, and nothing else. |
| `ResolutionMeaning.TrafficIsSettled` | internal/grpc/handlers.go:65-76 | The class is the proxy's, else east-west if and only if the caller is a known pod. |
| `ResolutionMeaning.UnknownIff` | internal/grpc/handlers.go:113-121 | A caller is refused as unknown if and only if the proxy says east-west, the index does not know the address and the config does not admit unknown callers. |
| `ResolutionMeaning.TargetIsResolved` | internal/grpc/handlers.go:78-86 | The target is the Service of the cluster IP, else those of the pod called, else the one the host names. |
| `ResolutionMeaning.HostNamesIffSpells` | internal/identity/index.go:269-279 | A host names a Service if and only if it spells its cluster-local name in one of four ways. |
| `ClusterServing.DegradedIsDenial` | internal/filters/deny/deny.go:38-81 | Loading a degraded chain gives exactly one enforced, unconditional 503. |
| `ClusterServing.BrokenTargetDenies` | hyper-operator/internal/controller/hyperchain_master_compiler.go:403-451 | A target without a working HyperChain has the denying chain in every compiled config, and no limits that could let it pass. |
| `ClusterServing.DenyingChainAnswers503` | internal/filters/deny/deny.go:95-103 | A stream routed to such a chain answers the request headers with 503. |
| `ClusterServing.UnknownCallerAnswers503` | internal/grpc/handlers.go:113-121 | So does a stream whose east-west caller must be known and is not. |
| `ClusterServing.ServeThroughCluster` | hyper-operator/internal/controller/hyperchain_master_compiler.go:157-511 | From cluster objects to the reply: compile, load, resolve the caller, route as the HyperRoutes say, header names as above; a missing or broken policy, or an unknown caller, is answered with 503. |
| `ServedPolicy.TypesAreNamed` | hyper-operator/internal/controller/hyperchain_master_compiler.go:157-360 | Which engine filter each kind of filter object becomes. |
| `ServedPolicy.CompilesIff` | hyper-operator/internal/controller/hyperchain_master_compiler.go:654-675 | A HyperChain compiles if and only if its filters are of known kinds and exist and its timeout is positive. |
| `ServedPolicy.SettingsAcceptedIff` | internal/config/chain.go:48-70 | Which limits the engine accepts. |
| `ServedPolicy.DenyFilterDenies` | internal/filters/deny/deny.go:38-81 | A deny filter without conditions blocks every request with its status and text, by default 403 and Forbidden. |
| `ServedPolicy.ServedAsDeclared` | hyper-operator/internal/controller/hyperchain_master_compiler.go:644-675 | From the cluster to the snapshot: a HyperChain that compiles is loaded with its filters in order, audited as declared, and the engine enforces exactly its limits. |

## Left out

- gRPC, TLS, Kubernetes clients and informers, file watching, probes, metrics and logging: input and output only.
- Health checks of Redis clients: they start and stop with the clients whose lifetimes are modelled.
- The other filters (JWT, API key, external auth, CORS, correlation, enricher) and the firewall's sidecar call: external calls, here any filter.
- The sliding window counter (`internal/filters/rate_limiter/sliding_window.go`): its cache holds a block to the end of the window while the estimate in Redis decays, so cached and uncached decisions differ.
- Local block caches of token bucket, leaky bucket and sliding log: their blocks are rounded up to whole seconds and may outlast the denial in Redis, so they do not agree exactly.
- Redis outages and the fail-open branches of the limiters, floating-point rounding and decimal formatting of Lua arguments.
- Trailer edits: they use the same list operations as headers, without a shadow map.
- Reconnects of the identity stream, resource versions and authentication: the delivery is one in-order stream that may merge differences.
- The sort of rate limit descriptors when a limiter is built: what is proved holds for every order of policies.
- Mode overrides in replies, which only ask the proxy for later messages.
- Messages of an unknown kind and send errors: both end the stream.
- Parsing of selector text, host normalisation and the client address: they precede what is modelled.
- Writing of ConfigMaps and object statuses, and the translation of filter specs into options.
- ChainExecution.AuditNoninterference: assumes proper links; `NoTraceInChainsIffProper` shows that this is exactly what is needed.
- AuditedStreams.StreamNoninterference: assumes proper links and, only for chains that are let through on a timeout, that an enforced filter that fails does not mark the request as answered; `HandedOnIsAuditableIffSteady` shows that a filter has to be like that.
- AuditedFirewall.AskersShowIffRefused: assumes that the other filters do the same whether or not the body is asked for, and that none of them answers response headers with 500, because that answer could be the same as the refusal. A chain of nothing but firewalls has no concurrency limit, since an empty chain cannot have one.
- StreamReplies.RepliesMeanWhatFiltersRead: assumes that filters edit headers through the operations of the request context, which keep lists and maps in step.
- HeaderCollisions.RoutesRightlyIffNamesAgree: is about one route with one rule; with more, another rule or route may match the same requests anyway.
- ClusterServing.ServeThroughCluster: takes the addresses, host and class of a request as a function of it.
- ExtProcStream.Stream.Resolve: takes routing and the check for unknown callers as functions of the request; `ClusterServing.Loaded` fills them in from the loaded config and the identity index.
- EngineReplica.SettledServicesAgree: assumes the operator's own reverse map complete at the end; `OperatorIndex.ReverseMapStaysComplete` derives that from disjointness.
- FixedWindow.FixedWindowExecutor.Evaluate: does not model overflow of the 64-bit Redis counter; limits are 32-bit in the source, so the remaining quota never truncates.
