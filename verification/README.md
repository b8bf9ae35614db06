# A verified model of the Avi Kubernetes controller

The controller watches Services and Endpoints and keeps Avi pools and virtual services in step with them. This
project models the parts of it whose correctness depends on one another, and proves what they keep over whole runs:

- **Reconciliation, one sync at a time** (`Sync`, `Runs`, `Guarantees`, `Convergence`, `Deletions`, `Crashes`, `Outcomes`,
  `Retries`, `Witness`):
  a service sync, a service deletion and an endpoints sync over three caches and a remote store. Requests fail as an
  oracle pleases, before or after taking effect. `Runs.RunInv` is the invariant of every sequential run.
- **Two workers interleaved** (`Interleaving`, `ServiceAlone`, `EndpointsAlone`, `SerialRuns`, `Separation`,
  `SeparateServices`, `Rollbacks`, `CrashTurns`, `Races`): every lister read, cache operation and request of the Service
  worker and of the Endpoints worker is a turn of its own, and the cluster changes between any two turns. Where no two
  syncs overlap, the runs of the workers are the sequential runs, no more and no less (`SerialRuns.SequentialExactly`).
  One inclusion between the caches survives all interleavings. As long as the two workers never hold the same key,
  everything else does too: `Separation.SepKeeps` is the invariant, kept key by key. Where they do hold the same key, two
  runs are exhibited that end badly, and nothing else can end a run like that.
- **The REST batch** (`Rest`, `Effects`, `Compensation`, `Answers`): ordered operations with abort marking, the reverse
  rollback loop with what it does and does not undo on the far side, and what arbitrary answers do to caches and process.
- **Pool names** (`PoolNames`, `Strings`): printing and reading back `<service>-pool-<port>-<protocol>`; exactly when it
  reads back, when it panics, and when names are distinct.
- **Pools and virtual services** (`Pools`, `VirtualServices`, `Batches`, `PostedServices`, `References`, `ServedPools`,
  `SinglePort`): port resolution, server selection, listener profiles, pool references, the HTTP policy rules with their
  shared index; and what each sync sends, told in terms of the Service and the Endpoints alone.
- **Dispatch** (`Dispatch`, `Workers`): 32-bit FNV-1a (section 2 of draft-eastlake-fnv) masked into a queue number,
  the key format, and the worker-id bit mask over all interleavings of n workers.
- **Caches and handlers in place** (`Caches`, `Reconciler`): the cache classes, and the handlers as methods that
  update them; each is proved against the value-level function of `Sync`, about which the run theorems speak.

## How the outside world enters

- *Go maps.* Ranging over a map yields an arbitrary enumeration of its keys (`Wrappers.Enumerates`); theorems hold for
  every enumeration.
- *The far side.* `Rest.Oracle` lists what happens to each request: success with a faithful echo, success with any
  response at all, or failure with or without effect. Posting creates a pool or virtual service or replaces the one
  of the same tenant and name. Deleting a virtual service may take pools of that service with it, never those of
  another. `Rest.Faithful` (a success echoes name, uuid, checksum and metadata) and `Effects.FreshUuids` (new objects
  get new uuids) are assumed where a theorem says so.
- *The cluster.* Services and Endpoints come and go, between syncs in `Runs` and between any two turns in
  `Interleaving`; a version is never used twice. A service name has no `/`, a protocol neither `-` nor `/`, and a target
  port no `/` and no marker (`Runs.CleanService`, `Runs.CleanEndpoints`). Hyphens in a port name, which section 5.1 of
  RFC 6335 allows, are fine as long as they do not spell out `-pool-`; `PoolNames.InjectiveExactly` says why that is the
  line to draw.
- *Panics.* An index out of range or a failed type assertion takes the process down; it is modelled as `Died` (or
  `panicked`), and a run ends there.

## Where the code differs from what one expects

- The comment at pkg/utils/utils.go:68-73 wants objects that map to the same Avi objects on one queue. The hashed
  string starts with the type, so with two workers a Service and its Endpoints are never on the same queue
  (`Dispatch.ServiceAndEndpointsNeverShare`), and their syncs do overlap (`Races.StaleOverlap`).
- A service name such as `car-pool-api` or `my-car-pool-api` makes the sync panic: `PoolNames.PanicsExactly` has the
  exact condition, and `Crashes.ServiceDiesExactly` shows that it decides the fate of the whole sync.
- Two services can share a pool name exactly when a port, with the hyphen before it, has the marker in it
  (`PoolNames.Collision`, `PoolNames.InjectiveExactly`).
- All servers of a pool get the port of the last matching subset (`Pools.ServersKeepTheirPort`, `Pools.NamedPortCrossed`).
- All rules of an HTTP policy set share one index (`VirtualServices.RuleNamesAndIndices`), and the virtual service of
  an all-HTTP Service with several ports refers to no pool at all (`References.WhereReferencesGo`).
- A Service with several ports refers to a pool for each of them, also for those without a ready endpoint, whose pool is
  never posted (`ServedPools.ReferencesServeExactly`, `ServedPools.UnservedSelector`).
- A single-port Service updated while its Endpoints stay the same is posted without its default pool
  (`References.DefaultPoolIffStale`; `Witness.DefaultPoolLost` is such a run).
- A deletion whose delete request has no effect is forgotten all the same: the virtual service stays behind, and nothing
  retries it (`Deletions.LeftBehind`). An endpoints sync is never retried, whatever fails
  (`Outcomes.EndpointsNeverRetried`).
- An endpoint port that leaves its protocol out asks for a tcp pool, but serves none (`Batches.UnsaidProtocol`).
- An empty list as the answer to an operation takes the process down if a later operation of the batch fails
  (`Answers.BatchDiesExactly`).
- Rollback deletes the pools it posted even where they replaced existing ones
  (`Compensation.RollbackRestoresOnlyAbsence`; `Witness.PoolLostToRollback` is such a run).
- A retry repeats the same operations, except that the default pool of a single-port Service with several pools to
  post depends on map order (`Retries.RetrySafety`, `Retries.DefaultPoolStable`; `Retries.TcpAndUdp` is such a Service).

## Model

| member | source | states |
|---|---|---|
| `Runs.StepKeeps` | controller.go:349-402 | In runs where one sync follows another, every step (objects appear, change and go; service sync, service deletion and endpoints sync with any failures) keeps the invariant tying the three caches, the far side and the versions together |
| `Runs.RunInv` | controller.go:349-402 | Every world of every such run from empty caches keeps that invariant |
| `Runs.ServiceSyncKeeps` | pkg/k8s/k8s_svc.go:50-214 | A service sync keeps it, whether skipped, failed and rolled back, or cached |
| `Runs.ServiceRollback` | pkg/k8s/k8s_svc.go:166-197 | The far side after a failed batch and its rollback still agrees with the untouched caches, or the cached version is out of date |
| `Runs.ServiceCommit` | pkg/k8s/k8s_svc.go:198-211 | Filling the caches from a batch that went through never panics, keeps the invariant and records the Service's version |
| `Runs.EndpointsSyncKeeps` | pkg/k8s/k8s_ep.go:63-269 | An endpoints sync keeps the invariant when any of its operations fail |
| `Runs.DeleteKeeps` | pkg/k8s/k8s_svc.go:220-292 | A deletion keeps the invariant, whatever the far side does with the request |
| `Runs.OneOwner` | pkg/k8s/k8s_ep.go:176-177 | A pool name with a marker-free port and a hyphen-free protocol belongs to one service |
| `Guarantees.CacheAgreement` | aviobjects/avi_obj_pool.go:119-124 | In every world of every run: (ns,p) is in the pool cache iff "service/p" is under some (ns,n); that n is unique, prints p, and its metadata is in the entry |
| `Guarantees.DeletionIsLocal` | pkg/k8s/k8s_svc.go:255-289 | Processing the key of a deleted service leaves the links, cached pools and virtual service entry of every other service as they were |
| `Guarantees.CachedPoolIsSound` | pkg/k8s/k8s_ep.go:190-212 | Sequential runs: every cached checksum is a version the Endpoints of its owner had, and the far side has the pool built from it, or the Endpoints have moved on |
| `Guarantees.SkippedPoolIsCurrent` | pkg/k8s/k8s_ep.go:200-203 | Sequential runs: a pool skipped by the checksum comparison is on the far side exactly as the current Endpoints give it |
| `Guarantees.SkippedServiceIsCurrent` | pkg/k8s/k8s_svc.go:59-69 | A Service skipped by the version comparison has on the far side a virtual service built from that very version; its default pool, if any, is linked to the service and on the far side |
| `Guarantees.MetadataStability` | pkg/k8s/k8s_ep.go:146-172 | Whatever order the links are ranged over, an endpoints sync requests the same multiset of operations, all with the metadata "ns:name" |
| `Guarantees.EndpointsRetry` | pkg/k8s/k8s_ep.go:258-265 | Syncing the same Endpoints again requests exactly the pools whose operation failed or was aborted |
| `Guarantees.EndpointsConverge` | pkg/k8s/k8s_ep.go:258-265 | After an endpoints sync without failures every linked pool is cached at, and on the far side built from, the current Endpoints |
| `Guarantees.EndpointsIdempotent` | pkg/k8s/k8s_ep.go:190-203 | The next sync of the same Endpoints changes nothing and issues nothing |
| `Convergence.ServiceConverge` | pkg/k8s/k8s_svc.go:198-211 | After a successful service sync the far side has the virtual service built from this Service, whose default pool, if any, is linked and there, and, for every ready port, a linked pool built from the current Endpoints |
| `Convergence.ServiceIdempotent` | pkg/k8s/k8s_svc.go:59-69 | The next sync of the same Service version changes nothing and issues nothing, whatever the Endpoints are |
| `Deletions.DeletionReaches` | pkg/k8s/k8s_svc.go:239-253 | A deletion whose lookup fails changes nothing and is retried; any other sends two requests and ends without error. If the second applies, the virtual service of the key is gone from the far side, with those of its own pools the far side chose, and nothing else is; if not, the far side is as it was |
| `Deletions.OthersKeepTheirPools` | pkg/k8s/k8s_svc.go:244-247 | No deletion takes a pool of another service from the far side |
| `Deletions.LeftBehind` | pkg/k8s/k8s_svc.go:247-253 | After a deletion the cache entry is gone; the virtual service is left on the far side iff it was there and the delete request had no effect |
| `Convergence.DeletedIsForgotten` | pkg/k8s/k8s_svc.go:264-289 | After a deletion no virtual service entry, no link and no pool of the service is cached |
| `Convergence.RecreatedPostsAll` | pkg/k8s/k8s_svc.go:264-289 | A re-created Service is not skipped: one pool per ready port is posted, in order, and the virtual service last |
| `Crashes.ServiceDiesExactly` | pkg/k8s/k8s_svc.go:86-89 | In every world, a service sync takes the process down iff it is not skipped and either the Service has no port for an unnamed endpoint port or a ready port gives a pool name on which the parser panics |
| `Crashes.ServiceGoesThrough` | pkg/k8s/k8s_svc.go:166-213 | One that does not die ends without error iff every request succeeds |
| `Crashes.EndpointsDieExactly` | pkg/k8s/k8s_ep.go:86-127 | In every world, an endpoints sync takes the process down iff its Service has no ports and its first ready port has no name |
| `Crashes.DeletionNeverDies` | pkg/k8s/k8s_svc.go:264-283 | A deletion never indexes past the end of a link |
| `Outcomes.ServiceRetriedExactly` | pkg/k8s/k8s_svc.go:50-57 | A service sync that survives is retried iff its Endpoints are not listed, or it is not skipped and one of the requests of its batch fails |
| `Outcomes.EndpointsNeverRetried` | pkg/k8s/k8s_ep.go:258-269 | An endpoints sync is never retried, whatever fails; without its Service it is passed over |
| `Outcomes.FailedSyncUndone` | pkg/k8s/k8s_svc.go:166-197 | A failed service sync leaves the caches alone; if the deletes of its rollback apply, no pool it had posted is on the far side, and no pool it does not name has changed |
| `Witness.SyncedRunExists` | pkg/k8s/k8s_svc.go:50-214 | For every single-port Service whose ready endpoint ports all resolve to one pool with a readable name there is a run that ends with it linked, cached and on the far side |
| `Witness.DefaultPoolLost` | pkg/k8s/k8s_svc.go:130-149 | A run in which a Service is updated, its Endpoints are not, and its virtual service loses its default pool although the pool is there |
| `Witness.PoolLostToRollback` | pkg/k8s/k8s_svc.go:170-192 | A run in which a failed sync deletes a pool that existed before it |
| `Retries.RetrySafety` | pkg/k8s/k8s_svc.go:166-213 | A failed service sync changes no cache and requeues; a retry under any map orders posts the same multiset of pools and, up to the order of selectors and routes, the same virtual service, unless a single-port Service has several pools to post |
| `Retries.FailureKeepsCaches` | pkg/k8s/k8s_svc.go:166-213 | Any service sync that ends in an error leaves the three caches as they were and is retried |
| `Retries.ServiceOpsAnyOrder` | pkg/k8s/k8s_ep.go:175-181 | The batch of a service sync under two choices of map orders |
| `Retries.DefaultPoolStable` | pkg/k8s/k8s_svc.go:130-149 | The default pool of a single-port Service depends on the map order iff more than one resolved port has a pool not cached at this Endpoints version |
| `Retries.TcpAndUdp` | pkg/k8s/k8s_svc.go:130-149 | A Service with one port served on tcp and udp, whose default pool does depend on it |
| `Rest.AviRestOperate` | pkg/utils/avi_rest_utils.go:48-84 | The in-place batch leaves on each operation the outcome, and on the far side the effect, of the sequential specification |
| `Rest.MarkAborted` | pkg/utils/avi_rest_utils.go:74-76 | Every later operation is marked aborted, no earlier one is touched |
| `Rest.BatchStops` | pkg/utils/avi_rest_utils.go:48-84 | A prefix succeeded, one operation carries the returned error, the rest are marked aborted, and exactly the operations up to the failing one were sent |
| `Rest.RollBack` | pkg/k8s/k8s_svc.go:170-197 | The reverse loop issues the deletes of the specification and has its effect |
| `Rest.RollbackPlan` | pkg/k8s/k8s_svc.go:163-197 | Under faithful answers: one delete per created pool at its own url, in reverse order; never a virtual service; one delete at no API path, for the policy set, exactly when there is one and the virtual service failed |
| `Effects.UndoFrame` | pkg/k8s/k8s_svc.go:170-197 | A rollback touches no pool its batch does not name |
| `Effects.OperateWrites` | pkg/utils/avi_rest_utils.go:54-69 | A pool operation that went through is what the far side holds after the batch |
| `Compensation.RollbackRemoves` | pkg/k8s/k8s_svc.go:170-192 | When the deletes take effect, every pool posted by the failed batch is gone |
| `Compensation.RollbackRestoresOnlyAbsence` | pkg/k8s/k8s_svc.go:170-192 | Such a rollback restores a posted pool to what it was iff there was none before |
| `Compensation.RollbackSparesOthers` | pkg/k8s/k8s_svc.go:170-192 | Pools the batch does not name come through batch and rollback untouched |
| `Answers.OfKindExactly` | aviobjects/avi_obj_pool.go:148-177 | With any answer: the elements of a type are those whose url names it |
| `Answers.AddPoolsPanicsExactly` | aviobjects/avi_obj_pool.go:76-117 | With any answer: caching pools panics iff some element with name and uuid lacks another field |
| `Answers.AddPoolsExactly` | aviobjects/avi_obj_pool.go:99-124 | With any answer: the pool cache gets the last element of each name, field by field, and nothing else |
| `Answers.AddLinksExactly` | aviobjects/avi_obj_pool.go:183-217 | With any answer: exactly the elements with a name are linked, whatever else they lack |
| `Answers.AddVssPanicsExactly` | aviobjects/avi_obj_vs.go:131-190 | With any answer: caching virtual services panics iff an incomplete element comes before any without name or uuid |
| `Answers.AddVssExactly` | aviobjects/avi_obj_vs.go:131-190 | With any answer: the cache gets what the loop reaches, and nothing else |
| `Answers.UndoCrashesExactly` | pkg/k8s/k8s_svc.go:170-178 | The rollback panics iff an operation that went through was answered with an empty list |
| `Answers.UndoDeletesExactly` | pkg/k8s/k8s_svc.go:178-190 | It deletes what answers name with a uuid, at the path of the operation's model, and nothing else |
| `Answers.BatchDiesExactly` | pkg/k8s/k8s_svc.go:166-211 | With any answers, the batch of a service sync takes the process down iff it fails after an empty list, or goes through with an answer that cannot be cached |
| `SerialRuns.ServiceTurnsAreASync` | pkg/k8s/k8s_svc.go:50-292 | What a Service worker does, turn by turn, from taking a key to being idle again, while nobody else has a turn, is what the handler does with that key for some map orders: batch, rollback, caches and deletion included |
| `SerialRuns.EverySyncIsServiceTurns` | pkg/k8s/k8s_svc.go:50-292 | And every outcome the handler has for a key, under any map orders, comes of such turns |
| `SerialRuns.EndpointsTurnsAreASync` | pkg/k8s/k8s_ep.go:63-269 | The same for an Endpoints worker, for some order of the links |
| `SerialRuns.EverySyncIsEndpointsTurns` | pkg/k8s/k8s_ep.go:63-269 | And every outcome of an endpoints sync, under any order of the links, comes of such turns |
| `SerialRuns.SequentialExactly` | controller.go:284-336 | The worlds that sequential runs come to are exactly those that the two workers come to when no two of their syncs overlap |
| `Rollbacks.FailedBatchUndone` | pkg/k8s/k8s_svc.go:168-197 | In every interleaving in which the workers never hold one key: when a request of a service sync fails and the deletes of its rollback apply, no pool the batch had posted is on the far side by the time the worker is idle, whatever the other worker and the cluster did meanwhile |
| `Separation.SepKeeps` | pkg/k8s/k8s_ep.go:190-265 | Every turn of either worker or of the cluster, with the workers on different keys, keeps links, entries and checksums of each key in order |
| `Separation.CachedPoolsStaySound` | pkg/k8s/k8s_ep.go:190-212 | In every interleaving in which the workers never hold one key, at every turn: a cached pool carries a version its Endpoints had, and the far side has the pool built from it, or the Endpoints have left it for good; except while its service is being deleted |
| `Separation.SkipsStaySound` | pkg/k8s/k8s_ep.go:200-203 | There, a pool the checksum comparison would skip is on the far side exactly as the current Endpoints give it |
| `Separation.CachesAgree` | aviobjects/avi_obj_pool.go:119-124 | There, for every key no worker holds, its links and its cached pools agree, metadata included |
| `Separation.CachedPoolsAreOwned` | pkg/k8s/k8s_svc.go:120-122 | There, every cached pool has the name of a pool of some service |
| `SeparateServices.VsKeepsOk` | pkg/k8s/k8s_svc.go:50-214 | There, every turn keeps cached versions of Services, virtual services on the far side and their default pools in order |
| `SeparateServices.SkippedServicesStayCurrent` | pkg/k8s/k8s_svc.go:59-69 | There, at every turn, a Service the version comparison would skip has on the far side a virtual service built from that version, whose default pool, if any, is linked and there |
| `CrashTurns.TurnsPanicExactly` | pkg/k8s/k8s_ep.go:217-221 | There, a turn that a worker is ready for takes the process down iff it resolves an unnamed endpoint port against a Service without ports, or, on the Service worker, reads back a pool name on which the parser panics |
| `Interleaving.ForwardInclusion` | pkg/k8s/k8s_svc.go:200-206 | In every interleaving of the two workers and the cluster, whenever the Service worker is idle every link "service/p" has its pool cache entry |
| `Interleaving.ForwardKeeps` | pkg/k8s/k8s_svc.go:264-286 | Every lister read, request, cache add and cache delete of either worker, and every change of the cluster, keeps the invariant behind it |
| `Races.ReverseBroken` | pkg/k8s/k8s_ep.go:258-263 | A run of the two workers on one key that ends with both done and a cached pool under no link: a cache operation that comes after the deletion |
| `Races.StaleOverlap` | pkg/k8s/k8s_ep.go:190-203 | A run of the two workers on one key that ends with both done, the cache at the current Endpoints version and the far side at the one before |
| `Races.OnlySharedKeysRace` | pkg/k8s/k8s_ep.go:258-265 | Any run that ends with both workers done and either defect had both workers on one key at some point |
| `Races.DeletionExposes` | pkg/k8s/k8s_svc.go:247-253 | The exception for a service being deleted is needed |
| `SinglePort.SimpleExists` | pkg/k8s/k8s_ep.go:86-127 | Services and Endpoints for these runs exist, of any version |
| `PoolNames.RoundTrip` | pkg/k8s/k8s_ep.go:175-222 | A printed name reads back as its port and protocol iff both are hyphen-free and the service name holds no marker, or its own text happens to repeat them |
| `PoolNames.Injective` | pkg/k8s/k8s_svc.go:120-122 | For marker-free ports and hyphen-free protocols, equal names have equal services, ports and protocols, whatever the service name |
| `PoolNames.Collision` | pkg/k8s/k8s_ep.go:176-177 | With any other port, every service shares its pool name with another service |
| `PoolNames.InjectiveExactly` | pkg/k8s/k8s_ep.go:176-177 | Marker-free ports are exactly those whose names are never shared |
| `PoolNames.PanicsExactly` | pkg/k8s/k8s_ep.go:217-221 | Reading a printed name back runs past the end iff the first hyphen after the first marker starts another marker, stated on service name, port and protocol |
| `PoolNames.WordsPanicExactly` | pkg/k8s/k8s_ep.go:217-221 | For hyphen-free port and protocol: iff a single word or another marker follows a marker inside the service name, or there is none, the service name ends in "-pool" and the port is "pool" |
| `Batches.PoolsSent` | pkg/k8s/k8s_ep.go:96-181 | A service sync posts exactly the pools "<service>-pool-<port>-<protocol>" not cached at this version that some ready endpoint port asks for: its own protocol in small letters, tcp if left out, and the target port of the first service port of its name, or of the very first when it has no name, as decimal text or name. One ready port without such a service port, and no pool is posted |
| `Batches.UnnamedPort` | pkg/k8s/k8s_ep.go:113-115 | An unnamed ready port resolves to the target of the first service port, and that pool is posted or cached at this version |
| `Batches.PoolSent` | aviobjects/avi_obj_pool.go:28-66 | Every pool of the batch goes to the macro API under the tenant of the Endpoints, with the metadata "ns:name" |
| `Batches.PoolContents` | pkg/k8s/k8s_ep.go:217-252 | A pool whose name can be read back holds, in order and each once, the ready addresses with their nodes of exactly the subsets that list the target port by number or name in its protocol, all at the number the last such subset has for it; its monitor is the udp one iff the protocol is udp |
| `Batches.UnsaidProtocol` | pkg/k8s/k8s_ep.go:228-229 | Where all endpoint ports leave their protocol out, a tcp pool is posted without servers |
| `Batches.EndpointsSent` | pkg/k8s/k8s_ep.go:138-256 | An endpoints sync posts exactly the pools behind the links of its service not cached at this version; without the Service, or with a ready port that finds no service port, it sends and changes nothing |
| `PostedServices.VirtualServiceSent` | aviobjects/avi_obj_vs.go:46-85 | The last operation of a service sync posts the virtual service of that name, tenant, version and metadata: on System-TCP-Proxy iff some port is tcp, System-HTTP iff all are HTTP ports; one listener for each port, in order, with its number, overridden to System-UDP-Fast-Path iff it is udp and some port is tcp; a single port gets the first pool of the batch |
| `PostedServices.SelectorsSent` | aviobjects/avi_obj_vs.go:90-105 | With several ports, not all HTTP, its selectors are, once each, number, protocol type and pool of the ports whose listener no later port takes over; otherwise it has none |
| `PostedServices.PolicySent` | aviobjects/avi_obj_vs.go:105-114 | With several ports, all HTTP, a policy set goes right before it, with a numbered rule for each of those ports; otherwise there is none |
| `Pools.ResolvePorts` | pkg/k8s/k8s_ep.go:86-127 | The nested loops compute the set of resolved ports, or the first failure |
| `Pools.ResolveExact` | pkg/k8s/k8s_ep.go:86-127 | The set holds exactly what some ready endpoint port resolves to |
| `Pools.ResolveCrashes` | pkg/k8s/k8s_ep.go:113-115 | The lookup panics iff the Service has no ports and the first ready port has no name |
| `Pools.MatchPort` | pkg/k8s/k8s_ep.go:224-233 | The loop with break finds the first matching port |
| `Pools.SelectServers` | pkg/k8s/k8s_ep.go:223-252 | A pool's servers are, in order, the ready addresses of exactly the matching subsets, all with the last match's port |
| `Pools.ServersKeepTheirPort` | aviobjects/avi_obj_pool.go:41-50 | Each server has the port its own subset matched iff all matching subsets with a ready address match at one number, that of the last matching subset |
| `Pools.NumericPortServers` | pkg/k8s/k8s_ep.go:217-252 | For a positive numeric target port and lettered port names, every server has that port and its subset lists it |
| `Pools.NamedPortCrossed` | pkg/k8s/k8s_ep.go:234-235 | A server built with a port its subset does not list |
| `Pools.BuildOpsExact` | pkg/k8s/k8s_ep.go:190-256 | One operation per name not cached at this version and no other; a panic iff such a name cannot be read back |
| `Pools.BuildOpsAnyOrder` | pkg/k8s/k8s_ep.go:190-256 | The same multiset of operations for any order of the names |
| `VirtualServices.BuildMeta` | pkg/k8s/k8s_svc.go:91-161 | The loop over ports computes listeners, pool map, default pool and both profiles |
| `VirtualServices.ListenerProfiles` | aviobjects/avi_obj_vs.go:74-85 | Every tcp listener runs on System-TCP-Proxy, every udp listener on System-UDP-Fast-Path, and no listener is overridden to the TCP proxy |
| `VirtualServices.AviHttpPSBuild` | aviobjects/avi_obj_httpps.go:47-87 | All rules point at one index cell, which reads the number of rules on return |
| `VirtualServices.RuleNamesAndIndices` | aviobjects/avi_obj_httpps.go:83-86 | Rule names are pairwise distinct; indices equal positions iff there are no rules, and are distinct iff there is at most one |
| `References.PoolMapExact` | pkg/k8s/k8s_svc.go:119-123 | The pool map holds, for each listener key, the pool of the last port with that key, and nothing else |
| `References.BuiltPoolsAreReferenced` | pkg/k8s/k8s_ep.go:86-127 | For several ports and agreeing Endpoints, every pool that is built is a value of the pool map |
| `References.ReferencedExactly` | pkg/k8s/k8s_svc.go:119-123 | A pool name is in the map iff some port prints it whose listener key no later port takes over |
| `References.OverwrittenListener` | pkg/k8s/k8s_svc.go:119-123 | A pool all of whose ports lose their listener key to a later port is not in the map |
| `References.WhereReferencesGo` | aviobjects/avi_obj_vs.go:89-114 | Selectors, or for all-HTTP services the rules of the policy set, name exactly the pools of the map; an all-HTTP virtual service refers to no pool |
| `References.DefaultPoolIffStale` | pkg/k8s/k8s_svc.go:130-149 | A single-port Service gets a default pool iff some subset has a ready address and a port, and one of the resolved pools is not cached at this Endpoints version |
| `ServedPools.ServesExactly` | pkg/k8s/k8s_svc.go:198-211 | After a successful service sync with agreeing Endpoints, a pool is linked and on the far side iff a Service port with that pool has a ready endpoint port, or it was linked and there before |
| `ServedPools.ReferencesServeExactly` | aviobjects/avi_obj_vs.go:89-114 | Every pool that selectors or rules name is linked and there iff that holds for the pool of every Service port |
| `ServedPools.UnservedSelector` | aviobjects/avi_obj_vs.go:91-105 | A Service with two ports, one of them without a ready endpoint, whose selectors name a pool that is not there after any successful sync |
| `Caches.AviMultiCache.KeyPresent` | pkg/utils/cache.go:77-82 | A key is present iff some pair mentions it, and its inner map is exactly the values paired with it |
| `Caches.AviMultiCache.AviMultiCacheAdd` | pkg/utils/cache.go:96-106 | Adds one pair to the relation and keeps inner maps unshared and non-empty |
| `Caches.AviMultiCache.AviMultiCacheDeleteVal` | pkg/utils/cache.go:108-118 | Removes one pair, seen through the shared inner map, and drops a key left without values |
| `Caches.AviMultiCache.AviMultiCacheDeleteKey` | pkg/utils/cache.go:120-124 | Removes the pairs of one key |
| `Caches.AviSvcToPoolCacheDel` | aviobjects/avi_obj_pool.go:219-249 | Iterating the live map it deletes from, removes exactly the entries whose first segment is the prefix, and keeps the key iff another entry remains |
| `Reconciler.RestRespArrToObjByType` | aviobjects/avi_obj_pool.go:148-177 | Collects the response objects of one type |
| `Reconciler.AviPoolCacheAdd` | aviobjects/avi_obj_pool.go:71-131 | Caches every named element with a uuid; panics where a field is missing |
| `Reconciler.AviSvcToPoolCacheAdd` | aviobjects/avi_obj_pool.go:183-217 | Links every named element under the key |
| `Reconciler.AviVsCacheAdd` | aviobjects/avi_obj_vs.go:131-190 | Caches elements up to the first without a name or uuid |
| `Reconciler.BuildPoolOps` | pkg/k8s/k8s_ep.go:188-256 | The loop over names builds the operations that `Pools.BuildOpsExact` is about |
| `Reconciler.AviVsBuild` | aviobjects/avi_obj_vs.go:27-128 | Builds the operations that `References.WhereReferencesGo` is about, for some order of the pool map |
| `Reconciler.K8sEp.LinkedPools` | pkg/k8s/k8s_ep.go:138-173 | The pool names behind the links, and the metadata of the last one cached |
| `Reconciler.K8sEp.ForService` | pkg/k8s/k8s_ep.go:175-181 | The pool operations of a service sync, left to the caller to send |
| `Reconciler.K8sEp.OnEndpoints` | pkg/k8s/k8s_ep.go:63-269 | The handler in place refines the endpoints sync of the run theorems |
| `Reconciler.K8sSvc.RunBatch` | pkg/k8s/k8s_svc.go:166-213 | Sending, rolling back or caching in place refines the value-level batch |
| `Reconciler.K8sSvc.OnService` | pkg/k8s/k8s_svc.go:50-214 | The handler in place refines the service sync of the run theorems |
| `Reconciler.K8sSvc.DropPools` | pkg/k8s/k8s_svc.go:264-283 | The deletion loop removes exactly the pools behind the "service" links of the key |
| `Reconciler.K8sSvc.OnDelete` | pkg/k8s/k8s_svc.go:220-292 | The handler in place refines the service deletion of the run theorems |
| `Dispatch.Sum32` | controller.go:62-65 | One pass over the bytes computes the 32-bit FNV-1a fold |
| `Dispatch.LowBitsFold` | controller.go:62-67 | The low k bits of the hash are a fold over the low k bits of the bytes |
| `Dispatch.BucketLowBits` | controller.go:62-67 | With 2^k workers the queue is that fold |
| `Dispatch.CongruentKeysShareQueue` | controller.go:62-67 | Keys that agree bytewise modulo 2^k share a queue among 2^k workers |
| `Dispatch.DispatchByType` | controller.go:103-104 | With two workers all namespaced Endpoints go to queue 0 and all namespaced Services and Ingresses to queue 1 |
| `Dispatch.BucketOfKey` | controller.go:103-104 | The queue of any key with two workers, from its type and from whether it has a namespace |
| `Dispatch.ServiceAndEndpointsNeverShare` | pkg/utils/utils.go:68-95 | A Service and any Endpoints, its own included, are never on one queue, when both have a namespace or neither has |
| `Dispatch.KnownHashes` | controller.go:62-65 | The hashes of the empty text and of "a" are the published ones |
| `Dispatch.BucketBits` | controller.go:66 | For any number of workers, the queue has the bits that the hash shares with that number less one |
| `Dispatch.KeyInjective` | controller.go:103-104 | No two objects have the same key |
| `Dispatch.KeyRoundTrip` | controller.go:350-360 | The handler reads back from a key the type, namespace and name it was made from |
| `Workers.AviController.constructor` | controller.go:87-89 | The mask starts with exactly the ids 0..n-1, for 1 to 32 workers |
| `Workers.AviController.Acquire` | controller.go:263-272 | Picks the lowest free id, or the sentinel if none is free, and takes it out of the mask |
| `Workers.AviController.Release` | controller.go:276-278 | Puts the id back; shifting by the sentinel changes nothing |
| `Workers.SomeIdIsFree` | controller.go:262-272 | By pigeonhole a starting worker finds a free id |
| `Workers.IdsPartition` | controller.go:262-280 | In every interleaving of n workers, held ids are pairwise distinct, held and free ids partition 0..n-1, and no worker keeps the sentinel |
| `Workers.NoKeyTwice` | controller.go:284-336 | No key is ever processed by two workers at once, through any requeues |
| `Workers.OneTypePerWorker` | controller.go:103-104 | With two workers, a worker processes Endpoints iff it holds id 0 |

## Left out

- main.go, pkg/utils/signal.go, pkg/utils/signal_posix.go and pkg/utils/log.go: startup, signals, logging.
- pkg/mcp: gRPC wiring and a stub that prints.
- Informers, listers, rate limiting and back-off of client-go: listers are maps, queues are sets of keys drained by one worker each.
- The Avi SDK session, tenants, API versions and HTTP: an oracle decides each request.
- JSON and url parsing: a returned object carries its metadata and the type its url names.
- The IPv4 or IPv6 type of an address, the VIP subnet and other constant fields of the posted objects.
- Host, path and pool group fields of HTTP rules, which a service sync never sets; the policy set on the far side is not modelled beyond its request.
- Ingress beyond the queue of its key; the pool group caches, which nothing uses; tombstones in the delete handlers.
- A Service with an empty name, which Kubernetes does not allow: the code would take it for an endpoints event.
- Locks: each cache operation is one atomic step. The data race between ranging over a live inner map in one worker and changing it in the other is not modelled.
- Metadata other than crud_hash_key.
- Retries.RetrySafety: the virtual service is the same only up to the order of selectors and routes, because map order shows in those lists; the single-port exception is exact (Retries.DefaultPoolStable).
