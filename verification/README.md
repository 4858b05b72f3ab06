# Verified models of kube-state-graph's core

kube-state-graph answers graph queries about Kubernetes estates. It reads
metrics through several Prometheus-compatible stores, cuts the assembled graph
down to what a request asked for, and resolves traffic destinations from a
versioned configuration store. This project models the parts where a mistake
would be silent, and proves what they promise:

- the upstream query front: a shared cost-bounded cache, call coalescing, a
  concurrency bound per store, and a router that replaces its table while
  queries are running (`cachespec`, `querycache`, `routerspec`, `router`,
  `guardmachine`, `guardsafety`);
- the storage-flow projection and the assembler that feeds it (`figures`,
  `graphs`, `flowunits`, `flowweights`, `storageprojection`,
  `storageconservation`, `storageclaims`, `storagesafety`, `storagescoping`,
  `flowassembly`);
- the versioned-store reader, its scoped load and the in-memory resolution over
  it (`versionstore`, `routestore`, `routesnapshot`, `routescoping`,
  `routeanswers`, `routepruning`, `ingress`, `gwresolve`);
- printing, parsing and chunking of query selectors, and the identity and order
  of label sets (`matchers`, `selector`, `greedysplits`, `scopechunks`,
  `pairchunks`, `labelsets`);
- the default projection, the compound tree drawn over it and the fan-out merge
  (`projection`, `projectionscope`, `projectiontwice`, `compoundtree`,
  `parentcycles`, `fanoutmerge`).

`common`, `decimal`, `ordering` and `stringorder` hold what several of them
share: optional values, numerals that can be read back, total orders and sorted
lists.

## How the program is modelled

Code that changes things in place is imperative here too: the cache is a class
over a doubly linked list and a map, the router is a class that replaces its
snapshot, the version reader compacts an array in place, and loops that fill
maps and slices are methods with loop invariants. Each is proved against a
specification function, and the properties are proved of that function. The
guard, which many goroutines share, is a state machine: one step is one atomic
action of one caller or one flight, and a run is any interleaving of enabled
steps, with clock ticks, cancellations and routing-table swaps between them.

A string is a sequence of characters, each standing for one byte. Times are
integers and measurements are exact reals. A missing pointer is an explicit
option. An upstream is anything that answers or fails; whether the client
factory succeeds, which error an upstream returns and when a context ends are
parameters. A table of the store is a sequence of rows and a query a filter on
it.

## Where the code does less than one might think

- `prune` (clickhouse.go) is documented as safe only under a writer that keeps
  one row per version. `VersionStore.PruneIsSafeIff` gives the exact condition,
  and `VersionStore.PruneLeaks` the two rows that break it.
- `LoadTrafficAt` skips an empty owning-Service selector, while the resolver
  treats it as selecting every Deployment. `RouteScoping.ScopedLoadFaithfulIff`
  shows the scoped load is faithful exactly when the selector is not empty, and
  `RouteScoping.EmptySelectorLoses` gives tables on which it is not.
- The compound tree is described as unambiguous by construction (cytoscape.go)
  and the `cluster/` prefix as reserved for its groups (node.go), but node ids
  are minted without regard to either. A claim or Service called `namespace` in
  the namespace `namespace` has the id of its own namespace group and so is its
  own parent, or, within an Application, the parent of its parent
  (`ParentCycles.ClaimAboveItself`); so does a Kubernetes node called `cluster`
  in a cluster called `cluster` (`ParentCycles.NodeAboveItself`).
  `ParentCycles.ParentsAreAcyclic` shows that following parents comes back to an
  id exactly when the body holds such a node, or a pod of uid `cluster` in a
  cluster `cluster`, and `ParentCycles.ViewsAreAcyclicIff` that a graph is free
  of it under every request exactly when it holds none.
- `CollapsedRows` and `warnCollapse` (clickhouse.go) take any discarded row under
  the unique-rows flag to mean that the writer left duplicates. A load reads the
  Deployments once for each selector and de-duplicates the lot, so it discards
  rows of a flawless store too, exactly when a Deployment row answers for two
  of the selectors (`RoutePruning.UniqueCollapsesIff`,
  `RoutePruning.TwoSelectorsCollapse`).
- The cache turns a nil vector into an empty one, so a cached answer may read
  back as empty where the upstream returned nil; `GuardSafety.ResultsAreGenuine`
  states this as the only difference.

## Model

| member | source | states |
|---|---|---|
| CacheSpec.GetKeepsWellFormed | pkg/promql/querycache.go:117-135 | a lookup keeps keys distinct, costs honest and the total within the bound |
| CacheSpec.PutKeepsWellFormed | pkg/promql/querycache.go:139-167 | so does a put, whatever it evicts |
| CacheSpec.GetObserves | pkg/promql/querycache.go:117-135 | a hit happens exactly when an unexpired entry for the key is resident and drops nothing; a miss leaves no entry for the key |
| CacheSpec.PutThenGet | pkg/promql/querycache.go:117-167 | what was put reads back until it expires, nil as empty; a result larger than the whole budget changes nothing |
| CacheSpec.PutKeepsLongestPrefix | pkg/promql/querycache.go:139-167 | a put leaves the new entry followed by exactly the longest prefix of the previous recency order, without that key, that still fits |
| CacheSpec.FitIsLongestPrefix | pkg/promql/querycache.go:155-163 | evicting from the back stops at the longest prefix within the room |
| CacheSpec.CostIs | pkg/promql/querycache.go:114-116 | an empty result is charged one unit, any other one for each series |
| CacheSpec.BudgetBoundsBoth | pkg/promql/querycache.go:75-78 | the budget bounds the resident entries as well as their series |
| QueryCaches.RecencyList.PushFront | pkg/promql/querycache.go:152-153 | linking an element in at the front extends the list by it and changes no other entry |
| QueryCaches.RecencyList.Remove | pkg/promql/querycache.go:169-174 | unlinking an element leaves the others in order |
| QueryCaches.RecencyList.MoveToFront | pkg/promql/querycache.go:132-133 | moving an element to the front keeps the order of the others |
| QueryCaches.QueryCache.Get | pkg/promql/querycache.go:117-135 | the pointer-and-map cache answers and moves exactly as the recency sequence does, expiring on lookup |
| QueryCaches.QueryCache.Put | pkg/promql/querycache.go:139-167 | and stores exactly as the recency sequence does, with size, map and list agreeing afterwards |
| QueryCaches.QueryCache.RemoveLocked | pkg/promql/querycache.go:169-174 | removes one element from list, map and size together |
| QueryCaches.QueryCache.EvictUntilFits | pkg/promql/querycache.go:155-163 | the eviction loop ends at the longest fitting prefix and counts every eviction |
| RouterSpec.BuildAllocates | pkg/promql/router.go:179-221 | a build carries over the stores of kept identities, gives the rest new distinct ids, and never lets the counter go back, on failure either |
| RouterSpec.BuildServes | pkg/promql/router.go:179-221 | a built snapshot holds exactly the table's identities and serves every backend from the store of its own identity |
| RouterSpec.SharesStoreIff | pkg/promql/router.go:179-221 | two backends of a table share a guard exactly when url, user name and password agree |
| RouterSpec.FailsIff | pkg/promql/router.go:179-221 | a build fails exactly when the factory refuses a client the live snapshot lacks |
| RouterSpec.FailurePersists | pkg/promql/router.go:204-211 | once one client is refused, no later backend can save the build |
| Routers.Router.Swap | pkg/promql/router.go:151-175 | a successful swap makes the new snapshot live, a failed one leaves the old one; afterwards every client ever built is live or released, never both |
| Routers.Router.BuildState | pkg/promql/router.go:179-221 | a build follows the specification, and a failed one has released every client it had created |
| Routers.Router.CloseAll | pkg/promql/router.go:205-209 | the clients of an abandoned build are released, and no other |
| Routers.Router.ReleaseRetired | pkg/promql/router.go:166-173 | exactly the clients whose identity disappeared are released |
| GuardMachine.GroupOfInjective | pkg/promql/guard.go:176 | query and instant are never confused in a flight key, whatever bytes the query holds |
| GuardMachine.VacantKept | pkg/promql/guard.go:181-198 | every step keeps the cache without an entry for a key between a flight's re-check and its put |
| GuardMachine.GroupsKept | pkg/promql/guard.go:181-198 | every step keeps the flight groups naming exactly the unfinished flights, one for each key |
| GuardMachine.SlotsKept | pkg/promql/guard.go:233-247 | every step keeps each store's slot count equal to its upstream calls in progress and within the bound |
| GuardMachine.JoinsKept | pkg/promql/guard.go:179-214 | every step keeps every caller at no more than two flights, each for its own key |
| GuardMachine.StoresKept | pkg/promql/router.go:151-221 | every step, swaps included, keeps each store serving the identity it was built for |
| GuardMachine.AnswersKept | pkg/promql/guard.go:169-214 | every step keeps every delivered result traceable to an upstream answer or an unexpired put |
| GuardMachine.HistoryGrows | pkg/promql/guard.go:161-215 | no step rewrites what was answered, put or delivered |
| GuardMachine.InvKept | pkg/promql/guard.go:161-247 | every enabled step keeps the whole invariant |
| GuardMachine.RunsAreSafe | pkg/promql/guard.go:161-247 | the invariant holds in every state of every run |
| GuardSafety.OneUpstreamCallPerKey | pkg/promql/guard.go:176-198 | in every state of every run, at most one unfinished flight asks for a given store, query and instant |
| GuardSafety.OnlyFlightsCall | pkg/promql/guard.go:161-167 | with the cache on, no non-probe call reaches a client outside a flight |
| GuardSafety.NoCallWhileResident | pkg/promql/guard.go:183-196 | no upstream call for a key is made or pending while an entry for it is resident |
| GuardSafety.InFlightBounded | pkg/promql/guard.go:233-247 | a store's non-probe calls in progress never exceed the bound, over all routing tables and reloads |
| GuardSafety.RetriesOnce | pkg/promql/guard.go:177-208 | a call joins at most two flights, the second only because the first was delivered with a context error under another caller's lead, and hands back somebody else's context error only from the second |
| GuardSafety.WaiterTakesUnlessAbroad | pkg/promql/guard.go:199-214 | a waiter asks again exactly when it is live, on its first flight, and that died of a context error under another's lead; otherwise it holds the flight's own result |
| GuardSafety.CoalescedCallersAgree | pkg/promql/guard.go:199-213 | callers answered by one flight hold the same result, for the same query and instant |
| GuardSafety.StoredIsServed | pkg/promql/guard.go:169-195 | what a flight puts is what the next call for its key is served without joining a flight, unless it is larger than the whole cache |
| GuardSafety.ResultsAreGenuine | pkg/promql/guard.go:161-247 | every result of a call, probes included, was produced by a client built for that backend's url, user name and password, for the same query and instant |
| GuardSafety.FailuresAreGenuine | pkg/promql/guard.go:161-247 | every failure is the upstream's own for that query and instant, or a context error of the caller, or of whoever led its flight and was waiting for a slot |
| GuardSafety.CachedResultsAreFresh | pkg/promql/guard.go:169-190 | a result read from the cache was put less than the time-to-live before it was read |
| GuardSafety.LookupMoves | pkg/promql/guard.go:161-175 | a lookup leaves of its key the unexpired entry it was served, as the most recently used, or nothing; a probe or an uncached call leaves the cache alone |
| GuardSafety.NothingOutlivesTTL | pkg/promql/querycache.go:117-135 | once the time-to-live has passed, nothing cached before is served |
| GuardSafety.SwapGivesFreshStores | pkg/promql/router.go:151-221 | after a swap a kept identity has its old store and any other, a re-added one included, a store nothing has ever named; a failed swap changes only the counter |
| GuardSafety.FetchingCanBeAnswered | pkg/promql/guard.go:233-247 | a call in progress always holds the slot it will release |
| GuardSafety.CancelledNeedNotWait | pkg/promql/guard.go:199-247 | a call may be cancelled at any moment, and a cancelled one need wait neither for a flight nor for a slot, nor its flight for a slot |
| GuardSafety.NoDeadlock | pkg/promql/guard.go:161-247 | in every reachable state with an unanswered call some step serves |
| GuardSafety.WorkLowers | pkg/promql/guard.go:161-247 | every serving step brings calls closer to their end |
| GuardSafety.ServingEnds | pkg/promql/guard.go:161-247 | however it is scheduled, a stretch of serving steps is bounded, and where none is enabled every call has been answered |
| Figures.ScaleFlowShares | pkg/graph/project_storage.go:558-588 | field by field, a share is an n-th of each flow figure, and of its change only beside it |
| Figures.SumOrderFree | pkg/graph/project_storage.go:465-473 | shares may be added in any order |
| Figures.SumOfCopies | pkg/graph/project_storage.go:598-606 | equal shares add up to a multiple, and to nothing when absent |
| FlowUnits.ExtractFlowUnits | pkg/graph/project_storage.go:187-312 | the indexes and loops produce exactly one unit per claim and mounter, and a sink for an unmounted claim |
| FlowUnits.AggrIs | pkg/graph/project_storage.go:329-344 | a claim's aggregate is the one stamped on it, or, where no claim at all is stamped, the only one that feeds its SVM, or none |
| FlowUnits.TierIs | pkg/graph/project_storage.go:187-225 | only storage-flow edges stand on a tier, the one their label spells |
| FlowWeights.SumUnitShares | pkg/graph/project_storage.go:500-552 | the accumulation yields the per-figure totals, and the claim's latency and ceiling on its own edge |
| FlowWeights.SummedFigure | pkg/graph/project_storage.go:500-552 | every flow figure of an edge is the sum of its units' shares, absent exactly when no unit has one |
| FlowWeights.WeightRetained | pkg/graph/project_storage.go:474-498 | one edge for each pair the retained units pass, each with the sum over its units |
| FlowWeights.FlowByHops | pkg/graph/project_storage.go:474-552 | the total over any choice of drawn edges is the units' total over their hops across them |
| StorageProjection.Retain | pkg/graph/project_storage.go:46-62 | keeps exactly the units that reach a root and pass the filters |
| StorageProjection.ProjectStorage | pkg/graph/project_storage.go:38-95 | draws the kept paths, the admitted roots and their owning controllers, and the weighted edges |
| StorageScoping.RootsAreNamed | pkg/graph/project_storage.go:353-463 | which nodes a root value of each kind names: bare or on its own filer, by namespace and name, by bound volume, by application |
| StorageScoping.UnitKeptIff | pkg/graph/project_storage.go:46-62 | a unit is kept exactly when a node of its path is named, an unmounted claim's only when the claim itself is, and its claim, pod and host are loaded and pass the filters on their own labels |
| StorageScoping.DrawnIff | pkg/graph/project_storage.go:64-109 | what is drawn is exactly the loaded nodes of kept paths, the named storage nodes, the named workload nodes that pass, and the loaded controllers owning one of those |
| StorageConservation.OwnedAggregatesConserve | pkg/graph/project_storage.go:187-312 | at an owned aggregate inflow equals outflow, for all eight figures, under any roots and filters |
| StorageConservation.MountedClaimsConserve | pkg/graph/project_storage.go:187-312 | the same at every mounted claim |
| StorageConservation.HostedPodsConserve | pkg/graph/project_storage.go:293-308 | the same at every pod scheduled on a loaded node |
| StorageConservation.SVMsConserve | pkg/graph/project_storage.go:187-312 | an SVM's outflow is its inflow plus its aggregate-less claims |
| StorageClaims.ClaimCarriesItsParts | pkg/graph/project_storage.go:474-552 | a drawn claim carries k n-th parts of each figure, k being its retained mounters |
| StorageClaims.RetainedClaimIsWhole | pkg/graph/project_storage.go:474-552 | a claim whose mounters are all retained, or a retained sink, is drawn with exactly its own measurement |
| StorageSafety.DrawnNodesPass | pkg/graph/project_storage.go:161-185 | every node drawn but a NetApp one has a requested cluster on its label, and every pod and claim a requested namespace, for every root kind |
| StorageSafety.UnmountedDrawnIffRoot | pkg/graph/project_storage.go:46-62 | an unmounted claim is drawn exactly when a pvc or pv root names it and its labels hold a requested cluster and namespace |
| StorageSafety.NoEdgeDangles | pkg/graph/project_storage.go:64-80 | both ends of every drawn edge are drawn, where the NetApp nodes are loaded |
| StorageSafety.MoreRootsDrawMore | pkg/graph/project_storage.go:353-463 | adding root values of the same kind only adds nodes and edges |
| StorageSafety.DrawnFiguresAreTidy | pkg/graph/project_storage.go:500-588 | no ceiling without a measurement and no change without its figure, on any graph |
| StorageSafety.ProjectionIsUnique | pkg/graph/project_storage.go:38-95 | two projections of one graph agree on nodes and edges |
| FlowAssembly.StorageFlowEdges | pkg/build/storageflow.go:183-267 | the assembler emits every pair its chains call for once, and the result is the tier chain the conservation laws require |
| FlowAssembly.EmittedIsChain | pkg/build/storageflow.go:183-267 | a claim has one SVM, an aggregate one owner, a pod one host, and every stamp names an emitted hop |
| FlowAssembly.PlanPairsAre | pkg/build/storageflow.go:183-267 | the pairs called for are the hops with both ends named of the claims some pod mounts, or of all claims where unmounted ones are drawn too |
| VersionStore.SlotKeyInjective | pkg/route/store/clickhouse.go:216-218 | the slot string tells slots apart, as no name holds a NUL |
| VersionStore.DedupLatest | pkg/route/store/clickhouse.go:229-247 | the in-place pass compacts the survivors into the front of the same array |
| VersionStore.Reader.DedupLiveAtCounted | pkg/route/store/clickhouse.go:252-266 | returns the live survivors; the counter grows by exactly the discarded duplicates and the warning fires once, under the unique-rows flag |
| VersionStore.DedupedIsFinal | pkg/route/store/clickhouse.go:225-247 | in first-met slot order, exactly one row of the highest sequence number for each slot |
| VersionStore.DedupCommutes | pkg/route/store/clickhouse.go:34-52 | a predicate constant on slots may be applied before or after de-duplication |
| VersionStore.PruneIsSafeIff | pkg/route/store/clickhouse.go:54-71 | pruning on valid_to returns the same versions exactly when no slot holds an ended newest row beside a live older one |
| VersionStore.PruneLeaks | pkg/route/store/clickhouse.go:38-47 | an open row and its closing rewrite: pruned, the dead version reads as live |
| VersionStore.UniqueSlotsPrune | pkg/route/store/clickhouse.go:198-203 | with unique slots pruning changes nothing, order included |
| VersionStore.PruneKeepsOrder | pkg/route/store/clickhouse.go:54-71 | where the rows of each slot end on one side of the instant, pruning changes nothing, order included |
| VersionStore.NothingCollapsesIff | pkg/route/store/clickhouse.go:225-247 | one pass discards nothing exactly when the slots of its rows are unique |
| RouteStore.LoadTrafficAt | pkg/route/store/clickhouse.go:367-486 | the scoped reads, pruned under the unique-rows flag, each derived from the de-duplicated rows of the one before; the counter grows by what all of them discard and the warning fires under the flag when that is anything |
| RouteStore.LoadSnapshot | pkg/route/resolver.go:164-187 | the union of several addresses' loads keeps each row version once |
| RouteSnapshot.IngressServiceFor | pkg/route/snapshot/snapshot.go:115-137 | the loop names the one live Service that owns the address, or nothing |
| RouteAnswers.OwnerIff | pkg/route/snapshot/snapshot.go:115-137 | an address has an owner exactly when the live rows that list it, external or load-balancer, are all of one namespace and name; the answer is that namespace and the least of their selectors |
| RouteSnapshot.ResolveIPToGateways | pkg/route/snapshot/snapshot.go:57-108 | the three hops: owner, labels of its Deployments, gateways of its namespace they carry |
| RouteAnswers.CandidateIff | pkg/route/snapshot/snapshot.go:57-108 | a gateway is an answer exactly when it is live in the namespace of an owner some Deployment backs, and each of its selector entries is a label of such a Deployment |
| RouteAnswers.BindsIff | pkg/route/snapshot/snapshot.go:294-305 | a VirtualService binds to a gateway exactly when one of its references, read in its own namespace where unqualified, means that gateway |
| RouteAnswers.LoadIs | pkg/route/store/clickhouse.go:367-571 | of the live tables a load holds exactly the Services of the address and those routed to, the Deployments they may select, the gateways those may carry and the VirtualServices naming one |
| RouteScoping.LoadCovers | pkg/route/store/clickhouse.go:367-571 | one load lies within the live tables and holds every row an answer about its address turns on |
| RouteScoping.CandidatesPreserved | pkg/route/snapshot/snapshot.go:57-137 | any rows between the scoped load and the live tables give the same gateways for the address |
| RouteScoping.BindingsPreserved | pkg/route/snapshot/snapshot.go:177-247 | and, for each of them, the same bound VirtualServices and the same Services behind them |
| RouteScoping.UnionIsBetween | pkg/route/resolver.go:164-187 | a union over addresses lies between each load and the live tables, so it changes no answer |
| RouteScoping.EmptySelectorLoses | pkg/route/store/clickhouse.go:409-414 | with an empty owning selector, some Deployments and Gateways are missed |
| RouteScoping.ScopedLoadFaithfulIff | pkg/route/store/clickhouse.go:367-486 | the scoped load is faithful beside all Deployments and Gateways exactly when the owning selector is not empty |
| RoutePruning.PrunedLoadIsSame | pkg/route/store/clickhouse.go:198-203 | where the rows of each slot end on one side of the instant, a pruning reader loads the very same rows in the same order |
| RoutePruning.PrunedCandidatesPreserved | pkg/route/store/clickhouse.go:54-71 | over unique tables the pruned load, alone or in any union of addresses, gives the same gateways as the live tables |
| RoutePruning.DeployRowsDistinct | pkg/route/store/clickhouse.go:420-445 | the Deployment read repeats a version exactly when a row answers for two of its selectors |
| RoutePruning.UniqueCollapsesIff | pkg/route/store/clickhouse.go:154-186 | over unique tables a load discards rows exactly when a Deployment row answers for two of the selectors handed on |
| RoutePruning.TwoSelectorsCollapse | pkg/route/store/clickhouse.go:420-448 | two live Services on one address and a Deployment carrying both labels: unique tables, and still a row is discarded |
| Ingress.PickOneIP | pkg/route/ingresspick.go:72-118 | follows the precedence table over the set of candidates |
| Ingress.SameFamilyIff | pkg/build/clusterfamily.go:5-45 | two clusters are of one family exactly when their names differ in nothing but numbers |
| Ingress.PickIngressCluster | pkg/route/ingresspick.go:34-69 | answers a cluster exactly when every address picks it, and no ingress only when no address picks or is ambiguous |
| Ingress.PickIsOrderFree | pkg/route/ingresspick.go:34-118 | order and repetition of addresses and candidates never change the pick |
| Ingress.LastTieBreakUnused | pkg/route/ingresspick.go:110-114 | the last tie-break of the table is never reached |
| Ingress.IngressServiceIdentity | pkg/route/ingresslb.go:43-80 | collision, then missing owner, then disagreement, then the agreed Service |
| Ingress.EntryIsOrderFree | pkg/route/ingresslb.go:43-80 | order and repetition of addresses never change it |
| GatewayResolve.ResolveAmong | pkg/route/gwresolve/gwresolve.go:143-161 | the scan returns the gateway of the first sorted pattern of a candidate that matches |
| GatewayResolve.PickHosts | pkg/route/gwresolve/gwresolve.go:106-123 | the same over server host sets, by index |
| GatewayResolve.SanitizeIs | pkg/route/gwresolve/gwresolve.go:45-55 | what stands before the first slash of a host is dropped, and nothing else |
| GatewayResolve.MatchesPlainHost | pkg/route/gwresolve/gwresolve.go:106-123 | a plain host is matched by its own name and by a wildcard over any suffix of it, and by no other pattern |
| GatewayResolve.ChoiceIsMostSpecific | pkg/route/gwresolve/gwresolve.go:35-123 | every other candidate's matching pattern covers all hosts the chosen one covers |
| GatewayResolve.TieGoesToName | pkg/route/gwresolve/gwresolve.go:78-87 | equally specific matches are the same pattern, settled by gateway name and then by declaration |
| GatewayResolve.GatewayPatsMembers | pkg/route/gwresolve/gwresolve.go:57-66 | the rows built are exactly those of the declared hosts |
| GatewayResolve.DeclarationOrderFree | pkg/route/gwresolve/gwresolve.go:92-99 | gateways of the same names declaring the same hosts give the same choice, in any order and however often each is stated |
| GatewayResolve.ReorderedDeclareSame | pkg/route/gwresolve/gwresolve.go:92-99 | listing the same gateways in another order is such a case |
| Matchers.SplitQuotedAlternation | pkg/internal/promqlfake/promqlfake.go:155-173 | the index loop splits on every unescaped bar |
| Matchers.SplitAlternation | pkg/internal/promqlfake/promqlfake.go:155-173 | splitting a rendered alternation gives the values back, whatever they hold |
| Matchers.AlternationRuns | pkg/promql/selector.go:253-258 | a rendered alternation holds no operator of the expression language that a backslash does not precede, and no escape that means anything but its own character |
| Matchers.AlternationAccepts | pkg/promql/selector.go:244-261 | run as an anchored expression, it accepts exactly its values |
| Matchers.AcceptsIffSplit | pkg/internal/promqlfake/promqlfake.go:193-205 | running an anchored alternation and splitting it tell the same strings apart |
| Matchers.ParseSelector | pkg/internal/promqlfake/promqlfake.go:220-266 | the remainder loop reads exactly the matchers of the first braces, or fails |
| Matchers.LiteralReadBack | pkg/promql/selector.go:288-293 | unquoting undoes the escaping of any value without a line break |
| Matchers.ParseReadsBack | pkg/internal/promqlfake/promqlfake.go:220-266 | reading a rendered query gives back exactly its matchers, in order |
| Matchers.MatcherReadOnly | pkg/internal/promqlfake/promqlfake.go:220-266 | and no other text is read as a matcher: what is read prints to what was there |
| Selectors.DefaultKeys | pkg/promql/selector.go:43-58 | an unset key is the built-in az or env, a configured one stands |
| Selectors.NormaliseValues | pkg/promql/selector.go:265-283 | the non-empty values, each once, sorted |
| Selectors.RenderPrints | pkg/promql/selector.go:163-261 | the rendered fragment is the print of the matchers it stands for |
| Selectors.MatcherAccepts | pkg/promql/selector.go:244-261 | one value or many, the matcher accepts exactly the requested values |
| Selectors.OrAbsentAccepts | pkg/promql/selector.go:193-203 | the or-absent form also accepts a series without the label |
| Selectors.ClusterAccepts | pkg/promql/selector.go:205-239 | the cluster matcher accepts a series exactly when its bucket, unknown for a missing label, is requested |
| Selectors.RenderIsOfSets | pkg/promql/selector.go:163-185 | order and repetition of values never change the query |
| Selectors.RenderedQuerySelects | pkg/promql/queries.go:631-644 | parsed back, a rendered query selects exactly the series in scope among those its fixed matchers select |
| Selectors.RendersIffReaches | pkg/promql/selector.go:300-306 | a query is narrowed exactly when a dimension it accepts carries a value |
| GreedySplits.TightIsFewest | pkg/promql/scope.go:208-238 | where every run of a fitting run fits, a cut that closes a chunk only when the next element does not fit has the fewest chunks |
| ScopeChunks.ChunkScope | pkg/promql/scope.go:208-238 | the chunks concatenate to the input, none is empty, each fits, and none had room for the next value |
| ScopeChunks.TightIsShortest | pkg/promql/scope.go:208-238 | no contiguous split meeting the same bounds has fewer chunks |
| ScopeChunks.CostIsRendered | pkg/promql/scope.go:217-233 | a chunk's cost is the exact length of its rendered alternation |
| ScopeChunks.ChunkRendersWithinBudget | pkg/promql/scope.go:178-203 | a chunk of several values fits exactly when what it renders is within the budget, for plain values, of which there are then at most a hundred, and for suffix-mode tokens |
| PairChunks.SortedPairsMembers | pkg/promql/pairscope.go:65-76 | exactly the usable pairs, each once |
| PairChunks.SortedPairsSame | pkg/promql/pairscope.go:61-76 | the canonical form depends only on the set of usable pairs |
| PairChunks.ChunkNamePairs | pkg/promql/pairscope.go:100-152 | the chunks concatenate to the canonical pairs, none is empty, each is within the budget and the value bounds, and none had room for the next pair |
| PairChunks.PairChunksAreFewest | pkg/promql/pairscope.go:78-152 | no contiguous split of the pairs meeting the same bounds has fewer chunks |
| PairChunks.RenderedWithinBudget | pkg/promql/pairscope.go:78-100 | a chunk's two rendered matchers, wrappers and comma included, are within the budget |
| PairChunks.PairCostIsRendered | pkg/promql/pairscope.go:78-98 | with several values on either side a chunk's cost is the rendered length exactly |
| PairChunks.UpstreamIff | pkg/promql/pairscope.go:39-59 | the upstream lets through every row whose namespace is one of the chunk's and whose name is one of the chunk's, cross pairs included |
| PairChunks.KeepNamePairs | pkg/promql/pairscope.go:159-175 | keeps exactly the rows of the given pairs, in order |
| PairChunks.ChunkReadIsExact | pkg/promql/pairscope.go:39-59 | filtering a chunk's answer with its own pairs loses no row and keeps no cross pair |
| PairChunks.PairReadIsExact | pkg/promql/pairscope.go:78-175 | the chunks' reads together return every row of a wanted pair exactly once |
| LabelSets.EncodeReadBack | pkg/promql/labelquery.go:256-271 | the length-prefixed identity can be decoded, for any keys and values |
| LabelSets.IDIsInjective | pkg/promql/labelquery.go:259-271 | two label sets share an identity exactly when they are the same map |
| LabelSets.MakeID | pkg/promql/labelquery.go:259-271 | the loop over sorted keys builds that identity |
| LabelSets.CollectLabelSets | pkg/promql/labelquery.go:231-254 | keeps each distinct map once, without the metric name, in first-met order |
| LabelSets.CompareLabelSets | pkg/promql/labelquery.go:277-289 | compares lexicographically by key and value, a longer set last |
| LabelSets.ComparisonIsExact | pkg/promql/labelquery.go:277-289 | the order is total and calls only equal maps equal |
| LabelSets.ResultIsOfSet | pkg/promql/labelquery.go:231-289 | the result list depends only on which label maps were contributed |
| Projection.ConnectivityExcluded | pkg/graph/project.go:75-129 | one pass over the edges and one over the nodes find the unconnected pods and the claims no connected pod mounts |
| ProjectionScope.PrunedIff | pkg/graph/project.go:75-129 | a pod is pruned exactly when no call or selection ends at it, a claim exactly when no such pod mounts it |
| ProjectionScope.AdmittedIff | pkg/graph/project.go:131-328 | the admitted set by kind, edges and labels alone: workload by its own labels, hosts, aggregates and controllers by what refers to them |
| ProjectionScope.EdgeDrawnIff | pkg/graph/project.go:330-404 | an edge is kept exactly when one end is admitted and the other is, too, or is fit to be its partner |
| ProjectionScope.NodeDrawnIff | pkg/graph/project.go:19-60 | a node is drawn exactly when admitted, an end of a kept edge, or the owner of an aggregate that is one of those |
| ProjectionScope.UnfilteredDrawnIff | pkg/graph/project.go:19-60 | unfiltered, a loaded pod is drawn exactly when a call or selection ends at it and a loaded claim exactly when such a pod mounts it |
| Projection.FilterNodes | pkg/graph/project.go:131-221 | admits nodes by their own labels, then hosts, aggregates and controllers by reference |
| Projection.FilterEdges | pkg/graph/project.go:330-364 | keeps edges and adds partners against the set at entry, so re-adds never cascade |
| Projection.Project | pkg/graph/project.go:19-60 | composes the prune, both filters and the parent sweep |
| Projection.EdgesAnchored | pkg/graph/project.go:330-404 | every kept edge has both ends in the view and one admitted in its own right |
| Projection.ExcludedStaysOut | pkg/graph/project.go:369-404 | no pruned pod or claim comes back |
| Projection.FiltersHold | pkg/graph/project.go:246-419 | no namespaced node outside the namespace filter is drawn, as a partner either, and no node outside the cluster filter is admitted in its own right |
| Projection.ControllersPresent | pkg/graph/project.go:226-244 | every drawn aggregate's loaded controller is drawn |
| Projection.EdgeOrderIsFree | pkg/graph/project.go:19-60 | node and edge sets do not depend on edge order |
| ProjectionTwice.ProjectionIsIdempotent | pkg/graph/project.go:19-60 | projecting an unfiltered view of a well-typed graph again changes nothing |
| CompoundTree.GroupIDsDistinct | pkg/cytoscape/cytoscape.go:365-385 | distinct groups have distinct ids where no name holds a slash |
| CompoundTree.CollectGroups | pkg/cytoscape/cytoscape.go:409-453 | one pass collects exactly the groups the nodes bring |
| CompoundTree.ParentsInBody | pkg/cytoscape/cytoscape.go:599-646 | every non-empty parent names a node of the body that sits higher |
| CompoundTree.GroupsHaveNodes | pkg/cytoscape/cytoscape.go:397-453 | every synthesised group has a real node below it |
| CompoundTree.ProjectedParentsHold | pkg/cytoscape/cytoscape.go:397-547 | over a projected view of a graph that holds its labelled controllers, no parent dangles |
| ParentCycles.ClaimAboveItself | pkg/graph/node.go:590-597 | the claim `namespace` in namespace `namespace` is its own parent, or within an Application the parent of its parent |
| ParentCycles.NodeAboveItself | pkg/graph/node.go:586-587 | the Kubernetes node `cluster` in cluster `cluster` is its own parent |
| ParentCycles.NamesakeReturns | pkg/cytoscape/cytoscape.go:365-385 | every node whose id is that of a group above it closes a chain of parents |
| ParentCycles.ParentsAreAcyclic | pkg/cytoscape/cytoscape.go:599-646 | following parent ids never comes back to an id exactly when no claim or Service is `namespace` in namespace `namespace`, and no Kubernetes node or pod uid is `cluster` in cluster `cluster` |
| ParentCycles.ViewsAreAcyclicIff | pkg/cytoscape/cytoscape.go:397-547 | no request draws a cyclic tree exactly when the graph holds no such node |
| FanoutMerge.MergeVectors | pkg/promql/fanout.go:103-140 | the indexed loop merges as specified and counts the disagreements |
| FanoutMerge.MergeDescribes | pkg/promql/fanout.go:103-140 | each series once, in first-appearance order, with the first value, or the greatest where asked |
| FanoutMerge.MergesInStages | pkg/promql/fanout.go:103-140 | merging a prefix first and the rest onto it gives the same vector |
| FanoutMerge.MaxIsOrderFree | pkg/promql/fanout.go:85-93 | with the greatest value kept, which value a series ends with is independent of backend order |
| FanoutMerge.IssueInOrder | pkg/promql/fanout.go:219-256 | whatever order the legs finish in, one failure fails the query and otherwise the merge is the same |
| FanoutMerge.FailsClosed | pkg/promql/fanout.go:219-256 | there is no answer exactly when some leg failed; otherwise it lists exactly the series some backend contributed |

## Left out

- Handlers, middleware, telemetry, logging, self-metrics beyond the cache gauge and eviction count, and configuration parsing: plumbing.
- The Prometheus client, the ClickHouse driver, the Istio translation and the route-check tool: foreign code; `host.Name.Matches` and `strconv.Unquote` are modelled by their documented rules, the latter only for the escapes the printer writes. Of regular expressions only escaped literals and bars are run; any other operator is refused rather than read literally.
- `ScopedFor` as a whole: the rows it selects (bound VirtualServices, backend Services) are covered, building the Istio configs from them is not.
- `ChunkHarvestPairs`, `RenderTrackingIDScoped` and the literal metric-name tables: the first two repeat the chunking and wrapping proved here, the last are data.
- `ProbeAll`, `QueryLabels` and the selection of backends by family and zone.
- IEEE rounding: figures are exact reals, so the sorting of units before summing has no effect here (`Figures.SumOrderFree`) and is not modelled; NaN values in the fan-out merge are not modelled either.
- Order of emitted nodes and edges (`SortNodes`, `SortEdges`, group tiers): views are compared as sets of nodes and lists of edges up to order.
- The mutexes of the cache and the router: a locked section is one atomic step.
- Edge ids and fingerprints are taken to be exact identities.
- Integer widths: the collapse counter, store ids and clock never wrap.
- A panicking or never-returning upstream: a call in progress can always be answered.
- Matchers.ParseSelector: an escape sequence other than a backslash before a backslash or quote is refused, where the Go parser knows more of them, because the printer writes no other.
- Projection.FilterNodes: the deferred kinds are admitted by set comprehensions rather than by loops over slices, because map iteration has no order to keep.
- StorageProjection.ProjectStorage: root resolution and the parent sweep are set comprehensions for the same reason.
- RouteStore.LoadTrafficAt: selectors are told apart as lists rather than by their joined strings, which agree for labels without a NUL.
- VersionStore.PruneIsSafeIff: equality is of the sets of versions; the order of survivors can differ under pruning when a slot's first row has ended; `VersionStore.PruneKeepsOrder` says when the order is kept too.
- ParentCycles.ParentsAreAcyclic: takes ids as the build mints them, from names without a slash, as Kubernetes names are; the value of an external may hold any.
- CompoundTree.GroupsHaveNodes: takes NetApp nodes to carry no `cluster` label and other nodes no `ontap_cluster` label, as the build guarantees; a node breaking this brings an empty group.
