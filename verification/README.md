# Verified model of the Avi exporter's refresh cache

The exporter polls an Avi controller in the background and serves Prometheus gauges from a cache. This
project models the parts of it that are hard to get right and proves what they promise:

* **The refresh and cache protocol** (`collector/cache.go`, `collector/collector.go`). One refresh settles
  the tenants, runs the controller-wide modules, and then one goroutine per tenant behind a semaphore. Each
  module fetches outside the lock, replaces its slice of the gauges in one critical section and books its
  outcome in a second one. `Refresh.dfy` is the transition system over these sections, with scrapes anywhere
  in between and an arbitrary controller as an oracle. `Snapshots`, `RefreshInvariants`, `ReachableStates`,
  `Guarantees`, `Backing`, `Answered` and `AnsweredRefresh` prove what holds in every reachable state;
  `Interleaving`, `FanPhase`, `TenantRun` and `SequentialRefresh` prove that scheduling does not matter;
  `Readiness`, `Staleness`, `Coverage`, `CleanRefresh`, `Leftover`, `Scheduler` and `SteadyRun` prove when the
  cache is ready and how old it can get. `Leftover`, `Vanished` and `SteadyRun` build concrete runs, the first
  two step by step with `Stepping`. `Exporter.dfy` is the object that the source updates in place, each method
  proved against the value specification in `Cache.dfy`.
* **Metadata enrichment** (`collector/enrichment.go`, `avi/markers.go`): `Markers`, `Enrichment`,
  `EnrichmentLinks`, `EnrichmentLabels`, `EnrichmentItems`.
* **Service engine addresses** (`collector/identity_inventory.go`): `Addresses`.
* **The topology graph** (`collector/topology.go`, `collector/poolgroup.go`, `collector/pool.go`):
  `Topology`, `TopologyGraph`, `TopologyEdges`, `TopologyNodes`.
* **The per-pool fan-out** (`collector/pool.go`): `FanOut`, `FanOutAnswers`.
* **Paged listings** (`avi/inventory.go`): `Pagination`.
* Shared vocabulary: `Prelude`, `Inventory`, `Series`, `Tenants`.

Conventions. A gauge vector is a map from label values to a value; the vectors that are always deleted and
rendered together form one `Group`. Each `avi_*` counter and self metric is a map from module keys. The
controller is a set of functions from the refresh number (and the tenant) to an answer or an error; the
per-field gauge setters are functions from decoded objects to rows. Clock readings are inputs of the steps.
A `Ledger` records, as history that no step reads, which refresh wrote each slice last, which ones wrote raw
admin analytics since, and which one each module last succeeded in. Where the source updates objects or
slices in place, a class or an array with a method stands for it, and the method's contract equates the new
state with a function of the old one; the laws are proved of that function.

`dafny verify dfyconfig.toml` checks the whole project.

## Findings

Where the code does not do what one would expect, the code was modelled as it is:

* An error-free refresh does not always make the cache ready. The state of `admin_vs_metrics` is kept when
  `admin` joins the tenant list, is no longer refreshed, and blocks readiness once it is stale
  (`collector/cache.go:868-872`). `CleanRefresh.ReadyAfterCleanRefresh` gives the exact condition and
  `Leftover.CleanRefreshNeedNotMakeReady` a run.
* The raw admin analytics delete only `admin`'s series but render each row under the tenant label of the
  answer (`collector/vs.go:237-267`), so they can leave series with tenants that nobody replaces, even with
  one that was never listed (`Leftover.StrayRowsReachable`). `Cache.RawWriteStaysInAdmin` says when one write
  does not; `Guarantees.SliceIsOneSnapshot` and `Guarantees.UnlistedTenantHasNothing` say exactly which rows
  are there in every reachable state.
* Service engine series carry tenant labels, so dropping a tenant removes some of them although their
  modules are global (`collector/cache.go:255-266`); they stay away until the next reset of their group
  (`Vanished.VanishedRowReachable`; exact condition: `Backing.GroupIsIntactExactly`).
* The comment on `RefUUID` says the input is returned unchanged without a `/`; the code also cuts it at `#`
  (`avi/markers.go:109-120`, `Markers.RefUUIDCutsAtHash`; exact condition: `Markers.RefUUIDUnchanged`).
* Names with a `/` can be misread by `splitNamespacedName` after `namespacedValue` wrote them
  (`collector/enrichment.go:301-306`); the exact conditions are in `EnrichmentLabels`.
* Enrichment can lower a VsVip's metadata score: the markers of a sole linked service replace its own, and a
  service name that is a bare `/` in the metadata is not read back (`collector/enrichment.go:161-178`,
  `EnrichmentLabels.SlashServiceLowersScore`; exact condition: `EnrichmentLabels.EnrichmentScoreExact`).
* Two VS-to-pool edges can share an id when a VS UUID holds `>`; only the first is emitted
  (`collector/topology.go:33-48`, `TopologyGraph.CollidingEdgeIsLost`; exact condition:
  `TopologyGraph.VSPoolEdgesExact`).
* The order in which interfaces are configured can decide which field values an address gets
  (`collector/identity_inventory.go:202-212`, `Addresses.ValuesDependOnOrder`); when it does not is in
  `Addresses.AgreedValuesIgnoreOrder` and `Addresses.ValuesIgnoreOrderExactly`.

## Model

| member | source | states |
|---|---|---|
| Markers.ParseMarkers | avi/markers.go:22-46 | parsing yields, for each of the eight label keys, the comma-joined values of the last marker with that key |
| Markers.LabelsOfMarkers | avi/markers.go:22-46 | each of the eight labels is the comma-joined list of values of the last marker with its key, and empty without one |
| Markers.JoinCommaIs | avi/markers.go:22-46 | values are joined with a comma between them |
| Markers.MergeServiceMetadata | avi/markers.go:58-87 | each empty label falls back to the first non-empty source in precedence order; a non-empty one is kept |
| Markers.MergedExactly | avi/markers.go:58-87 | labels that are there stay; a missing namespace is the metadata's, else that of its first ingress name, else that of its first service name; a missing ingress, host and service likewise, each from the sources in this order |
| Markers.ParseObjectMetadata | avi/markers.go:52-55 | the labels of an object are its markers' labels completed from service_metadata |
| Markers.NamespacedNameRoundTrip | avi/markers.go:89-98 | reading back a written `namespace/name` gives the two parts if and only if no `/` can be misplaced (none in the namespace, or none in the name when there is no namespace) |
| Markers.NamespaceSurvivesSplit | collector/enrichment.go:301-306 | a name written after a namespace is never read back as empty, whatever characters it holds |
| Markers.RefUUIDRoundTrip | avi/markers.go:109-120 | a UUID without `/` and `#` that is followed by `#` and a name is read back if and only if the name has no `/`, or goes on after its last `/` with the same UUID, ended by a `#` or by the end of the name |
| Markers.RefUUIDUnchanged | avi/markers.go:109-120 | a reference is returned unchanged if and only if it has neither a `/` nor a `#` |
| Markers.RefUUIDCutsAtHash | avi/markers.go:109-120 | the reference `u#n`, which has no `/`, is cut to `u` |
| Markers.RefNameRoundTrip | avi/markers.go:124-129 | the name suffix of a reference is read back whole when the path before it has no `#` |
| Tenants.NormalizedNames | collector/cache.go:289-307 | the normalized list is strictly sorted and holds exactly the non-empty names |
| Tenants.NormalizedNamesBySet | collector/cache.go:289-307 | normalization depends on the set of names alone |
| Tenants.NormalizeTenantNames | collector/cache.go:289-307 | the loop with its seen set and sort computes the normalized list |
| Tenants.StaticTenants | collector/cache.go:222-239 | the explicit tenants are strictly sorted, contain every usable configured name, and are never empty without a wildcard |
| Tenants.StaticTenantsExactly | collector/cache.go:222-239 | they are exactly the usable names; without one there are none if only wildcards are configured, and otherwise `admin` alone |
| Tenants.ConfiguredTenants | collector/cache.go:222-239 | the loop separates the wildcard from the explicit names, with `admin` as the default |
| Tenants.Discovered | collector/cache.go:182-196 | a discovery yields a strictly sorted list of exactly the explicit and the found names |
| Cache.AtReplaced | collector/collector.go:47-52 | after a tenant's slice is replaced every series of the group under that tenant shows the new rows and every other series is as before |
| Cache.AtGlobal | collector/collector.go:41-45 | after a reset and re-render a controller-wide group shows exactly the new rows under their own tenant labels, and other groups are as before |
| Cache.RawWriteStaysInAdmin | collector/vs.go:217-267 | the raw admin analytics leave every other tenant's analytics alone, on every cache, if and only if the answer names no other tenant |
| Cache.DroppedTenantLeavesNothing | collector/cache.go:241-279 | after the tenant list is replaced no series, up flag, attempt or error counter, age or staleness gauge or module state of a dropped tenant remains |
| Cache.KeptTenantsUntouched | collector/cache.go:241-279 | series, states, counters and flags of kept tenants and everything without a dropped tenant's label are untouched |
| Cache.CountersAgreeWrite | collector/cache.go:241-279 | replacing slices and dropping tenants keeps counters and states in agreement |
| Cache.CountersAgreeBook | collector/cache.go:651-681 | the bookkeeping section keeps attempts, errors and both pairs of counters in agreement, and the last success no later than the last attempt |
| Cache.BookedExactly | collector/cache.go:651-681 | a booking counts one attempt, counts an error or takes over the time of success, raises the four counters by the same, and leaves every other module alone |
| Cache.SlicesCommute | collector/collector.go:47-52 | replacing slices of two different tenants gives the same gauges in either order |
| Cache.BooksCommute | collector/cache.go:651-681 | booking two different modules gives the same cache in either order |
| Exporter.Exporter.DeleteTenantGaugeVecs | collector/collector.go:47-52 | the loop removes exactly the tenant's series from the listed groups |
| Exporter.Exporter.ResetGaugeVecs | collector/collector.go:41-45 | the loop removes exactly the series of the listed groups |
| Exporter.Exporter.ReplaceTenantSlice | collector/cache.go:490-498 | the critical section of a per-tenant module turns the cache into the one with the tenant's slice replaced and nothing else changed |
| Exporter.Exporter.ReplaceGlobalGroup | collector/se.go:96-122 | the critical section of a controller-wide module replaces the whole group |
| Exporter.Exporter.ReplaceRawAnalytics | collector/vs.go:224-267 | only admin's slice is deleted, while every row is rendered under the tenant it names |
| Exporter.Exporter.RemoveTenantCacheLocked | collector/cache.go:255-279 | the loops over vectors, counters and states drop exactly the tenant's part of the cache |
| Exporter.Exporter.SetTenantsLocked | collector/cache.go:241-253 | in whatever order the stale tenants are visited, exactly they are dropped and the new list is stored |
| Exporter.Exporter.EnsureModuleStateLocked | collector/cache.go:689-703 | an existing state is returned as it is, a missing one is created from the policy |
| Exporter.Exporter.BookModule | collector/cache.go:651-681 | runModule's second critical section: attempts, errors, last success, policy and all four counters |
| Exporter.Exporter.UpdateDynamicSelfMetricsLocked | collector/cache.go:825-839 | in whatever order the states are visited, the age and staleness gauges are recomputed for every recorded module |
| Exporter.Exporter.RequiredModuleKeysLocked | collector/cache.go:739-823 | the straight-line code yields the required keys in the specified order |
| Exporter.Exporter.IsReady | collector/cache.go:853-874 | the check passes if and only if some module is required, each required one is recorded and fresh, and no recorded required one is stale |
| Exporter.Exporter.CacheStatus | collector/cache.go:876-931 | the reported readiness is that of the readiness check, and the report has one entry per recorded module with its age, limit, staleness, flags and counts, field by field |
| Staleness.ReadyExactly | collector/cache.go:841-874 | the cache is ready if and only if some module is required, and every required module and every module on record has last succeeded at most 30, 20, 15 or 10 minutes ago, depending on the module |
| Staleness.OldSuccessBlocks | collector/cache.go:825-874 | in every reachable state, however often a module was attempted since, a scrape shows the age of its last success and calls it stale exactly if that is older than its limit; a required or recorded module for which it is keeps the cache from being ready |
| Exporter.Exporter.RefreshTenants | collector/cache.go:167-220 | without a wildcard the explicit list is set; a successful discovery sets the sorted union and is booked; a failed one is booked and drops nothing, keeping the cached list or taking up the explicit one |
| Exporter.Exporter.RefreshTenant | collector/cache.go:466-639 | the chain of twelve modules with its guards and the final up flag computes the specified chain |
| Interleaving.TenantEffects | collector/cache.go:466-687 | a tenant's step touches only series, states and the flag of that tenant, and does not look at the shared cache |
| Interleaving.EffectsCommute | collector/cache.go:466-687 | steps of two different tenants commute on every cache |
| Interleaving.AnyInterleavingIsSerial | collector/cache.go:423-464 | every interleaving of the tenants' critical sections ends exactly like some tenants-one-after-another schedule, in any order of the tenants, timestamps included |
| Interleaving.ScheduleIndependence | collector/cache.go:423-687 | every complete schedule, with scrapes anywhere in it, leaves up to timestamps what the sequential refresh leaves, in any order |
| FanPhase.FanOutIsSequential | collector/cache.go:423-464 | the same for runs of the refresh protocol itself: admissions, refusals, critical sections and scrapes in any order allowed by the semaphore amount to the sequential refresh of the admitted tenants |
| SequentialRefresh.AloneIsRefreshTenant | collector/cache.go:466-639 | a tenant's goroutine left alone leaves the cache that refreshTenant leaves |
| SequentialRefresh.ConcurrentRefreshIsInTurn | collector/cache.go:423-687 | in every reachable refresh the final gauges, up flags, counters and module states (up to timestamps) are those of calling refreshTenant for one admitted tenant after another, in any order; without refusals these are all listed tenants |
| Snapshots.StaysFromThisRun | collector/cache.go:476-593 | a goroutine's variables are exactly the answers of its own refresh to the stages it is through with |
| Snapshots.TenantWritesItsRendering | collector/cache.go:490-627 | each write of a tenant's goroutine is the rendering of this refresh's answers for that tenant and group |
| Snapshots.MainWritesItsRendering | collector/cache.go:112-165 | the main goroutine writes only controller-wide groups, the raw admin analytics and sorted tenant lists, each from this refresh's answers |
| Snapshots.FailedFetchWritesNothing | collector/cache.go:641-647 | a fetch that fails writes nothing, for every module |
| Answered.TenantModuleExactly | collector/cache.go:476-628 | a tenant's module that is run succeeds if and only if what it needs of this refresh was answered, that is if its group can be rendered; it then writes exactly this rendering under the tenant's label, and otherwise nothing |
| Answered.MainModuleExactly | collector/cache.go:112-165 | a module of the main goroutine that is run succeeds if and only if it was answered, and then writes exactly the answer to its group, the raw analytics or the discovered tenants |
| AnsweredRefresh.FinishedTenantShowsAnswers | collector/cache.go:466-639 | once a tenant's goroutine is through, in every reachable state, each of its enabled groups whose answers came shows exactly their rendering, and its up flag is set if and only if everything that was asked for it was answered |
| AnsweredRefresh.FinishedMainShowsAnswers | collector/cache.go:112-165 | while the tenants are refreshed each enabled controller-wide group that was answered shows exactly this answer, and admin the raw analytics if they were read |
| AnsweredRefresh.CleanExactly | collector/cache.go:112-165 | a reachable refresh ends without errors if and only if no goroutine was turned away and the controller answered everything asked for itself and for each tenant |
| AnsweredRefresh.SettledTenants | collector/cache.go:167-220 | in every reachable refresh the settled list is the configured one without a wildcard, and otherwise the sorted union of the configured names with those of the login answer, or with those of the tenant list if the login answer names none |
| RefreshInvariants.AgreesStays | collector/cache.go:255-279 | no write, drop or booking breaks the agreement between each series and its last successful writer's rendering under the rows left by raw admin analytics |
| RefreshInvariants.StoreStays | collector/cache.go:112-687 | every critical section keeps the invariant of the shared state |
| ReachableStates.StepKeepsInv | collector/cache.go:112-687 | every step of the system (start, main step, spawn, admission, refusal, worker step, finish, scrape) keeps the whole invariant |
| Guarantees.CountersMatchStates | collector/cache.go:641-703 | in every reachable state both attempt counters equal Attempts, both error counters equal Errors, Errors <= Attempts, LastSuccess <= LastAttempt, and the attempt counters have series for exactly the recorded modules |
| Guarantees.SeriesAreLastRendering | collector/cache.go:490-687 | in every reachable state each series shows the rendering of the last successful writer's answers, or the last raw admin answer that has named it since its slice was last replaced or dropped; there is no other series |
| Guarantees.SliceIsOneSnapshot | collector/cache.go:490-627 | in every reachable state a tenant's slice of a group is empty or exactly one rendering of one refresh, never half replaced, if and only if the rows that raw admin analytics have left in it since then say nothing else; only VS analytics of tenants other than admin can have such rows, and only with a wildcard and both modules on |
| Guarantees.LastRawExact | collector/vs.go:237-267 | a row has been left exactly if one of the raw answers since names it, and its value is that of the last of those |
| Guarantees.UnlistedTenantHasNothing | collector/cache.go:241-279 | in every reachable state a tenant that is not listed has no series in a per-tenant group, no state, no counter and no flag, apart from VS analytics: admin's raw ones, and for any other tenant exactly the rows that raw admin answers have named for it since it was last dropped or refreshed |
| Guarantees.TenantListIsSound | collector/cache.go:167-307 | in every reachable state the tenant list is sorted and duplicate-free; once settled it contains every explicit tenant and is the list the refresh works on; at most `parallelism` tenants are in flight |
| Guarantees.TopologyIsOneRefresh | collector/cache.go:609-628 | in every reachable state a tenant's topology is empty or drawn from VS, pool, VsVip, pool-group and member data of one and the same refresh, and its edges climb in rank |
| Guarantees.ServedTopologyIsShallow | collector/cache.go:609-628 | in every reachable state the served topology has no cycle and no path of more than four edges |
| Guarantees.FailedModuleChangesNoSeries | collector/cache.go:641-687 | a failing module leaves the cache alone in its first section and changes only its own state and counters in the second |
| Guarantees.FailedDiscoveryRemovesNothing | collector/cache.go:203-219 | after a failed discovery nothing is removed: the cached list stays, or the explicit one is taken up |
| Backing.SucceededModuleIsRendered | collector/cache.go:641-681 | in every reachable state a module that has ever succeeded is backed by gauges that render a successful fetch, of the refresh of its last booked success or a later one |
| Backing.GroupIsIntactExactly | collector/cache.go:255-266 | in every reachable state a controller-wide group shows the whole of its last rendering if and only if none of the rows carries the label of a tenant dropped since |
| Readiness.RequiredOnce | collector/cache.go:739-823 | the required keys have no duplicates and are exactly the modules wanted of the controller and of each expected tenant |
| Coverage.AttemptsAreWanted | collector/cache.go:466-628 | in a refresh without errors so far a module is attempted exactly when it is wanted |
| CleanRefresh.CleanRefreshCoversRequired | collector/cache.go:112-165 | for every set of disabled modules and every tenant list, the modules booked by an error-free refresh are exactly the required ones, each once, and each has succeeded since the refresh started |
| CleanRefresh.ReadyAfterCleanRefresh | collector/cache.go:853-874 | for ten minutes from the start of an error-free refresh the cache is ready if and only if some module is required and no stale leftover of the raw admin analytics is recorded |
| Leftover.CleanRefreshNeedNotMakeReady | collector/cache.go:868-872 | a reachable error-free refresh after which every required module has just succeeded and the cache is still not ready |
| Leftover.StrayRowsReachable | collector/vs.go:237-267 | a reachable state that serves a VS-analytics series of a tenant that no discovery of the run ever finds |
| Vanished.VanishedRowReachable | collector/cache.go:255-266 | a reachable state in which the analytics of service engines have succeeded and a row of their last rendering is not shown, because its tenant was dropped |
| Scheduler.StepOnTime | collector/cache.go:88-101 | every event keeps the timing invariant: ticks come every interval, are buffered once, and start a refresh as soon as the loop waits |
| Scheduler.RequiredModulesStayYoung | collector/cache.go:88-126 | with fixed tenants and error-free refreshes within the timeout no required module is ever older than the interval plus twice the timeout (360 s; 240 s from the second refresh on) |
| Scheduler.ReadyNeverLapses | collector/cache.go:841-874 | under the same conditions the cache is ready at every time after the first refresh |
| SteadyRun.SteadyRunsExist | collector/cache.go:88-101 | such runs exist: a concrete one with a finished refresh and a required module, in which the cache is ready |
| Topology.TopologyGauges.CollectTopology | collector/topology.go:22-182 | the loops with their indexes, flags and emitted set add exactly the specified node and edge series |
| Topology.TopologyGauges.RenderPoolGroupTopology | collector/poolgroup.go:32-56 | the nested loops add exactly the pool-group nodes and their edges to member pools |
| Topology.TopologyGauges.RenderPoolMemberTopology | collector/pool.go:150-174 | the loop adds exactly the member nodes and the edges from their pools |
| TopologyGraph.TopologyRanked | collector/topology.go:90-137 | every edge of the three renderers goes from a lower to a higher rank of vsvip, vs, poolgroup, pool, poolmember, for all inventories |
| TopologyGraph.GraphIsShallowAndAcyclic | collector/topology.go:90-137 | in a ranked graph no path has more than four edges and none returns to its start |
| TopologyGraph.VSPoolEdgeIDsUnique | collector/topology.go:33-48 | no VS-to-pool edge id is emitted twice with different labels, whatever the inventory |
| TopologyGraph.VSPoolEdgesExact | collector/topology.go:127-175 | given unique VS UUIDs every VS-to-pool edge is a direct reference or a reverse reference of a known service without pool or pool-group reference, with the service's chain, and all of these are there if and only if no two of them have the same edge id |
| TopologyGraph.ArrowFreeIDsDistinct | collector/topology.go:33-48 | ids can only collide if a VS UUID holds the `>` of the edge arrow |
| TopologyGraph.CollidingEdgeIsLost | collector/topology.go:33-48 | a concrete inventory with unique UUIDs of which one edge is missing because its id equals another edge's |
| TopologyEdges.TopologyEdgesExact | collector/topology.go:90-175 | the edges of the whole topology are exactly those from each VIP to its services, from each service to its pool group, from each group to its member pools, from each pool to its members, and from services to pools; the last are, with unique VS UUIDs and distinct edge ids, exactly those called for by a direct or reverse reference |
| TopologyNodes.TopologyNodesExact | collector/topology.go:64-153 | the node and node-state series are exactly those of the VsVips, services, pools, pool groups and members, in this order and with the last one counting where keys coincide; id, title, state, value and chain are spelled out from UUID, name, operational state and labels |
| TopologyNodes.EveryItemHasItsNode | collector/topology.go:109-153 | every VsVip, service, pool and pool group of the inventory and every fetched member has a node |
| TopologyNodes.ReverseEdgesDoNotDangle | collector/topology.go:155-175 | both ends of every edge found through a reverse reference exist as nodes |
| TopologyNodes.GroupAndMemberEdgesDoNotDangle | collector/poolgroup.go:32-56 | the edges of a pool group start at a node; that of a member ends at one, and starts at one if the member's pool is in the inventory |
| Enrichment.InheritParentVSNamespace | collector/enrichment.go:64-98 | the two in-place passes turn every element into the one that inherits from the original inventory |
| EnrichmentLinks.InheritanceExact | collector/enrichment.go:64-98 | an item without a namespace gets n exactly when some item naming it as parent has n and none has another namespace; nothing else changes |
| EnrichmentLinks.InheritanceIgnoresOrder | collector/enrichment.go:64-98 | inheritance does not depend on the order of the inventory |
| Enrichment.BuildLinkIndex | collector/enrichment.go:105-148 | the index built by the loops and the seen sets is the specified one |
| EnrichmentLinks.LinksExact | collector/enrichment.go:114-148 | the index links to a VsVip exactly the non-empty UUIDs reachable by vsvip_ref, by a child's parent reference or by a runtime child reference that is present, each once |
| Enrichment.VsVipConfig.MergeVirtualServices | collector/enrichment.go:194-213 | the in-place merge computes the specified list |
| EnrichmentLinks.MergeExact | collector/enrichment.go:194-213 | existing entries are kept in order, and each missing linked UUID is appended exactly once and nothing else |
| Enrichment.BestVsVipMetadataSource | collector/enrichment.go:215-232 | the result is the first item with the highest score, or none for an empty list |
| Enrichment.LinkedCreatedByIs | collector/enrichment.go:180-192 | the creator taken over is that of the first managed service, or of the first named one if none is managed, or none |
| Enrichment.UniqueVSMetadataValue | collector/enrichment.go:283-299 | the loop with its early return computes the shared value |
| EnrichmentLabels.SharedExact | collector/enrichment.go:283-299 | the shared value is u exactly when some item has u and every item has u or nothing |
| Enrichment.VsVipConfig.FillUniqueMetadata | collector/enrichment.go:255-281 | the four guarded writes with their re-parsing compute the specified fill |
| EnrichmentLabels.FillExact | collector/enrichment.go:255-281 | each label ends as its old value, or else as the value all linked services share, if and only if no name to be written is misread because of a `/` |
| EnrichmentLabels.FillKeepsLabels | collector/enrichment.go:255-281 | no write ever changes a label that had a value, whatever characters the names hold |
| EnrichmentLabels.FillIdempotent | collector/enrichment.go:255-281 | a second fill changes nothing if and only if a namespace was known beforehand or no name that is written reads back as empty while a written name reads back with a namespace; slash-free names always satisfy this |
| EnrichmentLabels.FillMisreadsSlash | collector/enrichment.go:269-281 | a concrete service name `a/` for which the label stays empty, a namespace appears, and a second fill writes again |
| EnrichmentLabels.LendableExact | collector/enrichment.go:234-281 | filling from a sole service reaches that service's score for every VsVip with the same cluster name if and only if the service has a namespace or neither of its names is a bare `/` |
| EnrichmentLabels.EnrichmentNeverLowersScore | collector/enrichment.go:161-178 | unless a sole linked service without a namespace has a bare `/` for a name that does not come from its markers, enrichment never lowers the metadata score, and with a sole linked service it reaches that service's score, also when the markers are replaced wholesale |
| EnrichmentLabels.EnrichmentScoreExact | collector/enrichment.go:161-178 | for a sole linked service each of the two, for every VsVip, holds if and only if the service has a namespace or every label that is a bare `/` comes from its markers |
| EnrichmentLabels.SlashServiceLowersScore | collector/enrichment.go:161-178 | a concrete service of score 8 whose name is `/` and a VsVip whose score falls from 7 to 0 |
| Enrichment.VsVipConfig.EnrichFromVS | collector/enrichment.go:161-178 | merging, lending and filling in place compute the specified enrichment |
| Enrichment.EnrichVsVipInventory | collector/enrichment.go:100-159 | every element of the slice is enriched in place from its links, and elements without links are untouched |
| EnrichmentItems.ItemIsEnriched | collector/enrichment.go:100-178 | an element keeps its entries in order and names each reachable service once behind them; it keeps its creator or takes the one lent; over the markers and metadata it has or is lent each label stays or becomes what the linked services share, if and only if no name is misread because of a `/`; an unlinked element is unchanged |
| EnrichmentItems.InventoryIsEnriched | collector/enrichment.go:100-159 | the same for every element of the inventory after the pass |
| EnrichmentItems.ScoreIsByWeightiest | collector/enrichment.go:234-253 | of two label records the one scores higher that has the weightiest label that only one of them has, in the order namespace, service, ingress, host, cluster |
| FanOut.BoundedFetches | collector/pool.go:80-134 | in every interleaving at most `parallelism` pool fetches are in flight |
| FanOut.NoErrorMeansComplete | collector/pool.go:80-134 | no error is returned only if every pool's fetch succeeded, and then the members are exactly all pools' servers with multiplicity |
| FanOut.UncancelledOutcome | collector/pool.go:80-134 | without cancellation failures plus successes equal the number of pools, the failures are exactly the pools that failed, one of them is the reported first error, and there is an error exactly if one failed |
| FanOutAnswers.FanOutAnswersExactly | collector/pool.go:80-134 | the fan-out may end with an error, or with the members of all pools, pool by pool in an order of the pools, if every pool's fetch succeeded; every order can come about and nothing else |
| FanOutAnswers.ServedMembersAreComplete | collector/cache.go:536-551 | in every reachable state the pool-member series of a tenant are none, or those of all servers of all pools that one single refresh listed for it, with every detail call of that refresh successful |
| Addresses.AddressScore | collector/identity_inventory.go:214-225 | the loop counts the non-empty metadata fields and adds 100 for management |
| Addresses.PreferAddress | collector/identity_inventory.go:202-212 | score, key and gap filling decide as specified |
| Addresses.PreferCommutes | collector/identity_inventory.go:202-229 | of two sightings the same record results whichever came first if and only if they differ in score or key, or agree in role and in all fields that both have; without NUL characters, which the key uses as separator, it always does |
| Addresses.NulBreaksTheTie | collector/identity_inventory.go:227-229 | two concrete sightings with NUL characters and equal keys of which the first wins either way |
| Addresses.TieIsByFirstDifference | collector/identity_inventory.go:202-229 | between two sightings of the same score and without NUL the one wins that is smaller in the first field in which they differ |
| Addresses.PreferredRole | collector/identity_inventory.go:202-212 | management beats data whatever the other fields, and then nothing of the loser is taken over |
| Addresses.AddressBook.CollectVNICAddresses | collector/identity_inventory.go:146-174 | the loops over networks and VLANs add exactly the interface's sightings, in order, with the inherited labels |
| Addresses.InterfaceSightings | collector/identity_inventory.go:146-192 | what an interface contributes is exactly the addresses of its own networks and of its VLANs' networks, with role, name, network, VRF pair, prefix and hardware address spelled out |
| Addresses.SightingsExactly | collector/identity_inventory.go:107-192 | the sightings of a configuration are exactly its two management IPs, what its management interface contributes in the management role, and what its data interfaces contribute in theirs |
| Addresses.BookIsExact | collector/identity_inventory.go:107-134 | for any list of sightings the record of an address is management exactly if some sighting is, a field is filled exactly if some sighting in the record's role has it, and its value is such a sighting's |
| Addresses.ServiceEngineAddresses | collector/identity_inventory.go:107-144 | every sighting of the configuration that parses, also on a VLAN, has a record; the records are strictly sorted, each is management exactly if some sighting of the address is, and has each field exactly if some sighting in its role has it, from such a sighting |
| Addresses.RolesIgnoreOrder | collector/identity_inventory.go:107-134 | which addresses there are, their roles and which fields are filled does not depend on the order or repetition of the sightings |
| Addresses.AgreedValuesIgnoreOrder | collector/identity_inventory.go:107-134 | if the sightings in the winning role that have a field agree on it, its value does not depend on the order or repetition of the sightings |
| Addresses.ValuesIgnoreOrderExactly | collector/identity_inventory.go:107-134 | where no sighting in the winning role has all fields that there are, and all but one field are to be had from those without that one, every reordering of the sightings gives that field the same value if and only if they agree on it |
| Addresses.ValuesDependOnOrder | collector/identity_inventory.go:202-212 | three concrete data interfaces of a configuration whose order decides which interface their common address gets |
| Pagination.ListAll | avi/inventory.go:16-39 | the result is the concatenation of the pages up to the first one without next, or an error if that page or one before fails |
| Pagination.ListPoolRuntimeDetailPages | avi/inventory.go:175-202 | the pages up to the first that ends the listing are returned if it is among the first hundred, otherwise an error; fewer than a hundred further GETs |
| Pagination.GetPoolRuntimeDetail | avi/inventory.go:140-166 | an empty body, a bare array, a page envelope and a wrapped list are told apart in this order; at most a hundred GETs against any server |
| Pagination.HonestPoolRuntimeDetail | avi/inventory.go:140-202 | against a server that pages a list by 200 and shows its end by the count, whatever it says of a next page, or else by the next page, the result is exactly the list if it has at most 20000 entries and an error otherwise, with no page beyond the end |
| Pagination.HonestListAll | avi/inventory.go:16-39 | against such a server whose last page names no next one listAll returns the whole list, however long |

## Left out

- HTTP, TLS, login, the single re-login retry, JSON decoding, Prometheus text parsing, `Describe`, metric names and help strings: library plumbing around decoded values.
- Per-field gauge setters (`collector/vs.go`, `collector/vsvip.go`, `collector/gslb.go`, `collector/controller.go`, most of `collector/se.go`): one abstract rendering function per module; what a single gauge shows of a field is not modelled.
- `enrichVSInventory` and `enrichPoolInventory` beyond namespace inheritance: their extra configuration fetches and label copying are part of the virtual-service and pool answers of the oracle.
- `collector/cluster.go`, `main.go`, flags and configuration parsing; only the set of disabled modules and the tenant list of the configuration are used.
- Base labels, node subtitles, main and secondary stats, colours and the node-health gauge of the topology: formatted text without influence on the graph.
- The refresh-duration and last-attempt/last-success timestamp gauges: written together with the fields they mirror, which are modelled; texts of errors are reduced to whether the last run failed.
- The order of entries in the status report, which is sorted by module name for display.
- Context deadlines inside a module: a fetch that runs into its timeout is an error of the oracle. A goroutine that the context turns away is modelled.
- The time of a run's end is read between the two critical sections in the source; the model reads it in the first one, so other goroutines' sections may lie between the reading and the booking there as well.
- Clock precision: durations and clock readings are natural numbers of nanoseconds and the clock never runs backwards.
- Counters are unbounded; the source's 64-bit wrap-around is out of reach.
- The rows that overlapping pool members render are a function of the member list the fan-out returned; which of the orders that `FanOutAnswers` allows it returned is the oracle's choice.
- Pagination.ListAll: takes the page at which the listing stops, because the source's loop has no bound of its own and would not end against a server that always names a next page.
- Cache.DroppedTenantLeavesNothing: does not speak of the refresh-duration and timestamp gauges, which the cache state leaves out.
- Exporter.Exporter.RemoveTenantCacheLocked: does not delete the refresh-duration and timestamp gauges, for the same reason.
- Exporter.Exporter.BookModule: does not set the refresh-duration and timestamp gauges, for the same reason.
- Topology.TopologyGauges.CollectTopology: leaves out subtitles, stats, colours and the node-health gauge.
- Topology.TopologyGauges.RenderPoolGroupTopology: leaves out the same.
- Topology.TopologyGauges.RenderPoolMemberTopology: leaves out the same.
- Addresses.ValuesIgnoreOrderExactly: says nothing of sightings where one has all fields or where the field in question comes with a field that no other sighting has; there a value can be settled by score and key although the sightings disagree.
- FanOutAnswers.ServedMembersAreComplete: for refreshes whose pool members come from fan-outs; the refresh protocol itself leaves their answer to the oracle.
- Scheduler.RequiredModulesStayYoung: reads the cadence of the ticker and the timeout as exact; delays of the runtime in delivering a tick are not modelled.
- Exporter.Exporter.RequiredModuleKeysLocked: assumes that the tenant list holds no empty name, as `Guarantees.TenantListIsSound` shows of every reachable state.
- Exporter.Exporter.IsReady: assumes the same of the tenant list.
- Exporter.Exporter.CacheStatus: assumes the same of the tenant list, and leaves out timestamps, durations and the order of the entries.
- Exporter.Exporter.RefreshTenant: assumes a tenant with a name, as all listed ones are.
- `net/netip`: parsing, unmapping, printing, bit length and masking of addresses are parameters.
