# multus-service: verified models of the slice controller and the proxy

multus-service gives Kubernetes services to pods on secondary networks. It consists of two programs. The **slice
controller** (`pkg/service-controller`) watches services and pods and keeps a set of EndpointSlices per service that
publishes the pods' endpoints. The **proxy** (`pkg/proxy`) watches services, pods and EndpointSlices and programs the
nat table of every pod's network namespace. This project models the algorithmic and state-machine cores of both and
proves what they are for.

## The controller

* `Discovery`, `EndpointSet`: services, slices, endpoints and their keys; the set the packer consumes.
* `Packing`, `PortMapping`, `PackingTheorems`: the three phases of `reconcileByPortMapping`. Whatever slices exist
  (duplicates included) and in whatever order endpoints are popped, every desired endpoint ends up in exactly one
  surviving slice; endpoints stay where they were first listed; slices are filled fullest first and never past the
  maximum; phase 3 opens the exact number of slices.
* `Planning`, `AddressTypePlan`: grouping of pods and slices by port map, the loop over the port maps, retired and
  foreign slices, the placeholder, the recorded numbers.
* `Recycling`, `Writes`, `Publishing`, `PublishingTheorems`, `Traces`: `finalize`. Recycling of deletes, the API
  server with calls that may fail, the order of the writes; make before break after every call; exactly once at the
  end; nothing left to do the second time.
* `ReconcileSteps`, `IdleSyncs`, `Reconciler`, `Controller`: `reconcile` over all address types, `syncService` and the
  slice handlers; which address types a reconcile leaves alone.
* `PublishedPods`: what "published exactly" means, in terms of pods and of the fields of slices.
* `Tracker`, `Protocol`, `SyncSafety`: the generation tracker, the distributed protocol of writes, lagging informer
  and delete handlers, and both joined to the reconciler. `SyncSafety.SyncInRun` is the end-to-end result,
  `SyncSafety.SecondSyncIsIdle` what comes after it.
* `Wakeups`: what other writers do reaches the controller's queue.
* `MetricsCache`, `Sums`: the numbers behind the metrics.

## The proxy

* `EndpointStrings`, `ProxyEndpoints`, `EndpointLists`: from the slices of a service to sorted endpoint lists. All
  loops range over maps; the outcome is determined by what the slices offer.
* `ProxyCache`: applied and pending slices, incremental update of the endpoint map, connections to flush.
* `ChangeTrackers`, `ServicePorts`: the coalescing change trackers for services and pods (one model with two uses),
  and the service map.
* `Iptables`, `ProxyRules`, `IptableBuffer`, `RuleSync`: an interpreter for `iptables-restore --noflush`, the emitted
  script, and the proof that running it gives exactly the specified table.
* `RuleText`, `SavedRules`: rules as text, and what a sync reads back from the table an earlier one has left.
* `Packets`, `Forwarding`: an interpreter that walks a packet through the table, reading the words of the rules, and
  what becomes of packets in terms of services and slices (`Forwarding.PacketsReachEndpoints`).
* `ProxySync`: sync after sync, and the whole way from slice and service events to the table
  (`ProxySync.SyncServiceForwarding`).
* `LoadBalancing`: the random rules as probabilities, printed and read.

## Conventions

Hashes stand for their inputs and so count as injective. The inputs themselves are what the code hashes: the chain
names hash the concatenation of name, protocol and endpoint, and that different service ports have different
concatenations is proved for services with proper names (TCP, UDP or SCTP, no slash, colon or space in object names)
and endpoint strings without the letter p (`ServicePorts.ChainTells`, `RuleSync.MapChainsApart`). Endpoint strings
made of an IPv4 address and a port are such. Where a chain's name is written out, what is hashed stands for the hash.
The proxy takes IPv4 slices only, as `NewServer` sets it up; an address in a slice is an IPv6 address or a dotted IPv4
address, its ports are below 65536. In the table of a network namespace the names of other programs' chains do not
begin with "MULTUS-", as the proxy takes all chains with such names for its own, and the dispatch chain only jumps to
chains of the proxy. Nothing is assumed of the services' cluster IPs. A packet is followed from the dispatch chain on;
what the random rules draw are arbitrary numbers from 0 up to, but not including, 1. Iteration over Go maps and
`PopAny` are arbitrary choices. Slice names are distinct and not empty, and the maximum of endpoints per slice is at
least 1. The slices handed to `reconcile` are those the service's label selector lists. Calls to the API server may be
refused at any point and then change nothing; an update or delete of a slice that is not there is refused; an update
keeps the uid and raises the generation exactly when ports or endpoints change. Names and uids handed out by the
server are new. A namespace may start terminating at any time and then stays so; only then is a create refused for
that reason. Text that is only compared as a whole is wrapped in `Text`.

The protocol makes these assumptions:

* Every API write of the controller and its record in the tracker are one step. `Protocol.LateRecordWedges` shows what
  a late record can do.
* The service is not forgotten in between (`Protocol.ForgettingIsUnsafe`), and delete events arrive
  (`Protocol.LostDeletionWedges`).
* For safety, nobody else writes the service's slices. Other clients never edit the service-name and managed-by
  labels.
* One sync of a service at a time, as the work queue guarantees. The writes of other services' syncs during it are
  left out; they concern slices of other services only (`Traces.OwnOnTheWay`).

Deliveries to the informer's store and runs of delete handlers are steps of their own. They come at any time: before
the stale check, between any two API calls of a sync, and after the last one. The slices are listed first and checked
for staleness later; what handlers in between do to the check is part of the results.

## Where the code does something else than one might expect

* `syncService` lists the slices, and calls `StaleSlices` later without a common lock. If the delete handler of a
  listed slice runs in between, the check no longer sees that the slice is gone, although nobody else writes
  (`Protocol.HandlerInBetween`). A listing that passes is accurate if and only if that has not happened
  (`Protocol.FreshInEveryRun`, `SyncSafety.FreshIsListed`). If it has, the sync can take the slice for one in good
  order: after the run of `Protocol.HandledRun` it makes no call and returns nil although what is desired is not
  published (`SyncSafety.GoneSliceStays`), and the expected deletion wakes nobody.
* A create that fails because the namespace is terminating ends `finalize` with a nil error, updates and deletes not
  done. A nil result therefore means "published exactly once" only for address types without such a refusal. Unless
  something desired is published by a slice of another owner, it means so if and only if there was none
  (`Traces.ExactUnlessDropped`).
* Phase 3 opens more slices than needed exactly when there are endpoints left, they come to whole multiples of the
  maximum, and an unchanged slice is empty (`PackingTheorems.FewestUnlessWasteful`, `PackingTheorems.OneTooMany`):
  `getSliceToFill` is only asked when fewer than a full load remains.
* The event of a version of a slice that arrives after the controller has deleted that slice counts as news and wakes
  the service once more; events of its own writes to living slices never do (`Wakeups.OwnWriteIsQuiet`).
* A service that becomes headless, or ceases to be, changes no slice for that reason: the headless label is set when
  something else changes the slice (`Discovery.WellLabelledMeans`).
* `EndpointsEqualBeyondHash` treats an unset Serving or Terminating condition as equal to any value, so it is no
  equivalence relation. The proofs need only that an endpoint equals itself.
* `reconcile` deletes slices of unsupported address types even when reconciling a supported one has failed.
* The metrics cache entry of a service with several address types is overwritten by each of them in turn.
* When a new service chain's link lookup fails, the chain is created empty and no dispatch rule is written, but only
  if something else makes `FinalizeRules` emit the script (`RuleSync.RestoredInAnyCase`).
* A new service chain for an interface whose link is found but that has no address panics: the route takes the first
  element of an empty list. `Init` indexes token 17 of every saved line that starts with the dispatch chain's name,
  and panics on shorter lines, also when they are of another chain whose name begins like that
  (`ProxySync.LookAlikePanics`). A sync panics in these two cases and no others
  (`RuleSync.GenerateServiceForwardingRules`, `ProxySync.SyncTable`). The rules that a sync leaves never make the next
  one panic in the second way (`SavedRules.NoShortLine`).
* The rules go to the IPv4 table. One service port whose rules are written and whose cluster IP is not an IPv4 address
  makes `iptables-restore` refuse the whole script, so that nothing in the namespace changes: an ExternalName service,
  which has no cluster IP (only "None" is left out), or an IPv6 one (`RuleSync.ExternalNameRefused`,
  `RuleSync.IPv6Refused`). That all of them are IPv4 addresses is therefore part of the condition under which the
  table is as specified (`RuleSync.RestoredTable`, `ProxySync.SyncServiceForwarding`).
* `FinalizeRules` gives up the cluster IP of every chain that goes, also when another port of the same service still
  has the same cluster IP (`ProxySync.SyncTable`).
* A server that stops sets its service map to nil. A pending service change that brings a service port is then merged
  into the nil map, which panics (`ProxySync.CleanUp`).
* A service port whose network is on two interfaces gets all its rules twice, unless its chain is new and only one of
  the links is found; the table is as specified if and only if every wanted service port has its rules written for
  exactly one interface (`RuleSync.RestoredTable`). In the latter case the next sync writes them twice after all
  (`ProxySync.SyncTwice`).
* When `FinalizeRules` returns false, the dispatch chain is not flushed: the table is as specified if and only if no
  service port is wanted and that chain is empty (`RuleSync.NothingToRestore`). Rules that jump to chains of the proxy
  are never left over that way (`ProxySync.SyncTable`).

## Model

| member | source | states |
|---|---|---|
| `Discovery.Owned` | pkg/service-controller/utils.go:183-190 | true exactly for a slice with an owner reference to this service by uid, kind and API version |
| `Discovery.SetEndpointSliceLabels` | pkg/service-controller/utils.go:261-304 | the labels a slice of the service must carry, and whether the unreserved labels of slice and service differ |
| `Discovery.ServiceLabelsSettle` | pkg/service-controller/utils.go:261-304 | a slice given those labels is listed by the service's selector and never asks for another label update |
| `Discovery.ServiceLabelsAre` | pkg/service-controller/utils.go:290-303 | label by label: service name and manager are set, the headless mark is there exactly for headless services, all other labels are those of the service |
| `Discovery.WellLabelledMeans` | pkg/service-controller/utils.go:261-286 | a slice needs no label update exactly if it agrees with the service in every label but the three reserved ones; whether the service is headless makes no difference |
| `EndpointSets.EndpointSet.Get` | pkg/service-controller/endpointset.go:73-75 | the endpoint stored under the key of the given one, if there is one |
| `EndpointSets.EndpointSet.PopAny` | pkg/service-controller/endpointset.go:87-94 | takes out some element, None exactly for the empty set, all others stay |
| `Packing.KeptKeys` | pkg/service-controller/reconciler.go:332-346 | the endpoints a slice keeps are exactly its available keys, each once, also when the slice lists one twice |
| `Packing.SweepConserves` | pkg/service-controller/reconciler.go:326-377 | after any number of slices every desired key has exactly one place, in a surviving slice or among those to be placed |
| `Packing.SweepAccounts` | pkg/service-controller/reconciler.go:351-379 | endpoints found minus removed plus added is the number desired |
| `Packing.SameShows` | pkg/service-controller/reconciler.go:339-341 | equal keys and no difference beyond them mean the same addresses, host, node, zone, readiness and target up to the resource version, serving and terminating where both are set |
| `PortMapping.Sweep` | pkg/service-controller/reconciler.go:320-377 | the loop of phase 1 sorts every slice by its verdict and leaves exactly the keys no slice had |
| `PortMapping.FillUpdated` | pkg/service-controller/reconciler.go:381-399 | phase 2 ends with nothing to place or all updated slices full; a slice receives endpoints only if all fuller ones are full; at most one receiver has room left |
| `PortMapping.GetSliceToFill` | pkg/service-controller/utils.go:195-209 | a slice with room for the endpoints, the fullest such, and none exactly if no slice has room |
| `PortMapping.PlaceRest` | pkg/service-controller/reconciler.go:401-443 | one new slice per full load; a rest goes into the best fitting unchanged slice if one fits and into a last new slice otherwise; terminates with nothing left |
| `PortMapping.ReconcileByPortMapping` | pkg/service-controller/reconciler.go:314-458 | the three phases in sequence, conservation of every key, the lists as current forms of the name sets, the added and removed counts |
| `PackingTheorems.ExactlyOnce` | pkg/service-controller/reconciler.go:314-458 | surviving and new slices together hold every desired key exactly once and no other key |
| `PackingTheorems.Partition` | pkg/service-controller/reconciler.go:445-455 | unchanged, updated and deleted names partition the existing slices, and unchanged slices are unchanged |
| `PackingTheorems.KeptInPlace` | pkg/service-controller/reconciler.go:328-377 | the first slice that lists a desired endpoint is not deleted and its final form still holds it |
| `PackingTheorems.SurvivorsAreGood` | pkg/service-controller/reconciler.go:328-443 | every endpoint of a surviving or new slice says field by field what a desired one says; surviving slices carry the service's labels; new slices hold 1 to max endpoints |
| `PackingTheorems.NeverPastMax` | pkg/service-controller/reconciler.go:394-433 | no slice grows past max; one above max is no larger than it was |
| `PackingTheorems.FewestCreates` | pkg/service-controller/reconciler.go:401-443 | no placement into one unchanged slice and new slices needs fewer new slices, unless endpoints for whole loads remain while an unchanged slice is empty |
| `PackingTheorems.FewestUnlessWasteful` | pkg/service-controller/reconciler.go:401-443 | the number of new slices is the least possible if and only if that is not the case |
| `PackingTheorems.EmptySliceUnused` | pkg/service-controller/reconciler.go:409-418 | in that case one new slice fewer would do |
| `PackingTheorems.OneTooMany` | pkg/service-controller/reconciler.go:314-443 | a maximum of 1, one empty slice in order and one desired endpoint: a slice is created and the empty one stays empty |
| `PackingTheorems.TidyIsIdle` | pkg/service-controller/reconciler.go:314-458 | on slices that publish exactly the desired endpoints in good form nothing is created, updated or deleted |
| `Planning.GroupPods` | pkg/service-controller/reconciler.go:141-174 | the desired endpoint sets and port metadata by port map; an error exactly if an included pod's node is unknown |
| `Planning.GatherMeans` | pkg/service-controller/reconciler.go:146-174 | a key is desired under a port map exactly if an included pod with an address asks for it, and the last such pod decides the endpoint |
| `Planning.GroupSlices` | pkg/service-controller/reconciler.go:128-139 | owned slices by port map in their order, foreign slices apart |
| `Planning.Join` | pkg/service-controller/reconciler.go:181-197 | adding the packing of one more port map keeps the plan sound: counts, forms, lists, first places, idleness |
| `AddressTypePlans.PlanPortMaps` | pkg/service-controller/reconciler.go:176-197 | the loop over port maps in any order gives a sound plan and the right numbers |
| `AddressTypePlans.PlanAddressType` | pkg/service-controller/reconciler.go:122-217 | a plan that publishes every desired endpoint once, deletes exactly the slices without a final form, never ends without slices, and does nothing on tidy slices; recorded slices sum to surviving slices |
| `AddressTypePlans.RecordPlaceholder` | pkg/service-controller/reconciler.go:209-217 | with the placeholder the recorded slices still sum to the surviving ones, now 1 |
| `AddressTypePlans.IdealAtMostSurvivors` | pkg/service-controller/metrics/cache.go:157-162 | with a desired endpoint and no existing slice above max the ideal slice count is at most the surviving count |
| `Recycling.RecycleDeletes` | pkg/service-controller/reconciler.go:236-260 | the last creates become updates of reusable deletes in order, everything else stays; it ends without creates or with deletes that some create cannot reuse |
| `Recycling.RecyclingConserves` | pkg/service-controller/reconciler.go:236-260 | creates plus updates and the union of the names in updates and deletes are conserved; only owned slices of the same address type are reused |
| `Recycling.OnlyForeignLeft` | pkg/service-controller/reconciler.go:236-260 | with one address type it ends without creates or with only foreign slices to delete |
| `Publishing.StageOf` | pkg/service-controller/reconciler.go:262-298 | after the first i calls the store is what creates, then updates, then deletes say, name by name |
| `PublishingTheorems.MakeBeforeBreak` | pkg/service-controller/reconciler.go:238-300 | whatever is published and stays desired is published after any number of the calls, also if its only copy was in a foreign slice or its neighbours were recycled |
| `PublishingTheorems.PublishesExactly` | pkg/service-controller/reconciler.go:229-301 | after all calls every desired endpoint is in exactly one slice, once, field by field as desired, and nothing else is published |
| `PublishedPods.PodsArePublished` | pkg/service-controller/reconciler.go:122-226 | then every contributing pod is published under its ports and addresses, in one place only, every published endpoint is that of the last such pod field by field, and nothing else is published |
| `PublishingTheorems.OthersUntouched` | pkg/service-controller/reconciler.go:244-256 | slices of other services and address types are neither changed nor created nor deleted |
| `PublishingTheorems.SecondRunIsIdle` | pkg/service-controller/reconciler.go:122-226 | with something desired, planning again on the slices a complete run leaves gives no create, update or delete |
| `IdleSyncs.TidyRun` | pkg/service-controller/reconciler.go:122-226 | for an address type whose listed slices are tidy the run makes no call, reports no error and drops nothing |
| `IdleSyncs.OnlyUndesiredBusy` | pkg/service-controller/reconciler.go:62-116 | after an error-free reconcile without dropped creates, a caught-up listing gives a reconcile something to write only for address types with nothing desired |
| `Writes.ApiServer.CreateSlice` | pkg/service-controller/reconciler.go:265-274 | a new slice under a new name and uid, or a refusal that changes nothing and is on record; refused as terminating only if the namespace is |
| `Traces.KeptOnTheWay` | pkg/service-controller/reconciler.go:262-300 | make before break for every prefix of an actual run, failed or not |
| `Traces.ExactUnlessDropped` | pkg/service-controller/reconciler.go:268-275 | unless a listed slice of another owner publishes something desired, an error-free run publishes exactly what is desired if and only if no create was dropped |
| `Traces.OwnOnTheWay` | pkg/service-controller/reconciler.go:265-298 | every write concerns a slice of the service, and a delete the very slice that was listed |
| `Reconcilers.Reconciler.Interleave` | pkg/service-controller/endpointslice_controller.go:467-476 | any number of delete handlers for slices the API server no longer has, which change the tracker and nothing else |
| `Reconcilers.Reconciler.Finalize` | pkg/service-controller/reconciler.go:229-301 | performs a prefix of the recycled changes' calls in order, each recorded in the tracker, with delete handlers at any time between them; ends early exactly if the API server refused the next of the calls, and asks for no other; no create for a service that is being deleted |
| `Reconcilers.Reconciler.ReconcileByAddressType` | pkg/service-controller/reconciler.go:122-226 | a sound plan is recorded and written as far as the API server lets it; nothing happens if a pod's node is unknown; an error or a dropped create exactly if a call was refused |
| `ReconcileSteps.GroupByType` | pkg/service-controller/reconciler.go:78-92 | supported slices by address type in their order, unsupported ones to be deleted |
| `ReconcileSteps.TypeStep` | pkg/service-controller/reconciler.go:94-101 | reconciling one more address type keeps what the others achieved and never unpublishes anything still wanted |
| `ReconcileSteps.ClearDone` | pkg/service-controller/reconciler.go:103-113 | when the unsupported slices are gone too, exactly the supported address types are published |
| `Reconcilers.Reconciler.Reconcile` | pkg/service-controller/reconciler.go:62-116 | the run goes from the first state to the last, every step a recorded write; on an accurate listing: always published on the way, and without errors everything published exactly once except for address types dropped by a terminating namespace; errors come from unknown nodes and refused calls only, and all of those show; without the proxy label nothing happens; no uid is given out for a service that is being deleted; address types with tidy slices are not written |
| `ReconcileSteps.NothingFailed` | pkg/service-controller/reconciler.go:94-115 | with all nodes known and no call refused there is no error and nothing was dropped |
| `Trackers.EndpointSliceTracker.ShouldSync` | pkg/service-controller/endpointslice_tracker.go:71-81 | true exactly for slices unknown or newer than tracked |
| `Trackers.EndpointSliceTracker.StaleSlices` | pkg/service-controller/endpointslice_tracker.go:89-116 | true exactly if a listed slice is older than tracked or expected to be deleted, or a tracked slice is not listed |
| `Trackers.EndpointSliceTracker.Update` | pkg/service-controller/endpointslice_tracker.go:120-131 | records the slice's generation under its service and changes nothing else |
| `Trackers.EndpointSliceTracker.ExpectDeletion` | pkg/service-controller/endpointslice_tracker.go:144-155 | records that the slice is expected to go and changes nothing else |
| `Trackers.EndpointSliceTracker.HandleDeletion` | pkg/service-controller/endpointslice_tracker.go:160-175 | forgets the slice; false exactly if it was tracked and its deletion not expected |
| `Controllers.Controller.OnEndpointSliceAdd` | pkg/service-controller/endpointslice_controller.go:426-435 | wakes the service exactly for managed slices that tell something new |
| `Controllers.Controller.OnEndpointSliceUpdate` | pkg/service-controller/endpointslice_controller.go:441-462 | wakes both services when the service label moves, else the service on a change of manager or on news |
| `Controllers.Controller.OnEndpointSliceDelete` | pkg/service-controller/endpointslice_controller.go:467-476 | a known managed slice is forgotten, and its service woken exactly if the deletion was not expected |
| `Controllers.Controller.SyncService` | pkg/service-controller/endpointslice_controller.go:318-397 | forgets deleted services, skips those without selector or without the label value "multus-proxy", does nothing on a stale listing, reconciles otherwise; delete handlers may run between listing and check and all the time after |
| `Protocol.VersionsGrow` | pkg/service-controller/endpointslice_controller.go:448-451 | generations never decrease, and equal generations mean equal ports and endpoints |
| `Protocol.FreshInEveryRun` | pkg/service-controller/endpointslice_controller.go:369-381 | in every run with one writer: a listing that passes the check later, after deliveries and delete handlers only, shows every slice of the API server with its newest ports and endpoints and no other, if and only if no delete handler of a listed slice has run in between |
| `Protocol.HandlerInBetween` | pkg/service-controller/endpointslice_controller.go:369-381 | a run with one writer in which such a handler runs, and a listing with a slice that is gone passes |
| `Protocol.QuietIsNotStale` | pkg/service-controller/endpointslice_tracker.go:89-175 | in every run, whoever writes, a caught-up informer with all delete handlers run gives a listing that is not stale |
| `Protocol.ForgettingIsUnsafe` | pkg/service-controller/endpointslice_controller.go:334-334 | a run in which forgetting the service lets a listing pass that misses a slice |
| `Protocol.LateRecordWedges` | pkg/service-controller/reconciler.go:268-276 | were write and record two steps, a run exists after which every listing is stale in every continuation that does not forget the service |
| `Protocol.LostDeletionWedges` | pkg/service-controller/endpointslice_tracker.go:106-114 | a tracked slice that somebody else deleted keeps every listing stale through all steps until its delete event comes or the service is forgotten |
| `SyncSafety.FreshIsListed` | pkg/service-controller/endpointslice_controller.go:369-381 | a listing taken at any state of a run and checked after deliveries and delete handlers is, if it passes, the service's slices of the API server if and only if no delete handler of a listed slice ran in between |
| `SyncSafety.WriteIsStep` | pkg/service-controller/reconciler.go:265-298 | every write of a sync with its record is a step of the protocol |
| `SyncSafety.HandlerIsStep` | pkg/service-controller/endpointslice_controller.go:467-476 | the delete handler does to the service's tracked generations what the protocol's step does, and nothing for slices of other services |
| `SyncSafety.HandlersContinue` | pkg/service-controller/endpointslice_controller.go:467-476 | any delete handlers for slices that are gone continue the run, by deliveries and handler steps only |
| `SyncSafety.DeliverContinues` | pkg/service-controller/endpointslice_controller.go:467-476 | so do any deliveries |
| `SyncSafety.SyncContinues` | pkg/service-controller/reconciler.go:262-300 | the writes of a sync continue a run with one writer, with any deliveries one likes after each write and any delete handlers before it |
| `SyncSafety.SyncInRun` | pkg/service-controller/endpointslice_controller.go:318-397 | in every run with one writer: stale and nothing done, or the listing is accurate exactly if no delete handler of a listed slice came in between; then nothing still desired is missing after any write and the run goes on, and with all nodes known and no call refused the sync ends without error and the pods are published, each endpoint once and field by field as it should be |
| `SyncSafety.SecondSyncIsIdle` | pkg/service-controller/reconciler.go:62-116 | after an error-free reconcile in a namespace that is not terminating, one on the caught-up listing writes only slices of address types with nothing desired; without such types it makes no call and returns no error |
| `SyncSafety.GoneSliceStays` | pkg/service-controller/endpointslice_controller.go:369-381 | after the run of a delete handler between listing and check, a sync with the gone slice in its listing makes no call, returns nil, and what the slice held is desired and not published |
| `Wakeups.ForeignChangeIsNews` | pkg/service-controller/endpointslice_tracker.go:71-81 | whoever else creates a slice or changes its ports or endpoints: it stays news until the controller writes the slice again |
| `Wakeups.ForeignRemovalIsUnexpected` | pkg/service-controller/endpointslice_tracker.go:160-175 | a deletion by somebody else is never an expected one |
| `Wakeups.ForeignChangeWakes` | pkg/service-controller/endpointslice_controller.go:426-462 | the add or update handler of such a change queues the service, however late it is delivered |
| `Wakeups.ForeignRemovalWakes` | pkg/service-controller/endpointslice_controller.go:467-476 | the delete handler of a tracked slice that somebody else deleted queues the service and forgets the slice |
| `Wakeups.OwnWriteIsQuiet` | pkg/service-controller/endpointslice_controller.go:426-462 | with one writer the event of a version of a slice wakes its service exactly if the slice is not tracked or has been deleted since |
| `MetricsCache.NumEndpoints` | pkg/service-controller/metrics/cache.go:83-90 | the sum over the port maps in any order |
| `MetricsCache.IdealIsLeast` | pkg/service-controller/metrics/cache.go:157-162 | the ideal count is the least positive number of slices that holds the endpoints |
| `MetricsCache.Cache.UpdateServicePortCache` | pkg/service-controller/metrics/cache.go:96-112 | replaces one entry and keeps the running total equal to the sum over everything cached |
| `MetricsCache.Cache.DeleteService` | pkg/service-controller/metrics/cache.go:116-124 | removes one entry and keeps that equality |
| `MetricsCache.Cache.DesiredAndActualSlices` | pkg/service-controller/metrics/cache.go:135-144 | the sums of ideal and actual slice counts over the whole cache |
| `ProxyEndpoints.AddEndpoints` | pkg/proxy/controllers/endpointslice.go:494-534 | adds exactly what the endpoints of the right family offer; a string is local if any offer of it is |
| `ProxyEndpoints.EndpointInfoByServicePort` | pkg/proxy/controllers/endpointslice.go:465-491 | groups exactly the offers of all slices by service port, in any order of the map |
| `EndpointLists.SortByEndpoint` | pkg/proxy/controllers/endpointslice.go:576-584 | every offered string once, strictly sorted, with its local flag |
| `EndpointStrings.BeforeMeans` | pkg/proxy/controllers/endpointslice.go:576-584 | the order of the strings: the smaller character at the first difference, a proper prefix first |
| `EndpointLists.OneList` | pkg/proxy/controllers/endpointslice.go:570-591 | two lists for the same offers are equal endpoint by endpoint |
| `EndpointLists.OneMap` | pkg/proxy/controllers/endpointslice.go:459-462 | two computations from the same slices have the same service ports and equal lists |
| `ProxyCache.EndpointSliceCache.EsInfoChanged` | pkg/proxy/controllers/endpointslice.go:542-568 | compares with the pending value if there is one, else with the applied one, else asks whether the slice is removed |
| `ProxyCache.EndpointSliceCache.EndpointSliceUpdate` | pkg/proxy/controllers/endpointslice.go:399-422 | an event takes effect for its service and slice name at the next sync and for nothing else; ignored without usable names |
| `ProxyCache.EndpointSliceCache.CheckoutChanges` | pkg/proxy/controllers/endpointslice.go:426-456 | takes in all pending events and returns, for each service that had some, its endpoints before and after |
| `ProxyCache.Replace` | pkg/proxy/controllers/endpointslice.go:718-720 | unmerging the previous and merging the current endpoints replaces exactly the service's part of the map |
| `ProxyCache.EndpointsMap.Apply` | pkg/proxy/controllers/endpointslice.go:711-723 | the map shows what all applied slices give, nothing is pending, and the reported stale connections are exactly those between the old and the new map |
| `ProxyCache.DetectStaleConnections` | pkg/proxy/controllers/endpointslice.go:764-795 | adds exactly the UDP endpoints that are gone and the UDP service ports that came to have endpoints |
| `ProxyCache.Replay` | pkg/proxy/controllers/endpointslice.go:399-456 | after any events and syncs, a sync leaves under every service port exactly the strings that endpoints of the latest slices give, of the proxy's address family, on named ports with a number, sorted, local if on the proxy's node; nothing pending |
| `ProxyCache.LatestIs` | pkg/proxy/controllers/endpointslice.go:360-422 | what is kept for a name is the slice of its last event, unless that removed it |
| `ChangeTrackers.ChangeTracker.Update` | pkg/proxy/controllers/service.go:267-300 | map and collected changes keep standing for the live objects, also when changes merge or cancel |
| `ChangeTrackers.TrackedMap.Apply` | pkg/proxy/controllers/service.go:183-197 | afterwards nothing is pending and the map holds exactly the entries of the live objects |
| `ChangeTrackers.Replay` | pkg/proxy/controllers/service.go:183-300 | for any events, syncs anywhere between them: after a sync the map is the union of the live objects' entries |
| `ServicePorts.ServiceToServiceMap` | pkg/proxy/controllers/service.go:240-264 | none without the annotation; else an entry for each port, which says what the last definition of that name and protocol says: port, target port, cluster IP, network, name and protocol |
| `ServicePorts.PortsMapMeans` | pkg/proxy/controllers/service.go:254-262 | every port under its own name as its last definition says, and nothing else |
| `ServicePorts.EntriesShow` | pkg/proxy/controllers/service.go:225-262 | the entries field by field; the network is the annotation, or the namespace, a slash and the annotation without its spaces |
| `ServicePorts.OneNetwork` | pkg/proxy/controllers/service.go:249-252 | that determines the network |
| `ServicePorts.ChainTells` | pkg/proxy/controllers/service.go:148-152 | different service ports with proper names have different chains, and so have their endpoints, although the hashed text has no marks between its parts |
| `ServicePorts.JoinWithEndpointTells` | pkg/proxy/server/server.go:517-521 | name, protocol and endpoint can be told from their concatenation |
| `ServicePorts.ReplayServices` | pkg/proxy/controllers/service.go:183-300 | the service map after any events has exactly the ports of the live annotated services, and each entry says field by field what the service says |
| `ServicePorts.ReplayPods` | pkg/proxy/controllers/pod.go:385-458 | the pod map after any events holds exactly the live pods whose information could be had |
| `IptableBuffers.IptableBuffer.Init` | pkg/proxy/server/iptables.go:79-131 | buffers for no job: the proxy's chains of the table, the dispatch chain declared and in use, the cluster IPs read from the saved lines; a panic exactly if a saved dispatch line is too short; nothing at all when saving the table failed |
| `IptableBuffers.IptableBuffer.GenerateServiceEndpointSliceForwardingRules` | pkg/proxy/server/iptables.go:204-241 | one declared chain, one jump for one of n, n-1, ..., 1 packets and one DNAT rule per endpoint, in order |
| `IptableBuffers.IptableBuffer.GenerateServicePortForwardingRules` | pkg/proxy/server/iptables.go:243-267 | the lines of one service port; only the declaration if the chain is new and the link is not found; a panic exactly if the chain is new, the link found, and the interface without addresses |
| `IptableBuffers.IptableBuffer.FinalizeRules` | pkg/proxy/server/iptables.go:134-160 | false exactly if there is no rule to write and no stale chain; otherwise the whole script in order; gives up the remembered cluster IPs of the stale chains |
| `ProxyRules.ScriptMeets` | pkg/proxy/server/iptables.go:134-160 | on any well-formed table the script is accepted if and only if the cluster IPs and endpoints in it are IPv4 addresses, and then it leaves exactly the chains in use with exactly their rules, foreign chains untouched |
| `ProxyRules.DispatchChain` | pkg/proxy/server/iptables.go:260-263 | the dispatch chain holds one rule per programmed service port |
| `ProxyRules.ServicePortChain` | pkg/proxy/server/iptables.go:210-220 | the chain of a programmed service port holds exactly its endpoints' jumps |
| `ProxyRules.IdleChain` | pkg/proxy/server/iptables.go:243-251 | the chain of a service port that no job programs is empty |
| `ProxyRules.EndpointRule` | pkg/proxy/server/iptables.go:222-237 | an endpoint chain holds exactly its DNAT rule |
| `RuleSync.GenerateServiceForwardingRules` | pkg/proxy/server/server.go:545-558 | one job per interface and service port on its network that is not headless, in any order, the script for them and the cluster IPs given up; a panic exactly if a saved dispatch line is too short or a new chain is wanted on an interface with a link but no address |
| `RuleSync.MapChainsApart` | pkg/proxy/controllers/service.go:225-238 | the service map of properly named services gives every service port a chain of its own, and every endpoint of it too |
| `RuleSync.RestoredTable` | pkg/proxy/server/server.go:548-571 | restoring succeeds if and only if every service port whose rules are written has an IPv4 cluster IP and IPv4 endpoints, and then the table is exactly the specified one if and only if every wanted service port has its rules written for exactly one interface |
| `RuleSync.HeadlessIgnored` | pkg/proxy/server/server.go:548-554 | no job is about a service port with cluster IP "None", and those do not keep restoring from succeeding |
| `RuleSync.ExternalNameRefused` | pkg/proxy/server/server.go:548-554 | a service without cluster IP on the network of an interface with a link makes restoring fail |
| `RuleSync.IPv6Refused` | pkg/proxy/server/server.go:548-554 | so does a programmed one with an IPv6 cluster IP |
| `RuleSync.OneInterfacePerNetwork` | pkg/proxy/server/server.go:548-554 | that is so when all links are found and no network is on two interfaces |
| `RuleSync.RestoredInAnyCase` | pkg/proxy/server/iptables.go:243-267 | whether links are found or not: when restoring succeeds, which is so under the same condition on addresses, a service port is complete exactly if its chain existed or its link was found, else its chain is empty and not dispatched to |
| `RuleSync.NothingToRestore` | pkg/proxy/server/iptables.go:150-152 | when nothing is restored, the table is as specified if and only if no service port is wanted and the dispatch chain is empty |
| `ProxySync.StaysWellFormed` | pkg/proxy/server/server.go:558-571 | the table a sync leaves is fit for the next script |
| `ProxySync.LookAlikePanics` | pkg/proxy/server/iptables.go:105-109 | a table on which Init panics although nothing is wanted: a rule of four words in a chain named like the dispatch chain |
| `ProxySync.SyncTable` | pkg/proxy/server/server.go:523-576 | a panic exactly for a short dispatch line or an interface without address; else, whether something is restored or not, the table is as specified if and only if every wanted service port, headless ones left aside, has its rules written for exactly one interface and all addresses are IPv4, the next sync can start from it and read it back, and on a table read back the cluster IPs given up are exactly those of the dispatch rules whose chains are gone |
| `ProxySync.SpecifiedOnce` | pkg/proxy/server/server.go:523-576 | on a table that is as specified, specified again means the same table up to the order of the dispatch rules |
| `ProxySync.SyncTwice` | pkg/proxy/server/server.go:523-576 | a second sync with nothing new never panics, whatever links are found, and changes nothing but that order if and only if no service port is on the network of two interfaces; both tables can be read back |
| `ProxySync.CleanUp` | pkg/proxy/server/server.go:169-171 | with no service left only the empty dispatch chain of the proxy remains; a panic exactly if a pending change brings a service port or a dispatch line is short |
| `ProxySync.SyncServiceForwarding` | pkg/proxy/server/server.go:448-511 | after any slice and service events, with syncs in between: a panic exactly in the two cases of a sync; else the table forwards exactly the live services' ports to exactly the latest slices' endpoints if and only if every wanted service port has its rules written for exactly one interface and an IPv4 cluster IP |
| `Packets.DispatchApplies` | pkg/proxy/server/iptables.go:260-263 | a dispatch rule, read word by word, applies exactly to the packets with the service's cluster IP, protocol and port number |
| `Packets.AtServicePort` | pkg/proxy/server/iptables.go:204-241 | a packet in a service chain gets the destination of the endpoint that the draws choose, and passes only if there is no endpoint |
| `Packets.PacketsGo` | pkg/proxy/server/server.go:548-571 | in a table as specified a packet gets a new destination exactly if it is for a wanted service port with endpoints, and then one of its endpoints |
| `Forwarding.PacketsReachEndpoints` | pkg/proxy/server/server.go:448-571 | exactly the packets for a port of a live service on the network of an interface that an endpoint of the latest slices serves get a new destination, and it is such an endpoint's address and port |
| `RuleSync.ChainSpreadsEvenly` | pkg/proxy/server/iptables.go:210-220 | the last words of a service chain's jumps, read as decimals, give every endpoint its share up to n/2 units of the tenth digit and lose no packet |
| `LoadBalancing.Probabilities.Probability` | pkg/proxy/server/server.go:656-661 | however far the table has grown, the answer for n from 1 up is the computed probability |
| `LoadBalancing.RoundedIsNear` | pkg/proxy/server/server.go:663-665 | the ten digits are within half a unit of 1/n, and exact for 1 |
| `LoadBalancing.PrintedReads` | pkg/proxy/server/server.go:663-665 | reading the printed decimal gives the number of units of the tenth digit back |
| `LoadBalancing.ChosenExactly` | pkg/proxy/server/iptables.go:210-239 | with probabilities 1/n, 1/(n-1), ..., 1 every rule takes its packet with probability exactly 1/n |
| `LoadBalancing.ChosenNear` | pkg/proxy/server/iptables.go:210-239 | with errors of at most e every rule is within n times e of 1/n |
| `LoadBalancing.SumsToOne` | pkg/proxy/server/iptables.go:210-239 | with a certain last rule the selection probabilities sum to 1 |
| `RuleText.WriteLine` | pkg/proxy/server/iptables.go:270-280 | the words with a space between them and a newline, nothing for no words |
| `RuleText.SplitJoin` | pkg/proxy/server/iptables.go:104-112 | splitting on spaces undoes writing, for words without spaces |
| `RuleText.RuleReadsBack` | pkg/proxy/server/iptables.go:104-112 | a written dispatch rule has 18 tokens, its cluster IP at 3 and its chain at 17 |
| `RuleText.ReadClusterIPs` | pkg/proxy/server/iptables.go:104-112 | the map by token 17 of token 3 over the dispatch lines, the last line of a chain counting; None exactly if a dispatch line is too short |
| `RuleText.RebuildClusterIPs` | pkg/proxy/server/iptables.go:104-112 | from an echo of its own rules exactly the cluster IP of every chain is recovered |
| `RuleText.SaveInto` | pkg/proxy/server/iptables.go:84-88 | the lines of all rules of the table, and no other line that looks like one of the dispatch chain |
| `SavedRules.EchoOf` | pkg/proxy/server/iptables.go:104-112 | the rules of a table a sync has left, as they are saved, are an echo of what it wrote |
| `SavedRules.NoShortLine` | pkg/proxy/server/iptables.go:104-112 | no line of such a table makes Init panic |
| `SavedRules.RemembersAll` | pkg/proxy/server/iptables.go:104-112 | Init remembers exactly the chains dispatched to in such a table, each with its cluster IP |
| `SavedRules.OldExactly` | pkg/proxy/server/iptables.go:145-148 | and the cluster IPs given up are exactly those of the dispatched chains that go |

## Left out

- Slices are values: the controller deep-copies informer objects before changing them, and aliasing between lists of
  the original is not modelled. `hashEndpoint` sorts addresses in place; keys here ignore the order of addresses.
- A pod is seen through what it contributes (included or not, ports, node found, endpoint); how `podToEndpoint`,
  `getEndpointPorts` and `ShouldPodBeInEndpoints` read it off a pod is not part of this model, and neither is whether
  an endpoint's addresses are of the slice's address type.
- Trigger-time annotations, events, logging, Prometheus registration and the observed per-sync histograms.
- The work queue's rates, retries and delays: the queue is a set of services, and a service may be synced at any time.
- Concurrent syncs of several services by several workers: one sync at a time is modelled, with the handlers in
  between.
- Resource versions: a conflicting update is a call that fails.
- A port map cache is not changed after it is stored in the metrics cache.
- Rounding of `float64`: slice counts use exact division, probabilities are the nearest ten-digit decimal of 1/n, a
  tie rounded up.
- The sorting of ports and endpoints inside `newEndpointSliceInfo`: it only decides whether a reordered slice counts
  as a change, and the endpoint map does not depend on it. Whether an address is IPv6 is part of the address.
- Ready, Serving and Terminating of conflicting duplicate endpoints in the proxy depend on the order of a map; lists
  are compared by endpoint string and local flag. `HCEndpointsLocalIPSize` is not modelled.
- `newPodInfo` (container runtime, network namespaces, network status) is a pure function of the pod.
- Routes: which cluster IPs are given up is modelled, the netlink calls for them and for `NewClusterIPs` are not part
  of this model. Packet and byte counters of chains and rules are not kept.
- What a rule's text is to iptables beyond its addresses: ports are those of services and slices, names those of
  objects.
- Packets are followed through the chains of the proxy only: connection tracking, by which later packets of a
  connection go where the first one went, and the rest of the nat table are the kernel's.
- Setting up the dispatch chain and the OUTPUT rule is a foreign call; the table is taken as they leave it.
- Leader election, options, informer wiring, network namespace switching and file backups.
- IptableBuffers.IptableBuffer.Init: what follows a failed save is not modelled further (the script then has no table
  header, and restoring it fails).
- Controllers.Controller.SyncService: services queued by handlers during the sync are not added to its queue; the
  handlers' effect on the tracker is.
- ProxyRules.ScriptMeets: no chain of the proxy other than the dispatch chain is jumped to from foreign chains, and
  every jump of the table has a target, as the kernel guarantees.
- SyncSafety.SyncInRun: services with a deletion timestamp are excluded, for which creates are skipped by design.
- PublishingTheorems.SecondRunIsIdle: at least one endpoint is desired, because the placeholder of a service without
  endpoints is written anew every time; `SyncSafety.SecondSyncIsIdle` leaves such address types out likewise.
