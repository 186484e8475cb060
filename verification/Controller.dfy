/** syncService and the slice handlers of pkg/service-controller/endpointslice_controller.go. */
module Controllers {
  import opened Wrappers
  import opened Discovery
  import opened Packing
  import opened Trackers
  import opened Writes
  import opened Traces
  import opened ReconcileSteps
  import opened IdleSyncs
  import opened Reconcilers

  class Controller {
    const reconciler: Reconciler
    /** The services waiting for a sync; when and how often they are tried is the queue's business. */
    var queue: set<NamespacedName>

    constructor (reconciler: Reconciler)
      ensures this.reconciler == reconciler && queue == {}
    {
      this.reconciler := reconciler;
      queue := {};
    }

    ghost predicate Valid()
      reads reconciler.metricsCache
    {
      reconciler.maxEndpointsPerSlice >= 1 && reconciler.metricsCache.Valid()
    }

    method QueueServiceForEndpointSlice(s: EndpointSlice)
      modifies this
      ensures queue == old(queue) + Wakes(s)
    {
      if LABEL_SERVICE_NAME !in s.labels || s.labels[LABEL_SERVICE_NAME] == EMPTY {
        return;
      }
      queue := queue + {NamespacedName(s.namespace, s.labels[LABEL_SERVICE_NAME])};
    }

    /** A slice the tracker does not know in this or a newer generation wakes its service. */
    method OnEndpointSliceAdd(s: EndpointSlice)
      modifies this
      ensures queue == old(queue)
                       + if ManagedByController(s) && News(reconciler.tracker.generationsByService, s) then Wakes(s)
                         else {}
    {
      var managed := ManagedByController(s);
      var sync := reconciler.tracker.ShouldSync(s);
      if managed && sync {
        QueueServiceForEndpointSlice(s);
      }
    }

    method OnEndpointSliceUpdate(prev: EndpointSlice, s: EndpointSlice)
      modifies this
      ensures ServiceNN(prev).name != ServiceNN(s).name ==> queue == old(queue) + Wakes(s) + Wakes(prev)
      ensures ServiceNN(prev).name == ServiceNN(s).name ==>
                queue == old(queue)
                         + if ManagedByController(prev) != ManagedByController(s)
                              || (ManagedByController(s) && News(reconciler.tracker.generationsByService, s))
                           then Wakes(s) else {}
    {
      if ServiceNN(s).name != ServiceNN(prev).name {
        QueueServiceForEndpointSlice(s);
        QueueServiceForEndpointSlice(prev);
        return;
      }
      var sync := reconciler.tracker.ShouldSync(s);
      if ManagedByController(prev) != ManagedByController(s) || (ManagedByController(s) && sync) {
        QueueServiceForEndpointSlice(s);
      }
    }

    /** The tracker forgets a known slice, and its service is woken when the deletion was not expected. */
    method OnEndpointSliceDelete(s: EndpointSlice)
      modifies this, reconciler.tracker
      ensures var before := old(reconciler.tracker.generationsByService);
              if ManagedByController(s) && Knows(before, s) then
                && reconciler.tracker.generationsByService == AfterHandleDeletion(before, s)
                && queue == old(queue) + if GenerationsOf(before, ServiceNN(s))[s.uid] == DELETION_EXPECTED then {}
                                         else Wakes(s)
              else
                reconciler.tracker.generationsByService == before && queue == old(queue)
    {
      var has := reconciler.tracker.Has(s);
      if ManagedByController(s) && has {
        var expected := reconciler.tracker.HandleDeletion(s);
        if !expected {
          QueueServiceForEndpointSlice(s);
        }
      }
    }

    /** One sync on slices listed before: a deleted service is forgotten; a service that is not the controller's is
        skipped; on a stale listing nothing is done; otherwise the service is reconciled. Delete handlers may run
        between the listing and the check, and all the time after. */
    method SyncService(key: NamespacedName, service: Option<Service>, hasSelector: bool, pods: Pods,
                       endpointSlices: seq<EndpointSlice>)
      returns (errs: seq<SyncError>, ghost handled: seq<EndpointSlice>, ghost checked: Moment, ghost run: seq<Moment>,
               ghost dropped: set<AddressType>)
      requires Valid()
      requires service.Some? ==> key == NamespacedName(service.value.namespace, service.value.name)
      requires service.Some? ==> service.value.addressTypes <= pods.Keys
      requires DistinctNames(endpointSlices)
      requires service.Some? ==> forall s :: s in endpointSlices ==> s.name != EMPTY && Labelled(s, service.value)
      modifies reconciler.api, reconciler.tracker, reconciler.metricsCache
      ensures Valid()
      ensures service.None? ==>
                && errs == [] && reconciler.api.store == old(reconciler.api.store)
                && reconciler.tracker.generationsByService == old(reconciler.tracker.generationsByService) - {key}
                && reconciler.metricsCache.cache == old(reconciler.metricsCache.cache) - {key}
      ensures service.Some? && !(hasSelector && HasProxyLabel(service.value)) ==>
                && errs == [] && reconciler.Now() == old(reconciler.Now())
                && reconciler.api.refused == old(reconciler.api.refused)
      ensures service.Some? && hasSelector && HasProxyLabel(service.value) ==>
                && HandledBy(old(reconciler.Now()), handled, checked)
                && Synced(service.value, reconciler.maxEndpointsPerSlice, pods, endpointSlices, checked,
                          reconciler.Now(), errs, run, dropped, old(reconciler.api.refused), reconciler.api.refused)
      ensures dropped != {} ==> reconciler.api.terminating
      ensures service.Some? && service.value.deleting ==> reconciler.api.uids == old(reconciler.api.uids)
    {
      hide DistinctNames, Labelled, Listed, Stale, AlwaysPublished, AllExact, OwnWrites, Chain, HandledBy, Handled,
           WritesOf, Busy, Tidied, CaughtUp, Accounted;
      errs, handled, checked, run, dropped := [], [], reconciler.Now(), [], {};
      if service.None? {
        reconciler.metricsCache.DeleteService(key);
        reconciler.tracker.DeleteService(key.namespace, key.name);
        return;
      }
      var svc := service.value;
      if !hasSelector {
        return;
      }
      if LABEL_SERVICE_PROXY_NAME !in svc.labels || svc.labels[LABEL_SERVICE_PROXY_NAME] != SERVICE_PROXY_NAME {
        return;
      }
      handled := reconciler.Interleave();
      checked := reconciler.Now();
      var stale := reconciler.tracker.StaleSlices(svc, endpointSlices);
      if stale {
        return [StaleInformerCache], handled, checked, run, dropped;
      }
      errs, run, dropped := reconciler.Reconcile(svc, pods, endpointSlices);
    }
  }

  /** The queue keys a slice's event adds. */
  function Wakes(s: EndpointSlice): set<NamespacedName> {
    if LABEL_SERVICE_NAME !in s.labels || s.labels[LABEL_SERVICE_NAME] == EMPTY then {} else {ServiceNN(s)}
  }

  /** The tracker does not know the slice, or only an older generation of it. */
  predicate News(t: Tracked, s: EndpointSlice) {
    !Knows(t, s) || s.generation > GenerationsOf(t, ServiceNN(s))[s.uid]
  }

  /** What a sync of a live service of the controller does from the stale check on. */
  ghost predicate Synced(svc: Service, max: nat, pods: Pods, listed: seq<EndpointSlice>, before: Moment, after: Moment,
                         errs: seq<SyncError>, run: seq<Moment>, dropped: set<AddressType>, refused0: seq<Call>,
                         refused: seq<Call>) {
    if Stale(GenerationsOf(before.tracked, NamespacedName(svc.namespace, svc.name)), listed) then
      errs == [StaleInformerCache] && after == before && refused == refused0
    else
      && Accounted(pods, svc.addressTypes, errs, dropped, refused0, refused)
      && Chain(run) && run[0] == before && Handled(run[|run| - 1], after)
      && WritesOf(run, Busy(svc, max, pods, listed)) && (Busy(svc, max, pods, listed) == {} ==> errs == [])
      && (!svc.deleting && Listed(listed, svc, before.store) ==>
            && AlwaysPublished(svc, pods, before.store, run) && OwnWrites(svc, run)
            && (errs == [] ==> AllExact(svc, pods, after.store, dropped)))
  }
}
