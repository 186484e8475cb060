/** The reconciler of pkg/service-controller/reconciler.go: finalize, reconcileByAddressType and reconcile, each
    API write followed by its record in the tracker. */
module Reconcilers {
  import opened Wrappers
  import opened Discovery
  import opened Packing
  import opened Planning
  import opened AddressTypePlans
  import opened MetricsCache
  import opened Recycling
  import opened Trackers
  import opened Writes
  import opened PublishingTheorems
  import opened Traces
  import opened ReconcileSteps
  import opened IdleSyncs

  class Reconciler {
    const api: ApiServer
    const tracker: EndpointSliceTracker
    const metricsCache: Cache
    const maxEndpointsPerSlice: nat

    constructor (api: ApiServer, tracker: EndpointSliceTracker, metricsCache: Cache, maxEndpointsPerSlice: nat)
      requires maxEndpointsPerSlice >= 1 && metricsCache.Valid()
      ensures this.api == api && this.tracker == tracker && this.metricsCache == metricsCache
      ensures this.maxEndpointsPerSlice == maxEndpointsPerSlice
    {
      this.api := api;
      this.tracker := tracker;
      this.metricsCache := metricsCache;
      this.maxEndpointsPerSlice := maxEndpointsPerSlice;
    }

    ghost function Now(): Moment
      reads api, tracker
    {
      Moment(api.store, tracker.generationsByService, api.uids)
    }

    lemma NowHas(s: Store)
      requires s == api.store
      ensures Now().store == s
    {
    }

    /** The controller's delete handlers, which run in another goroutine: any number of them for slices that are
        gone. */
    method Interleave() returns (ghost handled: seq<EndpointSlice>)
      modifies tracker
      ensures HandledBy(old(Now()), handled, Now())
    {
      hide HandledBy, NoLonger, Knows, AfterHandleDeletion;
      var gone: seq<EndpointSlice> := *;
      handled := [];
      HandledNone(Now());
      for i := 0 to |gone|
        invariant HandledBy(old(Now()), handled, Now())
      {
        var s := gone[i];
        if NoLonger(api.store, s) {
          HandledOneMore(old(Now()), handled, Now(), s);
          var has := tracker.Has(s);
          if ManagedByController(s) && has {
            var _ := tracker.HandleDeletion(s);
          }
          handled := handled + [s];
        }
      }
    }

    method CreateNext(s: EndpointSlice, ghost calls: seq<Call>, ghost before: Moment, ghost run: seq<Moment>,
                      ghost i: nat)
      returns (err: Option<ApiError>, ghost run': seq<Moment>)
      requires Ongoing(run, calls, before, Now(), i) && i < |calls| && calls[i] == Create(s)
      modifies api, tracker
      ensures if err.None? then Ongoing(run', calls, before, Now(), i + 1)
              else run' == run && Ongoing(run, calls, before, Now(), i)
      ensures (old(api.terminating) || err == Some(NamespaceTerminating)) ==> api.terminating
      ensures api.refused == old(api.refused) + if err.Some? then [calls[i]] else []
    {
      hide Ongoing, NewAt, AfterUpdate, HandledBy;
      ghost var handled := Interleave();
      WaitedFor(run, calls, before, old(Now()), i, handled, Now());
      ghost var now := Now();
      var created := api.CreateSlice(s);
      if created.Err? {
        return Some(created.error), run;
      }
      tracker.Update(created.value);
      NewAtNow(now, s, created.value);
      OneMore(run, calls, before, now, i, Now());
      err, run' := None, run + [Now()];
    }

    method UpdateNext(s: EndpointSlice, ghost calls: seq<Call>, ghost before: Moment, ghost run: seq<Moment>,
                      ghost i: nat)
      returns (err: Option<ApiError>, ghost run': seq<Moment>)
      requires Ongoing(run, calls, before, Now(), i) && i < |calls| && calls[i] == Update(s)
      modifies api`store, api`refused, tracker
      ensures if err.None? then Ongoing(run', calls, before, Now(), i + 1)
              else run' == run && Ongoing(run, calls, before, Now(), i)
      ensures api.refused == old(api.refused) + if err.Some? then [calls[i]] else []
    {
      hide Ongoing, AfterUpdate, Revised, HandledBy;
      ghost var handled := Interleave();
      WaitedFor(run, calls, before, old(Now()), i, handled, Now());
      ghost var now := Now();
      var updated := api.UpdateSlice(s);
      if updated.Err? {
        return Some(updated.error), run;
      }
      tracker.Update(updated.value);
      OneMore(run, calls, before, now, i, Now());
      err, run' := None, run + [Now()];
    }

    method DeleteNext(s: EndpointSlice, ghost calls: seq<Call>, ghost before: Moment, ghost run: seq<Moment>,
                      ghost i: nat)
      returns (err: Option<ApiError>, ghost run': seq<Moment>)
      requires Ongoing(run, calls, before, Now(), i) && i < |calls| && calls[i] == Delete(s)
      modifies api`store, api`refused, tracker
      ensures if err.None? then Ongoing(run', calls, before, Now(), i + 1)
              else run' == run && Ongoing(run, calls, before, Now(), i)
      ensures api.refused == old(api.refused) + if err.Some? then [calls[i]] else []
    {
      hide Ongoing, AfterExpectDeletion, HandledBy;
      ghost var handled := Interleave();
      WaitedFor(run, calls, before, old(Now()), i, handled, Now());
      ghost var now := Now();
      err := api.DeleteSlice(s);
      if err.Some? {
        return err, run;
      }
      tracker.ExpectDeletion(s);
      OneMore(run, calls, before, now, i, Now());
      run' := run + [Now()];
    }

    /** Creates, updates and deletes in this order, each recorded at once; the first failure ends it. A create
        refused because the namespace is terminating ends it without an error. Delete handlers may run before each of
        the calls. */
    method Finalize(svc: Service, slicesToCreate: seq<EndpointSlice>, slicesToUpdate: seq<EndpointSlice>,
                    slicesToDelete: seq<EndpointSlice>)
      returns (err: Option<ApiError>, ghost t: Trace)
      requires DistinctNames(slicesToDelete)
      modifies api, tracker
      ensures Finalized(svc, Changes(slicesToCreate, slicesToUpdate, slicesToDelete), t, old(Now()), Now(), err)
      ensures if err.None? && !t.dropped then api.refused == old(api.refused)
              else
                && |t.run| - 1 < |Calls(svc, t.changes)|
                && api.refused == old(api.refused) + [Calls(svc, t.changes)[|t.run| - 1]]
      ensures (old(api.terminating) || t.dropped) ==> api.terminating
      ensures svc.deleting ==> api.uids == old(api.uids)
    {
      hide *;
      ghost var c := Changes(slicesToCreate, slicesToUpdate, slicesToDelete);
      ghost var before := Now();
      var r;
      ghost var victims;
      r, victims := RecycleDeletes(svc, slicesToCreate, slicesToUpdate, slicesToDelete);
      ghost var calls := Calls(svc, r);
      ghost var none := Plan([], [], [], []);
      ghost var run := [before];
      StartRun(run, calls, before);
      CallCount(svc, r);
      CreateCount(svc, r);
      if !svc.deleting {
        for i := 0 to |r.creates|
          invariant Ongoing(run, calls, before, Now(), i) && (old(api.terminating) ==> api.terminating)
          invariant api.refused == old(api.refused)
        {
          CallAt(svc, r, i);
          err, run := CreateNext(r.creates[i], calls, before, run, i);
          if err.Some? {
            t := Trace(none, r, victims, run, err.value.NamespaceTerminating?);
            Stopped(svc, c, t, before, Now(), if t.dropped then None else err, i);
            if err.value.NamespaceTerminating? {
              return None, t;
            }
            return;
          }
        }
      }
      var n := if svc.deleting then 0 else |r.creates|;
      for i := 0 to |r.updates|
        invariant Ongoing(run, calls, before, Now(), n + i) && (old(api.terminating) ==> api.terminating)
        invariant api.refused == old(api.refused) && (svc.deleting ==> api.uids == old(api.uids))
      {
        CallAt(svc, r, n + i);
        err, run := UpdateNext(r.updates[i], calls, before, run, n + i);
        if err.Some? {
          t := Trace(none, r, victims, run, false);
          Stopped(svc, c, t, before, Now(), err, n + i);
          return;
        }
      }
      for i := 0 to |r.deletes|
        invariant Ongoing(run, calls, before, Now(), n + |r.updates| + i) && (old(api.terminating) ==> api.terminating)
        invariant api.refused == old(api.refused) && (svc.deleting ==> api.uids == old(api.uids))
      {
        CallAt(svc, r, n + |r.updates| + i);
        err, run := DeleteNext(r.deletes[i], calls, before, run, n + |r.updates| + i);
        if err.Some? {
          t := Trace(none, r, victims, run, false);
          Stopped(svc, c, t, before, Now(), err, n + |r.updates| + i);
          return;
        }
      }
      err, t := None, Trace(none, r, victims, run, false);
      Stopped(svc, c, t, before, Now(), None, |calls|);
    }

    /** Plans for one address type, records the numbers and writes the plan. */
    method ReconcileByAddressType(svc: Service, pods: seq<PodView>, existing: seq<EndpointSlice>,
                                  addressType: AddressType)
      returns (err: Option<SyncError>, ghost t: Trace)
      requires maxEndpointsPerSlice >= 1 && metricsCache.Valid() && DistinctNames(existing)
      requires forall s :: s in existing ==> s.name != EMPTY && s.addressType == addressType && Labelled(s, svc)
      modifies api, tracker, metricsCache
      ensures metricsCache.Valid()
      ensures NodeMissing(pods) ==> GaveUp(t, old(Now()), Now(), err) && metricsCache.cache == old(metricsCache.cache)
      ensures var x := Inputs(svc, maxEndpointsPerSlice, addressType, existing, Gather(pods));
              !NodeMissing(pods) ==>
                && Performed(x, t, old(Now()), Now(), err)
                && NumbersKept(x, t.plan, old(metricsCache.cache), metricsCache.cache)
      ensures (old(api.terminating) || t.dropped) ==> api.terminating
      ensures svc.deleting ==> api.uids == old(api.uids)
      ensures old(api.refused) <= api.refused && (NodeMissing(pods) ==> api.refused == old(api.refused))
      ensures !NodeMissing(pods) ==> (err.Some? || t.dropped <==> api.refused != old(api.refused))
    {
      hide DistinctNames, Finalized, NodeMissing, PlanOk, Recorded, Labelled;
      var planned, creates, updates, deletes;
      ghost var forms;
      planned, creates, updates, deletes, forms :=
        PlanAddressType(svc, maxEndpointsPerSlice, addressType, existing, pods);
      if planned.Err? {
        t := Trace(Plan([], [], [], []), Changes([], [], []), [], [Now()], false);
        return Some(NodeNotFound), t;
      }
      ghost var x := Inputs(svc, maxEndpointsPerSlice, addressType, existing, Gather(pods));
      ghost var plan := Plan(forms, creates, updates, deletes);
      PlanLists(x, plan);
      metricsCache.UpdateServicePortCache(NamespacedName(svc.namespace, svc.name), planned.value);
      var failed;
      failed, t := Finalize(svc, creates, updates, deletes);
      t := t.(plan := plan);
      err := if failed.Some? then Some(ApiFailed(failed.value)) else None;
      TracePlan(svc, Changes(creates, updates, deletes), t, old(Now()), Now(), failed);
    }

    /** One address type of the loop, on the slices listed for it. */
    method ReconcileType(svc: Service, pods: Pods, existingSlices: seq<EndpointSlice>, existing: seq<EndpointSlice>,
                         addressType: AddressType, errs: seq<SyncError>, ghost s0: Store, ghost done: set<AddressType>,
                         ghost run: seq<Moment>, ghost dropped: set<AddressType>, ghost refused: seq<Call>)
      returns (errs': seq<SyncError>, ghost run': seq<Moment>, ghost dropped': set<AddressType>)
      requires maxEndpointsPerSlice >= 1 && metricsCache.Valid()
      requires addressType in svc.addressTypes && addressType in pods && addressType !in done
      requires existing == OfType(existingSlices, addressType) && DistinctNames(existingSlices)
      requires forall s :: s in existingSlices ==> s.name != EMPTY && Labelled(s, svc)
      requires Chain(run) && |run| >= 1 && Handled(run[|run| - 1], Now()) && (dropped != {} ==> api.terminating)
      requires Accounted(pods, done, errs, dropped, refused, api.refused)
      modifies api, tracker, metricsCache
      ensures metricsCache.Valid()
      ensures Chain(run') && |run'| >= 1 && run'[0] == run[0] && Handled(run'[|run'| - 1], Now())
      ensures (old(api.terminating) || dropped' != {}) ==> api.terminating
      ensures svc.deleting ==> api.uids == old(api.uids)
      ensures Accounted(pods, done + {addressType}, errs', dropped', refused, api.refused)
      ensures Idling(svc, maxEndpointsPerSlice, pods, existingSlices, done, run, errs) ==>
                Idling(svc, maxEndpointsPerSlice, pods, existingSlices, done + {addressType}, run', errs')
      ensures (!svc.deleting && Listed(existingSlices, svc, s0) ==>
                 Between(svc, pods, s0, done, run, errs != [], dropped))
              && Tidying(svc, pods, s0, existingSlices, done, run, errs, dropped) ==>
                Tidying(svc, pods, s0, existingSlices, done + {addressType}, run', errs', dropped')
      ensures Listed(existingSlices, svc, s0) && !svc.deleting
              && Between(svc, pods, s0, done, run, errs != [], dropped) ==>
                Between(svc, pods, s0, done + {addressType}, run', errs' != [], dropped')
    {
      hide DistinctNames, Labelled, Between, Performed, Listed, InputsOk, Gather, OfType, NodeMissing, Chain,
           NumbersKept, Handled, Idling, Tidying, Accounted;
      OfTypeIs(existingSlices, addressType);
      var err;
      ghost var t;
      err, t := ReconcileByAddressType(svc, pods[addressType], existing, addressType);
      ghost var x := Inputs(svc, maxEndpointsPerSlice, addressType, existing, Gather(pods[addressType]));
      InputsFit(x, existing, pods[addressType]);
      AddType(svc, pods, s0, done, run, errs != [], dropped, existingSlices, x, t, old(Now()), Now(), err);
      if Idling(svc, maxEndpointsPerSlice, pods, existingSlices, done, run, errs) {
        IdlingNext(svc, maxEndpointsPerSlice, pods, existingSlices, done, run, errs, x, t, old(Now()), Now(), err);
      }
      if (!svc.deleting && Listed(existingSlices, svc, s0) ==> Between(svc, pods, s0, done, run, errs != [], dropped))
         && Tidying(svc, pods, s0, existingSlices, done, run, errs, dropped) {
        TidyingNext(svc, pods, s0, done, run, errs, dropped, existingSlices, x, t, old(Now()), Now(), err);
      }
      DropIsNoError(x, t, old(Now()), Now(), err);
      AccountedNext(pods, done, errs, dropped, refused, old(api.refused), addressType, err, t.dropped, api.refused);
      errs' := if err.Some? then errs + [err.value] else errs;
      dropped' := if t.dropped then dropped + {addressType} else dropped;
      run' := Longer(run, t.run);
    }

    /** The loop over the supported address types; an error of one does not keep the others from being reconciled. */
    method ReconcileSupported(svc: Service, pods: Pods, existingSlices: seq<EndpointSlice>,
                              byType: map<AddressType, seq<EndpointSlice>>)
      returns (errs: seq<SyncError>, ghost run: seq<Moment>, ghost dropped: set<AddressType>)
      requires maxEndpointsPerSlice >= 1 && metricsCache.Valid() && svc.addressTypes <= pods.Keys
      requires DistinctNames(existingSlices)
      requires forall s :: s in existingSlices ==> s.name != EMPTY && Labelled(s, svc)
      requires forall a :: a in byType ==> byType[a] == OfType(existingSlices, a)
      requires forall a :: a in svc.addressTypes && a !in byType ==> OfType(existingSlices, a) == []
      modifies api, tracker, metricsCache
      ensures metricsCache.Valid()
      ensures Chain(run) && run[0] == old(Now()) && Handled(run[|run| - 1], Now())
      ensures (old(api.terminating) || dropped != {}) ==> api.terminating
      ensures svc.deleting ==> api.uids == old(api.uids)
      ensures Accounted(pods, svc.addressTypes, errs, dropped, old(api.refused), api.refused)
      ensures Idling(svc, maxEndpointsPerSlice, pods, existingSlices, svc.addressTypes, run, errs)
      ensures Tidying(svc, pods, old(api.store), existingSlices, svc.addressTypes, run, errs, dropped)
      ensures !svc.deleting && Listed(existingSlices, svc, old(api.store)) ==>
                Between(svc, pods, old(api.store), svc.addressTypes, run, errs != [], dropped)
    {
      hide *;
      ghost var s0 := api.store;
      errs, run, dropped := [], [Now()], {};
      ghost var sound := !svc.deleting && Listed(existingSlices, svc, s0);
      var todo := svc.addressTypes;
      ghost var done: set<AddressType> := {};
      ChainStart(Now());
      HandledNone(Now());
      IdlingStart(svc, maxEndpointsPerSlice, pods, existingSlices, Now());
      TidyingStart(svc, pods, s0, existingSlices, Now());
      AccountedStart(pods, api.refused);
      if sound {
        ListedShelved(existingSlices, svc, s0);
        NowHas(s0);
        StartBetween(svc, pods, Now());
      }
      while todo != {}
        invariant metricsCache.Valid() && done + todo == svc.addressTypes && done !! todo
        invariant Chain(run) && |run| >= 1 && run[0] == old(Now()) && Handled(run[|run| - 1], Now())
        invariant (old(api.terminating) || dropped != {}) ==> api.terminating
        invariant Accounted(pods, done, errs, dropped, old(api.refused), api.refused)
        invariant svc.deleting ==> api.uids == old(api.uids)
        invariant Idling(svc, maxEndpointsPerSlice, pods, existingSlices, done, run, errs)
        invariant Tidying(svc, pods, s0, existingSlices, done, run, errs, dropped)
        invariant sound ==> Between(svc, pods, s0, done, run, errs != [], dropped)
        decreases |todo|
      {
        var addressType :| addressType in todo;
        TakeOne(svc.addressTypes, done, todo, addressType);
        todo := todo - {addressType};
        var existing := if addressType in byType then byType[addressType] else [];
        errs, run, dropped :=
          ReconcileType(svc, pods, existingSlices, existing, addressType, errs, s0, done, run, dropped,
                        old(api.refused));
        done := done + {addressType};
      }
      assert done == svc.addressTypes;
    }

    /** The slices of unsupported address types go, even when something failed before. */
    method DeleteUnsupported(svc: Service, toDelete: seq<EndpointSlice>, errsBefore: seq<SyncError>,
                             ghost pods: Pods, ghost s0: Store, ghost runBefore: seq<Moment>,
                             ghost busy: set<AddressType>, ghost dropped: set<AddressType>,
                             ghost refused: seq<Call>)
      returns (errs: seq<SyncError>, ghost run: seq<Moment>)
      requires WritesOf(runBefore, busy) && forall d :: d in toDelete ==> d.addressType in busy
      requires Chain(runBefore) && Handled(runBefore[|runBefore| - 1], Now())
      requires Accounted(pods, svc.addressTypes, errsBefore, dropped, refused, api.refused)
      modifies api`store, api`refused, tracker
      ensures Accounted(pods, svc.addressTypes, errs, dropped, refused, api.refused)
      ensures Chain(run) && run[0] == runBefore[0] && Handled(run[|run| - 1], Now())
      ensures errsBefore <= errs && WritesOf(run, busy) && (toDelete == [] ==> errs == errsBefore)
      ensures var s1 := old(api.store);
              NotWanted(svc, s1, toDelete) && Clearing(svc, pods, s0, s1, toDelete, 0, runBefore, errsBefore != []) ==>
                Clearing(svc, pods, s0, s1, toDelete, |toDelete|, run, errs != [])
    {
      hide Clearing, NotWanted, Wrote, Linked, StillPublished, Chain, OwnWrite, Handled, HandledBy, WritesOf,
           Accounted;
      errs, run := errsBefore, runBefore;
      ghost var s1 := api.store;
      ghost var sound := NotWanted(svc, s1, toDelete)
                         && Clearing(svc, pods, s0, s1, toDelete, 0, runBefore, errsBefore != []);
      ChainSize(run);
      if sound {
        ClearingStore(svc, pods, s0, s1, toDelete, runBefore, errsBefore != [], Now());
      }
      for i := 0 to |toDelete|
        invariant Chain(run) && |run| >= 1 && run[0] == runBefore[0] && Handled(run[|run| - 1], Now())
        invariant errsBefore <= errs && WritesOf(run, busy) && (i == 0 ==> errs == errsBefore)
        invariant sound ==> Clearing(svc, pods, s0, s1, toDelete, i, run, errs != [])
        invariant Accounted(pods, svc.addressTypes, errs, dropped, refused, api.refused)
      {
        var sliceToDelete := toDelete[i];
        ghost var earlier := Now();
        ghost var handled := Interleave();
        HandledSince(run[|run| - 1], earlier, handled, Now());
        ghost var now := Now();
        ghost var sofar := api.refused;
        var err := api.DeleteSlice(sliceToDelete);
        if err.Some? {
          if sound {
            ClearFailed(svc, pods, s0, s1, toDelete, i, run, errs != []);
          }
          AccountedRefusal(pods, svc.addressTypes, errs, dropped, refused, sofar, err.value, Delete(sliceToDelete));
          errs := errs + [ApiFailed(err.value)];
        } else {
          assert api.refused == sofar;
          tracker.ExpectDeletion(sliceToDelete);
          WroteDelete(run[|run| - 1], now, sliceToDelete, Now());
          LinkOne(run, Now());
          assert sliceToDelete in toDelete;
          WritesPush(run, busy, Delete(sliceToDelete), Now());
          if sound {
            OwnClear(svc, pods, s0, s1, toDelete, i, run, errs != [], Now());
            ClearOne(svc, pods, s0, s1, toDelete, i, run, errs != [], Now());
          }
          run := run + [Now()];
          HandledNone(Now());
        }
      }
    }

    /** All address types of the service one after the other, whatever fails, then the slices of address types it no
        longer has. A listing that is up to date gives: what was published and is still wanted is published after
        every write, and without errors everything wanted is published exactly once, except for the address
        types whose create the terminating namespace refused. While the namespace is not terminating there are none.
        Whatever the listing, only slices of busy address types are written; when no type is busy there is no error.
        Errors come from unknown nodes and refused calls only, and no uid is given out for a service that is being
        deleted. */
    method Reconcile(svc: Service, pods: Pods, existingSlices: seq<EndpointSlice>)
      returns (errs: seq<SyncError>, ghost run: seq<Moment>, ghost dropped: set<AddressType>)
      requires maxEndpointsPerSlice >= 1 && metricsCache.Valid() && svc.addressTypes <= pods.Keys
      requires DistinctNames(existingSlices)
      requires forall s :: s in existingSlices ==> s.name != EMPTY && Labelled(s, svc)
      modifies api, tracker, metricsCache
      ensures metricsCache.Valid()
      ensures Chain(run) && run[0] == old(Now()) && Handled(run[|run| - 1], Now())
      ensures (old(api.terminating) || dropped != {}) ==> api.terminating
      ensures !HasProxyLabel(svc) ==> errs == [] && old(Now()) == Now() && api.refused == old(api.refused)
      ensures svc.deleting ==> api.uids == old(api.uids)
      ensures HasProxyLabel(svc) ==> Accounted(pods, svc.addressTypes, errs, dropped, old(api.refused), api.refused)
      ensures HasProxyLabel(svc) ==> WritesOf(run, Busy(svc, maxEndpointsPerSlice, pods, existingSlices))
      ensures Busy(svc, maxEndpointsPerSlice, pods, existingSlices) == {} ==> errs == []
      ensures HasProxyLabel(svc) && !svc.deleting && CaughtUp(existingSlices, svc, old(api.store)) && errs == [] ==>
                && Tidied(svc, pods, api.store, svc.addressTypes, dropped)
                && forall a :: a in svc.addressTypes ==> !NodeMissing(pods[a])
      ensures HasProxyLabel(svc) && !svc.deleting && Listed(existingSlices, svc, old(api.store)) ==>
                && AlwaysPublished(svc, pods, old(api.store), run) && OwnWrites(svc, run)
                && (errs == [] ==> AllExact(svc, pods, api.store, dropped))
    {
      hide DistinctNames, Labelled, Between, Listed, Clearing, AllExact, AlwaysPublished, OfType, Unsupported,
           OnlyTypes, ExactFor, NotWanted, StillPublished, Chain, OwnWrites, Handled, HandledBy, Idling, Tidying,
           WritesOf, Busy, NodeMissing, Tidied, ListedExactly, Accounted;
      ghost var s0 := api.store;
      errs, run, dropped := [], [Now()], {};
      ChainStart(Now());
      HandledNone(Now());
      if !(LABEL_SERVICE_PROXY_NAME in svc.labels && svc.labels[LABEL_SERVICE_PROXY_NAME] == SERVICE_PROXY_NAME) {
        return;
      }
      var byType, toDelete := GroupByType(existingSlices, svc.addressTypes);
      ghost var runBefore;
      errs, runBefore, dropped := ReconcileSupported(svc, pods, existingSlices, byType);
      ghost var s1, failed, sound := api.store, errs != [], !svc.deleting && Listed(existingSlices, svc, s0);
      ChainSize(runBefore);
      HandledKeeps(runBefore[|runBefore| - 1], Now());
      if sound {
        BetweenFacts(svc, pods, s0, svc.addressTypes, runBefore, failed, dropped);
        UnwantedAre(svc, s0, s1, existingSlices);
        ClearStart(svc, pods, s0, svc.addressTypes, runBefore, failed, dropped, toDelete);
      }
      IdlingAll(svc, maxEndpointsPerSlice, pods, existingSlices, runBefore, errs);
      ghost var busy := Busy(svc, maxEndpointsPerSlice, pods, existingSlices);
      if sound && ListedExactly(existingSlices, s0) && errs == [] {
        TidiedSoFar(svc, pods, s0, existingSlices, runBefore, dropped);
      }
      FirstIsIn(toDelete);
      errs, run := DeleteUnsupported(svc, toDelete, errs, pods, s0, runBefore, busy, dropped, old(api.refused));
      ChainSize(run);
      ghost var earlier := Now();
      ghost var handled := Interleave();
      HandledSince(run[|run| - 1], earlier, handled, Now());
      HandledKeeps(run[|run| - 1], Now());
      if sound {
        ClearingFacts(svc, pods, s0, s1, toDelete, |toDelete|, run, errs != []);
        if errs == [] {
          ClearDone(svc, pods, s0, s1, existingSlices, run, dropped);
          if ListedExactly(existingSlices, s0) {
            TidyCleared(svc, pods, s0, s1, toDelete, |toDelete|, run, false, dropped);
          }
        }
      }
    }
  }

  lemma HandledSince(m: Moment, earlier: Moment, handled: seq<EndpointSlice>, now: Moment)
    requires Handled(m, earlier) && HandledBy(earlier, handled, now)
    ensures Handled(m, now)
  {
    hide HandledBy;
    HandledTwice(m, earlier, now);
  }

  lemma WaitedFor(run: seq<Moment>, calls: seq<Call>, before: Moment, earlier: Moment, done: nat,
                  handled: seq<EndpointSlice>, now: Moment)
    requires Ongoing(run, calls, before, earlier, done) && HandledBy(earlier, handled, now)
    ensures Ongoing(run, calls, before, now, done)
  {
    hide HandledBy, Ongoing;
    Waited(run, calls, before, earlier, done, now);
  }

  /** The metrics cache holds the numbers of this plan for the service. */
  ghost predicate NumbersKept(x: Inputs, plan: Plan, before: Contents, after: Contents) {
    var nn := NamespacedName(x.svc.namespace, x.svc.name);
    && nn in after && after == before[nn := after[nn]]
    && Recorded(x, x.desired.Keys, plan, after[nn])
  }
}
