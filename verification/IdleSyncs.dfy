/** Which address types a reconcile (pkg/service-controller/reconciler.go) writes slices of: none whose listed slices
    are tidy, and after a complete reconcile they are. */
module IdleSyncs {
  import opened Wrappers
  import opened Discovery
  import opened EndpointSets
  import opened Packing
  import opened PackingTheorems
  import opened Planning
  import opened AddressTypePlans
  import opened Recycling
  import opened Writes
  import opened Publishing
  import opened PublishingTheorems
  import opened Traces
  import opened ReconcileSteps

  // ---------- which types are written ----------

  ghost predicate WriteOf(m: Moment, m': Moment, types: set<AddressType>) {
    exists call :: Wrote(m, call, m') && call.slice.addressType in types
  }

  /** Every write of the run is about a slice of these address types. */
  ghost predicate WritesOf(run: seq<Moment>, types: set<AddressType>) {
    forall i :: 0 <= i < |run| - 1 ==> WriteOf(run[i], run[i + 1], types)
  }

  /** Nothing to do for the address type: all pods' nodes are known and the listed slices are tidy. */
  ghost predicate IdleType(svc: Service, max: nat, pods: Pods, existing: seq<EndpointSlice>, a: AddressType) {
    && a in pods && !NodeMissing(pods[a])
    && AllTidy(Inputs(svc, max, a, OfType(existing, a), Gather(pods[a])))
  }

  /** The address types that a reconcile may write slices of: the supported ones that are not tidy, and those of
      unsupported slices. */
  ghost function Busy(svc: Service, max: nat, pods: Pods, existing: seq<EndpointSlice>): set<AddressType> {
    (set a | a in svc.addressTypes && !IdleType(svc, max, pods, existing, a))
    + set s | s in existing && s.addressType !in svc.addressTypes :: s.addressType
  }

  lemma NoWrites(m: Moment)
    ensures WritesOf([m], {})
  {
  }

  lemma MoreTypes(run: seq<Moment>, types: set<AddressType>, more: set<AddressType>)
    requires WritesOf(run, types) && types <= more
    ensures WritesOf(run, more)
  {
    hide Wrote;
    forall i | 0 <= i < |run| - 1 ensures WriteOf(run[i], run[i + 1], more) {
      assert WriteOf(run[i], run[i + 1], types);
    }
  }

  lemma NoneOfNone(run: seq<Moment>, types: set<AddressType>)
    requires WritesOf(run, types)
    ensures types == {} ==> |run| <= 1
  {
    hide Wrote;
    if |run| >= 2 {
      assert WriteOf(run[0], run[1], types);
    }
  }

  lemma WritesPush(run: seq<Moment>, types: set<AddressType>, call: Call, m: Moment)
    requires WritesOf(run, types) && |run| >= 1 && Wrote(run[|run| - 1], call, m) && call.slice.addressType in types
    ensures WritesOf(run + [m], types)
  {
    hide Wrote;
    var all := run + [m];
    forall i | 0 <= i < |all| - 1 ensures WriteOf(all[i], all[i + 1], types) {
      if i < |run| - 1 {
        assert WriteOf(run[i], run[i + 1], types);
      }
    }
  }

  lemma WriteLater(m: Moment, m1: Moment, m': Moment, types: set<AddressType>)
    requires Handled(m, m1) && WriteOf(m1, m', types)
    ensures WriteOf(m, m', types)
  {
    hide Handled, Wrote;
    var call :| Wrote(m1, call, m') && call.slice.addressType in types;
    WroteLater(m, m1, call, m');
  }

  lemma WritesJoin(run: seq<Moment>, more: seq<Moment>, types: set<AddressType>)
    requires WritesOf(run, types) && WritesOf(more, types) && |run| >= 1 && |more| >= 1
    requires Handled(run[|run| - 1], more[0])
    ensures WritesOf(run + more[1..], types)
  {
    hide Handled, WriteOf;
    var all := run + more[1..];
    forall i | 0 <= i < |all| - 1 ensures WriteOf(all[i], all[i + 1], types) {
      if i < |run| - 1 {
        assert WriteOf(run[i], run[i + 1], types);
      } else {
        var j := i - (|run| - 1);
        assert (j == 0 || all[i] == more[j]) && all[i + 1] == more[j + 1];
        assert WriteOf(more[j], more[j + 1], types);
        if j == 0 {
          WriteLater(run[i], more[0], more[1], types);
        }
      }
    }
  }

  /** The writes of one address type are about slices of that type, whatever the store holds. */
  lemma OwnType(x: Inputs, t: Trace, before: Moment, after: Moment, err: Option<SyncError>)
    requires InputsOk(x) && Performed(x, t, before, after, err)
    ensures WritesOf(t.run, {x.addressType})
  {
    hide InputsOk, PlanOk, Recycled, Exhausted, Calls, Wrote, Handled;
    RunOf(x, t, before, after, err);
    forall i | 0 <= i < |t.run| - 1 ensures WriteOf(t.run[i], t.run[i + 1], {x.addressType}) {
      var call := Calls(x.svc, t.changes)[i];
      assert Wrote(t.run[i], call, t.run[i + 1]);
      CallType(x, t.plan, t.changes, t.victims, i);
    }
  }

  lemma CallType(x: Inputs, plan: Plan, r: Changes, victims: seq<EndpointSlice>, i: nat)
    requires InputsOk(x) && PlanOk(x, plan) && i < |Calls(x.svc, r)|
    requires Recycled(x.svc, Changes(plan.creates, plan.updates, plan.deletes), r, victims)
    ensures Calls(x.svc, r)[i].slice.addressType == x.addressType
  {
    hide PlanOk, Recycled, Labelled, DesiredOk, Calls;
    CallAt(x.svc, r, i);
    var a, b := |Creates(x.svc, r)|, |r.updates|;
    if i < a {
      CreateType(x, plan, r, victims, i);
    } else if i < a + b {
      UpdateType(x, plan, r, victims, i - a);
    } else {
      var d := r.deletes[i - a - b];
      DeletesPlanned(x.svc, plan, r, victims, d);
      PlanLists(x, plan);
    }
  }

  /** On tidy slices nothing is written and no error is reported. */
  lemma TidyRun(x: Inputs, t: Trace, before: Moment, after: Moment, err: Option<SyncError>)
    requires Performed(x, t, before, after, err) && AllTidy(x)
    ensures |t.run| == 1 && err.None? && !t.dropped
  {
    hide AllTidy, Counted, FormsOk, CreatesDone, ListsDone, Homes, Exhausted, Handled, Wrote;
    NothingRecycled(x.svc, t.changes, t.victims);
    CallCount(x.svc, t.changes);
  }

  lemma NothingRecycled(svc: Service, r: Changes, victims: seq<EndpointSlice>)
    requires Recycled(svc, Changes([], [], []), r, victims)
    ensures r == Changes([], [], [])
  {
    hide OwnedBy, DistinctNames;
  }

  /** One more address type. */
  lemma NextType(svc: Service, max: nat, pods: Pods, existing: seq<EndpointSlice>, run: seq<Moment>,
                 types: set<AddressType>, x: Inputs, t: Trace, before: Moment, after: Moment, err: Option<SyncError>)
    requires WritesOf(run, types) && |run| >= 1 && Handled(run[|run| - 1], before) && InputsOk(x)
    requires GaveUp(t, before, after, err) || Performed(x, t, before, after, err)
    requires x.addressType in pods && (GaveUp(t, before, after, err) ==> NodeMissing(pods[x.addressType]))
    requires x == Inputs(svc, max, x.addressType, OfType(existing, x.addressType), Gather(pods[x.addressType]))
    ensures WritesOf(Longer(run, t.run), types + {x.addressType})
    ensures IdleType(svc, max, pods, existing, x.addressType) ==> Longer(run, t.run) == run && err.None? && !t.dropped
  {
    hide InputsOk, Performed, Handled, AllTidy, WriteOf, OfType, Gather, NodeMissing;
    MoreTypes(run, types, types + {x.addressType});
    if GaveUp(t, before, after, err) {
      assert Longer(run, t.run) == run;
    } else {
      OwnType(x, t, before, after, err);
      RunOf(x, t, before, after, err);
      MoreTypes(t.run, {x.addressType}, types + {x.addressType});
      WritesJoin(run, t.run, types + {x.addressType});
      if AllTidy(x) {
        TidyRun(x, t, before, after, err);
        assert run + t.run[1..] == run;
      }
    }
  }

  /** From the loop over the address types to the whole reconcile. */
  lemma IdlingAll(svc: Service, max: nat, pods: Pods, existing: seq<EndpointSlice>, run: seq<Moment>,
                  errs: seq<SyncError>)
    requires Idling(svc, max, pods, existing, svc.addressTypes, run, errs)
    ensures WritesOf(run, Busy(svc, max, pods, existing))
    ensures Busy(svc, max, pods, existing) == {} ==> errs == []
    ensures errs == [] ==> forall a :: a in svc.addressTypes && a in pods ==> !NodeMissing(pods[a])
    ensures forall d :: d in Unsupported(existing, svc.addressTypes) ==> d.addressType in Busy(svc, max, pods, existing)
  {
    hide IdleType, NodeMissing, WritesOf;
    var busy := set a | a in svc.addressTypes && !IdleType(svc, max, pods, existing, a);
    MoreTypes(run, busy, Busy(svc, max, pods, existing));
    UnsupportedAre(existing, svc.addressTypes);
  }

  // ---------- what a complete reconcile leaves is tidy ----------

  ghost predicate Desires(desired: Desired) {
    exists pm, k :: Asked(desired, pm, k)
  }

  /** The service's slices of address type a are its own, of desired port maps, and in good shape. */
  ghost predicate InOrder(s: Store, svc: Service, a: AddressType, desired: Desired) {
    forall n :: n in s && Mine(s[n], svc, a) ==>
      OwnedBy(s[n], svc) && PortKey(s[n]) in desired && GoodSlice(s[n], svc, desired[PortKey(s[n])])
  }

  /** That is so for all these types with something desired, unless their create was dropped. */
  ghost predicate Tidied(svc: Service, pods: Pods, s: Store, types: set<AddressType>, dropped: set<AddressType>) {
    forall a :: a in types && a in pods && Desires(Gather(pods[a])) ==>
      a in dropped || InOrder(s, svc, a, Gather(pods[a]))
  }

  lemma SameMineInOrder(s: Store, s': Store, svc: Service, a: AddressType, desired: Desired)
    requires SameMine(s, s', svc, a) && InOrder(s, svc, a, desired)
    ensures InOrder(s', svc, a, desired)
  {
    hide Mine, OwnedBy, PortKey, GoodSlice;
  }

  lemma InOrderWhenComplete(x: Inputs, t: Trace, before: Moment, after: Moment, err: Option<SyncError>)
    requires WellStarted(x, t, before, after, err) && !x.svc.deleting && err.None? && !t.dropped
    requires ListedExactly(x.existing, before.store) && Desires(x.desired)
    ensures InOrder(after.store, x.svc, x.addressType, x.desired)
  {
    hide PlanOk, InputsOk, Recycled, Reflects, Run, Calls, Exhausted, Legal, Mine, OwnedBy, PortKey, GoodSlice, Asked;
    var pm, k :| Asked(x.desired, pm, k);
    Starts(x, t, before, after, err);
    ShelvedStart(x, t, before);
    var at := StageOf(x.svc, t.changes, t.run, |t.run| - 1);
    ReachedBounds(before.store, Creates(x.svc, t.changes), t.changes, at, after.store);
    CallCount(x.svc, t.changes);
    RecycledSize(x.svc, Changes(t.plan.creates, t.plan.updates, t.plan.deletes), t.changes, t.victims);
    forall n | n in after.store && Mine(after.store[n], x.svc, x.addressType)
      ensures OwnedBy(after.store[n], x.svc) && PortKey(after.store[n]) in x.desired
      ensures GoodSlice(after.store[n], x.svc, x.desired[PortKey(after.store[n])])
    {
      LeftInOrder(x, t.plan, t.changes, t.victims, before.store, at, after.store, n, pm, k);
    }
  }

  /** One more address type, when the listing shows the store's slices as they are. */
  lemma TidyNext(svc: Service, pods: Pods, s0: Store, done: set<AddressType>, run: seq<Moment>, failed: bool,
                 dropped: set<AddressType>, existing: seq<EndpointSlice>, x: Inputs, t: Trace, before: Moment,
                 after: Moment, err: Option<SyncError>)
    requires |run| >= 1 && Handled(run[|run| - 1], before)
    requires Between(svc, pods, s0, done, run, failed, dropped) && Listed(existing, svc, s0) && !svc.deleting
    requires ListedExactly(existing, s0) && Tidied(svc, pods, run[|run| - 1].store, done, dropped)
    requires x.svc == svc && x.addressType !in done && x.addressType in svc.addressTypes && x.addressType in pods
    requires x.existing == OfType(existing, x.addressType) && x.desired == Gather(pods[x.addressType])
    requires InputsOk(x) && Performed(x, t, before, after, err) && err.None?
    ensures Tidied(svc, pods, after.store, done + {x.addressType},
                   if t.dropped then dropped + {x.addressType} else dropped)
  {
    hide InputsOk, Performed, Listed, Gather, Reflects, SameMine, OfType, Mine, InOrder, OnlyTypes, Shelved,
         AlwaysPublished, OwnWrites, ExactFor, Desires, ListedExactly, Handled;
    HandledKeeps(run[|run| - 1], before);
    StillListed(svc, s0, before.store, done, existing, x.addressType);
    StillExact(svc, s0, before.store, existing, x.addressType);
    RunStarts(x, t, before, after, err);
    StepsOthers(x, t, before, after, err);
    assert OnlyMine(before.store, t.run[|t.run| - 1].store, svc, x.addressType);
    TidyStep(svc, pods, done, dropped, x, t, before, after, err);
  }

  lemma StillExact(svc: Service, s0: Store, s: Store, existing: seq<EndpointSlice>, a: AddressType)
    requires Listed(existing, svc, s0) && ListedExactly(existing, s0) && SameMine(s0, s, svc, a)
    ensures ListedExactly(OfType(existing, a), s)
  {
    hide Labelled, OfType;
    OfTypeIs(existing, a);
    forall e | e in OfType(existing, a) ensures e.name in s && s[e.name] == e {
      assert e in existing && Mine(s0[e.name], svc, a);
    }
  }

  lemma TidyStep(svc: Service, pods: Pods, done: set<AddressType>, dropped: set<AddressType>, x: Inputs, t: Trace,
                 before: Moment, after: Moment, err: Option<SyncError>)
    requires Tidied(svc, pods, before.store, done, dropped) && !svc.deleting
    requires WellStarted(x, t, before, after, err) && x.svc == svc && err.None? && x.addressType !in done
    requires x.addressType in pods && x.desired == Gather(pods[x.addressType])
    requires ListedExactly(x.existing, before.store) && OnlyMine(before.store, after.store, svc, x.addressType)
    ensures Tidied(svc, pods, after.store, done + {x.addressType},
                   if t.dropped then dropped + {x.addressType} else dropped)
  {
    hide WellStarted, Gather, SameMine, OnlyMine, InOrder, Desires, ListedExactly;
    if !t.dropped && Desires(x.desired) {
      InOrderWhenComplete(x, t, before, after, err);
    }
    forall a | a in done && a in pods && Desires(Gather(pods[a]))
      ensures a in dropped || InOrder(after.store, svc, a, Gather(pods[a]))
    {
      if a !in dropped {
        OtherTypeSame(before.store, after.store, svc, x.addressType, a);
        SameMineInOrder(before.store, after.store, svc, a, Gather(pods[a]));
      }
    }
  }

  /** What the loop over the address types keeps about idle and tidy ones. */
  ghost predicate Idling(svc: Service, max: nat, pods: Pods, existing: seq<EndpointSlice>, done: set<AddressType>,
                         run: seq<Moment>, errs: seq<SyncError>) {
    var busy := set a | a in done && !IdleType(svc, max, pods, existing, a);
    && WritesOf(run, busy) && (busy == {} ==> errs == [])
    && (errs == [] ==> forall a :: a in done && a in pods ==> !NodeMissing(pods[a]))
  }

  lemma IdlingStart(svc: Service, max: nat, pods: Pods, existing: seq<EndpointSlice>, m: Moment)
    ensures Idling(svc, max, pods, existing, {}, [m], [])
  {
    NoWrites(m);
  }

  lemma NotBoth(x: Inputs, t: Trace, before: Moment, after: Moment, err: Option<SyncError>)
    ensures !(GaveUp(t, before, after, err) && Performed(x, t, before, after, err))
  {
    hide PlanOk, Finalized;
  }

  lemma IdlingNext(svc: Service, max: nat, pods: Pods, existing: seq<EndpointSlice>, done: set<AddressType>,
                   run: seq<Moment>, errs: seq<SyncError>, x: Inputs, t: Trace, before: Moment, after: Moment,
                   err: Option<SyncError>)
    requires Idling(svc, max, pods, existing, done, run, errs) && |run| >= 1 && Handled(run[|run| - 1], before)
    requires InputsOk(x) && x.addressType in pods && x.addressType !in done
    requires if NodeMissing(pods[x.addressType]) then GaveUp(t, before, after, err)
             else Performed(x, t, before, after, err)
    requires x == Inputs(svc, max, x.addressType, OfType(existing, x.addressType), Gather(pods[x.addressType]))
    ensures Idling(svc, max, pods, existing, done + {x.addressType}, Longer(run, t.run),
                   if err.Some? then errs + [err.value] else errs)
  {
    hide InputsOk, Performed, Handled, IdleType, OfType, Gather, NodeMissing, WritesOf;
    var a := x.addressType;
    var busy := set b | b in done && !IdleType(svc, max, pods, existing, b);
    var busy' := set b | b in done + {a} && !IdleType(svc, max, pods, existing, b);
    NotBoth(x, t, before, after, err);
    NextType(svc, max, pods, existing, run, busy, x, t, before, after, err);
    if IdleType(svc, max, pods, existing, a) {
      assert busy' == busy;
    } else {
      assert busy' == busy + {a};
    }
  }

  lemma TidyStart(svc: Service, pods: Pods, s: Store)
    ensures Tidied(svc, pods, s, {}, {})
  {
  }

  /** What the loop over the address types keeps when the listing is caught up. */
  ghost predicate Tidying(svc: Service, pods: Pods, s0: Store, existing: seq<EndpointSlice>, done: set<AddressType>,
                          run: seq<Moment>, errs: seq<SyncError>, dropped: set<AddressType>) {
    && |run| >= 1
    && (!svc.deleting && Listed(existing, svc, s0) && ListedExactly(existing, s0) && errs == [] ==>
          Tidied(svc, pods, run[|run| - 1].store, done, dropped))
  }

  lemma TidyingNext(svc: Service, pods: Pods, s0: Store, done: set<AddressType>, run: seq<Moment>, errs: seq<SyncError>,
                    dropped: set<AddressType>, existing: seq<EndpointSlice>, x: Inputs, t: Trace, before: Moment,
                    after: Moment, err: Option<SyncError>)
    requires Tidying(svc, pods, s0, existing, done, run, errs, dropped) && Handled(run[|run| - 1], before)
    requires !svc.deleting && Listed(existing, svc, s0) ==> Between(svc, pods, s0, done, run, errs != [], dropped)
    requires x.svc == svc && x.addressType !in done && x.addressType in svc.addressTypes && x.addressType in pods
    requires x.existing == OfType(existing, x.addressType) && x.desired == Gather(pods[x.addressType])
    requires InputsOk(x) && (GaveUp(t, before, after, err) || Performed(x, t, before, after, err))
    requires var all := Longer(run, t.run); |all| >= 1 && Handled(all[|all| - 1], after)
    ensures Tidying(svc, pods, s0, existing, done + {x.addressType}, Longer(run, t.run),
                    if err.Some? then errs + [err.value] else errs,
                    if t.dropped then dropped + {x.addressType} else dropped)
  {
    hide InputsOk, Performed, Handled, Between, Listed, ListedExactly, Gather, OfType, Tidied;
    var all := Longer(run, t.run);
    HandledKeeps(all[|all| - 1], after);
    if !svc.deleting && Listed(existing, svc, s0) && ListedExactly(existing, s0) && errs == [] && err.None? {
      TidyNext(svc, pods, s0, done, run, false, dropped, existing, x, t, before, after, err);
    }
  }

  lemma TidyingStart(svc: Service, pods: Pods, s0: Store, existing: seq<EndpointSlice>, m: Moment)
    ensures Tidying(svc, pods, s0, existing, {}, [m], [], {})
  {
    TidyStart(svc, pods, m.store);
  }

  lemma TidiedSoFar(svc: Service, pods: Pods, s0: Store, existing: seq<EndpointSlice>, run: seq<Moment>,
                    dropped: set<AddressType>)
    requires Tidying(svc, pods, s0, existing, svc.addressTypes, run, [], dropped)
    requires !svc.deleting && Listed(existing, svc, s0) && ListedExactly(existing, s0)
    ensures |run| >= 1 && Tidied(svc, pods, run[|run| - 1].store, svc.addressTypes, dropped)
  {
    hide Listed, ListedExactly, Tidied;
  }

  /** Deleting unsupported slices changes nothing about it. */
  lemma TidyCleared(svc: Service, pods: Pods, s0: Store, s1: Store, toDelete: seq<EndpointSlice>, i: nat,
                    run: seq<Moment>, failed: bool, dropped: set<AddressType>)
    requires i <= |toDelete| && Clearing(svc, pods, s0, s1, toDelete, i, run, failed) && NotWanted(svc, s1, toDelete)
    requires Tidied(svc, pods, s1, svc.addressTypes, dropped)
    ensures |run| >= 1 && Tidied(svc, pods, run[|run| - 1].store, svc.addressTypes, dropped)
  {
    hide Gather, SameMine, InOrder, Desires, AlwaysPublished, OwnWrites, NotWanted, Names;
    var s := run[|run| - 1].store;
    forall a | a in svc.addressTypes && a in pods && Desires(Gather(pods[a]))
      ensures a in dropped || InOrder(s, svc, a, Gather(pods[a]))
    {
      if a !in dropped {
        ClearSame(svc, s1, s, toDelete, a);
        SameMineInOrder(s1, s, svc, a, Gather(pods[a]));
      }
    }
  }

  /** A caught-up listing of a store that is in order and publishes exactly what is desired is tidy. */
  lemma InOrderIsIdle(svc: Service, max: nat, pods: Pods, s: Store, listed: seq<EndpointSlice>, a: AddressType)
    requires a in pods && !NodeMissing(pods[a]) && Desires(Gather(pods[a]))
    requires InOrder(s, svc, a, Gather(pods[a])) && PublishedExactly(s, svc, a, Gather(pods[a]))
    requires ListsAll(OfType(listed, a), svc, a, s)
    ensures IdleType(svc, max, pods, listed, a)
  {
    hide Gather, OfType, NodeMissing, OwnedBy, PortKey, GoodSlice, PublishedExactly, Tidy, ByPort, Asked, Mine;
    var x := Inputs(svc, max, a, OfType(listed, a), Gather(pods[a]));
    var pm, k :| Asked(x.desired, pm, k);
    SomeHolder(s, svc, a, x.desired, pm, k);
    forall q | q in x.desired ensures Tidy(svc, ByPort(x.existing, svc, q), x.desired[q]) {
      LeftTidy(x, s, x.existing, q);
    }
  }

  lemma SomeHolder(s: Store, svc: Service, a: AddressType, desired: Desired, pm: PortMapKey, k: EndpointKey)
    requires PublishedExactly(s, svc, a, desired) && Asked(desired, pm, k)
    ensures exists n :: n in s && Mine(s[n], svc, a)
  {
    hide Mine, Asked, NoRepeats;
    var n :| Holds(s, n, svc, a, pm, k);
  }

  /** The listing is of the service's slices as the store has them. */
  ghost predicate CaughtUp(listed: seq<EndpointSlice>, svc: Service, s: Store) {
    Listed(listed, svc, s) && ListedExactly(listed, s) && DistinctNames(listed)
  }

  lemma CaughtUpType(listed: seq<EndpointSlice>, svc: Service, s: Store, a: AddressType)
    requires CaughtUp(listed, svc, s)
    ensures ListsAll(OfType(listed, a), svc, a, s)
  {
    hide Labelled, OfType, DistinctNames;
    OfTypeIs(listed, a);
    forall n | n in s && Mine(s[n], svc, a) ensures s[n] in OfType(listed, a) {
      var e :| e in listed && e.name == n;
    }
  }

  /** After a reconcile without errors and dropped creates, on a caught-up listing only types with nothing desired are
      busy. */
  lemma OnlyUndesiredBusy(svc: Service, max: nat, pods: Pods, s: Store, listed: seq<EndpointSlice>)
    requires AllExact(svc, pods, s, {}) && Tidied(svc, pods, s, svc.addressTypes, {}) && CaughtUp(listed, svc, s)
    requires svc.addressTypes <= pods.Keys && forall a :: a in svc.addressTypes ==> !NodeMissing(pods[a])
    ensures forall a :: a in Busy(svc, max, pods, listed) ==> a in svc.addressTypes && !Desires(Gather(pods[a]))
  {
    hide Gather, NodeMissing, InOrder, PublishedExactly, Desires, Labelled, IdleType, CaughtUp;
    forall a | a in svc.addressTypes && Desires(Gather(pods[a])) ensures IdleType(svc, max, pods, listed, a) {
      CaughtUpType(listed, svc, s, a);
      InOrderIsIdle(svc, max, pods, s, listed, a);
    }
    forall e | e in listed ensures e.addressType in svc.addressTypes {
      SupportedListed(svc, pods, s, listed, e);
    }
  }

  lemma SupportedListed(svc: Service, pods: Pods, s: Store, listed: seq<EndpointSlice>, e: EndpointSlice)
    requires AllExact(svc, pods, s, {}) && CaughtUp(listed, svc, s) && e in listed
    ensures e.addressType in svc.addressTypes
  {
    hide Gather, Labelled, ExactFor;
  }

  /** With one slice, which is tidy, no type is busy, and what it holds is desired. */
  lemma OneIdle(svc: Service, max: nat, pods: Pods, s: EndpointSlice, a: AddressType)
    requires svc.addressTypes == {a} && IdleType(svc, max, pods, [s], a)
    ensures Busy(svc, max, pods, [s]) == {}
    ensures forall k :: k in KeySet(s.endpoints) ==> Asked(Gather(pods[a]), PortKey(s), k)
  {
    hide Gather, NodeMissing, OwnedBy, PortKey, ByPort, OfType, Tidy, KeySet;
    OfTypeIs([s], a);
    var x := Inputs(svc, max, a, OfType([s], a), Gather(pods[a]));
    FirstIsIn(x.existing);
    assert s in x.existing && OwnedBy(s, svc) && PortKey(s) in x.desired;
    TidyHolds(svc, x.existing, PortKey(s), x.desired[PortKey(s)], s);
  }

  /** What a tidy slice holds is desired. */
  lemma TidyHolds(svc: Service, existing: seq<EndpointSlice>, pm: PortMapKey, d0: Items, s: EndpointSlice)
    requires Tidy(svc, ByPort(existing, svc, pm), d0) && s in existing && OwnedBy(s, svc) && PortKey(s) == pm
    ensures forall k :: k in KeySet(s.endpoints) ==> k in d0
  {
    hide OwnedBy, PortKey, KeyOf, Shows, WellLabelled, Where;
    var own := ByPort(existing, svc, pm);
    WhereIs(existing, svc, true, pm);
    var i :| 0 <= i < |own| && own[i] == s;
    assert GoodSlice(own[i], svc, d0);
  }
}
