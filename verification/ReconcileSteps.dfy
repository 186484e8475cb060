/** The outer loops of reconcile (pkg/service-controller/reconciler.go) step by step: one address type after the
    other, then the slices of address types the service no longer has. */
module ReconcileSteps {
  import opened Wrappers
  import opened Discovery
  import opened Packing
  import opened Planning
  import opened AddressTypePlans
  import opened Recycling
  import opened Writes
  import opened Publishing
  import opened PublishingTheorems
  import opened Traces

  type Pods = map<AddressType, seq<PodView>>

  /** The service asks for this project's proxy by its label. */
  predicate HasProxyLabel(svc: Service) {
    var key := Text("service.kubernetes.io/service-proxy-name");
    key in svc.labels && svc.labels[key] == Text("multus-proxy")
  }

  // ---------- grouping by address type ----------

  /** The slices of address type a in their given order. */
  function OfType(slices: seq<EndpointSlice>, a: AddressType): seq<EndpointSlice> {
    if slices == [] then []
    else
      var last := slices[|slices| - 1];
      OfType(slices[..|slices| - 1], a) + if last.addressType == a then [last] else []
  }

  /** The slices of unsupported address types in their given order. */
  function Unsupported(slices: seq<EndpointSlice>, types: set<AddressType>): seq<EndpointSlice> {
    if slices == [] then []
    else
      var last := slices[|slices| - 1];
      Unsupported(slices[..|slices| - 1], types) + if last.addressType !in types then [last] else []
  }

  lemma {:induction false} OfTypeIs(slices: seq<EndpointSlice>, a: AddressType)
    ensures forall s :: s in OfType(slices, a) <==> s in slices && s.addressType == a
    ensures DistinctNames(slices) ==> DistinctNames(OfType(slices, a))
  {
    if slices != [] {
      var front, last := slices[..|slices| - 1], slices[|slices| - 1];
      OfTypeIs(front, a);
      assert slices == front + [last];
      if DistinctNames(slices) {
        assert forall s :: s in front ==> s.name != last.name;
      }
    }
  }

  lemma {:induction false} UnsupportedAre(slices: seq<EndpointSlice>, types: set<AddressType>)
    ensures forall s :: s in Unsupported(slices, types) <==> s in slices && s.addressType !in types
  {
    if slices != [] {
      UnsupportedAre(slices[..|slices| - 1], types);
      assert slices == slices[..|slices| - 1] + [slices[|slices| - 1]];
    }
  }

  method GroupByType(existing: seq<EndpointSlice>, types: set<AddressType>)
    returns (byType: map<AddressType, seq<EndpointSlice>>, toDelete: seq<EndpointSlice>)
    ensures forall a :: a in byType ==> a in types && byType[a] == OfType(existing, a)
    ensures forall a :: a in types && a !in byType ==> OfType(existing, a) == []
    ensures toDelete == Unsupported(existing, types)
  {
    byType, toDelete := map[], [];
    for i := 0 to |existing|
      invariant forall a :: a in byType ==> a in types && byType[a] == OfType(existing[..i], a)
      invariant forall a :: a in types && a !in byType ==> OfType(existing[..i], a) == []
      invariant toDelete == Unsupported(existing[..i], types)
    {
      var s := existing[i];
      assert existing[..i + 1][..i] == existing[..i];
      if s.addressType !in types {
        toDelete := toDelete + [s];
        continue;
      }
      if s.addressType !in byType {
        byType := byType[s.addressType := []];
      }
      byType := byType[s.addressType := byType[s.addressType] + [s]];
    }
    assert existing[..|existing|] == existing;
  }

  // ---------- what is kept on the way ----------

  /** Every step of the run is one recorded write, with any number of delete handlers before it. */
  ghost predicate Chain(run: seq<Moment>) {
    |run| >= 1 && forall i :: 0 <= i < |run| - 1 ==> Linked(run[i], run[i + 1])
  }

  ghost predicate Linked(m: Moment, m': Moment) {
    exists call :: Wrote(m, call, m')
  }

  /** Handlers that run before a write can be counted to the write. */
  lemma WroteLater(m: Moment, m1: Moment, call: Call, m': Moment)
    requires Handled(m, m1) && Wrote(m1, call, m')
    ensures Wrote(m, call, m')
  {
    hide Handled, Called;
    var m2 :| Handled(m1, m2) && Called(m2, call, m');
    HandledTwice(m, m1, m2);
  }

  lemma OwnLater(svc: Service, m: Moment, m1: Moment, m': Moment)
    requires Handled(m, m1) && OwnWrite(svc, m1, m')
    ensures OwnWrite(svc, m, m')
  {
    hide Handled, Wrote, Labelled;
    HandledKeeps(m, m1);
    var call :| OwnCall(svc, m1, call) && Wrote(m1, call, m');
    WroteLater(m, m1, call, m');
    assert OwnCall(svc, m, call);
  }

  /** Two runs with nothing but delete handlers between them. */
  lemma ChainOn(run: seq<Moment>, more: seq<Moment>, calls: seq<Call>, after: Moment)
    requires Chain(run) && Run(more, calls) && Handled(run[|run| - 1], more[0]) && Handled(more[|more| - 1], after)
    ensures Chain(run + more[1..]) && |run| >= 1
    ensures var all := run + more[1..];
            all[0] == run[0] && Handled(all[|all| - 1], after)
  {
    hide Wrote, Handled;
    var all := run + more[1..];
    if |more| == 1 {
      assert all == run;
      HandledTwice(run[|run| - 1], more[0], after);
    }
    forall i | 0 <= i < |all| - 1 ensures Linked(all[i], all[i + 1]) {
      if i < |run| - 1 {
        assert Linked(run[i], run[i + 1]);
      } else {
        var j := i - (|run| - 1);
        assert (j == 0 || all[i] == more[j]) && all[i + 1] == more[j + 1];
        assert Wrote(more[j], calls[j], more[j + 1]);
        if j == 0 {
          WroteLater(run[i], more[0], calls[0], more[1]);
        }
      }
    }
  }

  /** What the service published at the start and still wants is published in s. */
  ghost predicate StillPublished(svc: Service, pods: Pods, s0: Store, s: Store) {
    forall a, pm, k ::
      a in svc.addressTypes && a in pods && Published(s0, svc, a, pm, k) && Asked(Gather(pods[a]), pm, k) ==>
        Published(s, svc, a, pm, k)
  }

  ghost predicate AlwaysPublished(svc: Service, pods: Pods, s0: Store, run: seq<Moment>) {
    forall i :: 0 <= i < |run| ==> StillPublished(svc, pods, s0, run[i].store)
  }

  /** Of the service's slices only those of the address types `done` may have changed. */
  ghost predicate OnlyTypes(s0: Store, s: Store, svc: Service, done: set<AddressType>) {
    && (forall n :: n in s0 && !(Labelled(s0[n], svc) && s0[n].addressType in done) ==> n in s && s[n] == s0[n])
    && (forall n :: n in s && !(Labelled(s[n], svc) && s[n].addressType in done) ==> n in s0 && s[n] == s0[n])
  }

  /** Except for the types whose create was dropped, everything desired is published exactly once. */
  ghost predicate ExactFor(svc: Service, pods: Pods, s: Store, types: set<AddressType>, dropped: set<AddressType>) {
    forall a :: a in types && a in pods ==> a in dropped || PublishedExactly(s, svc, a, Gather(pods[a]))
  }

  /** The listed slices are all of the service's slices in the store, up to other labels. */
  ghost predicate Listed(existing: seq<EndpointSlice>, svc: Service, s0: Store) {
    && Shelved(s0)
    && (forall s :: s in existing ==> s.name in s0 && SameContent(s, s0[s.name]) && Labelled(s0[s.name], svc))
    && (forall n :: n in s0 && Labelled(s0[n], svc) ==> n in Names(existing))
  }

  /** The state between two address types. */
  ghost predicate Between(svc: Service, pods: Pods, s0: Store, done: set<AddressType>, run: seq<Moment>,
                          failed: bool, dropped: set<AddressType>) {
    && |run| >= 1 && Shelved(run[|run| - 1].store)
    && OnlyTypes(s0, run[|run| - 1].store, svc, done)
    && AlwaysPublished(svc, pods, s0, run) && OwnWrites(svc, run)
    && (!failed ==> ExactFor(svc, pods, run[|run| - 1].store, done, dropped))
  }

  lemma StartBetween(svc: Service, pods: Pods, m: Moment)
    requires Shelved(m.store)
    ensures Between(svc, pods, m.store, {}, [m], false, {})
  {
    hide Published, PublishedExactly, Asked;
  }

  lemma SkipType(svc: Service, pods: Pods, s0: Store, done: set<AddressType>, run: seq<Moment>, failed: bool,
                 dropped: set<AddressType>, a: AddressType)
    requires Between(svc, pods, s0, done, run, failed, dropped)
    ensures Between(svc, pods, s0, done + {a}, run, true, dropped)
  {
    hide AlwaysPublished, ExactFor, Shelved, OwnWrites;
  }

  /** The slices of a type that is still to come are as listed. */
  lemma StillListed(svc: Service, s0: Store, s: Store, done: set<AddressType>, existing: seq<EndpointSlice>,
                    a: AddressType)
    requires Listed(existing, svc, s0) && OnlyTypes(s0, s, svc, done) && Shelved(s) && a !in done
    ensures Reflects(OfType(existing, a), svc, a, s)
    ensures SameMine(s0, s, svc, a)
  {
    hide Labelled, Shelved, OfType;
    OfTypeIs(existing, a);
    forall e | e in OfType(existing, a) ensures e.name in s && SameContent(e, s[e.name]) && Mine(s[e.name], svc, a) {
      assert e in existing;
    }
    forall n | n in s && Mine(s[n], svc, a) ensures n in Names(OfType(existing, a)) {
      assert n in s0 && s[n] == s0[n];
      var e :| e in existing && e.name == n;
      assert e in OfType(existing, a);
    }
  }

  /** One more address type. */
  lemma TypeStep(svc: Service, pods: Pods, s0: Store, done: set<AddressType>, run: seq<Moment>, failed: bool,
                 dropped: set<AddressType>, existing: seq<EndpointSlice>, x: Inputs, t: Trace, before: Moment,
                 after: Moment, err: Option<SyncError>)
    requires |run| >= 1 && Handled(run[|run| - 1], before)
    requires Between(svc, pods, s0, done, run, failed, dropped) && Listed(existing, svc, s0) && !svc.deleting
    requires x.svc == svc && x.addressType !in done && x.addressType in svc.addressTypes && x.addressType in pods
    requires x.existing == OfType(existing, x.addressType) && x.desired == Gather(pods[x.addressType])
    requires InputsOk(x) && |t.run| >= 1 && Performed(x, t, before, after, err)
    ensures Between(svc, pods, s0, done + {x.addressType}, run + t.run[1..], failed || err.Some?,
                    if t.dropped then dropped + {x.addressType} else dropped)
  {
    hide InputsOk, Performed, Listed, PublishedExactly, Gather, OwnWrites, Reflects, SameMine, Published, OfType, Mine,
         AlwaysPublished, StillPublished, ExactFor, OnlyTypes, Shelved, Asked, Handled;
    HandledKeeps(run[|run| - 1], before);
    StillListed(svc, s0, before.store, done, existing, x.addressType);
    RunStarts(x, t, before, after, err);
    StepsOthers(x, t, before, after, err);
    StepKept(svc, pods, s0, run, x, t, before, after, err);
    StepOwn(svc, run, x, t, before, after, err);
    StepOnly(svc, s0, done, before.store, after.store, x.addressType);
    var more := run + t.run[1..];
    assert more[|more| - 1].store == after.store;
    if !failed && err.None? {
      StepExact(svc, pods, done, dropped, x, t, before, after, err);
    }
  }

  lemma RunStarts(x: Inputs, t: Trace, before: Moment, after: Moment, err: Option<SyncError>)
    requires InputsOk(x) && Performed(x, t, before, after, err)
    requires Reflects(x.existing, x.svc, x.addressType, before.store)
    ensures WellStarted(x, t, before, after, err) && |t.run| >= 1 && t.run[0] == before
    ensures t.run[|t.run| - 1].store == after.store
  {
    hide InputsOk, Reflects, PlanOk, Recycled, Exhausted, Calls, Handled;
    HandledKeeps(t.run[|t.run| - 1], after);
  }

  /** Nothing but the slices of this address type changes on the way. */
  ghost predicate OnlyMine(s: Store, s': Store, svc: Service, a: AddressType) {
    && (forall n :: n in s && !Mine(s[n], svc, a) ==> n in s' && s'[n] == s[n])
    && (forall n :: n in s' && !Mine(s'[n], svc, a) ==> n in s && s'[n] == s[n])
  }

  lemma StepsOthers(x: Inputs, t: Trace, before: Moment, after: Moment, err: Option<SyncError>)
    requires WellStarted(x, t, before, after, err)
    ensures forall i :: 0 <= i < |t.run| ==> OnlyMine(before.store, t.run[i].store, x.svc, x.addressType)
    ensures |t.run| >= 1 && t.run[|t.run| - 1].store == after.store && Shelved(after.store)
  {
    hide WellStarted, Mine;
    forall i | 0 <= i < |t.run| ensures OnlyMine(before.store, t.run[i].store, x.svc, x.addressType) {
      OthersOnTheWay(x, t, before, after, err, i);
    }
    Starts(x, t, before, after, err);
    OthersOnTheWay(x, t, before, after, err, |t.run| - 1);
  }

  lemma OtherTypeSame(s: Store, s': Store, svc: Service, a: AddressType, b: AddressType)
    requires OnlyMine(s, s', svc, a) && a != b
    ensures SameMine(s, s', svc, b)
  {
    hide Labelled;
  }

  lemma StepKept(svc: Service, pods: Pods, s0: Store, run: seq<Moment>, x: Inputs, t: Trace,
                 before: Moment, after: Moment, err: Option<SyncError>)
    requires AlwaysPublished(svc, pods, s0, run) && run != [] && before.store == run[|run| - 1].store && !svc.deleting
    requires WellStarted(x, t, before, after, err) && x.svc == svc && |t.run| >= 1
    requires x.addressType in pods && x.desired == Gather(pods[x.addressType])
    requires SameMine(s0, before.store, svc, x.addressType)
    requires forall i :: 0 <= i < |t.run| ==> OnlyMine(before.store, t.run[i].store, svc, x.addressType)
    ensures AlwaysPublished(svc, pods, s0, run + t.run[1..])
  {
    hide WellStarted, Gather, SameMine, OnlyMine, Published, Asked;
    var all := run + t.run[1..];
    assert StillPublished(svc, pods, s0, before.store);
    forall i | 0 <= i < |all| ensures StillPublished(svc, pods, s0, all[i].store) {
      if i >= |run| {
        var j := i - |run| + 1;
        assert all[i] == t.run[j];
        forall a, pm, k | a in svc.addressTypes && a in pods && Published(s0, svc, a, pm, k)
                      && Asked(Gather(pods[a]), pm, k)
          ensures Published(all[i].store, svc, a, pm, k)
        {
          PublishedNext(svc, s0, x, t, before, after, err, j, a, pm, k);
        }
      } else {
        assert all[i] == run[i];
      }
    }
  }

  lemma StepOwn(svc: Service, run: seq<Moment>, x: Inputs, t: Trace, before: Moment, after: Moment,
                err: Option<SyncError>)
    requires OwnWrites(svc, run) && run != [] && Handled(run[|run| - 1], before)
    requires WellStarted(x, t, before, after, err) && x.svc == svc && |t.run| >= 1 && t.run[0] == before
    ensures OwnWrites(svc, run + t.run[1..])
  {
    hide WellStarted, OwnWrite, Handled;
    var all := run + t.run[1..];
    forall i | 0 <= i < |all| - 1 ensures OwnWrite(svc, all[i], all[i + 1]) {
      if i < |run| - 1 {
        assert OwnWrite(svc, run[i], run[i + 1]);
      } else {
        var j := i - (|run| - 1);
        assert (j == 0 || all[i] == t.run[j]) && all[i + 1] == t.run[j + 1];
        OwnOnTheWay(x, t, before, after, err, j);
        if j == 0 {
          OwnLater(svc, run[i], before, t.run[1]);
        }
      }
    }
  }

  lemma PublishedNext(svc: Service, s0: Store, x: Inputs, t: Trace, before: Moment, after: Moment,
                      err: Option<SyncError>, j: nat, a: AddressType, pm: PortMapKey, k: EndpointKey)
    requires WellStarted(x, t, before, after, err) && x.svc == svc && j < |t.run| && !svc.deleting
    requires SameMine(s0, before.store, svc, x.addressType)
    requires OnlyMine(before.store, t.run[j].store, svc, x.addressType)
    requires a == x.addressType ==> Published(s0, svc, a, pm, k) && Asked(x.desired, pm, k)
    requires a != x.addressType ==> Published(before.store, svc, a, pm, k)
    ensures Published(t.run[j].store, svc, a, pm, k)
  {
    hide WellStarted, SameMine, OnlyMine, Published, Asked, PublishedExactly;
    if a == x.addressType {
      SameMinePublishes(s0, before.store, svc, a, x.desired);
      KeptOnTheWay(x, t, before, after, err, j, pm, k);
    } else {
      OtherTypeSame(before.store, t.run[j].store, svc, x.addressType, a);
      SameMinePublishes(before.store, t.run[j].store, svc, a, x.desired);
    }
  }

  lemma StepOnly(svc: Service, s0: Store, done: set<AddressType>, before: Store, after: Store, a: AddressType)
    requires OnlyTypes(s0, before, svc, done) && OnlyMine(before, after, svc, a)
    ensures OnlyTypes(s0, after, svc, done + {a})
  {
    hide Labelled;
  }

  lemma StepExact(svc: Service, pods: Pods, done: set<AddressType>, dropped: set<AddressType>, x: Inputs, t: Trace,
                  before: Moment, after: Moment, err: Option<SyncError>)
    requires ExactFor(svc, pods, before.store, done, dropped) && !svc.deleting
    requires WellStarted(x, t, before, after, err) && x.svc == svc && err.None? && x.addressType !in done
    requires x.addressType in pods && x.desired == Gather(pods[x.addressType])
    requires OnlyMine(before.store, after.store, svc, x.addressType)
    ensures ExactFor(svc, pods, after.store, done + {x.addressType},
                     if t.dropped then dropped + {x.addressType} else dropped)
  {
    hide WellStarted, Gather, SameMine, OnlyMine, PublishedExactly;
    if !t.dropped {
      ExactWhenComplete(x, t, before, after, err);
    }
    forall a | a in done && a in pods ensures a in dropped || PublishedExactly(after.store, svc, a, Gather(pods[a])) {
      OtherTypeSame(before.store, after.store, svc, x.addressType, a);
      SameMinePublishes(before.store, after.store, svc, a, Gather(pods[a]));
    }
  }

  // ---------- unsupported address types ----------

  /** The first i unsupported slices are dealt with; s1 is the store before the first of them. */
  ghost predicate Clearing(svc: Service, pods: Pods, s0: Store, s1: Store, toDelete: seq<EndpointSlice>, i: nat,
                           run: seq<Moment>, failed: bool)
    requires i <= |toDelete|
  {
    && |run| >= 1 && AlwaysPublished(svc, pods, s0, run) && OwnWrites(svc, run)
    && var s := run[|run| - 1].store;
       && (forall n :: n in s ==> n in s1 && s[n] == s1[n])
       && (forall n :: n in s1 ==> n in s || n in Names(toDelete))
       && (!failed ==> forall j :: 0 <= j < i ==> toDelete[j].name !in s)
  }

  /** The slices to delete are the service's own and count for no supported address type. */
  ghost predicate NotWanted(svc: Service, s1: Store, toDelete: seq<EndpointSlice>) {
    forall d :: d in toDelete && d.name in s1 ==>
      var s := s1[d.name];
      s.addressType !in svc.addressTypes && s.uid == d.uid && Labelled(s, svc) && Labelled(d, svc)
  }

  lemma UnwantedAre(svc: Service, s0: Store, s1: Store, existing: seq<EndpointSlice>)
    requires Listed(existing, svc, s0) && OnlyTypes(s0, s1, svc, svc.addressTypes)
    requires forall s :: s in existing ==> Labelled(s, svc)
    ensures NotWanted(svc, s1, Unsupported(existing, svc.addressTypes))
  {
    hide Labelled;
    UnsupportedAre(existing, svc.addressTypes);
  }

  lemma ClearStart(svc: Service, pods: Pods, s0: Store, done: set<AddressType>, run: seq<Moment>, failed: bool,
                   dropped: set<AddressType>, toDelete: seq<EndpointSlice>)
    requires Between(svc, pods, s0, done, run, failed, dropped)
    ensures Clearing(svc, pods, s0, run[|run| - 1].store, toDelete, 0, run, failed)
  {
    hide AlwaysPublished, OwnWrites;
  }

  /** What is left of the supported types when unsupported slices go. */
  lemma ClearSame(svc: Service, s1: Store, s: Store, toDelete: seq<EndpointSlice>, a: AddressType)
    requires NotWanted(svc, s1, toDelete) && a in svc.addressTypes
    requires (forall n :: n in s ==> n in s1 && s[n] == s1[n]) && forall n :: n in s1 ==> n in s || n in Names(toDelete)
    ensures SameMine(s1, s, svc, a)
  {
    hide Labelled;
  }

  lemma ClearOne(svc: Service, pods: Pods, s0: Store, s1: Store, toDelete: seq<EndpointSlice>, i: nat,
                 run: seq<Moment>, failed: bool, m: Moment)
    requires i < |toDelete| && Clearing(svc, pods, s0, s1, toDelete, i, run, failed) && NotWanted(svc, s1, toDelete)
    requires StillPublished(svc, pods, s0, s1) && OwnWrite(svc, run[|run| - 1], m)
    requires m.store == run[|run| - 1].store - {toDelete[i].name}
    ensures Clearing(svc, pods, s0, s1, toDelete, i + 1, run + [m], failed)
  {
    hide NotWanted, StillPublished, OwnWrite;
    assert toDelete[i] in toDelete;
    ClearKeeps(svc, pods, s0, s1, m.store, toDelete);
    var all := run + [m];
    forall j | 0 <= j < |all| - 1 ensures OwnWrite(svc, all[j], all[j + 1]) {
      assert all[j] == run[j];
      assert j < |run| - 1 ==> all[j + 1] == run[j + 1];
    }
    forall j | 0 <= j < |all| ensures StillPublished(svc, pods, s0, all[j].store) {
      if j < |run| {
        assert all[j] == run[j];
      }
    }
  }

  lemma ClearKeeps(svc: Service, pods: Pods, s0: Store, s1: Store, s: Store, toDelete: seq<EndpointSlice>)
    requires StillPublished(svc, pods, s0, s1) && NotWanted(svc, s1, toDelete)
    requires (forall n :: n in s ==> n in s1 && s[n] == s1[n]) && forall n :: n in s1 ==> n in s || n in Names(toDelete)
    ensures StillPublished(svc, pods, s0, s)
  {
    hide Published, PublishedExactly, Gather, Asked, NotWanted, Names, SameMine;
    forall a, pm, k | a in svc.addressTypes && a in pods && Published(s0, svc, a, pm, k)
                      && Asked(Gather(pods[a]), pm, k)
      ensures Published(s, svc, a, pm, k)
    {
      ClearSame(svc, s1, s, toDelete, a);
      SameMinePublishes(s1, s, svc, a, Gather(pods[a]));
    }
  }

  /** The state reconcile leaves when it reports no error. */
  ghost predicate AllExact(svc: Service, pods: Pods, s: Store, dropped: set<AddressType>) {
    && ExactFor(svc, pods, s, svc.addressTypes, dropped)
    && forall n :: n in s && Labelled(s[n], svc) ==> s[n].addressType in svc.addressTypes
  }

  lemma ClearDone(svc: Service, pods: Pods, s0: Store, s1: Store, existing: seq<EndpointSlice>, run: seq<Moment>,
                  dropped: set<AddressType>)
    requires Listed(existing, svc, s0) && OnlyTypes(s0, s1, svc, svc.addressTypes)
    requires forall s :: s in existing ==> Labelled(s, svc)
    requires ExactFor(svc, pods, s1, svc.addressTypes, dropped)
    requires var toDelete := Unsupported(existing, svc.addressTypes);
             Clearing(svc, pods, s0, s1, toDelete, |toDelete|, run, false)
    ensures AllExact(svc, pods, run[|run| - 1].store, dropped)
  {
    hide AlwaysPublished, OwnWrites, PublishedExactly, Gather, SameMine, Labelled, Unsupported;
    var s, toDelete := run[|run| - 1].store, Unsupported(existing, svc.addressTypes);
    UnwantedAre(svc, s0, s1, existing);
    UnsupportedAre(existing, svc.addressTypes);
    forall a | a in svc.addressTypes && a in pods ensures a in dropped || PublishedExactly(s, svc, a, Gather(pods[a])) {
      ClearSame(svc, s1, s, toDelete, a);
      SameMinePublishes(s1, s, svc, a, Gather(pods[a]));
    }
    forall n | n in s1 && Labelled(s1[n], svc) && s1[n].addressType !in svc.addressTypes ensures n in Names(toDelete) {
      var e :| e in existing && e.name == n;
      assert e in toDelete;
    }
    forall n | n in Names(toDelete) ensures n !in s {
      var j :| 0 <= j < |toDelete| && toDelete[j].name == n;
    }
  }

  // ---------- small steps of the method ----------

  lemma ListedShelved(existing: seq<EndpointSlice>, svc: Service, s0: Store)
    requires Listed(existing, svc, s0)
    ensures Shelved(s0)
  {
  }

  function Longer(run: seq<Moment>, more: seq<Moment>): seq<Moment> {
    if more == [] then run else run + more[1..]
  }

  /** Appending the run of one address type. */
  lemma AddType(svc: Service, pods: Pods, s0: Store, done: set<AddressType>, run: seq<Moment>, failed: bool,
                dropped: set<AddressType>, existing: seq<EndpointSlice>, x: Inputs, t: Trace, before: Moment,
                after: Moment, err: Option<SyncError>)
    requires Chain(run) && |run| >= 1 && InputsOk(x) && Handled(run[|run| - 1], before)
    requires GaveUp(t, before, after, err) || Performed(x, t, before, after, err)
    requires x.svc == svc && x.addressType !in done && x.addressType in svc.addressTypes && x.addressType in pods
    requires x.existing == OfType(existing, x.addressType) && x.desired == Gather(pods[x.addressType])
    ensures var all := Longer(run, t.run);
            Chain(all) && |all| >= 1 && all[0] == run[0] && Handled(all[|all| - 1], after)
    ensures Listed(existing, svc, s0) && !svc.deleting && Between(svc, pods, s0, done, run, failed, dropped) ==>
              Between(svc, pods, s0, done + {x.addressType}, Longer(run, t.run), failed || err.Some?,
                      if t.dropped then dropped + {x.addressType} else dropped)
  {
    hide InputsOk, Performed, Listed, Between, OfType, Gather, Chain, Run, Calls, Handled;
    var between := Listed(existing, svc, s0) && !svc.deleting && Between(svc, pods, s0, done, run, failed, dropped);
    if GaveUp(t, before, after, err) {
      assert Longer(run, t.run) == run;
      if between {
        SkipType(svc, pods, s0, done, run, failed, dropped, x.addressType);
      }
    } else {
      RunOf(x, t, before, after, err);
      ChainOn(run, t.run, Calls(svc, t.changes), after);
      if between {
        TypeStep(svc, pods, s0, done, run, failed, dropped, existing, x, t, before, after, err);
      }
    }
  }

  lemma RunOf(x: Inputs, t: Trace, before: Moment, after: Moment, err: Option<SyncError>)
    requires Performed(x, t, before, after, err)
    ensures Run(t.run, Calls(x.svc, t.changes)) && |t.run| >= 1 && t.run[0] == before
    ensures Handled(t.run[|t.run| - 1], after)
  {
    hide PlanOk, Recycled, Exhausted, Calls, Wrote, Handled;
  }

  lemma InputsFit(x: Inputs, existing: seq<EndpointSlice>, pods: seq<PodView>)
    requires x.max >= 1 && DistinctNames(x.existing) && x.desired == Gather(pods)
    requires forall s :: s in x.existing ==> s.name != EMPTY && s.addressType == x.addressType && Labelled(s, x.svc)
    ensures InputsOk(x)
  {
    hide DistinctNames, Labelled;
    GatherOk(pods);
  }

  lemma BetweenFacts(svc: Service, pods: Pods, s0: Store, done: set<AddressType>, run: seq<Moment>, failed: bool,
                     dropped: set<AddressType>)
    requires Between(svc, pods, s0, done, run, failed, dropped)
    ensures |run| >= 1 && OnlyTypes(s0, run[|run| - 1].store, svc, done)
    ensures StillPublished(svc, pods, s0, run[|run| - 1].store) && OwnWrites(svc, run)
    ensures !failed ==> ExactFor(svc, pods, run[|run| - 1].store, done, dropped)
  {
    hide OnlyTypes, ExactFor, StillPublished, Shelved;
  }

  lemma ClearingFacts(svc: Service, pods: Pods, s0: Store, s1: Store, toDelete: seq<EndpointSlice>, i: nat,
                      run: seq<Moment>, failed: bool)
    requires i <= |toDelete| && Clearing(svc, pods, s0, s1, toDelete, i, run, failed)
    ensures AlwaysPublished(svc, pods, s0, run) && OwnWrites(svc, run)
  {
    hide AlwaysPublished, OwnWrites;
  }

  lemma ClearingStore(svc: Service, pods: Pods, s0: Store, s1: Store, toDelete: seq<EndpointSlice>, run: seq<Moment>,
                      failed: bool, now: Moment)
    requires Clearing(svc, pods, s0, s1, toDelete, 0, run, failed) && now.store == s1
    requires |run| >= 1 && Handled(run[|run| - 1], now)
    ensures StillPublished(svc, pods, s0, s1)
  {
    hide StillPublished, Handled;
    HandledKeeps(run[|run| - 1], now);
  }

  lemma ClearFailed(svc: Service, pods: Pods, s0: Store, s1: Store, toDelete: seq<EndpointSlice>, i: nat,
                    run: seq<Moment>, failed: bool)
    requires i < |toDelete| && Clearing(svc, pods, s0, s1, toDelete, i, run, failed)
    ensures Clearing(svc, pods, s0, s1, toDelete, i + 1, run, true)
  {
    hide AlwaysPublished, OwnWrites;
  }

  // ---------- where errors come from ----------

  /** Every error and every dropped create of these address types has its reason: a pod's node that is unknown, or a
      call that the API server has refused; and every reason shows. */
  ghost predicate Accounted(pods: Pods, done: set<AddressType>, errs: seq<SyncError>, dropped: set<AddressType>,
                            before: seq<Call>, refused: seq<Call>) {
    && before <= refused
    && (refused == before <==> dropped == {} && forall e :: e in errs ==> e.NodeNotFound?)
    && (forall e :: e in errs ==> !e.StaleInformerCache?)
    && (NodeNotFound in errs <==> exists a :: a in done && a in pods && NodeMissing(pods[a]))
  }

  lemma AccountedStart(pods: Pods, refused: seq<Call>)
    ensures Accounted(pods, {}, [], {}, refused, refused)
  {
  }

  lemma AccountedNext(pods: Pods, done: set<AddressType>, errs: seq<SyncError>, dropped: set<AddressType>,
                      before: seq<Call>, refused: seq<Call>, a: AddressType, err: Option<SyncError>, drop: bool,
                      now: seq<Call>)
    requires Accounted(pods, done, errs, dropped, before, refused) && a in pods && a !in done
    requires refused <= now && (drop ==> err.None?)
    requires NodeMissing(pods[a]) ==> err == Some(NodeNotFound) && now == refused
    requires !NodeMissing(pods[a]) ==> (err.Some? ==> err.value.ApiFailed?) && (err.Some? || drop <==> now != refused)
    ensures Accounted(pods, done + {a}, if err.Some? then errs + [err.value] else errs,
                      if drop then dropped + {a} else dropped, before, now)
  {
    hide NodeMissing;
    var more := if err.Some? then errs + [err.value] else errs;
    assert forall e :: e in more <==> e in errs || err == Some(e);
    if now == before {
      assert refused == before;
    }
  }

  /** A slice of an unsupported address type that the API server refuses to delete. */
  lemma AccountedRefusal(pods: Pods, done: set<AddressType>, errs: seq<SyncError>, dropped: set<AddressType>,
                         before: seq<Call>, refused: seq<Call>, error: ApiError, call: Call)
    requires Accounted(pods, done, errs, dropped, before, refused)
    ensures Accounted(pods, done, errs + [ApiFailed(error)], dropped, before, refused + [call])
  {
    var more := errs + [ApiFailed(error)];
    assert more[|errs|] in more;
    assert forall e :: e in more <==> e in errs || e == ApiFailed(error);
  }

  /** When all nodes are known and no call was refused, there is no error and nothing was dropped. */
  lemma NothingFailed(pods: Pods, done: set<AddressType>, errs: seq<SyncError>, dropped: set<AddressType>,
                      before: seq<Call>, refused: seq<Call>)
    requires Accounted(pods, done, errs, dropped, before, refused) && refused == before
    requires forall a, p :: a in done && a in pods && p in pods[a] && p.included ==> p.nodeFound
    ensures errs == [] && dropped == {}
  {
    FirstIsIn(errs);
  }

  lemma ChainStart(m: Moment)
    ensures Chain([m])
  {
  }

  lemma ChainSize(run: seq<Moment>)
    requires Chain(run)
    ensures |run| >= 1
  {
  }

  lemma WroteDelete(m: Moment, now: Moment, s: EndpointSlice, m': Moment)
    requires Handled(m, now) && Called(now, Delete(s), m')
    ensures Wrote(m, Delete(s), m') && Linked(m, m') && m'.store == m.store - {s.name}
  {
    hide Handled;
    HandledKeeps(m, now);
  }

  lemma OwnClear(svc: Service, pods: Pods, s0: Store, s1: Store, toDelete: seq<EndpointSlice>, i: nat,
                 run: seq<Moment>, failed: bool, m: Moment)
    requires i < |toDelete| && Clearing(svc, pods, s0, s1, toDelete, i, run, failed) && NotWanted(svc, s1, toDelete)
    requires |run| >= 1 && Wrote(run[|run| - 1], Delete(toDelete[i]), m)
    ensures OwnWrite(svc, run[|run| - 1], m)
  {
    hide AlwaysPublished, OwnWrites, Labelled, Handled;
    var m1 :| Handled(run[|run| - 1], m1) && Called(m1, Delete(toDelete[i]), m);
    HandledKeeps(run[|run| - 1], m1);
    assert OwnCall(svc, run[|run| - 1], Delete(toDelete[i]));
  }

  lemma LinkOne(run: seq<Moment>, m: Moment)
    requires Chain(run) && |run| >= 1 && Linked(run[|run| - 1], m)
    ensures Chain(run + [m])
  {
    hide Linked;
    var all := run + [m];
    forall i | 0 <= i < |all| - 1 ensures Linked(all[i], all[i + 1]) {
      assert all[i] == run[i];
    }
  }
}
