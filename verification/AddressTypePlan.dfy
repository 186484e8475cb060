/** The whole plan reconcileByAddressType (pkg/service-controller/reconciler.go) hands to finalize, with the
    placeholder and the numbers it records. */
module AddressTypePlans {
  import opened Wrappers
  import opened Discovery
  import opened EndpointSets
  import opened Packing
  import opened PackingTheorems
  import opened PortMapping
  import opened Planning
  import opened MetricsCache
  import opened Sums

  // ---------- what a finished plan promises ----------

  /** The slice that stands for a service without endpoints. */
  function Placeholder(x: Inputs): EndpointSlice {
    NewEndpointSlice(x.svc, EndpointMeta([], x.addressType))
  }

  ghost predicate CreatesDone(x: Inputs, plan: Plan) {
    CreatesOk(x, x.desired.Keys, plan) || (plan.forms == [] && plan.creates == [Placeholder(x)])
  }

  /** Every existing slice either has a final form or is deleted. */
  ghost predicate ListsDone(x: Inputs, plan: Plan) {
    && DistinctNames(plan.updates) && DistinctNames(plan.deletes)
    && (forall u :: u in plan.updates ==> u in plan.forms)
    && (forall s :: s in plan.deletes ==> s in x.existing)
    && (forall s :: s in x.existing ==> (s in plan.deletes <==> s.name !in Names(plan.forms)))
    && |x.existing| == |plan.forms| + |plan.deletes|
  }

  /** The existing slices are all the service's own, of desired port maps, and already as they should be. */
  ghost predicate AllTidy(x: Inputs) {
    && x.existing != []
    && (forall s :: s in x.existing ==> OwnedBy(s, x.svc) && PortKey(s) in x.desired)
    && (forall pm :: pm in x.desired ==> Tidy(x.svc, ByPort(x.existing, x.svc, pm), x.desired[pm]))
  }

  ghost predicate PlanOk(x: Inputs, plan: Plan) {
    && Counted(x, x.desired.Keys, plan)
    && FormsOk(x, x.desired.Keys, plan)
    && CreatesDone(x, plan)
    && ListsDone(x, plan)
    && Homes(x, x.desired.Keys, plan)
    && (plan.forms != [] || plan.creates != [])
    && (AllTidy(x) ==> plan.creates == [] && plan.updates == [] && plan.deletes == [])
  }

  /** The recorded numbers: the desired endpoints of every port map, and in total the slices that survive. */
  ghost predicate Recorded(x: Inputs, done: set<PortMapKey>, plan: Plan, sp: ServicePortCache) {
    && (forall pm :: pm in done ==> pm in sp)
    && (forall pm :: pm in sp ==> sp[pm].slices >= 0)
    && (forall pm :: pm in sp ==>
          sp[pm].endpoints == if pm in done && pm in x.desired then |x.desired[pm]| else 0)
    && TotalSlices(sp) == |plan.forms| + |plan.creates|
  }

  // ---------- counting slices ----------

  /** Slices kept and slices gone make up the slices there were. */
  lemma SplitCount(all: seq<EndpointSlice>, kept: seq<EndpointSlice>, gone: seq<EndpointSlice>)
    requires DistinctNames(all) && DistinctNames(kept) && DistinctNames(gone)
    requires Names(kept) <= Names(all) && forall s :: s in gone ==> s in all
    requires forall s :: s in all ==> (s in gone <==> s.name !in Names(kept))
    ensures |all| == |kept| + |gone|
  {
    hide DistinctNames;
    CountNames(all);
    CountNames(kept);
    CountNames(gone);
    assert Names(all) == Names(kept) + Names(gone);
    forall n | n in Names(kept) ensures n !in Names(gone) {
      if s :| s in gone && s.name == n {
        assert s in all;
      }
    }
  }

  lemma PackSizes(x: Inputs, pm: PortMapKey, meta: EndpointMeta, p: Packing)
    requires PackedAt(x, pm, meta, p)
    ensures Names(ByPort(x.existing, x.svc, pm)) <= p.final.byName.Keys
    ensures |ByPort(x.existing, x.svc, pm)| - |p.deletes|
         == |Live(ByPort(x.existing, x.svc, pm), p.final.byName, p.final.toDelete)|
  {
    hide Packed, ByPort, Live, InputsOk, Sorted, Lists, LiveFact, CreateOk, Home, Tidy, OwnedBy, PortKey, Copies;
    var live := PackIs(x, pm, meta, p);
    var own := ByPort(x.existing, x.svc, pm);
    ByPortIs(x, pm);
    forall f | f in live ensures f.name in Names(own) {
      FormInside(x, pm, p, own, f);
    }
    SplitCount(own, live, p.deletes);
  }

  lemma FormInside(x: Inputs, pm: PortMapKey, p: Packing, own: seq<EndpointSlice>, f: EndpointSlice)
    requires LiveFact(x, pm, p, f)
    requires forall s :: s in own <==> s in x.existing && OwnedBy(s, x.svc) && PortKey(s) == pm
    ensures f.name in Names(own)
  {
    hide GoodSlice;
    var s :| s in x.existing && SameFrame(s, f);
    assert OwnedBy(s, x.svc) && PortKey(s) == pm;
  }

  // ---------- the loop over the port maps ----------

  lemma NothingYet(x: Inputs)
    ensures PlanPart(x, {}, Plan([], [], [], [])) && Recorded(x, {}, Plan([], [], [], []), map[])
  {
    assert SlicesOf(map[]) == map[];
  }

  lemma RecordOne(x: Inputs, done: set<PortMapKey>, plan: Plan, sp: ServicePortCache, pm: PortMapKey,
                  joined: Plan, info: EfficiencyInfo)
    requires Recorded(x, done, plan, sp) && pm !in done && pm !in sp && pm in x.desired
    requires info.slices == |joined.forms| + |joined.creates| - |plan.forms| - |plan.creates|
    requires info.slices >= 0 && info.endpoints == |x.desired[pm]|
    ensures Recorded(x, done + {pm}, joined, sp[pm := info])
  {
    hide TotalSlices;
    SetTotals(sp, pm, info);
  }

  method PlanPortMaps(x: Inputs, byPort: map<PortMapKey, seq<EndpointSlice>>, metas: map<PortMapKey, EndpointMeta>)
    returns (creates: seq<EndpointSlice>, updates: seq<EndpointSlice>, deletes: seq<EndpointSlice>,
             spMetrics: ServicePortCache, ghost forms: seq<EndpointSlice>)
    requires InputsOk(x) && metas.Keys == x.desired.Keys
    requires forall pm :: pm in metas ==> multiset(metas[pm].ports) == pm && metas[pm].addressType == x.addressType
    requires forall pm :: pm in byPort <==> ByPort(x.existing, x.svc, pm) != []
    requires forall pm :: pm in byPort ==> byPort[pm] == ByPort(x.existing, x.svc, pm)
    ensures PlanPart(x, x.desired.Keys, Plan(forms, creates, updates, deletes))
    ensures Recorded(x, x.desired.Keys, Plan(forms, creates, updates, deletes), spMetrics)
    ensures spMetrics.Keys == x.desired.Keys
  {
    hide PlanPart, Packed, Recorded, ByPort, Live, Names, DistinctNames;
    creates, updates, deletes, spMetrics, forms := [], [], [], map[], [];
    NothingYet(x);
    var todo := x.desired.Keys;
    ghost var done: set<PortMapKey> := {};
    while todo != {}
      invariant done + todo == x.desired.Keys && done !! todo && spMetrics.Keys == done
      invariant PlanPart(x, done, Plan(forms, creates, updates, deletes))
      invariant Recorded(x, done, Plan(forms, creates, updates, deletes), spMetrics)
      decreases |todo|
    {
      var pm :| pm in todo;
      TakeOne(x.desired.Keys, done, todo, pm);
      todo := todo - {pm};
      ghost var plan := Plan(forms, creates, updates, deletes);
      var existing := if pm in byPort then byPort[pm] else [];
      ByPortIs(x, pm);
      var desired := new EndpointSet(x.desired[pm]);
      var numEndpoints := desired.Len();
      var pmCreates, pmUpdates, pmDeletes, added, removed, final :=
        ReconcileByPortMapping(x.svc, x.max, existing, desired, metas[pm]);
      ghost var p := Packing(final, pmCreates, pmUpdates, pmDeletes, added, removed);
      assert PackedAt(x, pm, metas[pm], p);
      Join(x, done, plan, pm, metas[pm], p);
      PackSizes(x, pm, metas[pm], p);
      ghost var joined := Joined(x, plan, pm, p);
      var info := EfficiencyInfo(numEndpoints, |existing| + |pmCreates| - |pmDeletes|);
      RecordOne(x, done, plan, spMetrics, pm, joined, info);
      KeysAfterSet(spMetrics, pm, info);
      spMetrics := spMetrics[pm := info];
      creates := creates + pmCreates;
      updates := updates + pmUpdates;
      deletes := deletes + pmDeletes;
      forms := joined.forms;
      done := done + {pm};
    }
    assert done == x.desired.Keys;
  }

  /** The owned slices whose port map is no longer desired. */
  method Retired(x: Inputs, byPort: map<PortMapKey, seq<EndpointSlice>>) returns (retired: seq<EndpointSlice>)
    requires InputsOk(x)
    requires forall pm :: pm in byPort <==> ByPort(x.existing, x.svc, pm) != []
    requires forall pm :: pm in byPort ==> byPort[pm] == ByPort(x.existing, x.svc, pm)
    ensures DistinctNames(retired)
    ensures forall s :: s in retired <==> s in x.existing && OwnedBy(s, x.svc) && PortKey(s) !in x.desired
  {
    hide ByPort, OwnedBy, PortKey, DistinctNames;
    retired := [];
    NoSlicesDistinct();
    var todo := byPort.Keys;
    while todo != {}
      invariant todo <= byPort.Keys && DistinctNames(retired)
      invariant forall s :: s in retired <==>
                  s in x.existing && OwnedBy(s, x.svc) && PortKey(s) in byPort.Keys - todo && PortKey(s) !in x.desired
      decreases |todo|
    {
      var pm :| pm in todo;
      todo := todo - {pm};
      ByPortIs(x, pm);
      if pm !in x.desired {
        RetireOne(x, retired, byPort[pm]);
        retired := retired + byPort[pm];
      }
    }
    forall s | s in x.existing && OwnedBy(s, x.svc) ensures PortKey(s) in byPort {
      ByPortIs(x, PortKey(s));
      assert s in ByPort(x.existing, x.svc, PortKey(s));
    }
  }

  lemma NoSlicesDistinct()
    ensures DistinctNames([])
  {
  }

  lemma RetireOne(x: Inputs, retired: seq<EndpointSlice>, more: seq<EndpointSlice>)
    requires InputsOk(x) && DistinctNames(retired) && DistinctNames(more)
    requires forall s :: s in retired ==> s in x.existing
    requires forall s :: s in more ==> s in x.existing && s !in retired
    ensures DistinctNames(retired + more)
  {
    hide DesiredOk, DistinctNames;
    forall f, g | f in retired && g in more ensures f.name != g.name {
      SameName(x.existing, f, g);
    }
    DistinctConcat(retired, more);
  }

  // ---------- finishing the plan ----------

  lemma AllLists(x: Inputs, plan: Plan, orphans: seq<EndpointSlice>, retired: seq<EndpointSlice>)
    requires InputsOk(x) && FormsOk(x, x.desired.Keys, plan) && ListsOk(x, x.desired.Keys, plan)
    requires orphans == Orphans(x.existing, x.svc) && DistinctNames(retired)
    requires forall s :: s in retired <==> s in x.existing && OwnedBy(s, x.svc) && PortKey(s) !in x.desired
    ensures ListsDone(x, plan.(deletes := orphans + plan.deletes + retired))
  {
    hide OwnedBy, PortKey, Orphans, FormOk, DistinctNames, DesiredOk;
    var deletes := orphans + plan.deletes + retired;
    OrphansAre(x, orphans);
    forall f, g | f in orphans && g in plan.deletes ensures f.name != g.name { SameName(x.existing, f, g); }
    DistinctConcat(orphans, plan.deletes);
    forall f, g | f in orphans + plan.deletes && g in retired ensures f.name != g.name { SameName(x.existing, f, g); }
    DistinctConcat(orphans + plan.deletes, retired);
    forall s | s in x.existing ensures s in deletes <==> s.name !in Names(plan.forms) {
      StaysOrGoes(x, plan, s);
    }
    forall f | f in plan.forms ensures f.name in Names(x.existing) {
      FormName(x, plan, f);
    }
    assert Names(plan.forms) <= Names(x.existing);
    SplitCount(x.existing, plan.forms, deletes);
  }

  lemma OrphansAre(x: Inputs, orphans: seq<EndpointSlice>)
    requires DistinctNames(x.existing) && orphans == Orphans(x.existing, x.svc)
    ensures DistinctNames(orphans) && forall s :: s in orphans <==> s in x.existing && !OwnedBy(s, x.svc)
  {
    hide OwnedBy, PortKey;
    WhereIs(x.existing, x.svc, false, multiset{});
  }

  lemma FormName(x: Inputs, plan: Plan, f: EndpointSlice)
    requires FormsOk(x, x.desired.Keys, plan) && f in plan.forms
    ensures f.name in Names(x.existing)
  {
    hide GoodSlice, OwnedBy, PortKey, DistinctNames;
    assert FormOk(x, x.desired.Keys, plan, f);
  }

  /** An existing slice with a final form is an owned slice of a desired port map. */
  lemma StaysOrGoes(x: Inputs, plan: Plan, s: EndpointSlice)
    requires InputsOk(x) && FormsOk(x, x.desired.Keys, plan) && s in x.existing
    ensures s.name in Names(plan.forms) ==> OwnedBy(s, x.svc) && PortKey(s) in x.desired
  {
    hide GoodSlice, DesiredOk;
    if f :| f in plan.forms && f.name == s.name {
      assert FormOk(x, x.desired.Keys, plan, f);
      var r :| r in x.existing && SameFrame(r, f);
      SameName(x.existing, r, s);
    }
  }

  lemma PlanIsOk(x: Inputs, plan: Plan, orphans: seq<EndpointSlice>, retired: seq<EndpointSlice>)
    requires InputsOk(x) && PlanPart(x, x.desired.Keys, plan)
    requires orphans == Orphans(x.existing, x.svc) && DistinctNames(retired)
    requires forall s :: s in retired <==> s in x.existing && OwnedBy(s, x.svc) && PortKey(s) !in x.desired
    ensures var deletes := orphans + plan.deletes + retired;
            var bare := plan.(deletes := deletes);
            && ListsDone(x, bare)
            && (|x.existing| == |deletes| && |plan.creates| < 1 ==> PlanOk(x, bare.(creates := [Placeholder(x)])))
            && (!(|x.existing| == |deletes| && |plan.creates| < 1) ==> PlanOk(x, bare))
  {
    hide InputsOk, Orphans, OwnedBy, PortKey, DistinctNames, ListsOk, CopiesAt, Home, AllTidy, NewEndpointSlice,
         ListsDone;
    var deletes := orphans + plan.deletes + retired;
    var bare := plan.(deletes := deletes);
    AllLists(x, plan, orphans, retired);
    ListSizes(x, bare);
    if AllTidy(x) {
      TidyNothing(x, plan, orphans, retired);
    }
    FormsFrame(x, plan, bare);
    if |x.existing| == |deletes| && |plan.creates| < 1 {
      PlaceholderCounts(x, plan);
      PlaceholderLists(x, bare);
      FormsFrame(x, plan, bare.(creates := [Placeholder(x)]));
    }
  }

  lemma ListSizes(x: Inputs, plan: Plan)
    requires ListsDone(x, plan)
    ensures |x.existing| == |plan.deletes| <==> plan.forms == []
  {
  }

  lemma PlaceholderLists(x: Inputs, plan: Plan)
    requires ListsDone(x, plan)
    ensures ListsDone(x, plan.(creates := [Placeholder(x)]))
  {
    hide DistinctNames, Names, Placeholder;
  }

  lemma FormsFrame(x: Inputs, plan: Plan, plan': Plan)
    requires FormsOk(x, x.desired.Keys, plan) && plan'.forms == plan.forms && plan'.updates == plan.updates
    ensures FormsOk(x, x.desired.Keys, plan')
  {
    hide GoodSlice, OwnedBy, PortKey, DistinctNames, SameFrame;
    forall f | f in plan.forms ensures FormOk(x, x.desired.Keys, plan', f) {
      assert FormOk(x, x.desired.Keys, plan, f);
    }
  }

  lemma PlaceholderCounts(x: Inputs, plan: Plan)
    requires Counted(x, x.desired.Keys, plan) && plan.creates == []
    ensures Counted(x, x.desired.Keys, plan.(creates := [Placeholder(x)]))
  {
    hide PortKey, Wanted;
    var p := Placeholder(x);
    assert KeySeq([]) == [];
    forall pm, k ensures CopiesAt([p], pm, k) == 0 {
      CopiesAtPush([], p, pm, k);
      assert [] + [p] == [p];
    }
  }

  lemma TidyNothing(x: Inputs, plan: Plan, orphans: seq<EndpointSlice>, retired: seq<EndpointSlice>)
    requires AllTidy(x) && PlanPart(x, x.desired.Keys, plan) && InputsOk(x)
    requires orphans == Orphans(x.existing, x.svc)
    requires forall s :: s in retired <==> s in x.existing && OwnedBy(s, x.svc) && PortKey(s) !in x.desired
    ensures orphans == [] && plan.creates == [] && plan.updates == [] && plan.deletes == [] && retired == []
    ensures |x.existing| > 0
  {
    hide Orphans, OwnedBy, PortKey, Counted, Homes, Tidy, ByPort, DistinctNames, DesiredOk, Names;
    OrphansAre(x, orphans);
    FirstIsIn(orphans);
    FirstIsIn(retired);
    forall pm | pm in x.desired ensures NothingAt(pm, plan) {}
    FirstIsIn(plan.deletes);
    assert forall c :: c in plan.creates ==> CreateOk(x, x.desired.Keys, c);
    FirstIsIn(plan.creates);
    assert forall u :: u in plan.updates ==> FormOk(x, x.desired.Keys, plan, u);
    FirstIsIn(plan.updates);
  }

  // ---------- the placeholder's record ----------

  lemma {:induction false} SumNonNegative<K>(m: map<K, int>)
    requires forall k :: k in m ==> m[k] >= 0
    ensures Sum(m) >= 0
    ensures forall k :: k in m ==> m[k] <= Sum(m)
    decreases |m|
  {
    forall k | k in m ensures 0 <= m[k] <= Sum(m) {
      SumWithout(m, k);
      SumNonNegative(m - {k});
    }
    if k :| k in m {
      SumWithout(m, k);
    }
  }

  lemma NothingDesired(x: Inputs, plan: Plan, pm: PortMapKey)
    requires Counted(x, x.desired.Keys, plan) && plan.forms == [] && plan.creates == [] && pm in x.desired
    ensures x.desired[pm] == map[]
  {
    forall k ensures k !in x.desired[pm] {
      assert CopiesAt(plan.forms, pm, k) + CopiesAt(plan.creates, pm, k) == One(Wanted(x, x.desired.Keys, pm, k));
    }
  }

  lemma SetNothing(sp: ServicePortCache, pm: PortMapKey)
    requires (forall q :: q in sp ==> sp[q].slices >= 0) && TotalSlices(sp) == 0
    ensures TotalSlices(sp[pm := EfficiencyInfo(0, 1)]) == 1
  {
    SumNonNegative(SlicesOf(sp));
    if pm in sp {
      assert SlicesOf(sp)[pm] == 0;
    }
    assert SlicesOf(sp[pm := EfficiencyInfo(0, 1)]) == SlicesOf(sp)[pm := 1];
    SumSet(SlicesOf(sp), pm, 1);
  }

  lemma RecordPlaceholder(x: Inputs, plan: Plan, sp: ServicePortCache)
    requires Recorded(x, x.desired.Keys, plan, sp) && plan.forms == [] && plan.creates == []
    requires Counted(x, x.desired.Keys, plan)
    ensures Recorded(x, x.desired.Keys, plan.(creates := [Placeholder(x)]), sp[multiset{} := EfficiencyInfo(0, 1)])
  {
    hide Placeholder, Counted, TotalSlices;
    if multiset{} in x.desired {
      NothingDesired(x, plan, multiset{});
    }
    SetNothing(sp, multiset{});
  }

  /** The planning half of reconcileByAddressType: an error when a pod's node is unknown, a sound plan and the
      numbers to record otherwise. */
  method PlanAddressType(svc: Service, max: nat, addressType: AddressType, existing: seq<EndpointSlice>,
                         pods: seq<PodView>)
    returns (r: Result<ServicePortCache, ()>, creates: seq<EndpointSlice>, updates: seq<EndpointSlice>,
             deletes: seq<EndpointSlice>, ghost forms: seq<EndpointSlice>)
    requires max >= 1 && DistinctNames(existing)
    requires forall s :: s in existing ==> s.name != EMPTY && s.addressType == addressType && Labelled(s, svc)
    ensures r.Err? <==> NodeMissing(pods)
    ensures var x := Inputs(svc, max, addressType, existing, Gather(pods));
            var plan := Plan(forms, creates, updates, deletes);
            r.Ok? ==> PlanOk(x, plan) && Recorded(x, x.desired.Keys, plan, r.value)
  {
    hide PlanPart, PlanOk, Recorded, ByPort, Orphans, Names, OwnedBy, PortKey, Gather;
    creates, updates, deletes, forms := [], [], [], [];
    var byPort, orphans := GroupSlices(existing, svc);
    var gathered, metas := GroupPods(pods, addressType);
    if gathered.Err? {
      return Err(()), creates, updates, deletes, forms;
    }
    var x := Inputs(svc, max, addressType, existing, gathered.value);
    GatherOk(pods);
    var spMetrics, pmDeletes;
    creates, updates, pmDeletes, spMetrics, forms := PlanPortMaps(x, byPort, metas);
    ghost var plan := Plan(forms, creates, updates, pmDeletes);
    var retired := Retired(x, byPort);
    PlanIsOk(x, plan, orphans, retired);
    deletes := orphans + pmDeletes + retired;
    ListSizes(x, plan.(deletes := deletes));
    RecordSame(x, plan, plan.(deletes := deletes), spMetrics);
    if |existing| == |deletes| && |creates| < 1 {
      PlanParts(x, plan);
      RecordPlaceholder(x, plan.(deletes := deletes), spMetrics);
      var placeholder := NewEndpointSlice(svc, EndpointMeta([], addressType));
      assert creates == [];
      creates := creates + [placeholder];
      assert creates == [Placeholder(x)];
      spMetrics := spMetrics[multiset{} := EfficiencyInfo(0, 1)];
    }
    r := Ok(spMetrics);
  }

  lemma RecordSame(x: Inputs, plan: Plan, plan': Plan, sp: ServicePortCache)
    requires Recorded(x, x.desired.Keys, plan, sp) && plan'.forms == plan.forms && plan'.creates == plan.creates
    ensures Recorded(x, x.desired.Keys, plan', sp)
  {
    hide TotalSlices;
  }

  lemma PlanParts(x: Inputs, plan: Plan)
    requires PlanPart(x, x.desired.Keys, plan)
    ensures forall deletes :: Counted(x, x.desired.Keys, plan.(deletes := deletes))
  {
    hide FormsOk, CreatesOk, ListsOk, Homes, IdleWhereTidy, CopiesAt, Wanted;
  }

  // ---------- ideal and actual slice counts ----------

  /** Slices that hold every key of a set exactly once hold as many endpoints as there are keys. */
  lemma {:induction false} TotalIsKeys(slices: seq<EndpointSlice>, keys: set<EndpointKey>)
    requires forall k :: Copies(slices, k) == One(k in keys)
    ensures TotalEndpoints(slices) == |keys|
  {
    hide Keys, KeySet;
    if slices == [] {
      forall k ensures k !in keys { assert Copies(slices, k) == 0; }
      assert keys == {};
    } else {
      var front, last := slices[..|slices| - 1], slices[|slices| - 1];
      var own := KeySet(last.endpoints);
      KeysAre(last.endpoints);
      forall k ensures Keys(last.endpoints)[k] == One(k in own) && Copies(front, k) == One(k in keys - own) {
        assert Copies(slices, k) == Copies(front, k) + Keys(last.endpoints)[k];
      }
      TotalIsKeys(front, keys - own);
      OwnCount(last.endpoints, own);
      assert own <= keys;
      assert keys == own + (keys - own);
    }
  }

  lemma OwnCount(eps: seq<Endpoint>, own: set<EndpointKey>)
    requires forall k :: Keys(eps)[k] == One(k in own)
    ensures |own| == |eps|
  {
    KeysAre(eps);
    assert Keys(eps) == multiset(own);
  }

  lemma {:induction false} RoomFor(slices: seq<EndpointSlice>, max: nat)
    requires forall s :: s in slices ==> |s.endpoints| <= max
    ensures TotalEndpoints(slices) <= |slices| * max
  {
    if slices != [] {
      assert slices[|slices| - 1] in slices;
      RoomFor(slices[..|slices| - 1], max);
    }
  }

  /** When no existing slice is above max, the slices that survive are at least the ideal number. */
  lemma IdealAtMostSurvivors(svc: Service, max: nat, meta: EndpointMeta, existing: seq<EndpointSlice>, d0: Items,
                             p: Packing)
    requires max >= 1 && Packed(svc, max, meta, existing, d0, p) && WellKeyed(d0) && d0 != map[]
    requires DistinctNames(existing) && forall s :: s in existing ==> |s.endpoints| <= max && Labelled(s, svc)
    ensures Names(existing) <= p.final.byName.Keys
    ensures NumDesiredSlices(|d0|, max) <= |Survivors(existing, p)|
  {
    hide Packed, Labelled, DistinctNames, NumDesiredSlices, Survivors;
    NamesCovered(svc, max, meta, existing, d0, p);
    ExactlyOnce(svc, max, meta, existing, d0, p);
    var slices := Survivors(existing, p);
    TotalIsKeys(slices, d0.Keys);
    forall s | s in slices ensures |s.endpoints| <= max {
      SurvivorSize(svc, max, meta, existing, d0, p, s);
    }
    RoomFor(slices, max);
    assert |d0| == |d0.Keys| && |d0.Keys| > 0;
    SomeSlice(slices);
    IdealIsLeast(|d0|, max, |slices|);
  }

  lemma SomeSlice(slices: seq<EndpointSlice>)
    ensures TotalEndpoints(slices) > 0 ==> |slices| >= 1
  {
  }

  lemma NamesCovered(svc: Service, max: nat, meta: EndpointMeta, existing: seq<EndpointSlice>, d0: Items, p: Packing)
    requires max >= 1 && Packed(svc, max, meta, existing, d0, p)
    ensures Names(existing) <= p.final.byName.Keys && Sorted(existing, p.final)
  {
    hide Phases, Conserved, Lists, TotalEndpoints, Avail;
  }

  lemma SurvivorSize(svc: Service, max: nat, meta: EndpointMeta, existing: seq<EndpointSlice>, d0: Items, p: Packing,
                     s: EndpointSlice)
    requires max >= 1 && Packed(svc, max, meta, existing, d0, p) && WellKeyed(d0)
    requires DistinctNames(existing) && forall s :: s in existing ==> |s.endpoints| <= max && Labelled(s, svc)
    requires Names(existing) <= p.final.byName.Keys && s in Survivors(existing, p)
    ensures |s.endpoints| <= max
  {
    hide Packed, Labelled, DistinctNames, Live;
    SurvivorsAreGood(svc, max, meta, existing, d0, p);
    NamesCovered(svc, max, meta, existing, d0, p);
    LiveIs(existing, p.final.byName, p.final.toDelete);
    if s in Live(existing, p.final.byName, p.final.toDelete) {
      var e :| e in existing && e.name == s.name;
      var i :| 0 <= i < |existing| && existing[i] == e;
      NeverPastMax(svc, max, meta, existing, d0, p, i);
    }
  }
}
