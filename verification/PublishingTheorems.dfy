/** The plan and the calls together (pkg/service-controller/reconciler.go): make before break, exactly once, and
    nothing to do the second time. */
module PublishingTheorems {
  import opened Wrappers
  import opened Discovery
  import opened EndpointSets
  import opened Packing
  import opened PackingTheorems
  import opened Planning
  import opened AddressTypePlans
  import opened Recycling
  import opened Writes
  import opened Publishing

  // ---------- what is compared ----------

  /** Equal but for labels, owners and generation, which an informer may see late. */
  predicate SameContent(s: EndpointSlice, t: EndpointSlice) {
    && s.name == t.name && s.uid == t.uid && s.addressType == t.addressType
    && s.ports == t.ports && s.endpoints == t.endpoints
  }

  /** s is one of the service's slices of address type a. */
  predicate Mine(s: EndpointSlice, svc: Service, a: AddressType) {
    s.addressType == a && Labelled(s, svc)
  }

  /** The listed slices are the service's slices of the address type in the store, up to other labels. */
  ghost predicate Reflects(existing: seq<EndpointSlice>, svc: Service, a: AddressType, store: Store) {
    && Shelved(store)
    && (forall s :: s in existing ==> s.name in store && SameContent(s, store[s.name]) && Mine(store[s.name], svc, a))
    && (forall n :: n in store && Mine(store[n], svc, a) ==> n in Names(existing))
  }

  /** The listed slices are those of the store in every field. */
  ghost predicate ListedExactly(existing: seq<EndpointSlice>, store: Store) {
    forall s :: s in existing ==> s.name in store && store[s.name] == s
  }

  /** t publishes what s says. */
  predicate Publishes(t: EndpointSlice, s: EndpointSlice, svc: Service) {
    t.addressType == s.addressType && t.ports == s.ports && t.endpoints == s.endpoints && Labelled(t, svc)
  }

  /** Slice n publishes key k of the service under port map pm, for address type a. */
  predicate Holds(store: Store, n: Text, svc: Service, a: AddressType, pm: PortMapKey, k: EndpointKey) {
    n in store && Mine(store[n], svc, a) && PortKey(store[n]) == pm && k in KeySet(store[n].endpoints)
  }

  ghost predicate Published(store: Store, svc: Service, a: AddressType, pm: PortMapKey, k: EndpointKey) {
    exists n :: Holds(store, n, svc, a, pm, k)
  }

  predicate Asked(desired: Desired, pm: PortMapKey, k: EndpointKey) {
    pm in desired && k in desired[pm]
  }

  /** Endpoint e of slice s is desired, and says what the desired one says. */
  ghost predicate ShownRight(s: EndpointSlice, e: Endpoint, desired: Desired) {
    Asked(desired, PortKey(s), KeyOf(e)) && Shows(e, desired[PortKey(s)][KeyOf(e)])
  }

  /** Under address type a the store publishes every desired endpoint in exactly one place, as it should be, and nothing
      else. */
  ghost predicate PublishedExactly(store: Store, svc: Service, a: AddressType, desired: Desired) {
    && (forall pm, k :: Published(store, svc, a, pm, k) <==> Asked(desired, pm, k))
    && (forall n, m, pm, k :: Holds(store, n, svc, a, pm, k) && Holds(store, m, svc, a, pm, k) ==> n == m)
    && (forall n :: n in store && Mine(store[n], svc, a) ==> NoRepeats(store[n].endpoints))
    && (forall n, e :: n in store && Mine(store[n], svc, a) && e in store[n].endpoints ==>
          ShownRight(store[n], e, desired))
  }

  /** A finished plan, what recycling made of it, and the store it was planned for. */
  ghost predicate Finalizing(x: Inputs, plan: Plan, r: Changes, victims: seq<EndpointSlice>, s0: Store) {
    && InputsOk(x) && PlanOk(x, plan)
    && Recycled(x.svc, Changes(plan.creates, plan.updates, plan.deletes), r, victims)
    && Reflects(x.existing, x.svc, x.addressType, s0)
  }

  // ---------- names ----------

  lemma GoodIsLabelled(s: EndpointSlice, svc: Service, d0: Items)
    requires GoodSlice(s, svc, d0)
    ensures Labelled(s, svc)
  {
  }

  lemma StoredIsLabelled(t: EndpointSlice, s: EndpointSlice, svc: Service)
    requires Stored(t, s) && Labelled(s, svc)
    ensures Publishes(t, s, svc)
  {
  }

  /** A final form belongs to a slice that is not deleted. */
  lemma FormApart(x: Inputs, plan: Plan, f: EndpointSlice)
    requires InputsOk(x) && PlanOk(x, plan) && f in plan.forms
    ensures f.name in Names(x.existing) && f.name !in Names(plan.deletes) && Mine(f, x.svc, x.addressType)
    ensures f in plan.updates || f in x.existing
    ensures exists s :: s in x.existing && SameFrame(s, f) && OwnedBy(s, x.svc)
  {
    hide Counted, CreatesDone, Homes, AllTidy, GoodSlice, DesiredOk, Labelled;
    assert FormOk(x, x.desired.Keys, plan, f);
    GoodIsLabelled(f, x.svc, x.desired[PortKey(f)]);
    var s :| s in x.existing && SameFrame(s, f);
    assert OwnedBy(s, x.svc);
    forall d | d in plan.deletes ensures d.name != f.name {
      assert f.name in Names(plan.forms);
    }
  }

  lemma PlanLists(x: Inputs, plan: Plan)
    requires PlanOk(x, plan)
    ensures DistinctNames(plan.updates) && DistinctNames(plan.deletes) && DistinctNames(plan.forms)
    ensures forall u :: u in plan.updates ==> u in plan.forms
    ensures forall s :: s in plan.deletes ==> s in x.existing
    ensures forall s :: s in x.existing ==> (s in plan.deletes <==> s.name !in Names(plan.forms))
  {
    hide Counted, CreatesDone, Homes, AllTidy, FormOk, DistinctNames;
  }

  /** An update left by recycling is a planned one or a create under a victim's name. */
  lemma UpdateAt(svc: Service, plan: Plan, r: Changes, victims: seq<EndpointSlice>, i: nat)
    requires Recycled(svc, Changes(plan.creates, plan.updates, plan.deletes), r, victims) && i < |r.updates|
    ensures |victims| <= |plan.creates| && |r.updates| == |plan.updates| + |victims|
    ensures i < |plan.updates| ==> r.updates[i] == plan.updates[i]
    ensures i >= |plan.updates| ==> r.updates[i] == Renamed(plan.creates, victims, i - |plan.updates|)
    ensures i >= |plan.updates| ==> victims[i - |plan.updates|] in plan.deletes
    ensures i >= |plan.updates| ==> OwnedBy(victims[i - |plan.updates|], svc)
  {
    hide OwnedBy, DistinctNames;
    if i < |plan.updates| {
      assert r.updates[..|plan.updates|][i] == r.updates[i];
    } else {
      assert r.updates[|plan.updates| + (i - |plan.updates|)] == Renamed(plan.creates, victims, i - |plan.updates|);
      assert victims[i - |plan.updates|] in victims;
    }
  }

  lemma UpdateFrom(x: Inputs, plan: Plan, r: Changes, victims: seq<EndpointSlice>, u: EndpointSlice)
    requires Recycled(x.svc, Changes(plan.creates, plan.updates, plan.deletes), r, victims) && u in r.updates
    ensures u in plan.updates || exists v :: v in victims && v in plan.deletes && v.name == u.name && OwnedBy(v, x.svc)
  {
    hide OwnedBy, Recycled;
    var i :| 0 <= i < |r.updates| && r.updates[i] == u;
    UpdateAt(x.svc, plan, r, victims, i);
  }

  lemma PlannedStay(x: Inputs, plan: Plan, r: Changes, victims: seq<EndpointSlice>, u: EndpointSlice)
    requires Recycled(x.svc, Changes(plan.creates, plan.updates, plan.deletes), r, victims) && u in plan.updates
    ensures u in r.updates
  {
    hide OwnedBy, DistinctNames;
    assert u in r.updates[..|plan.updates|];
  }

  /** The changes fit the store. */
  lemma FinalizingIsLegal(x: Inputs, plan: Plan, r: Changes, victims: seq<EndpointSlice>, s0: Store)
    requires Finalizing(x, plan, r, victims, s0)
    ensures Legal(s0, r)
  {
    hide PlanOk, OwnedBy, InputsOk;
    PlanLists(x, plan);
    forall u | u in plan.updates ensures u.name in s0 && u.name !in Names(plan.deletes) {
      FormApart(x, plan, u);
    }
    forall u | u in r.updates ensures u.name in s0 && forall d :: d in r.deletes ==> d.name != u.name {
      UpdateFrom(x, plan, r, victims, u);
    }
    UpdatesDistinct(x, plan, r, victims);
  }

  lemma UpdatesDistinct(x: Inputs, plan: Plan, r: Changes, victims: seq<EndpointSlice>)
    requires Recycled(x.svc, Changes(plan.creates, plan.updates, plan.deletes), r, victims)
    requires DistinctNames(plan.updates)
    requires forall u :: u in plan.updates ==> u.name !in Names(plan.deletes)
    ensures DistinctNames(r.updates)
  {
    hide OwnedBy, Recycled;
    VictimsDistinct(x.svc, plan, r, victims);
    forall i, j | 0 <= i < j < |r.updates| ensures r.updates[i].name != r.updates[j].name {
      UpdateAt(x.svc, plan, r, victims, i);
      UpdateAt(x.svc, plan, r, victims, j);
      if i < |plan.updates| {
        assert plan.updates[i] in plan.updates;
      }
    }
  }

  lemma VictimsDistinct(svc: Service, plan: Plan, r: Changes, victims: seq<EndpointSlice>)
    requires Recycled(svc, Changes(plan.creates, plan.updates, plan.deletes), r, victims)
    ensures DistinctNames(victims)
  {
  }

  // ---------- where things are ----------

  /** A slice that finalize does not write is as it was. */
  lemma Unwritten(s0: Store, creates: seq<EndpointSlice>, r: Changes, at: Stage, s: Store, n: Text)
    requires Reached(s0, creates, r, at, s) && n in s0
    requires n !in Names(r.updates) && n !in Names(r.deletes[..at.deleted])
    ensures n in s && s[n] == s0[n]
  {
    hide DistinctNames, Stored;
    assert forall u :: u in r.updates[..at.updated] ==> u in r.updates;
  }

  lemma Deleted(r: Changes, i: nat)
    requires i <= |r.deletes|
    ensures Names(r.deletes[..i]) <= Names(r.deletes)
    ensures r.deletes[..0] == [] && r.deletes[..|r.deletes|] == r.deletes
  {
    assert forall d :: d in r.deletes[..i] ==> d in r.deletes;
  }

  /** At every stage the slice of a final form publishes its old content or that form. */
  lemma FormAt(x: Inputs, plan: Plan, r: Changes, victims: seq<EndpointSlice>, s0: Store, at: Stage, s: Store,
               f: EndpointSlice)
    requires Finalizing(x, plan, r, victims, s0) && Reached(s0, Creates(x.svc, r), r, at, s) && f in plan.forms
    ensures f.name in s0 && f.name in s
    ensures s[f.name] == s0[f.name] || Publishes(s[f.name], f, x.svc)
    ensures at.updated == |r.updates| ==> Publishes(s[f.name], f, x.svc)
    ensures at.updated == |r.updates| && ListedExactly(x.existing, s0) ==> Stored(s[f.name], f)
  {
    hide PlanOk, InputsOk, OwnedBy, Reflects, Shelved;
    FormApart(x, plan, f);
    PlanLists(x, plan);
    InStore(x, plan, r, victims, s0, f);
    DeletedSubset(x, plan, r, victims, at);
    assert r.updates[..|r.updates|] == r.updates;
    if f.name in Names(r.updates[..at.updated]) {
      var i :| 0 <= i < at.updated && r.updates[i].name == f.name;
      assert r.updates[i] in r.updates;
      UpdateFrom(x, plan, r, victims, r.updates[i]);
      OneForm(plan, r.updates[i], f);
    } else {
      if f in plan.updates {
        PlannedStay(x, plan, r, victims, f);
      } else {
        assert SameContent(f, s0[f.name]);
      }
    }
  }

  lemma OneForm(plan: Plan, u: EndpointSlice, f: EndpointSlice)
    requires DistinctNames(plan.forms) && f in plan.forms && u.name == f.name
    ensures u in plan.forms ==> u == f
  {
  }

  lemma InStore(x: Inputs, plan: Plan, r: Changes, victims: seq<EndpointSlice>, s0: Store, f: EndpointSlice)
    requires Finalizing(x, plan, r, victims, s0) && f.name in Names(x.existing)
    ensures f.name in s0 && Mine(s0[f.name], x.svc, x.addressType)
    ensures f in x.existing ==> SameContent(f, s0[f.name])
  {
    hide PlanOk, InputsOk, OwnedBy;
  }

  lemma DeletedSubset(x: Inputs, plan: Plan, r: Changes, victims: seq<EndpointSlice>, at: Stage)
    requires Recycled(x.svc, Changes(plan.creates, plan.updates, plan.deletes), r, victims)
    requires at.deleted <= |r.deletes|
    ensures Names(r.deletes[..at.deleted]) <= Names(plan.deletes)
  {
    hide OwnedBy, DistinctNames;
    Deleted(r, at.deleted);
    assert forall d :: d in r.deletes ==> d in plan.deletes;
  }

  /** The name under which the j-th planned create is published. */
  function Slot(plan: Plan, r: Changes, victims: seq<EndpointSlice>, at: Stage, j: nat): Text
    requires j < |plan.creates| && |r.creates| + |victims| == |plan.creates| && |at.created| == |r.creates|
  {
    if j < |r.creates| then at.created[j] else victims[|plan.creates| - 1 - j].name
  }

  /** Once all creates and updates are done, every planned create is published, under a name of its own. */
  lemma CreateAt(x: Inputs, plan: Plan, r: Changes, victims: seq<EndpointSlice>, s0: Store, at: Stage, s: Store, j: nat)
    requires Finalizing(x, plan, r, victims, s0) && !x.svc.deleting && Reached(s0, Creates(x.svc, r), r, at, s)
    requires |at.created| == |r.creates| && at.updated == |r.updates| && j < |plan.creates|
    ensures |r.creates| + |victims| == |plan.creates|
    ensures Slot(plan, r, victims, at, j) in s && Stored(s[Slot(plan, r, victims, at, j)], plan.creates[j])
  {
    hide PlanOk, InputsOk, OwnedBy, Reflects, Shelved, DistinctNames, Stored;
    if j < |r.creates| {
      assert r.creates[j] == plan.creates[j];
    } else {
      var i := |plan.creates| - 1 - j;
      assert r.updates[|plan.updates| + i] == Renamed(plan.creates, victims, i);
      StoredRenamed(s[victims[i].name], plan.creates[j], victims[i].name);
    }
  }

  /** The name a create is stored under does not matter. */
  lemma StoredRenamed(t: EndpointSlice, c: EndpointSlice, n: Text)
    ensures Stored(t, c.(name := n)) ==> Stored(t, c)
  {
  }

  // ---------- the slices there are in the end ----------

  function Final(plan: Plan): seq<EndpointSlice> {
    plan.forms + plan.creates
  }

  /** All creates and updates are done. */
  predicate Written(plan: Plan, r: Changes, victims: seq<EndpointSlice>, at: Stage) {
    |r.creates| + |victims| == |plan.creates| && |at.created| == |r.creates| && at.updated == |r.updates|
  }

  /** The name under which the i-th final slice is published. */
  function Spot(plan: Plan, r: Changes, victims: seq<EndpointSlice>, at: Stage, i: nat): Text
    requires i < |Final(plan)| && Written(plan, r, victims, at)
  {
    if i < |plan.forms| then plan.forms[i].name else Slot(plan, r, victims, at, i - |plan.forms|)
  }

  /** A finalize run that has done all its creates and updates. */
  ghost predicate Settled(x: Inputs, plan: Plan, r: Changes, victims: seq<EndpointSlice>, s0: Store, at: Stage,
                          s: Store) {
    && Finalizing(x, plan, r, victims, s0) && !x.svc.deleting
    && Reached(s0, r.creates, r, at, s) && Written(plan, r, victims, at)
  }

  lemma SpotAt(x: Inputs, plan: Plan, r: Changes, victims: seq<EndpointSlice>, s0: Store, at: Stage, s: Store, i: nat)
    requires Settled(x, plan, r, victims, s0, at, s) && i < |Final(plan)|
    ensures var n := Spot(plan, r, victims, at, i);
            && n in s && Publishes(s[n], Final(plan)[i], x.svc)
            && (ListedExactly(x.existing, s0) ==> Stored(s[n], Final(plan)[i]))
  {
    hide PlanOk, InputsOk, Recycled, Reflects, Reached, Labelled;
    if i < |plan.forms| {
      FormAt(x, plan, r, victims, s0, at, s, plan.forms[i]);
    } else {
      CreateAt(x, plan, r, victims, s0, at, s, i - |plan.forms|);
      FinalType(x, plan, i);
      StoredIsLabelled(s[Spot(plan, r, victims, at, i)], Final(plan)[i], x.svc);
    }
  }

  /** Slice n is what became of an existing slice or a create of this plan. */
  lemma SpotOf(x: Inputs, plan: Plan, r: Changes, victims: seq<EndpointSlice>, s0: Store, at: Stage, s: Store, n: Text)
    returns (i: nat)
    requires Settled(x, plan, r, victims, s0, at, s) && at.deleted == |r.deletes|
    requires n in s && Mine(s[n], x.svc, x.addressType)
    ensures i < |Final(plan)| && Spot(plan, r, victims, at, i) == n
  {
    hide Finalizing, Stored, Shelved, PlanOk, InputsOk, OwnedBy;
    if n in at.created {
      var j :| 0 <= j < |at.created| && at.created[j] == n;
      i := |plan.forms| + j;
    } else if n in Names(r.updates) {
      var u :| u in r.updates && u.name == n;
      i := SpotOfUpdate(x, plan, r, victims, s0, at, u);
    } else {
      Deleted(r, at.deleted);
      assert r.updates[..at.updated] == r.updates;
      assert s[n] == s0[n];
      i := SpotOfKept(x, plan, r, victims, s0, n);
    }
  }

  lemma SpotOfUpdate(x: Inputs, plan: Plan, r: Changes, victims: seq<EndpointSlice>, s0: Store, at: Stage,
                     u: EndpointSlice)
    returns (i: nat)
    requires Finalizing(x, plan, r, victims, s0) && Written(plan, r, victims, at) && u in r.updates
    ensures i < |Final(plan)| && Spot(plan, r, victims, at, i) == u.name
  {
    hide PlanOk, InputsOk, OwnedBy, Reflects, Recycled;
    PlanLists(x, plan);
    var j :| 0 <= j < |r.updates| && r.updates[j] == u;
    UpdateAt(x.svc, plan, r, victims, j);
    if j < |plan.updates| {
      assert u in plan.updates && u in plan.forms;
      i :| 0 <= i < |plan.forms| && plan.forms[i] == u;
    } else {
      i := |plan.forms| + |plan.creates| - 1 - (j - |plan.updates|);
      SlotOfVictim(plan, r, victims, at, j - |plan.updates|);
    }
  }

  lemma SlotOfVictim(plan: Plan, r: Changes, victims: seq<EndpointSlice>, at: Stage, j: nat)
    requires Written(plan, r, victims, at) && j < |victims|
    ensures Slot(plan, r, victims, at, |plan.creates| - 1 - j) == victims[j].name
  {
  }

  lemma SpotOfKept(x: Inputs, plan: Plan, r: Changes, victims: seq<EndpointSlice>, s0: Store, n: Text) returns (i: nat)
    requires Finalizing(x, plan, r, victims, s0) && n in s0 && Mine(s0[n], x.svc, x.addressType)
    requires n !in Names(r.updates) && n !in Names(r.deletes)
    ensures i < |plan.forms| && plan.forms[i].name == n
  {
    hide PlanOk, InputsOk, OwnedBy, DistinctNames;
    PlanLists(x, plan);
    var e :| e in x.existing && e.name == n;
    RecycledNames(x.svc, Changes(plan.creates, plan.updates, plan.deletes), r, victims);
    assert e !in plan.deletes;
    var f :| f in plan.forms && f.name == n;
    i :| 0 <= i < |plan.forms| && plan.forms[i] == f;
  }

  // ---------- counting over final slices ----------

  lemma {:induction false} AtBound(slices: seq<EndpointSlice>, i: nat, pm: PortMapKey, k: EndpointKey)
    requires i < |slices| && PortKey(slices[i]) == pm
    ensures Keys(slices[i].endpoints)[k] <= CopiesAt(slices, pm, k)
    ensures forall j | 0 <= j < i && PortKey(slices[j]) == pm && k in Keys(slices[i].endpoints)
                       && k in Keys(slices[j].endpoints) :: CopiesAt(slices, pm, k) >= 2
  {
    hide Keys, PortKey;
    var front, last := slices[..|slices| - 1], slices[|slices| - 1];
    if i < |front| {
      AtBound(front, i, pm, k);
    } else {
      forall j | 0 <= j < i && PortKey(slices[j]) == pm && k in Keys(last.endpoints) && k in Keys(slices[j].endpoints)
        ensures CopiesAt(front, pm, k) >= 1
      {
        AtBound(front, j, pm, k);
        assert front[j] == slices[j];
      }
    }
  }

  lemma {:induction false} AtFound(slices: seq<EndpointSlice>, pm: PortMapKey, k: EndpointKey) returns (i: nat)
    requires CopiesAt(slices, pm, k) > 0
    ensures i < |slices| && PortKey(slices[i]) == pm && k in KeySet(slices[i].endpoints)
  {
    hide Keys, PortKey, KeySet;
    var front, last := slices[..|slices| - 1], slices[|slices| - 1];
    KeysAre(last.endpoints);
    if PortKey(last) == pm && k in Keys(last.endpoints) {
      i := |slices| - 1;
    } else {
      i := AtFound(front, pm, k);
    }
  }

  lemma FinalCounts(x: Inputs, plan: Plan, pm: PortMapKey, k: EndpointKey)
    requires PlanOk(x, plan)
    ensures CopiesAt(Final(plan), pm, k) == One(Asked(x.desired, pm, k))
  {
    hide FormsOk, CreatesDone, ListsDone, Homes, AllTidy, CopiesAt;
    CopiesAtConcat(plan.forms, plan.creates, pm, k);
    assert Asked(x.desired, pm, k) == Wanted(x, x.desired.Keys, pm, k);
  }

  lemma FinalType(x: Inputs, plan: Plan, i: nat)
    requires InputsOk(x) && PlanOk(x, plan) && i < |Final(plan)|
    ensures Mine(Final(plan)[i], x.svc, x.addressType)
  {
    hide Counted, Homes, AllTidy, GoodSlice, DesiredOk, FormsOk, ListsDone, Labelled;
    if i < |plan.forms| {
      FormApart(x, plan, plan.forms[i]);
    } else {
      var c := Final(plan)[i];
      assert c in plan.creates;
      if CreatesOk(x, x.desired.Keys, plan) {
        assert CreateOk(x, x.desired.Keys, c);
        GoodIsLabelled(c, x.svc, x.desired[PortKey(c)]);
      }
    }
  }

  // ---------- exactly once ----------

  /** From the end of the updates on, everything desired is published. */
  lemma AllPublished(x: Inputs, plan: Plan, r: Changes, victims: seq<EndpointSlice>, s0: Store, at: Stage, s: Store,
                     pm: PortMapKey, k: EndpointKey)
    requires Settled(x, plan, r, victims, s0, at, s) && Asked(x.desired, pm, k)
    ensures Published(s, x.svc, x.addressType, pm, k)
  {
    hide PlanOk, InputsOk, Reached, Recycled, Reflects, KeySet, Spot, Final;
    FinalCounts(x, plan, pm, k);
    var i := AtFound(Final(plan), pm, k);
    SpotAt(x, plan, r, victims, s0, at, s, i);
    FinalType(x, plan, i);
    assert Holds(s, Spot(plan, r, victims, at, i), x.svc, x.addressType, pm, k);
  }

  /** What a holder's place says. */
  lemma HolderAt(x: Inputs, plan: Plan, r: Changes, victims: seq<EndpointSlice>, s0: Store, at: Stage, s: Store,
                 n: Text, pm: PortMapKey, k: EndpointKey)
    returns (i: nat)
    requires Settled(x, plan, r, victims, s0, at, s) && at.deleted == |r.deletes|
    requires Holds(s, n, x.svc, x.addressType, pm, k)
    ensures i < |Final(plan)| && Spot(plan, r, victims, at, i) == n
    ensures PortKey(Final(plan)[i]) == pm && k in Keys(Final(plan)[i].endpoints)
  {
    hide Finalizing, Reached, KeySet, Spot, Final;
    i := SpotOf(x, plan, r, victims, s0, at, s, n);
    SpotAt(x, plan, r, victims, s0, at, s, i);
    KeysAre(Final(plan)[i].endpoints);
  }

  /** When all calls have succeeded, every desired endpoint is published in exactly one place and nothing else is. */
  lemma PublishesExactly(x: Inputs, plan: Plan, r: Changes, victims: seq<EndpointSlice>, s0: Store, at: Stage, s: Store)
    requires Settled(x, plan, r, victims, s0, at, s) && at.deleted == |r.deletes|
    ensures PublishedExactly(s, x.svc, x.addressType, x.desired)
  {
    hide PlanOk, InputsOk, Reached, Recycled, Reflects, Holds, Spot, Final, NoRepeats, Asked, ShownRight;
    var a := x.addressType;
    forall pm, k ensures Published(s, x.svc, a, pm, k) <==> Asked(x.desired, pm, k) {
      FinalCounts(x, plan, pm, k);
      if Asked(x.desired, pm, k) {
        AllPublished(x, plan, r, victims, s0, at, s, pm, k);
      }
      if n :| Holds(s, n, x.svc, a, pm, k) {
        var i := HolderAt(x, plan, r, victims, s0, at, s, n, pm, k);
        AtBound(Final(plan), i, pm, k);
      }
    }
    forall n, m, pm, k | Holds(s, n, x.svc, a, pm, k) && Holds(s, m, x.svc, a, pm, k) ensures n == m {
      var i := HolderAt(x, plan, r, victims, s0, at, s, n, pm, k);
      var j := HolderAt(x, plan, r, victims, s0, at, s, m, pm, k);
      FinalCounts(x, plan, pm, k);
      AtBound(Final(plan), i, pm, k);
      AtBound(Final(plan), j, pm, k);
    }
    forall n | n in s && Mine(s[n], x.svc, a) ensures NoRepeats(s[n].endpoints) {
      OnceInside(x, plan, r, victims, s0, at, s, n);
    }
    forall n, e | n in s && Mine(s[n], x.svc, a) && e in s[n].endpoints ensures ShownRight(s[n], e, x.desired) {
      RightInside(x, plan, r, victims, s0, at, s, n, e);
    }
  }

  lemma RightInside(x: Inputs, plan: Plan, r: Changes, victims: seq<EndpointSlice>, s0: Store, at: Stage, s: Store,
                    n: Text, e: Endpoint)
    requires Settled(x, plan, r, victims, s0, at, s) && at.deleted == |r.deletes|
    requires n in s && Mine(s[n], x.svc, x.addressType) && e in s[n].endpoints
    ensures ShownRight(s[n], e, x.desired)
  {
    hide PlanOk, InputsOk, Reached, Recycled, Reflects, Spot, Final, Shows, Asked, KeyOf;
    var i := SpotOf(x, plan, r, victims, s0, at, s, n);
    SpotAt(x, plan, r, victims, s0, at, s, i);
    FinalRight(x, plan, i, e);
  }

  lemma FinalRight(x: Inputs, plan: Plan, i: nat, e: Endpoint)
    requires PlanOk(x, plan) && i < |Final(plan)| && e in Final(plan)[i].endpoints
    ensures ShownRight(Final(plan)[i], e, x.desired)
  {
    hide Counted, Homes, AllTidy, GoodSlice, ListsDone, OwnedBy, PortKey, KeyOf, Shows;
    var f := Final(plan)[i];
    if i < |plan.forms| {
      assert FormOk(x, x.desired.Keys, plan, f);
    } else if CreatesOk(x, x.desired.Keys, plan) {
      assert f in plan.creates;
      assert CreateOk(x, x.desired.Keys, f);
    }
    GoodShows(f, x.svc, x.desired[PortKey(f)], e);
  }

  lemma OnceInside(x: Inputs, plan: Plan, r: Changes, victims: seq<EndpointSlice>, s0: Store, at: Stage, s: Store,
                   n: Text)
    requires Settled(x, plan, r, victims, s0, at, s) && at.deleted == |r.deletes|
    requires n in s && Mine(s[n], x.svc, x.addressType)
    ensures NoRepeats(s[n].endpoints)
  {
    hide PlanOk, InputsOk, Reached, Recycled, Reflects, Spot, Final, NoRepeats, Asked, Keys;
    var i := SpotOf(x, plan, r, victims, s0, at, s, n);
    SpotAt(x, plan, r, victims, s0, at, s, i);
    var f := Final(plan)[i];
    forall k ensures Keys(f.endpoints)[k] <= 1 {
      FinalCounts(x, plan, PortKey(f), k);
      AtBound(Final(plan), i, PortKey(f), k);
    }
    CopyInside(f.endpoints);
  }

  // ---------- make before break ----------

  /** Whatever is published and stays desired is published after any number of the calls. */
  lemma MakeBeforeBreak(x: Inputs, plan: Plan, r: Changes, victims: seq<EndpointSlice>, s0: Store, at: Stage, s: Store,
                        pm: PortMapKey, k: EndpointKey)
    requires Finalizing(x, plan, r, victims, s0) && !x.svc.deleting && Reached(s0, r.creates, r, at, s)
    requires Published(s0, x.svc, x.addressType, pm, k) && Asked(x.desired, pm, k)
    ensures Published(s, x.svc, x.addressType, pm, k)
  {
    hide PlanOk, InputsOk, Reached, Recycled, KeySet, OwnedBy;
    var n :| Holds(s0, n, x.svc, x.addressType, pm, k);
    var e :| e in x.existing && e.name == n;
    if OwnedBy(e, x.svc) {
      HomeHolds(x, plan, r, victims, s0, at, s, e, pm, k);
    } else if at.deleted == 0 {
      ForeignStays(x, plan, r, victims, s0, at, s, e);
      assert Holds(s, n, x.svc, x.addressType, pm, k);
    } else {
      ReachedBounds(s0, r.creates, r, at, s);
      RecycledSize(x.svc, Changes(plan.creates, plan.updates, plan.deletes), r, victims);
      AllPublished(x, plan, r, victims, s0, at, s, pm, k);
    }
  }

  lemma RecycledSize(svc: Service, c: Changes, r: Changes, victims: seq<EndpointSlice>)
    requires Recycled(svc, c, r, victims)
    ensures |r.creates| + |victims| == |c.creates|
  {
  }

  /** An endpoint of an owned slice keeps its first place, whatever happens to the other slices that list it. */
  lemma HomeHolds(x: Inputs, plan: Plan, r: Changes, victims: seq<EndpointSlice>, s0: Store, at: Stage, s: Store,
                  e: EndpointSlice, pm: PortMapKey, k: EndpointKey)
    requires Finalizing(x, plan, r, victims, s0) && !x.svc.deleting && Reached(s0, r.creates, r, at, s)
    requires e in x.existing && OwnedBy(e, x.svc) && PortKey(e) == pm && k in KeySet(e.endpoints)
    requires Asked(x.desired, pm, k)
    ensures Published(s, x.svc, x.addressType, pm, k)
  {
    hide PlanOk, InputsOk, Reached, Recycled, KeySet, OwnedBy, Reflects;
    HomeOf(x, plan, e, pm, k);
    var h, f :| h in x.existing && f in plan.forms && SameFrame(h, f) && PortKey(f) == pm
                && k in KeySet(h.endpoints) && k in KeySet(f.endpoints);
    FormAt(x, plan, r, victims, s0, at, s, f);
    FormApart(x, plan, f);
    AsListed(x, s0, h);
    assert Holds(s, f.name, x.svc, x.addressType, pm, k);
  }

  lemma HomeOf(x: Inputs, plan: Plan, e: EndpointSlice, pm: PortMapKey, k: EndpointKey)
    requires PlanOk(x, plan) && e in x.existing && OwnedBy(e, x.svc) && PortKey(e) == pm && k in KeySet(e.endpoints)
    requires Asked(x.desired, pm, k)
    ensures Home(x, plan.forms, pm, k)
  {
    hide Counted, FormsOk, CreatesDone, ListsDone, AllTidy, OwnedBy, PortKey, KeySet, Home;
    assert Wanted(x, x.desired.Keys, pm, k);
  }

  lemma AsListed(x: Inputs, s0: Store, h: EndpointSlice)
    requires Reflects(x.existing, x.svc, x.addressType, s0) && h in x.existing && InputsOk(x)
    ensures h.name in s0 && SameContent(h, s0[h.name]) && Mine(s0[h.name], x.svc, x.addressType)
  {
    hide DesiredOk, DistinctNames;
  }

  /** Before the deletes start a slice of another owner is untouched. */
  lemma ForeignStays(x: Inputs, plan: Plan, r: Changes, victims: seq<EndpointSlice>, s0: Store, at: Stage, s: Store,
                     e: EndpointSlice)
    requires Finalizing(x, plan, r, victims, s0) && Reached(s0, r.creates, r, at, s) && at.deleted == 0
    requires e in x.existing && !OwnedBy(e, x.svc)
    ensures e.name in s && e.name in s0 && s[e.name] == s0[e.name]
  {
    hide PlanOk, Reached, Recycled, OwnedBy, DesiredOk;
    PlanLists(x, plan);
    forall u | u in r.updates ensures u.name != e.name {
      UpdateFrom(x, plan, r, victims, u);
      if u in plan.updates {
        FormApart(x, plan, u);
        var h :| h in x.existing && SameFrame(h, u) && OwnedBy(h, x.svc);
        SameName(x.existing, h, e);
      } else {
        var v :| v in plan.deletes && v.name == u.name && OwnedBy(v, x.svc);
        SameName(x.existing, v, e);
      }
    }
    Unwritten(s0, r.creates, r, at, s, e.name);
  }

  // ---------- other address types ----------

  /** Slices of other address types are left alone. */
  lemma OthersUntouched(x: Inputs, plan: Plan, r: Changes, victims: seq<EndpointSlice>, s0: Store, at: Stage, s: Store)
    requires Finalizing(x, plan, r, victims, s0) && Reached(s0, Creates(x.svc, r), r, at, s)
    ensures forall n :: n in s0 && !Mine(s0[n], x.svc, x.addressType) ==> n in s && s[n] == s0[n]
    ensures forall n :: n in s && !Mine(s[n], x.svc, x.addressType) ==> n in s0 && s[n] == s0[n]
  {
    hide PlanOk, InputsOk, Recycled, Reached, OwnedBy;
    ReachedBounds(s0, Creates(x.svc, r), r, at, s);
    forall n | n in s0 && !Mine(s0[n], x.svc, x.addressType) ensures n in s && s[n] == s0[n] {
      OtherName(x, plan, r, victims, s0, at, n);
      Unwritten(s0, Creates(x.svc, r), r, at, s, n);
    }
    forall n | n in s && !Mine(s[n], x.svc, x.addressType) ensures n in s0 && s[n] == s0[n] {
      OwnTypes(x, plan, r, victims, s0, at, s, n);
    }
  }

  lemma OtherName(x: Inputs, plan: Plan, r: Changes, victims: seq<EndpointSlice>, s0: Store, at: Stage, n: Text)
    requires Finalizing(x, plan, r, victims, s0) && n in s0 && !Mine(s0[n], x.svc, x.addressType)
    requires at.deleted <= |r.deletes|
    ensures n !in Names(r.updates) && n !in Names(r.deletes[..at.deleted])
  {
    hide PlanOk, Recycled, OwnedBy, DesiredOk, DistinctNames;
    PlanLists(x, plan);
    DeletedSubset(x, plan, r, victims, at);
    forall e | e in x.existing ensures e.name != n {
      AsListed(x, s0, e);
    }
    forall u | u in r.updates ensures u.name in Names(x.existing) {
      UpdateFrom(x, plan, r, victims, u);
      if u in plan.updates {
        FormApart(x, plan, u);
      }
    }
  }

  /** Whatever finalize writes is of its own address type. */
  lemma OwnTypes(x: Inputs, plan: Plan, r: Changes, victims: seq<EndpointSlice>, s0: Store, at: Stage, s: Store,
                 n: Text)
    requires Finalizing(x, plan, r, victims, s0) && Reached(s0, Creates(x.svc, r), r, at, s)
    requires n in s && !Mine(s[n], x.svc, x.addressType)
    ensures n in s0 && s[n] == s0[n]
  {
    hide PlanOk, InputsOk, OwnedBy, Reflects, DistinctNames, Shelved, Recycled;
    if i :| 0 <= i < |at.created| && at.created[i] == n {
      CreateType(x, plan, r, victims, i);
    }
    if i :| 0 <= i < at.updated && r.updates[i].name == n {
      UpdateType(x, plan, r, victims, i);
    }
  }

  lemma CreateType(x: Inputs, plan: Plan, r: Changes, victims: seq<EndpointSlice>, i: nat)
    requires InputsOk(x) && PlanOk(x, plan) && i < |r.creates|
    requires Recycled(x.svc, Changes(plan.creates, plan.updates, plan.deletes), r, victims)
    ensures Mine(r.creates[i], x.svc, x.addressType)
  {
    hide PlanOk, InputsOk, OwnedBy, DistinctNames;
    assert r.creates[i] == plan.creates[i];
    FinalType(x, plan, |plan.forms| + i);
  }

  lemma UpdateType(x: Inputs, plan: Plan, r: Changes, victims: seq<EndpointSlice>, i: nat)
    requires InputsOk(x) && PlanOk(x, plan) && i < |r.updates|
    requires Recycled(x.svc, Changes(plan.creates, plan.updates, plan.deletes), r, victims)
    ensures Mine(r.updates[i], x.svc, x.addressType)
  {
    hide PlanOk, InputsOk, OwnedBy, Recycled;
    UpdateAt(x.svc, plan, r, victims, i);
    if i < |plan.updates| {
      PlanLists(x, plan);
      assert plan.updates[i] in plan.updates;
      FormApart(x, plan, plan.updates[i]);
    } else {
      FinalType(x, plan, |plan.forms| + |plan.creates| - 1 - (i - |plan.updates|));
    }
  }

  // ---------- the second run ----------

  /** The service's slices of the address type, listed once each. */
  ghost predicate ListsAll(existing: seq<EndpointSlice>, svc: Service, a: AddressType, s: Store) {
    && DistinctNames(existing) && Shelved(s)
    && (forall e :: e in existing ==> e.name in s && s[e.name] == e && Mine(e, svc, a))
    && (forall n :: n in s && Mine(s[n], svc, a) ==> s[n] in existing)
  }

  /** When something is desired, planning again for the slices a successful run leaves gives nothing to do. */
  lemma SecondRunIsIdle(x: Inputs, plan: Plan, r: Changes, victims: seq<EndpointSlice>, s0: Store, at: Stage, s: Store,
                        again: Inputs, plan2: Plan, pm: PortMapKey, k: EndpointKey)
    requires Settled(x, plan, r, victims, s0, at, s) && at.deleted == |r.deletes| && ListedExactly(x.existing, s0)
    requires Asked(x.desired, pm, k)
    requires again == x.(existing := again.existing) && ListsAll(again.existing, x.svc, x.addressType, s)
    requires PlanOk(again, plan2)
    ensures plan2.creates == [] && plan2.updates == [] && plan2.deletes == []
  {
    hide InputsOk, Reached, Recycled, Reflects, KeySet, OwnedBy, Settled, CreatesDone, Counted, ListsDone, FormsOk,
         Homes, NoRepeats, ShownRight, GoodSlice, Tidy, ByPort, Mine, PortKey, ListedExactly;
    PublishesExactly(x, plan, r, victims, s0, at, s);
    var n :| Holds(s, n, x.svc, x.addressType, pm, k);
    assert s[n] in again.existing;
    forall e | e in again.existing ensures OwnedBy(e, x.svc) && PortKey(e) in x.desired
                                           && GoodSlice(e, x.svc, x.desired[PortKey(e)]) {
      LeftInOrder(x, plan, r, victims, s0, at, s, e.name, pm, k);
    }
    forall q | q in x.desired ensures Tidy(again.svc, ByPort(again.existing, again.svc, q), again.desired[q]) {
      LeftTidy(x, s, again.existing, q);
    }
    assert AllTidy(again);
  }

  /** What a successful run leaves is the service's own, of a desired port map, and in good shape. */
  lemma LeftInOrder(x: Inputs, plan: Plan, r: Changes, victims: seq<EndpointSlice>, s0: Store, at: Stage, s: Store,
                    n: Text, pm: PortMapKey, k: EndpointKey)
    requires Settled(x, plan, r, victims, s0, at, s) && at.deleted == |r.deletes| && ListedExactly(x.existing, s0)
    requires n in s && Mine(s[n], x.svc, x.addressType) && Asked(x.desired, pm, k)
    ensures OwnedBy(s[n], x.svc) && PortKey(s[n]) in x.desired && GoodSlice(s[n], x.svc, x.desired[PortKey(s[n])])
  {
    hide PlanOk, InputsOk, Reached, Recycled, Reflects, Spot, Final, GoodSlice, PortKey, OwnedBy;
    var i := SpotOf(x, plan, r, victims, s0, at, s, n);
    SpotAt(x, plan, r, victims, s0, at, s, i);
    FinalGood(x, plan, i, pm, k);
    SameGood(s[n], Final(plan)[i], x.svc, x.desired);
  }

  lemma SameGood(t: EndpointSlice, s: EndpointSlice, svc: Service, desired: Desired)
    requires Stored(t, s) && OwnedBy(s, svc) && PortKey(s) in desired && GoodSlice(s, svc, desired[PortKey(s)])
    ensures OwnedBy(t, svc) && PortKey(t) in desired && GoodSlice(t, svc, desired[PortKey(t)])
  {
  }

  lemma FinalGood(x: Inputs, plan: Plan, i: nat, pm: PortMapKey, k: EndpointKey)
    requires PlanOk(x, plan) && i < |Final(plan)| && Asked(x.desired, pm, k)
    ensures var f := Final(plan)[i];
            OwnedBy(f, x.svc) && PortKey(f) in x.desired && GoodSlice(f, x.svc, x.desired[PortKey(f)])
  {
    hide Counted, Homes, AllTidy, GoodSlice, ListsDone, OwnedBy, PortKey, Placeholder, CopiesAt;
    FinalCounts(x, plan, pm, k);
    if i < |plan.forms| {
      assert FormOk(x, x.desired.Keys, plan, plan.forms[i]);
    } else {
      NotPlaceholder(x, plan, pm, k);
      assert CreateOk(x, x.desired.Keys, plan.creates[i - |plan.forms|]);
    }
  }

  lemma NotPlaceholder(x: Inputs, plan: Plan, pm: PortMapKey, k: EndpointKey)
    requires CopiesAt(Final(plan), pm, k) > 0
    ensures !(plan.forms == [] && plan.creates == [Placeholder(x)])
  {
    var i := AtFound(Final(plan), pm, k);
    assert Placeholder(x).endpoints == [];
  }

  lemma LeftTidy(x: Inputs, s: Store, existing: seq<EndpointSlice>, q: PortMapKey)
    requires PublishedExactly(s, x.svc, x.addressType, x.desired) && q in x.desired
    requires ListsAll(existing, x.svc, x.addressType, s)
    requires forall e :: e in existing ==> OwnedBy(e, x.svc) && PortKey(e) in x.desired
                                           && GoodSlice(e, x.svc, x.desired[PortKey(e)])
    ensures Tidy(x.svc, ByPort(existing, x.svc, q), x.desired[q])
  {
    hide OwnedBy, GoodSlice, PortKey, KeySet, NoRepeats, ByPort, Seen;
    var own := ByPort(existing, x.svc, q);
    OwnAre(existing, x.svc, q);
    forall i | 0 <= i < |own| ensures GoodSlice(own[i], x.svc, x.desired[q]) && NoRepeats(own[i].endpoints) {
      assert own[i] in own && own[i] in existing;
      assert s[own[i].name] == own[i];
    }
    forall i, j | 0 <= i < j < |own| ensures KeySet(own[i].endpoints) !! KeySet(own[j].endpoints) {
      assert own[i] in own && own[j] in own;
      forall k | k in KeySet(own[i].endpoints) ensures k !in KeySet(own[j].endpoints) {
        assert Holds(s, own[i].name, x.svc, x.addressType, q, k);
        assert own[i].name != own[j].name;
        assert !Holds(s, own[j].name, x.svc, x.addressType, q, k);
      }
    }
    forall k | k in x.desired[q] ensures k in Seen(own) {
      assert Asked(x.desired, q, k);
      var n :| Holds(s, n, x.svc, x.addressType, q, k);
      SeenIn(own, s[n], k);
    }
  }

  lemma OwnAre(existing: seq<EndpointSlice>, svc: Service, q: PortMapKey)
    requires DistinctNames(existing)
    ensures DistinctNames(ByPort(existing, svc, q))
    ensures forall s :: s in ByPort(existing, svc, q) <==> s in existing && OwnedBy(s, svc) && PortKey(s) == q
  {
    hide OwnedBy, PortKey;
    WhereIs(existing, svc, true, q);
  }

  lemma SeenIn(slices: seq<EndpointSlice>, s: EndpointSlice, k: EndpointKey)
    requires s in slices && k in KeySet(s.endpoints)
    ensures k in Seen(slices)
  {
  }
}
