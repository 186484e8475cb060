/** What the runs of one address type's writes, and of a whole reconcile (pkg/service-controller/reconciler.go),
    do to what the service publishes. */
module Traces {
  import opened Wrappers
  import opened Discovery
  import opened Packing
  import opened PackingTheorems
  import opened Planning
  import opened AddressTypePlans
  import opened Recycling
  import opened Writes
  import opened Publishing
  import opened PublishingTheorems

  datatype SyncError = NodeNotFound | StaleInformerCache | ApiFailed(error: ApiError)

  /** What one call of reconcileByAddressType planned, and the states its writes went through. */
  datatype Trace = Trace(plan: Plan, changes: Changes, victims: seq<EndpointSlice>, run: seq<Moment>, dropped: bool)

  predicate Complete(svc: Service, t: Trace) {
    |t.run| == |Calls(svc, t.changes)| + 1
  }

  /** The trace of a finalize call on these lists: the states after its writes, with delete handlers at any time between
      them and after the last. */
  ghost predicate Finalized(svc: Service, c: Changes, t: Trace, before: Moment, after: Moment, err: Option<ApiError>) {
    && Recycled(svc, c, t.changes, t.victims) && Exhausted(svc, c, t.changes)
    && Run(t.run, Calls(svc, t.changes)) && t.run[0] == before && Handled(t.run[|t.run| - 1], after)
    && (t.dropped ==> err.None? && |t.run| <= |Creates(svc, t.changes)|)
    && (Complete(svc, t) <==> err.None? && !t.dropped)
  }

  /** The run so far, with the next call still to come. */
  ghost predicate Ongoing(run: seq<Moment>, calls: seq<Call>, before: Moment, now: Moment, done: nat) {
    Run(run, calls) && run[0] == before && Handled(run[|run| - 1], now) && |run| == done + 1
  }

  lemma OneMore(run: seq<Moment>, calls: seq<Call>, before: Moment, now: Moment, done: nat, next: Moment)
    requires Ongoing(run, calls, before, now, done) && done < |calls| && Called(now, calls[done], next)
    ensures Ongoing(run + [next], calls, before, next, done + 1)
  {
    hide Called, Handled;
    assert Wrote(run[|run| - 1], calls[done], next);
    HandledNone(next);
    RunOne(run, calls, next);
  }

  lemma Waited(run: seq<Moment>, calls: seq<Call>, before: Moment, now: Moment, done: nat, later: Moment)
    requires Ongoing(run, calls, before, now, done) && Handled(now, later)
    ensures Ongoing(run, calls, before, later, done)
  {
    hide Run, Handled;
    OngoingSize(run, calls, before, now, done);
    HandledTwice(run[|run| - 1], now, later);
  }

  lemma OngoingSize(run: seq<Moment>, calls: seq<Call>, before: Moment, now: Moment, done: nat)
    requires Ongoing(run, calls, before, now, done)
    ensures |run| == done + 1
  {
  }

  /** Nothing written: a pod's node is unknown. */
  predicate GaveUp(t: Trace, before: Moment, after: Moment, err: Option<SyncError>) {
    err == Some(NodeNotFound) && after == before && t.run == [before] && !t.dropped
  }

  /** A plan for these inputs, written as far as the API server let it. */
  ghost predicate Performed(x: Inputs, t: Trace, before: Moment, after: Moment, err: Option<SyncError>) {
    && PlanOk(x, t.plan)
    && (err.Some? ==> err.value.ApiFailed?)
    && Finalized(x.svc, Changes(t.plan.creates, t.plan.updates, t.plan.deletes), t, before, after,
                 if err.Some? && err.value.ApiFailed? then Some(err.value.error) else None)
  }

  lemma TracePlan(svc: Service, c: Changes, t: Trace, before: Moment, after: Moment, err: Option<ApiError>)
    requires exists p :: Finalized(svc, c, t.(plan := p), before, after, err)
    ensures Finalized(svc, c, t, before, after, err)
  {
    hide Recycled, Exhausted, Run, Calls, Creates;
  }

  lemma DropIsNoError(x: Inputs, t: Trace, before: Moment, after: Moment, err: Option<SyncError>)
    requires GaveUp(t, before, after, err) || Performed(x, t, before, after, err)
    ensures t.dropped ==> err.None?
    ensures Performed(x, t, before, after, err) && err.Some? ==> err.value.ApiFailed?
  {
    hide PlanOk, Recycled, Exhausted, Run, Calls, Creates, Handled;
  }

  lemma StartRun(run: seq<Moment>, calls: seq<Call>, before: Moment)
    requires run == [before]
    ensures Ongoing(run, calls, before, before, 0)
  {
    HandledNone(before);
  }

  lemma CallCount(svc: Service, r: Changes)
    ensures |Calls(svc, r)| == |Creates(svc, r)| + |r.updates| + |r.deletes|
  {
  }

  lemma CreateCount(svc: Service, r: Changes)
    ensures Creates(svc, r) == if svc.deleting then [] else r.creates
  {
  }

  /** What a finalize call leaves when it has made this many calls. */
  lemma Stopped(svc: Service, c: Changes, t: Trace, before: Moment, now: Moment, err: Option<ApiError>, done: nat)
    requires Recycled(svc, c, t.changes, t.victims) && Exhausted(svc, c, t.changes)
    requires Ongoing(t.run, Calls(svc, t.changes), before, now, done)
    requires t.dropped ==> err.None? && done < |Creates(svc, t.changes)|
    requires err.None? && !t.dropped <==> done == |Calls(svc, t.changes)|
    ensures Finalized(svc, c, t, before, now, err) && |t.run| == done + 1
  {
    hide Recycled, Exhausted, Calls, Creates, Run, Handled;
  }

  lemma NewAtNow(m: Moment, s: EndpointSlice, t: EndpointSlice)
    requires NewAt(Moment(m.store, map[], m.uids), s, t)
    ensures NewAt(m, s, t)
  {
  }

  // ---------- one address type ----------

  /** The service's slices of address type a are the same in both stores. */
  ghost predicate SameMine(s: Store, s': Store, svc: Service, a: AddressType) {
    && (forall n :: n in s && Mine(s[n], svc, a) ==> n in s' && s'[n] == s[n])
    && (forall n :: n in s' && Mine(s'[n], svc, a) ==> n in s && s'[n] == s[n])
  }

  lemma SameMinePublishes(s: Store, s': Store, svc: Service, a: AddressType, desired: Desired)
    requires SameMine(s, s', svc, a)
    ensures forall pm, k :: Published(s, svc, a, pm, k) <==> Published(s', svc, a, pm, k)
    ensures PublishedExactly(s, svc, a, desired) ==> PublishedExactly(s', svc, a, desired)
  {
    hide Mine, KeySet, PortKey, NoRepeats;
    forall n, pm, k ensures Holds(s, n, svc, a, pm, k) == Holds(s', n, svc, a, pm, k) {
    }
    forall pm, k ensures Published(s, svc, a, pm, k) <==> Published(s', svc, a, pm, k) {
      if n :| Holds(s, n, svc, a, pm, k) {
        assert Holds(s', n, svc, a, pm, k);
      }
      if n :| Holds(s', n, svc, a, pm, k) {
        assert Holds(s, n, svc, a, pm, k);
      }
    }
  }

  /** A run for inputs that reflect the store it starts from. */
  ghost predicate WellStarted(x: Inputs, t: Trace, before: Moment, after: Moment, err: Option<SyncError>) {
    && InputsOk(x) && Performed(x, t, before, after, err)
    && Reflects(x.existing, x.svc, x.addressType, before.store)
  }

  lemma Starts(x: Inputs, t: Trace, before: Moment, after: Moment, err: Option<SyncError>)
    requires WellStarted(x, t, before, after, err)
    ensures Finalizing(x, t.plan, t.changes, t.victims, before.store) && Legal(before.store, t.changes)
    ensures Run(t.run, Calls(x.svc, t.changes)) && |t.run| >= 1 && t.run[0] == before
    ensures Handled(t.run[|t.run| - 1], after) && t.run[|t.run| - 1].store == after.store
  {
    hide InputsOk, PlanOk, Recycled, Reflects, Run, Calls, Exhausted, Legal, Handled;
    RunSize(t.run, Calls(x.svc, t.changes));
    HandledKeeps(t.run[|t.run| - 1], after);
    FinalizingIsLegal(x, t.plan, t.changes, t.victims, before.store);
  }

  /** After every call, whatever was published and stays desired is published. */
  lemma KeptOnTheWay(x: Inputs, t: Trace, before: Moment, after: Moment, err: Option<SyncError>, i: nat,
                     pm: PortMapKey, k: EndpointKey)
    requires WellStarted(x, t, before, after, err) && !x.svc.deleting && i < |t.run|
    requires Published(before.store, x.svc, x.addressType, pm, k) && Asked(x.desired, pm, k)
    ensures Published(t.run[i].store, x.svc, x.addressType, pm, k)
  {
    hide WellStarted, Finalizing, Legal, Run, Calls, Reached, Published, Asked;
    Starts(x, t, before, after, err);
    ShelvedStart(x, t, before);
    var at := StageOf(x.svc, t.changes, t.run, i);
    MakeBeforeBreak(x, t.plan, t.changes, t.victims, before.store, at, t.run[i].store, pm, k);
  }

  lemma RunSize(run: seq<Moment>, calls: seq<Call>)
    requires Run(run, calls)
    ensures |run| >= 1
  {
  }

  lemma ShelvedStart(x: Inputs, t: Trace, before: Moment)
    requires Finalizing(x, t.plan, t.changes, t.victims, before.store)
    ensures Shelved(before.store)
  {
    hide InputsOk, PlanOk, Recycled;
  }

  /** After every call, the slices of other services and address types are as they were. */
  lemma OthersOnTheWay(x: Inputs, t: Trace, before: Moment, after: Moment, err: Option<SyncError>, i: nat)
    requires WellStarted(x, t, before, after, err) && i < |t.run|
    ensures Shelved(t.run[i].store)
    ensures forall n :: n in before.store && !Mine(before.store[n], x.svc, x.addressType) ==>
              n in t.run[i].store && t.run[i].store[n] == before.store[n]
    ensures forall n :: n in t.run[i].store && !Mine(t.run[i].store[n], x.svc, x.addressType) ==>
              n in before.store && t.run[i].store[n] == before.store[n]
  {
    hide WellStarted, Finalizing, Legal, Run, Calls, Mine;
    Starts(x, t, before, after, err);
    ShelvedStart(x, t, before);
    var at := StageOf(x.svc, t.changes, t.run, i);
    OthersUntouched(x, t.plan, t.changes, t.victims, before.store, at, t.run[i].store);
  }

  /** When all calls went through, the service publishes exactly what is desired. */
  lemma ExactWhenComplete(x: Inputs, t: Trace, before: Moment, after: Moment, err: Option<SyncError>)
    requires WellStarted(x, t, before, after, err) && !x.svc.deleting && err.None? && !t.dropped
    ensures PublishedExactly(after.store, x.svc, x.addressType, x.desired)
  {
    hide PlanOk, InputsOk, Recycled, Reflects, Run, Calls, Exhausted, Legal, PublishedExactly;
    Starts(x, t, before, after, err);
    ShelvedStart(x, t, before);
    var at := StageOf(x.svc, t.changes, t.run, |t.run| - 1);
    ReachedBounds(before.store, Creates(x.svc, t.changes), t.changes, at, after.store);
    CallCount(x.svc, t.changes);
    RecycledSize(x.svc, Changes(t.plan.creates, t.plan.updates, t.plan.deletes), t.changes, t.victims);
    PublishesExactly(x, t.plan, t.changes, t.victims, before.store, at, after.store);
  }

  // ---------- dropped creates ----------

  /** No slice of another owner among the listed ones publishes anything desired. */
  ghost predicate NoForeignCopy(x: Inputs) {
    forall s, k | s in x.existing && !OwnedBy(s, x.svc) && k in KeySet(s.endpoints) :: !Asked(x.desired, PortKey(s), k)
  }

  /** Unless something desired is to be had from a slice of another owner, a run that ends without an error publishes
      exactly what is desired if and only if no create was dropped. */
  lemma ExactUnlessDropped(x: Inputs, t: Trace, before: Moment, after: Moment, err: Option<SyncError>,
                           pm: PortMapKey, k: EndpointKey)
    requires WellStarted(x, t, before, after, err) && !x.svc.deleting && err.None?
    requires NoForeignCopy(x) && Asked(x.desired, pm, k)
    ensures PublishedExactly(after.store, x.svc, x.addressType, x.desired) <==> !t.dropped
  {
    hide WellStarted, PublishedExactly, NoForeignCopy, Reached, Finalizing, Run, Calls, Legal, Creates, Handled;
    if t.dropped {
      Starts(x, t, before, after, err);
      ShelvedStart(x, t, before);
      var at := StageOf(x.svc, t.changes, t.run, |t.run| - 1);
      DropLeaves(x, t, before, after, err, at);
    } else {
      ExactWhenComplete(x, t, before, after, err);
    }
  }

  lemma DropLeaves(x: Inputs, t: Trace, before: Moment, after: Moment, err: Option<SyncError>, at: Stage)
    requires WellStarted(x, t, before, after, err) && !x.svc.deleting && t.dropped
    requires Finalizing(x, t.plan, t.changes, t.victims, before.store)
    requires Reached(before.store, Creates(x.svc, t.changes), t.changes, at, after.store)
    requires |at.created| + at.updated + at.deleted == |t.run| - 1
    requires NoForeignCopy(x)
    requires exists pm, k :: Asked(x.desired, pm, k)
    ensures !PublishedExactly(after.store, x.svc, x.addressType, x.desired)
  {
    hide PlanOk, InputsOk, Recycled, Reflects, Run, Calls, Exhausted, Legal, Reached, NoForeignCopy, PublishedExactly,
         Asked, NoRepeats, Handled;
    ReachedBounds(before.store, t.changes.creates, t.changes, at, after.store);
    var i := |at.created|;
    assert i < |t.changes.creates| && at.updated == 0 && at.deleted == 0;
    var pm, k := MissingKey(x, t, i);
    FinalCounts(x, t.plan, pm, k);
    AtBound(Final(t.plan), |t.plan.forms| + i, pm, k);
    forall n ensures !Holds(after.store, n, x.svc, x.addressType, pm, k) {
      NotThere(x, t, before, after.store, at, n, pm, k);
    }
    NotExact(after.store, x.svc, x.addressType, x.desired, pm, k);
  }

  lemma NotExact(s: Store, svc: Service, a: AddressType, desired: Desired, pm: PortMapKey, k: EndpointKey)
    requires Asked(desired, pm, k) && forall n :: !Holds(s, n, svc, a, pm, k)
    ensures !PublishedExactly(s, svc, a, desired)
  {
    hide Holds, Asked;
    assert !Published(s, svc, a, pm, k);
  }

  /** A create that was not made holds a desired endpoint that no other final slice holds. */
  lemma MissingKey(x: Inputs, t: Trace, i: nat) returns (pm: PortMapKey, k: EndpointKey)
    requires PlanOk(x, t.plan) && i < |t.changes.creates| && (exists q, j :: Asked(x.desired, q, j))
    requires Recycled(x.svc, Changes(t.plan.creates, t.plan.updates, t.plan.deletes), t.changes, t.victims)
    ensures |t.plan.forms| + i < |Final(t.plan)| && i < |t.plan.creates|
    ensures PortKey(Final(t.plan)[|t.plan.forms| + i]) == pm
    ensures k in Keys(Final(t.plan)[|t.plan.forms| + i].endpoints)
  {
    hide OwnedBy, DistinctNames, Counted, FormsOk, ListsDone, Homes, AllTidy, Placeholder, GoodSlice, Asked;
    var q, j :| Asked(x.desired, q, j);
    FinalCounts(x, t.plan, q, j);
    NotPlaceholder(x, t.plan, q, j);
    var c := t.plan.creates[i];
    assert CreateOk(x, x.desired.Keys, c);
    pm, k := PortKey(c), KeyOf(c.endpoints[0]);
    assert c.endpoints[0] in c.endpoints;
    KeysAre(c.endpoints);
  }

  lemma NotThere(x: Inputs, t: Trace, before: Moment, s: Store, at: Stage, n: Text, pm: PortMapKey, k: EndpointKey)
    requires Finalizing(x, t.plan, t.changes, t.victims, before.store) && NoForeignCopy(x)
    requires Reached(before.store, t.changes.creates, t.changes, at, s) && at.updated == 0 && at.deleted == 0
    requires var i := |at.created|;
             i < |t.changes.creates| && |t.plan.forms| + i < |Final(t.plan)| && i < |t.plan.creates|
             && PortKey(Final(t.plan)[|t.plan.forms| + i]) == pm
             && k in Keys(Final(t.plan)[|t.plan.forms| + i].endpoints)
    ensures !Holds(s, n, x.svc, x.addressType, pm, k)
  {
    hide PlanOk, OwnedBy, DistinctNames, Keys, KeySet, Stored, Shelved, CopiesAt, PortKey, Labelled, Reflects, InputsOk,
         NoForeignCopy, Asked;
    assert t.changes.updates[..0] == [] && t.changes.deletes[..0] == [];
    if Holds(s, n, x.svc, x.addressType, pm, k) {
      if j :| 0 <= j < |at.created| && at.created[j] == n {
        var f := t.plan.creates[j];
        assert t.changes.creates[j] == f && Final(t.plan)[|t.plan.forms| + j] == f;
        StoredKeys(s[n], f);
        FinalCounts(x, t.plan, pm, k);
        AtBound(Final(t.plan), |t.plan.forms| + |at.created|, pm, k);
      } else {
        NotListed(x, t, before, n, |t.plan.forms| + |at.created|, pm, k);
      }
    }
  }

  /** No listed slice holds an endpoint of a planned create: an owned one would have kept it. */
  lemma NotListed(x: Inputs, t: Trace, before: Moment, n: Text, i: nat, pm: PortMapKey, k: EndpointKey)
    requires Finalizing(x, t.plan, t.changes, t.victims, before.store) && NoForeignCopy(x)
    requires |t.plan.forms| <= i < |Final(t.plan)| && PortKey(Final(t.plan)[i]) == pm
    requires k in Keys(Final(t.plan)[i].endpoints)
    ensures !Holds(before.store, n, x.svc, x.addressType, pm, k)
  {
    hide PlanOk, OwnedBy, DistinctNames, Keys, KeySet, CopiesAt, PortKey, Labelled, InputsOk, Asked, Home, Recycled;
    if Holds(before.store, n, x.svc, x.addressType, pm, k) {
      var e :| e in x.existing && e.name == n;
      SamePorts(e, before.store[n]);
      FinalCounts(x, t.plan, pm, k);
      AtBound(Final(t.plan), i, pm, k);
      HomeOf(x, t.plan, e, pm, k);
      NotAtHome(x, t.plan, i, pm, k);
    }
  }

  lemma SamePorts(s: EndpointSlice, t: EndpointSlice)
    requires s.ports == t.ports
    ensures PortKey(s) == PortKey(t)
  {
  }

  /** A desired endpoint with a home among the final forms is in no other final slice. */
  lemma NotAtHome(x: Inputs, plan: Plan, i: nat, pm: PortMapKey, k: EndpointKey)
    requires PlanOk(x, plan) && |plan.forms| <= i < |Final(plan)|
    requires PortKey(Final(plan)[i]) == pm && k in Keys(Final(plan)[i].endpoints)
    ensures !Home(x, plan.forms, pm, k)
  {
    hide PlanOk, CopiesAt, PortKey, Asked, SameFrame;
    if Home(x, plan.forms, pm, k) {
      var s, f :| s in x.existing && f in plan.forms && SameFrame(s, f) && PortKey(f) == pm
                  && k in KeySet(s.endpoints) && k in KeySet(f.endpoints);
      var j :| 0 <= j < |plan.forms| && plan.forms[j] == f;
      assert Final(plan)[j] == f;
      KeysAre(f.endpoints);
      FinalCounts(x, plan, pm, k);
      AtBound(Final(plan), i, pm, k);
    }
  }

  lemma StoredKeys(t: EndpointSlice, s: EndpointSlice)
    requires Stored(t, s)
    ensures PortKey(t) == PortKey(s) && forall k :: k in KeySet(t.endpoints) <==> k in Keys(s.endpoints)
  {
    KeysAre(s.endpoints);
  }

  // ---------- every write is one of the service's own ----------

  lemma OwnOnTheWay(x: Inputs, t: Trace, before: Moment, after: Moment, err: Option<SyncError>, i: nat)
    requires WellStarted(x, t, before, after, err) && i < |t.run| - 1
    ensures OwnWrite(x.svc, t.run[i], t.run[i + 1])
  {
    hide InputsOk, PlanOk, Recycled, Reflects, Calls, Exhausted, Legal, Reached, Wrote, OwnCall, Labelled, Handled;
    Starts(x, t, before, after, err);
    ShelvedStart(x, t, before);
    var at := StageOf(x.svc, t.changes, t.run, i);
    var call := Calls(x.svc, t.changes)[i];
    assert Wrote(t.run[i], call, t.run[i + 1]);
    ReachedBounds(before.store, Creates(x.svc, t.changes), t.changes, at, t.run[i].store);
    CallAt(x.svc, t.changes, i);
    match call
    case Create(s) => OwnCreate(x, t, before, at, t.run[i], i);
    case Update(u) => OwnUpdate(x, t, before, at, t.run[i], i - |Creates(x.svc, t.changes)|);
    case Delete(d) => OwnDelete(x, t, before, at, t.run[i], i - |Creates(x.svc, t.changes)| - |t.changes.updates|);
  }

  lemma OwnCreate(x: Inputs, t: Trace, before: Moment, at: Stage, m: Moment, i: nat)
    requires Finalizing(x, t.plan, t.changes, t.victims, before.store) && i < |Creates(x.svc, t.changes)|
    ensures OwnCall(x.svc, m, Create(Creates(x.svc, t.changes)[i]))
  {
    hide PlanOk, InputsOk, Recycled, Reflects, Labelled;
    CreateType(x, t.plan, t.changes, t.victims, i);
  }

  lemma OwnUpdate(x: Inputs, t: Trace, before: Moment, at: Stage, m: Moment, i: nat)
    requires Finalizing(x, t.plan, t.changes, t.victims, before.store) && i < |t.changes.updates|
    requires Legal(before.store, t.changes) && i == at.updated && at.deleted == 0
    requires Reached(before.store, Creates(x.svc, t.changes), t.changes, at, m.store)
    ensures OwnCall(x.svc, m, Update(t.changes.updates[i]))
  {
    hide PlanOk, InputsOk, Recycled, Labelled, Shelved;
    var u := t.changes.updates[i];
    UpdateType(x, t.plan, t.changes, t.victims, i);
    UpdateName(x, t.plan, t.changes, t.victims, u);
    NamesUpTo(t.changes.updates, i);
    assert t.changes.deletes[..0] == [];
    var e :| e in x.existing && e.name == u.name;
  }

  lemma UpdateName(x: Inputs, plan: Plan, r: Changes, victims: seq<EndpointSlice>, u: EndpointSlice)
    requires InputsOk(x) && PlanOk(x, plan) && u in r.updates
    requires Recycled(x.svc, Changes(plan.creates, plan.updates, plan.deletes), r, victims)
    ensures u.name in Names(x.existing)
  {
    hide PlanOk, InputsOk, Recycled, OwnedBy;
    PlanLists(x, plan);
    UpdateFrom(x, plan, r, victims, u);
    if u in plan.updates {
      FormApart(x, plan, u);
    }
  }

  lemma OwnDelete(x: Inputs, t: Trace, before: Moment, at: Stage, m: Moment, i: nat)
    requires Finalizing(x, t.plan, t.changes, t.victims, before.store) && i < |t.changes.deletes|
    requires Legal(before.store, t.changes) && i == at.deleted
    requires Reached(before.store, Creates(x.svc, t.changes), t.changes, at, m.store)
    ensures OwnCall(x.svc, m, Delete(t.changes.deletes[i]))
  {
    hide PlanOk, Recycled, Labelled, Shelved, DesiredOk;
    var d := t.changes.deletes[i];
    assert d in t.changes.deletes;
    PlanLists(x, t.plan);
    DeletesPlanned(x.svc, t.plan, t.changes, t.victims, d);
    NamesUpTo(t.changes.deletes, i);
    Unwritten(before.store, Creates(x.svc, t.changes), t.changes, at, m.store, d.name);
  }

  lemma DeletesPlanned(svc: Service, plan: Plan, r: Changes, victims: seq<EndpointSlice>, d: EndpointSlice)
    requires Recycled(svc, Changes(plan.creates, plan.updates, plan.deletes), r, victims) && d in r.deletes
    ensures d in plan.deletes
  {
    hide OwnedBy, DistinctNames;
  }
}
