/** The API server as the controller sees it, and what a run of writes does to it and to the tracker. */
module Writes {
  import opened Wrappers
  import opened Discovery
  import opened Recycling
  import opened Trackers

  /** The slices of one namespace by name. */
  type Store = map<Text, EndpointSlice>

  datatype ApiError = NamespaceTerminating | OtherError

  /** t is s as the server keeps it: name, uid and generation are the server's. */
  predicate Stored(t: EndpointSlice, s: EndpointSlice) {
    t == s.(name := t.name, uid := t.uid, generation := t.generation)
  }

  /** An update keeps the uid, and the generation too unless ports or endpoints change. */
  function Revised(before: EndpointSlice, s: EndpointSlice): EndpointSlice {
    s.(uid := before.uid,
       generation := if before.ports == s.ports && before.endpoints == s.endpoints then before.generation
                     else before.generation + 1)
  }

  /** What the server keeps and what the tracker knows, with every uid ever given out. */
  datatype Moment = Moment(store: Store, tracked: Tracked, uids: set<Text>)

  ghost predicate Sound(m: Moment) {
    forall n :: n in m.store ==> m.store[n].name == n && m.store[n].uid in m.uids && n != EMPTY
  }

  datatype Call = Create(slice: EndpointSlice) | Update(slice: EndpointSlice) | Delete(slice: EndpointSlice)

  ghost predicate NewAt(m: Moment, s: EndpointSlice, t: EndpointSlice) {
    Stored(t, s) && t.name !in m.store && t.name != EMPTY && t.uid !in m.uids && t.generation == 1
  }

  // ---------- delete handlers in between ----------

  /** The delete handler's effect on the tracker. */
  function AfterHandler(t: Tracked, s: EndpointSlice): Tracked {
    if ManagedByController(s) && Knows(t, s) then AfterHandleDeletion(t, s) else t
  }

  function AfterHandlers(t: Tracked, handled: seq<EndpointSlice>): Tracked {
    if handled == [] then t
    else AfterHandler(AfterHandlers(t, handled[..|handled| - 1]), handled[|handled| - 1])
  }

  /** No slice of the server has this uid, so its delete handler may run. */
  predicate NoLonger(store: Store, s: EndpointSlice) {
    forall n :: n in store ==> store[n].uid != s.uid
  }

  /** Nothing but delete handlers ran, in this order. */
  predicate HandledBy(m: Moment, handled: seq<EndpointSlice>, m': Moment) {
    (forall s :: s in handled ==> NoLonger(m.store, s)) && m' == m.(tracked := AfterHandlers(m.tracked, handled))
  }

  ghost predicate Handled(m: Moment, m': Moment) {
    exists handled :: HandledBy(m, handled, m')
  }

  lemma HandledNone(m: Moment)
    ensures HandledBy(m, [], m) && Handled(m, m)
  {
    hide NoLonger, AfterHandler;
    var none: seq<EndpointSlice> := [];
    assert AfterHandlers(m.tracked, none) == m.tracked;
    assert HandledBy(m, none, m);
  }

  lemma HandledOneMore(m: Moment, handled: seq<EndpointSlice>, m': Moment, s: EndpointSlice)
    requires HandledBy(m, handled, m') && NoLonger(m.store, s)
    ensures HandledBy(m, handled + [s], m'.(tracked := AfterHandler(m'.tracked, s)))
  {
    hide AfterHandler, NoLonger;
    assert (handled + [s])[..|handled|] == handled;
  }

  lemma {:induction false} HandlersJoin(t: Tracked, a: seq<EndpointSlice>, b: seq<EndpointSlice>)
    ensures AfterHandlers(t, a + b) == AfterHandlers(AfterHandlers(t, a), b)
  {
    hide AfterHandler;
    if b == [] {
      assert a + b == a;
    } else {
      HandlersJoin(t, a, b[..|b| - 1]);
      assert (a + b)[..|a + b| - 1] == a + b[..|b| - 1];
    }
  }

  lemma HandledTwice(m: Moment, m1: Moment, m2: Moment)
    requires Handled(m, m1) && Handled(m1, m2)
    ensures Handled(m, m2)
  {
    hide AfterHandlers, NoLonger;
    var a :| HandledBy(m, a, m1);
    var b :| HandledBy(m1, b, m2);
    HandlersJoin(m.tracked, a, b);
    assert HandledBy(m, a + b, m2);
  }

  lemma HandledKeeps(m: Moment, m': Moment)
    requires Handled(m, m')
    ensures m'.store == m.store && m'.uids == m.uids
  {
  }

  // ---------- calls ----------

  /** One call with its record in the tracker, after any number of delete handlers. */
  ghost predicate Wrote(m: Moment, call: Call, m': Moment) {
    exists m1 :: Handled(m, m1) && Called(m1, call, m')
  }

  /** One successful call together with its record in the tracker. */
  ghost predicate Called(m: Moment, call: Call, m': Moment) {
    match call
    case Create(s) =>
      exists t :: NewAt(m, s, t)
                  && m' == Moment(m.store[t.name := t], AfterUpdate(m.tracked, t), m.uids + {t.uid})
    case Update(s) =>
      && s.name in m.store && m.store[s.name].addressType == s.addressType
      && var t := Revised(m.store[s.name], s);
         m' == m.(store := m.store[s.name := t], tracked := AfterUpdate(m.tracked, t))
    case Delete(s) =>
      && s.name in m.store
      && m' == m.(store := m.store - {s.name}, tracked := AfterExpectDeletion(m.tracked, s))
  }

  /** A write of the controller for the service at hand, to the very slice it has seen. */
  ghost predicate OwnCall(svc: Service, m: Moment, call: Call) {
    && Labelled(call.slice, svc)
    && (!call.Create? ==> call.slice.name in m.store && Labelled(m.store[call.slice.name], svc))
    && (call.Delete? ==> m.store[call.slice.name].uid == call.slice.uid)
  }

  ghost predicate OwnWrite(svc: Service, m: Moment, m': Moment) {
    exists call :: OwnCall(svc, m, call) && Wrote(m, call, m')
  }

  ghost predicate OwnWrites(svc: Service, run: seq<Moment>) {
    forall i :: 0 <= i < |run| - 1 ==> OwnWrite(svc, run[i], run[i + 1])
  }

  /** The states a sequence of calls goes through, as far as it got. */
  ghost predicate Run(run: seq<Moment>, calls: seq<Call>) {
    && 1 <= |run| <= |calls| + 1
    && forall i :: 0 <= i < |run| - 1 ==> Wrote(run[i], calls[i], run[i + 1])
  }

  lemma RunOne(run: seq<Moment>, calls: seq<Call>, m: Moment)
    requires Run(run, calls) && |run| <= |calls| && Wrote(run[|run| - 1], calls[|run| - 1], m)
    ensures Run(run + [m], calls)
  {
    hide Wrote;
    var more := run + [m];
    forall i | 0 <= i < |more| - 1 ensures Wrote(more[i], calls[i], more[i + 1]) {
      assert more[i] == run[i];
    }
  }

  /** finalize's calls in their order: all creates, then all updates, then all deletes; no creates for a service
      that is being deleted. */
  function Calls(svc: Service, r: Changes): seq<Call> {
    Creating(Creates(svc, r)) + Updating(r.updates) + Deleting(r.deletes)
  }

  function Creates(svc: Service, r: Changes): seq<EndpointSlice> {
    if svc.deleting then [] else r.creates
  }

  function Creating(slices: seq<EndpointSlice>): seq<Call> {
    seq(|slices|, i requires 0 <= i < |slices| => Create(slices[i]))
  }

  function Updating(slices: seq<EndpointSlice>): seq<Call> {
    seq(|slices|, i requires 0 <= i < |slices| => Update(slices[i]))
  }

  function Deleting(slices: seq<EndpointSlice>): seq<Call> {
    seq(|slices|, i requires 0 <= i < |slices| => Delete(slices[i]))
  }

  lemma CallAt(svc: Service, r: Changes, i: nat)
    requires i < |Calls(svc, r)|
    ensures |Calls(svc, r)| == |Creates(svc, r)| + |r.updates| + |r.deletes|
    ensures var a, b := |Creates(svc, r)|, |r.updates|;
            Calls(svc, r)[i] == if i < a then Create(Creates(svc, r)[i])
                                else if i < a + b then Update(r.updates[i - a])
                                else Delete(r.deletes[i - a - b])
  {
  }

  lemma LengthBound(used: set<Text>) returns (n: nat)
    ensures forall t :: t in used ==> |t.chars| <= n
    decreases |used|
  {
    if used == {} {
      n := 0;
    } else {
      var t :| t in used;
      n := LengthBound(used - {t});
      n := if n < |t.chars| then |t.chars| else n;
    }
  }

  /** There is always another name. */
  lemma Another(used: set<Text>)
    ensures exists t: Text :: t !in used
  {
    var n := LengthBound(used);
    assert Text(seq(n + 1, _ => 'x')) !in used;
  }

  /** Any call may be refused, and a refused call changes nothing but the record of refused calls. */
  class ApiServer {
    var store: Store
    var uids: set<Text>
    /** The calls refused so far, in their order. */
    var refused: seq<Call>
    /** Whether the namespace is being deleted, which starts at any time and never ends. */
    var terminating: bool

    constructor (store: Store, uids: set<Text>, terminating: bool)
      ensures this.store == store && this.uids == uids && this.terminating == terminating
    {
      this.store := store;
      this.uids := uids;
      this.terminating := terminating;
      refused := [];
    }

    /** Stores s under a new name and uid, unless the namespace is being deleted. */
    method CreateSlice(s: EndpointSlice) returns (r: Result<EndpointSlice, ApiError>)
      modifies this
      ensures old(terminating) ==> terminating
      ensures terminating ==> r.Err?
      ensures r.Err? && r.error.NamespaceTerminating? ==> terminating
      ensures r.Err? ==> store == old(store) && uids == old(uids)
      ensures refused == old(refused) + if r.Err? then [Create(s)] else []
      ensures r.Ok? ==> NewAt(Moment(old(store), map[], old(uids)), s, r.value)
      ensures r.Ok? ==> store == old(store)[r.value.name := r.value] && uids == old(uids) + {r.value.uid}
    {
      if * {
        terminating := true;
      }
      if {
        case !terminating =>
          Another(store.Keys + {EMPTY});
          Another(uids);
          var name: Text :| name !in store.Keys + {EMPTY};
          var uid: Text :| uid !in uids;
          var t := s.(name := name, uid := uid, generation := 1);
          store := store[name := t];
          uids := uids + {uid};
          r := Ok(t);
        case terminating => r := Err(NamespaceTerminating);
        case true => r := Err(OtherError);
      }
      refused := refused + if r.Err? then [Create(s)] else [];
    }

    method UpdateSlice(s: EndpointSlice) returns (r: Result<EndpointSlice, ApiError>)
      modifies this`store, this`refused
      ensures r.Err? ==> store == old(store)
      ensures refused == old(refused) + if r.Err? then [Update(s)] else []
      ensures r.Ok? ==> s.name in old(store) && old(store)[s.name].addressType == s.addressType
      ensures r.Ok? ==> r.value == Revised(old(store)[s.name], s) && store == old(store)[s.name := r.value]
    {
      if s.name !in store || store[s.name].addressType != s.addressType {
        refused := refused + [Update(s)];
        return Err(OtherError);
      }
      if {
        case true =>
          var t := Revised(store[s.name], s);
          store := store[s.name := t];
          r := Ok(t);
        case true =>
          refused := refused + [Update(s)];
          r := Err(OtherError);
      }
    }

    method DeleteSlice(s: EndpointSlice) returns (err: Option<ApiError>)
      modifies this`store, this`refused
      ensures err.Some? ==> store == old(store)
      ensures refused == old(refused) + if err.Some? then [Delete(s)] else []
      ensures err.None? ==> s.name in old(store) && store == old(store) - {s.name}
    {
      if s.name !in store {
        refused := refused + [Delete(s)];
        return Some(OtherError);
      }
      if {
        case true =>
          store := store - {s.name};
          err := None;
        case true =>
          refused := refused + [Delete(s)];
          err := Some(OtherError);
      }
    }
  }
}
