/** The protocol and the reconciler together (pkg/service-controller/endpointslice_controller.go): in every run with one
    writer, a sync that gets past StaleSlices works on the true state unless the delete handler of a listed slice came
    in between, and its writes continue the run, with deliveries and delete handlers at any time. */
module SyncSafety {
  import opened Wrappers
  import opened Discovery
  import opened Packing
  import opened Planning
  import opened Trackers
  import opened Writes
  import opened PublishingTheorems
  import opened Traces
  import opened PublishedPods
  import opened ReconcileSteps
  import opened IdleSyncs
  import Protocol
  import Controllers
  import Reconcilers

  /** The protocol state and the API server's state are two views of the same slices of the service. */
  ghost predicate Describes(st: Protocol.State, svc: Service, m: Moment) {
    && Sound(m)
    && (forall uid :: Protocol.Live(st, uid) ==> StoredAs(m.store, svc, uid, Protocol.Last(st.objs[uid])))
    && (forall n :: n in m.store && Labelled(m.store[n], svc) ==>
          Protocol.Live(st, m.store[n].uid) && Protocol.Last(st.objs[m.store[n].uid]) == m.store[n])
    && st.gens == GenerationsOf(m.tracked, NamespacedName(svc.namespace, svc.name))
    && (forall uid :: uid in st.objs ==> uid in m.uids)
  }

  predicate StoredAs(store: Store, svc: Service, uid: Text, s: EndpointSlice) {
    s.uid == uid && s.name in store && store[s.name] == s && Labelled(s, svc)
  }

  // ---------- a write is a step ----------

  lemma NotesOne(t: Tracked, svc: Service, s: EndpointSlice, generation: int)
    requires Labelled(s, svc)
    ensures var nn := NamespacedName(svc.namespace, svc.name);
            GenerationsOf(Noted(t, s, generation), nn) == GenerationsOf(t, nn)[s.uid := generation]
  {
  }

  lemma CreateIsStep(st: Protocol.State, svc: Service, m: Moment, s: EndpointSlice, t: EndpointSlice, m': Moment)
    returns (st': Protocol.State)
    requires Describes(st, svc, m) && Labelled(s, svc) && NewAt(m, s, t)
    requires m' == Moment(m.store[t.name := t], AfterUpdate(m.tracked, t), m.uids + {t.uid})
    ensures Protocol.Next(st, Protocol.Write(t), st') && Describes(st', svc, m')
  {
    hide Protocol.Follows, Noted;
    assert Labelled(t, svc);
    NotesOne(m.tracked, svc, t, t.generation);
    st' := Protocol.State(st.objs[t.uid := Protocol.Object([t], false)], st.seen[t.uid := 0],
                          st.gens[t.uid := t.generation], st.pending);
    assert Protocol.Creates(st, st', t, st.gens[t.uid := t.generation]);
    forall uid | Protocol.Live(st', uid) ensures StoredAs(m'.store, svc, uid, Protocol.Last(st'.objs[uid])) {
      if uid != t.uid {
        assert Protocol.Live(st, uid);
      }
    }
  }

  lemma UpdateIsStep(st: Protocol.State, svc: Service, m: Moment, s: EndpointSlice, m': Moment)
    returns (st': Protocol.State)
    requires Describes(st, svc, m) && OwnCall(svc, m, Update(s)) && Called(m, Update(s), m')
    ensures Protocol.Next(st, Protocol.Write(Revised(m.store[s.name], s)), st') && Describes(st', svc, m')
  {
    hide Noted;
    var t := Revised(m.store[s.name], s);
    assert Labelled(t, svc) && t.uid == m.store[s.name].uid && t.name == s.name;
    NotesOne(m.tracked, svc, t, t.generation);
    var o := st.objs[t.uid];
    st' := st.(objs := st.objs[t.uid := Protocol.Object(o.versions + [t], false)],
               gens := st.gens[t.uid := t.generation]);
    assert Protocol.Updates(st, st', t, st.gens[t.uid := t.generation]);
    UpdateDescribes(st, svc, m, t, m', st');
  }

  lemma UpdateDescribes(st: Protocol.State, svc: Service, m: Moment, t: EndpointSlice, m': Moment, st': Protocol.State)
    requires Describes(st, svc, m) && Labelled(t, svc)
    requires t.name in m.store && m.store[t.name].uid == t.uid && Labelled(m.store[t.name], svc)
    requires m'.store == m.store[t.name := t] && m'.uids == m.uids
    requires st'.gens == GenerationsOf(m'.tracked, NamespacedName(svc.namespace, svc.name))
    requires Protocol.Live(st, t.uid)
    requires st'.objs == st.objs[t.uid := Protocol.Object(st.objs[t.uid].versions + [t], false)]
    ensures Describes(st', svc, m')
  {
    hide Labelled, GenerationsOf;
    forall uid | Protocol.Live(st', uid) ensures StoredAs(m'.store, svc, uid, Protocol.Last(st'.objs[uid])) {
      if uid != t.uid {
        assert Protocol.Live(st, uid);
      }
    }
    forall n | n in m'.store && Labelled(m'.store[n], svc)
      ensures Protocol.Live(st', m'.store[n].uid) && Protocol.Last(st'.objs[m'.store[n].uid]) == m'.store[n]
    {
      if n != t.name {
        assert Protocol.Last(st.objs[m.store[n].uid]).name == n;
      }
    }
  }

  lemma DeleteIsStep(st: Protocol.State, svc: Service, m: Moment, s: EndpointSlice, m': Moment)
    returns (st': Protocol.State)
    requires Describes(st, svc, m) && OwnCall(svc, m, Delete(s)) && Called(m, Delete(s), m')
    ensures Protocol.Next(st, Protocol.Remove(s.uid), st') && Describes(st', svc, m')
  {
    hide Noted, Protocol.Follows, Protocol.Last;
    NotesOne(m.tracked, svc, s, DELETION_EXPECTED);
    st' := st.(objs := st.objs[s.uid := st.objs[s.uid].(gone := true)],
               gens := st.gens[s.uid := DELETION_EXPECTED]);
    DeleteDescribes(st, svc, m, s, m', st');
  }

  lemma DeleteDescribes(st: Protocol.State, svc: Service, m: Moment, s: EndpointSlice, m': Moment, st': Protocol.State)
    requires Describes(st, svc, m)
    requires s.name in m.store && m.store[s.name].uid == s.uid && Labelled(m.store[s.name], svc)
    requires m'.store == m.store - {s.name} && m'.uids == m.uids
    requires st'.gens == GenerationsOf(m'.tracked, NamespacedName(svc.namespace, svc.name))
    requires s.uid in st.objs && st'.objs == st.objs[s.uid := st.objs[s.uid].(gone := true)]
    ensures Describes(st', svc, m')
  {
    hide Labelled, GenerationsOf;
    assert forall n :: n in m.store && Labelled(m.store[n], svc) && m.store[n].uid == s.uid ==> n == s.name;
    forall uid | Protocol.Live(st', uid) ensures StoredAs(m'.store, svc, uid, Protocol.Last(st'.objs[uid])) {
      assert uid != s.uid && Protocol.Live(st, uid);
      assert StoredAs(m.store, svc, uid, Protocol.Last(st.objs[uid]));
    }
    forall n | n in m'.store && Labelled(m'.store[n], svc)
      ensures Protocol.Live(st', m'.store[n].uid) && Protocol.Last(st'.objs[m'.store[n].uid]) == m'.store[n]
    {
      assert n != s.name && Protocol.Last(st.objs[m.store[n].uid]).name == n;
    }
  }

  /** Every write of a sync with its record is a step of the protocol. */
  lemma WriteIsStep(st: Protocol.State, svc: Service, m: Moment, call: Call, m': Moment)
    returns (step: Protocol.Step, st': Protocol.State)
    requires Describes(st, svc, m) && OwnCall(svc, m, call) && Called(m, call, m')
    ensures step.Write? || step.Remove?
    ensures Protocol.Next(st, step, st') && Describes(st', svc, m')
  {
    hide Describes, Protocol.Next, Labelled, NewAt;
    match call
    case Create(s) =>
      var t :| NewAt(m, s, t) && m' == Moment(m.store[t.name := t], AfterUpdate(m.tracked, t), m.uids + {t.uid});
      st' := CreateIsStep(st, svc, m, s, t, m');
      step := Protocol.Write(t);
    case Update(s) =>
      st' := UpdateIsStep(st, svc, m, s, m');
      step := Protocol.Write(Revised(m.store[s.name], s));
    case Delete(s) =>
      st' := DeleteIsStep(st, svc, m, s, m');
      step := Protocol.Remove(s.uid);
  }

  // ---------- runs that go on ----------

  /** The run so far has one writer and ends in the state at hand. */
  ghost predicate RunDescribes(r: Protocol.Run, svc: Service, m: Moment) {
    Protocol.IsRun(r) && Protocol.SingleWriter(r) && Describes(r.states[|r.states| - 1], svc, m)
  }

  predicate Extends(r: Protocol.Run, r': Protocol.Run) {
    r.states <= r'.states && r.steps <= r'.steps
  }

  function Now(r: Protocol.Run): Protocol.State
    requires r.states != []
  {
    r.states[|r.states| - 1]
  }

  function OneMore(r: Protocol.Run, step: Protocol.Step, st': Protocol.State): Protocol.Run {
    Protocol.Run(r.states + [st'], r.steps + [step])
  }

  lemma RunOneMore(r: Protocol.Run, svc: Service, m: Moment, step: Protocol.Step, st': Protocol.State, m': Moment)
    requires RunDescribes(r, svc, m) && r.states != [] && Protocol.ByController(step)
    requires Protocol.Next(Now(r), step, st') && Describes(st', svc, m')
    ensures RunDescribes(OneMore(r, step, st'), svc, m') && Extends(r, OneMore(r, step, st'))
  {
    hide Describes, Protocol.Next, Protocol.Init;
    var r' := OneMore(r, step, st');
    forall i | 0 <= i < |r'.steps| ensures Protocol.Next(r'.states[i], r'.steps[i], r'.states[i + 1]) {
      if i < |r.steps| {
        assert r'.states[i] == r.states[i] && r'.states[i + 1] == r.states[i + 1];
      }
    }
  }

  lemma RunSize(r: Protocol.Run, svc: Service, m: Moment)
    requires RunDescribes(r, svc, m)
    ensures |r.states| == |r.steps| + 1 && Describes(Now(r), svc, m)
  {
    hide Protocol.Next, Protocol.Init, Describes;
  }

  lemma RunStates(r: Protocol.Run, svc: Service, m: Moment)
    requires RunDescribes(r, svc, m)
    ensures |r.states| == |r.steps| + 1 && Protocol.Synced(Now(r)) && Protocol.Known(Now(r))
  {
    hide Protocol.Next, Protocol.Init, Protocol.Synced, Protocol.Known, Describes;
    Protocol.RunSynced(r, |r.steps|);
    Protocol.RunKnown(r, |r.steps|);
  }

  // ---------- deliveries ----------

  predicate CanDeliver(st: Protocol.State, uid: Text) {
    uid in st.objs && uid in st.seen && st.seen[uid] < Protocol.Events(st.objs[uid])
  }

  function Delivered(st: Protocol.State, uid: Text): Protocol.State
    requires CanDeliver(st, uid)
  {
    var n := st.seen[uid] + 1;
    st.(seen := st.seen[uid := n],
        pending := if n > |st.objs[uid].versions| then st.pending + {uid} else st.pending)
  }

  /** The run with the next event of each of these slices delivered, one after the other, where there is one. */
  function Delivering(r: Protocol.Run, uids: seq<Text>): (r': Protocol.Run)
    requires r.states != []
    ensures r'.states != []
  {
    if uids == [] then r
    else
      var before := Delivering(r, uids[..|uids| - 1]);
      var uid := uids[|uids| - 1];
      if CanDeliver(Now(before), uid) then OneMore(before, Protocol.Deliver(uid), Delivered(Now(before), uid))
      else before
  }

  lemma DeliverIsStep(st: Protocol.State, svc: Service, m: Moment, uid: Text)
    requires Describes(st, svc, m) && CanDeliver(st, uid)
    ensures Protocol.Next(st, Protocol.Deliver(uid), Delivered(st, uid)) && Describes(Delivered(st, uid), svc, m)
  {
    hide StoredAs, Labelled;
  }

  lemma DeliverOne(r: Protocol.Run, svc: Service, m: Moment, uid: Text)
    requires RunDescribes(r, svc, m) && r.states != [] && CanDeliver(Now(r), uid)
    ensures RunDescribes(OneMore(r, Protocol.Deliver(uid), Delivered(Now(r), uid)), svc, m)
  {
    hide RunDescribes, Describes, Protocol.Next, Delivered, CanDeliver;
    RunSize(r, svc, m);
    DeliverIsStep(Now(r), svc, m, uid);
    RunOneMore(r, svc, m, Protocol.Deliver(uid), Delivered(Now(r), uid), m);
  }

  /** Deliveries never get in the way. */
  lemma {:induction false} DeliverContinues(r: Protocol.Run, svc: Service, m: Moment, uids: seq<Text>)
    requires RunDescribes(r, svc, m) && r.states != []
    ensures RunDescribes(Delivering(r, uids), svc, m) && Extends(r, Delivering(r, uids))
  {
    hide RunDescribes, CanDeliver, Delivered;
    if uids != [] {
      var before, uid := Delivering(r, uids[..|uids| - 1]), uids[|uids| - 1];
      DeliverContinues(r, svc, m, uids[..|uids| - 1]);
      if CanDeliver(Now(before), uid) {
        DeliverOne(before, svc, m, uid);
      }
    }
  }

  // ---------- delete handlers ----------

  /** The delete handler for a slice of the service does to the tracker what the protocol's step does, and for another
      slice nothing to the service. */
  lemma HandlerIsStep(t: Tracked, svc: Service, s: EndpointSlice)
    ensures var nn := NamespacedName(svc.namespace, svc.name);
            GenerationsOf(AfterHandler(t, s), nn)
            == if ServiceNN(s) == nn && ManagedByController(s) then GenerationsOf(t, nn) - {s.uid}
               else GenerationsOf(t, nn)
  {
    var nn := NamespacedName(svc.namespace, svc.name);
    if !Knows(t, s) && ServiceNN(s) == nn {
      assert GenerationsOf(t, nn) - {s.uid} == GenerationsOf(t, nn);
    }
  }

  /** Since r only deliveries and delete handlers of these slices. */
  ghost predicate Informed(r: Protocol.Run, r': Protocol.Run, handled: seq<EndpointSlice>) {
    && Extends(r, r')
    && forall k :: |r.steps| <= k < |r'.steps| ==>
         r'.steps[k].Deliver? || (r'.steps[k].Handle? && exists s :: s in handled && s.uid == r'.steps[k].uid)
  }

  /** The informer takes in all events of a slice. */
  lemma {:induction false} CatchUp(r: Protocol.Run, svc: Service, m: Moment, uid: Text) returns (r': Protocol.Run)
    requires RunDescribes(r, svc, m) && r.states != [] && uid in Now(r).objs && uid in Now(r).seen
    ensures RunDescribes(r', svc, m) && Informed(r, r', []) && r'.states != []
    ensures Now(r').objs == Now(r).objs && uid in Now(r').seen && !CanDeliver(Now(r'), uid)
    decreases Protocol.Events(Now(r).objs[uid]) - Now(r).seen[uid]
  {
    hide RunDescribes;
    if CanDeliver(Now(r), uid) {
      DeliverOne(r, svc, m, uid);
      var more := OneMore(r, Protocol.Deliver(uid), Delivered(Now(r), uid));
      r' := CatchUp(more, svc, m, uid);
      InformedTwice(r, more, r', []);
    } else {
      r' := r;
    }
  }

  lemma InformedTwice(r: Protocol.Run, r1: Protocol.Run, r2: Protocol.Run, handled: seq<EndpointSlice>)
    requires Informed(r, r1, handled) && Informed(r1, r2, handled)
    ensures Informed(r, r2, handled)
  {
  }

  lemma InformedMore(r: Protocol.Run, r': Protocol.Run, handled: seq<EndpointSlice>, more: seq<EndpointSlice>)
    requires Informed(r, r', handled) && forall s :: s in handled ==> s in more
    ensures Informed(r, r', more)
  {
  }

  /** A slice that the server no longer has is gone in the protocol too, or was never the service's. */
  lemma NoLongerLive(st: Protocol.State, svc: Service, m: Moment, s: EndpointSlice)
    requires Describes(st, svc, m) && Protocol.Synced(st) && NoLonger(m.store, s)
    ensures s.uid in st.objs ==> s.uid in st.seen && st.objs[s.uid].gone
    ensures s.uid !in st.objs ==> s.uid !in st.gens
  {
    hide Labelled, Protocol.Histories;
    if s.uid in st.objs || s.uid in st.gens {
      assert Protocol.SyncedAt(st, s.uid);
    }
    assert !Protocol.Live(st, s.uid);
  }

  /** Once all is delivered the handler's step is possible, or has been done. */
  lemma HandleIsStep(st: Protocol.State, svc: Service, m: Moment, s: EndpointSlice, m': Moment)
    requires Describes(st, svc, m) && Protocol.Known(st) && s.uid in st.objs && s.uid in st.seen && st.objs[s.uid].gone
    requires !CanDeliver(st, s.uid) && m'.store == m.store && m'.uids == m.uids
    requires GenerationsOf(m'.tracked, NamespacedName(svc.namespace, svc.name)) == st.gens - {s.uid}
    ensures var st' := st.(pending := st.pending - {s.uid}, gens := st.gens - {s.uid});
            Describes(st', svc, m') && if s.uid in st.pending then Protocol.Next(st, Protocol.Handle(s.uid), st')
                                       else st' == st
  {
    hide Labelled, StoredAs, Protocol.NamesApart, Protocol.History, GenerationsOf;
    assert Protocol.HistoryAt(st, s.uid) && Protocol.KnownAt(st, s.uid);
    if s.uid !in st.pending {
      assert st.pending - {s.uid} == st.pending && st.gens - {s.uid} == st.gens;
    }
  }

  lemma SameGenerations(st: Protocol.State, svc: Service, m: Moment, m': Moment)
    requires Describes(st, svc, m) && m'.store == m.store && m'.uids == m.uids
    requires GenerationsOf(m'.tracked, NamespacedName(svc.namespace, svc.name)) == st.gens
    ensures Describes(st, svc, m')
  {
    hide Labelled, StoredAs, GenerationsOf;
  }

  /** Any delete handler may run next, once its slice is gone. */
  lemma HandlerContinues(r: Protocol.Run, svc: Service, m: Moment, s: EndpointSlice) returns (r': Protocol.Run)
    requires RunDescribes(r, svc, m) && NoLonger(m.store, s)
    ensures RunDescribes(r', svc, m.(tracked := AfterHandler(m.tracked, s))) && Informed(r, r', [s])
  {
    hide RunDescribes, Describes, NoLonger, AfterHandler, Protocol.Synced, Protocol.Known, Protocol.Next, CanDeliver,
         GenerationsOf;
    var m' := m.(tracked := AfterHandler(m.tracked, s));
    RunSize(r, svc, m);
    RunStates(r, svc, m);
    HandlerIsStep(m.tracked, svc, s);
    DescribedGenerations(Now(r), svc, m);
    NoLongerLive(Now(r), svc, m, s);
    if ServiceNN(s) == NamespacedName(svc.namespace, svc.name) && ManagedByController(s) && s.uid in Now(r).objs {
      var caughtUp := CatchUp(r, svc, m, s.uid);
      InformedMore(r, caughtUp, [], [s]);
      r' := HandleNow(caughtUp, svc, m, s);
      InformedTwice(r, caughtUp, r', [s]);
    } else {
      assert Now(r).gens - {s.uid} == Now(r).gens || ServiceNN(s) != NamespacedName(svc.namespace, svc.name)
             || !ManagedByController(s);
      SameGenerations(Now(r), svc, m, m');
      SameRun(r, svc, m, m');
      r' := r;
    }
  }

  lemma DescribedGenerations(st: Protocol.State, svc: Service, m: Moment)
    requires Describes(st, svc, m)
    ensures st.gens == GenerationsOf(m.tracked, NamespacedName(svc.namespace, svc.name))
  {
  }

  lemma SameRun(r: Protocol.Run, svc: Service, m: Moment, m': Moment)
    requires RunDescribes(r, svc, m) && r.states != [] && Describes(Now(r), svc, m')
    ensures RunDescribes(r, svc, m')
  {
    hide Describes, Protocol.Next, Protocol.Init;
  }

  lemma HandleNow(r: Protocol.Run, svc: Service, m: Moment, s: EndpointSlice) returns (r': Protocol.Run)
    requires RunDescribes(r, svc, m) && r.states != []
    requires ServiceNN(s) == NamespacedName(svc.namespace, svc.name) && ManagedByController(s)
    requires s.uid in Now(r).objs && s.uid in Now(r).seen && Now(r).objs[s.uid].gone && !CanDeliver(Now(r), s.uid)
    ensures RunDescribes(r', svc, m.(tracked := AfterHandler(m.tracked, s))) && Informed(r, r', [s])
  {
    hide RunDescribes, Describes, AfterHandler, Protocol.Known, Protocol.Synced, Protocol.Next, CanDeliver,
         GenerationsOf;
    var st, m' := Now(r), m.(tracked := AfterHandler(m.tracked, s));
    RunSize(r, svc, m);
    RunStates(r, svc, m);
    DescribedGenerations(st, svc, m);
    HandlerIsStep(m.tracked, svc, s);
    HandleIsStep(st, svc, m, s, m');
    if s.uid in st.pending {
      var st' := st.(pending := st.pending - {s.uid}, gens := st.gens - {s.uid});
      RunOneMore(r, svc, m, Protocol.Handle(s.uid), st', m');
      r' := OneMore(r, Protocol.Handle(s.uid), st');
      assert s in [s];
    } else {
      SameRun(r, svc, m, m');
      r' := r;
    }
  }

  lemma {:induction false} HandlersContinue(r: Protocol.Run, svc: Service, m: Moment, handled: seq<EndpointSlice>,
                                            m': Moment)
    returns (r': Protocol.Run)
    requires RunDescribes(r, svc, m) && HandledBy(m, handled, m')
    ensures RunDescribes(r', svc, m') && Informed(r, r', handled)
  {
    hide RunDescribes, AfterHandler, NoLonger;
    if handled == [] {
      r' := r;
    } else {
      var front, last := handled[..|handled| - 1], handled[|handled| - 1];
      var m1 := m.(tracked := AfterHandlers(m.tracked, front));
      var before := HandlersContinue(r, svc, m, front, m1);
      r' := HandlerContinues(before, svc, m1, last);
      InformedMore(r, before, front, handled);
      InformedMore(before, r', [last], handled);
      InformedTwice(r, before, r', handled);
    }
  }

  // ---------- a sync continues the run ----------

  /** One write of a sync: deliveries as one likes, the delete handlers that run before it, and the write. */
  lemma WriteContinues(r: Protocol.Run, svc: Service, m: Moment, m': Moment, uids: seq<Text>) returns (r': Protocol.Run)
    requires RunDescribes(r, svc, m) && OwnWrite(svc, m, m') && r.states != []
    ensures RunDescribes(r', svc, m') && Extends(Delivering(r, uids), r')
  {
    hide RunDescribes, Handled, HandledBy, Called, Labelled, Describes, Protocol.Next, Delivering;
    var call :| OwnCall(svc, m, call) && Wrote(m, call, m');
    var m1 :| Handled(m, m1) && Called(m1, call, m');
    HandledKeeps(m, m1);
    DeliverContinues(r, svc, m, uids);
    var before := AnyHandlers(Delivering(r, uids), svc, m, m1);
    RunSize(before, svc, m1);
    var step, st' := WriteIsStep(Now(before), svc, m1, call, m');
    RunOneMore(before, svc, m1, step, st', m');
    r' := OneMore(before, step, st');
  }

  lemma AnyHandlers(r: Protocol.Run, svc: Service, m: Moment, m': Moment) returns (r': Protocol.Run)
    requires RunDescribes(r, svc, m) && Handled(m, m')
    ensures RunDescribes(r', svc, m') && Extends(r, r')
  {
    hide RunDescribes, HandledBy;
    var handled :| HandledBy(m, handled, m');
    r' := HandlersContinue(r, svc, m, handled, m');
  }

  /** The run after each write of a sync, with the deliveries one likes after each of them. */
  ghost predicate Plays(rs: seq<Protocol.Run>, svc: Service, run: seq<Moment>, deliveries: seq<seq<Text>>) {
    && |rs| == |run| <= |deliveries| + 1
    && (forall i :: 0 <= i < |rs| ==> RunDescribes(rs[i], svc, run[i]) && rs[i].states != [])
    && (forall i :: 0 <= i < |rs| - 1 ==> Extends(Delivering(rs[i], deliveries[i]), rs[i + 1]))
  }

  /** The writes of a sync, one after the other, continue a run with one writer, whatever the informer takes in between
      them and whichever delete handlers ran. */
  lemma {:induction false} SyncContinues(r: Protocol.Run, svc: Service, run: seq<Moment>, deliveries: seq<seq<Text>>)
    returns (rs: seq<Protocol.Run>)
    requires run != [] && RunDescribes(r, svc, run[0]) && OwnWrites(svc, run) && |run| <= |deliveries| + 1
    ensures Plays(rs, svc, run, deliveries) && rs[0] == r
  {
    hide RunDescribes, OwnWrite, Delivering, Extends;
    RunSize(r, svc, run[0]);
    if |run| == 1 {
      rs := [r];
    } else {
      var n := |run| - 1;
      var before := SyncContinues(r, svc, run[..n], deliveries);
      assert OwnWrite(svc, run[n - 1], run[n]);
      var last := WriteContinues(before[n - 1], svc, run[n - 1], run[n], deliveries[n - 1]);
      RunSize(last, svc, run[n]);
      rs := before + [last];
    }
  }

  lemma {:induction false} PlaysExtend(rs: seq<Protocol.Run>, svc: Service, run: seq<Moment>,
                                       deliveries: seq<seq<Text>>, i: nat)
    requires Plays(rs, svc, run, deliveries) && i < |rs|
    ensures Extends(rs[0], rs[i])
  {
    hide RunDescribes, Delivering;
    if i > 0 {
      PlaysExtend(rs, svc, run, deliveries, i - 1);
      DeliverContinues(rs[i - 1], svc, run[i - 1], deliveries[i - 1]);
      assert Extends(Delivering(rs[i - 1], deliveries[i - 1]), rs[i]);
    }
  }

  // ---------- a listing that is not stale is the truth ----------

  /** A listing taken at state i and checked at the end of a run, after deliveries and delete handlers only: if it
      passes, it is the service's slices at the API server if and only if no delete handler of a listed slice has
      run in between. */
  lemma FreshIsListed(r: Protocol.Run, i: nat, svc: Service, m: Moment, listed: seq<EndpointSlice>)
    requires RunDescribes(r, svc, m) && i <= |r.steps| && Protocol.OnlyInformer(r, i, |r.steps|)
    requires Protocol.Listing(r.states[i], listed)
    requires !Stale(GenerationsOf(m.tracked, NamespacedName(svc.namespace, svc.name)), listed)
    ensures Listed(listed, svc, m.store) <==> forall s :: s in listed ==> !Protocol.HandledIn(r, i, |r.steps|, s.uid)
  {
    hide Protocol.Next, Protocol.Init, Stale, Protocol.IsRun, Protocol.SingleWriter, Protocol.OnlyInformer, Listed,
         Protocol.Listing, Describes, Protocol.Accurate, Protocol.HandledIn;
    RunSize(r, svc, m);
    DescribedGenerations(Now(r), svc, m);
    Protocol.FreshInEveryRun(r, i, |r.steps|, listed);
    if Protocol.Accurate(Now(r), listed) {
      AccurateIsListed(Now(r), svc, m, listed);
    }
    if s :| s in listed && Protocol.HandledIn(r, i, |r.steps|, s.uid) {
      Protocol.HandledIsGone(r, i, |r.steps|, s.uid);
      GoneIsNotListed(Now(r), svc, m, listed, s);
    }
  }

  lemma AccurateIsListed(st: Protocol.State, svc: Service, m: Moment, listed: seq<EndpointSlice>)
    requires Describes(st, svc, m) && Protocol.Accurate(st, listed)
    ensures Listed(listed, svc, m.store)
  {
    hide Labelled;
    forall s | s in listed
      ensures s.name in m.store && SameContent(s, m.store[s.name]) && Labelled(m.store[s.name], svc)
    {
      assert Protocol.Live(st, s.uid);
      assert StoredAs(m.store, svc, s.uid, Protocol.Last(st.objs[s.uid]));
    }
    forall n | n in m.store && Labelled(m.store[n], svc) ensures n in Names(listed) {
      var uid := m.store[n].uid;
      assert Protocol.Live(st, uid);
      var s :| s in listed && s.uid == uid;
    }
  }

  lemma GoneIsNotListed(st: Protocol.State, svc: Service, m: Moment, listed: seq<EndpointSlice>, s: EndpointSlice)
    requires Describes(st, svc, m) && s in listed && !Protocol.Live(st, s.uid)
    ensures !Listed(listed, svc, m.store)
  {
    hide Labelled;
  }

  /** None of the delete handlers was for a listed slice. */
  ghost predicate NoneHandled(listed: seq<EndpointSlice>, handled: seq<EndpointSlice>) {
    forall s, h :: s in listed && h in handled ==> s.uid != h.uid
  }

  /** The same of the slices themselves. */
  lemma FreshUnlessHandled(r: Protocol.Run, svc: Service, m: Moment, listed: seq<EndpointSlice>,
                           handled: seq<EndpointSlice>, m': Moment) returns (r': Protocol.Run)
    requires RunDescribes(r, svc, m) && r.states != [] && Protocol.Listing(Now(r), listed)
    requires HandledBy(m, handled, m')
    ensures RunDescribes(r', svc, m') && Extends(r, r')
    ensures !Stale(GenerationsOf(m'.tracked, NamespacedName(svc.namespace, svc.name)), listed) ==>
              (Listed(listed, svc, m'.store) <==> NoneHandled(listed, handled))
  {
    hide RunDescribes, Stale, Protocol.Listing, Listed, NoLonger;
    RunSize(r, svc, m);
    r' := HandlersContinue(r, svc, m, handled, m');
    RunSize(r', svc, m');
    if !Stale(GenerationsOf(m'.tracked, NamespacedName(svc.namespace, svc.name)), listed) {
      assert r'.states[|r.steps|] == Now(r);
      FreshIsListed(r', |r.steps|, svc, m', listed);
      if s, h :| s in listed && h in handled && s.uid == h.uid {
        HandledIsNotListed(svc, m.store, listed, s, h);
      }
    }
  }

  lemma HandledIsNotListed(svc: Service, store: Store, listed: seq<EndpointSlice>, s: EndpointSlice, h: EndpointSlice)
    requires s in listed && s.uid == h.uid && NoLonger(store, h)
    ensures !Listed(listed, svc, store)
  {
    hide Labelled;
  }

  /** Slices of an informer's view have different names as long as the listing is accurate. */
  ghost predicate Usable(svc: Service, listed: seq<EndpointSlice>) {
    DistinctNames(listed) && forall s :: s in listed ==> s.name != EMPTY && Labelled(s, svc)
  }

  /** The main result. In every run with one writer: a sync of a live service either finds its listing stale and does
      nothing, or the listing is accurate exactly if no delete handler of a listed slice ran between listing and check.
      If so, every write keeps what was published and stays desired, and the run goes on. Without an error and with a
      namespace that is not terminating the pods are then published, each endpoint once and as it should be, and
      nothing else is. That is so whenever all nodes are known and the API server refuses none of the calls. */
  method SyncInRun(c: Controllers.Controller, svc: Service, pods: Pods, listed: seq<EndpointSlice>,
                   ghost r: Protocol.Run)
    returns (errs: seq<SyncError>, ghost handled: seq<EndpointSlice>, ghost checked: Moment, ghost run: seq<Moment>,
             ghost dropped: set<AddressType>, ghost r': Protocol.Run)
    requires c.Valid() && svc.addressTypes <= pods.Keys && HasProxyLabel(svc) && !svc.deleting
    requires RunDescribes(r, svc, c.reconciler.Now()) && r.states != [] && Protocol.Listing(Now(r), listed)
    requires Usable(svc, listed)
    modifies c.reconciler.api, c.reconciler.tracker, c.reconciler.metricsCache
    ensures c.Valid() && HandledBy(old(c.reconciler.Now()), handled, checked)
    ensures var stale := Stale(GenerationsOf(checked.tracked, NamespacedName(svc.namespace, svc.name)), listed);
            var s0, s := old(c.reconciler.api.store), c.reconciler.api.store;
            if stale then
              errs == [StaleInformerCache] && c.reconciler.Now() == checked
              && RunDescribes(r', svc, checked) && Extends(r, r')
            else
              && Chain(run) && run[0] == checked && Handled(run[|run| - 1], c.reconciler.Now())
              && (Listed(listed, svc, s0) <==> NoneHandled(listed, handled))
              && (NoneHandled(listed, handled) ==>
                    && AlwaysPublished(svc, pods, s0, run) && OwnWrites(svc, run)
                    && (errs == [] ==> AllExact(svc, pods, s, dropped))
                    && RunDescribes(r', svc, c.reconciler.Now()) && Extends(r, r'))
    ensures dropped != {} ==> c.reconciler.api.terminating
    ensures errs == [] && NoneHandled(listed, handled) && !c.reconciler.api.terminating ==>
              forall a :: a in svc.addressTypes ==> PublishesPods(c.reconciler.api.store, svc, a, pods[a])
    ensures !Stale(GenerationsOf(checked.tracked, NamespacedName(svc.namespace, svc.name)), listed)
            && NoneHandled(listed, handled) && c.reconciler.api.refused == old(c.reconciler.api.refused)
            && (forall a, p :: a in svc.addressTypes && p in pods[a] && p.included ==> p.nodeFound) ==>
              && errs == [] && dropped == {}
              && forall a :: a in svc.addressTypes ==> PublishesPods(c.reconciler.api.store, svc, a, pods[a])
  {
    hide RunDescribes, Protocol.Listing, Stale, AllExact, AlwaysPublished, Listed, OwnWrites, Labelled, DistinctNames,
         Handled, Chain, NoneHandled, PublishesPods, WritesOf, Busy, Accounted;
    ghost var before := c.reconciler.Now();
    var nn := NamespacedName(svc.namespace, svc.name);
    errs, handled, checked, run, dropped := c.SyncService(nn, Some(svc), true, pods, listed);
    r' := FreshUnlessHandled(r, svc, before, listed, handled, checked);
    if !Stale(GenerationsOf(checked.tracked, nn), listed) && NoneHandled(listed, handled) {
      r' := SyncGoesOn(r', svc, run, c.reconciler.Now());
      if c.reconciler.api.refused == old(c.reconciler.api.refused)
         && forall a, p :: a in svc.addressTypes && p in pods[a] && p.included ==> p.nodeFound {
        NothingFailed(pods, svc.addressTypes, errs, dropped, old(c.reconciler.api.refused), c.reconciler.api.refused);
      }
      if errs == [] && dropped == {} {
        PodsForAll(svc, pods, c.reconciler.api.store);
      }
    }
  }

  lemma PodsForAll(svc: Service, pods: Pods, s: Store)
    requires AllExact(svc, pods, s, {}) && svc.addressTypes <= pods.Keys
    ensures forall a :: a in svc.addressTypes ==> PublishesPods(s, svc, a, pods[a])
  {
    hide PublishedExactly, Gather, PublishesPods;
    forall a | a in svc.addressTypes ensures PublishesPods(s, svc, a, pods[a]) {
      PodsArePublished(s, svc, a, pods[a]);
    }
  }

  lemma SyncGoesOn(r: Protocol.Run, svc: Service, run: seq<Moment>, after: Moment) returns (r': Protocol.Run)
    requires Chain(run) && RunDescribes(r, svc, run[0]) && OwnWrites(svc, run) && Handled(run[|run| - 1], after)
    ensures RunDescribes(r', svc, after) && Extends(r, r')
  {
    hide RunDescribes, OwnWrites, Handled, Chain, Delivering;
    ChainSize(run);
    var deliveries := seq(|run|, _ => []);
    var rs := SyncContinues(r, svc, run, deliveries);
    PlaysExtend(rs, svc, run, deliveries, |run| - 1);
    r' := AnyHandlers(rs[|run| - 1], svc, run[|run| - 1], after);
  }

  // ---------- a slice that is gone and forgotten ----------

  lemma {:induction false} StillUntracked(t: Tracked, svc: Service, handled: seq<EndpointSlice>)
    requires GenerationsOf(t, NamespacedName(svc.namespace, svc.name)) == map[]
    ensures GenerationsOf(AfterHandlers(t, handled), NamespacedName(svc.namespace, svc.name)) == map[]
  {
    hide AfterHandler, GenerationsOf;
    if handled != [] {
      StillUntracked(t, svc, handled[..|handled| - 1]);
      HandlerIsStep(AfterHandlers(t, handled[..|handled| - 1]), svc, handled[|handled| - 1]);
    }
  }

  lemma UntrackedIsFresh(listed: seq<EndpointSlice>)
    ensures !Stale(map[], listed)
  {
  }

  lemma NothingOfHis(st: Protocol.State, svc: Service, m: Moment, a: AddressType, pm: PortMapKey, k: EndpointKey)
    requires Describes(st, svc, m) && forall uid :: !Protocol.Live(st, uid)
    ensures !Published(m.store, svc, a, pm, k)
  {
    hide Labelled, PortKey, KeySet;
    forall n ensures !Holds(m.store, n, svc, a, pm, k) {
    }
  }

  /** What comes of a delete handler between listing and check: after the run HandledRun, a sync that still has the
      gone slice s in its listing, with everything desired in it, makes no call and reports no error, and what is
      desired is not published. */
  method GoneSliceStays(c: Controllers.Controller, svc: Service, pods: Pods, s: EndpointSlice, a: AddressType)
    returns (errs: seq<SyncError>)
    requires c.Valid() && HasProxyLabel(svc) && svc.addressTypes == {a} && a in pods && Usable(svc, [s])
    requires Describes(Protocol.HandledRun(s).states[5], svc, c.reconciler.Now())
    requires IdleType(svc, c.reconciler.maxEndpointsPerSlice, pods, [s], a)
    modifies c.reconciler.api, c.reconciler.tracker, c.reconciler.metricsCache
    ensures errs == [] && c.reconciler.api.store == old(c.reconciler.api.store)
    ensures forall k :: k in KeySet(s.endpoints) ==>
              && Asked(Gather(pods[a]), PortKey(s), k)
              && !Published(c.reconciler.api.store, svc, a, PortKey(s), k)
  {
    hide Describes, Stale, AllExact, AlwaysPublished, Listed, OwnWrites, Labelled, DistinctNames, Handled, Chain,
         Gather, WritesOf, Busy, IdleType, PortKey, KeySet, Asked, Published, GenerationsOf, Accounted;
    ghost var before := c.reconciler.Now();
    var nn := NamespacedName(svc.namespace, svc.name);
    ghost var handled, checked, run, dropped;
    errs, handled, checked, run, dropped := c.SyncService(nn, Some(svc), true, pods, [s]);
    DescribedGenerations(Protocol.HandledRun(s).states[5], svc, before);
    StillUntracked(before.tracked, svc, handled);
    UntrackedIsFresh([s]);
    ghost var max := c.reconciler.maxEndpointsPerSlice;
    OneIdle(svc, max, pods, s, a);
    NoneOfNone(run, Busy(svc, max, pods, [s]));
    ChainSize(run);
    HandledKeeps(run[|run| - 1], c.reconciler.Now());
    forall k | k in KeySet(s.endpoints) ensures !Published(c.reconciler.api.store, svc, a, PortKey(s), k) {
      NothingOfHis(Protocol.HandledRun(s).states[5], svc, before, a, PortKey(s), k);
    }
  }

  // ---------- the second sync ----------

  lemma SoundCall(m: Moment, m1: Moment, call: Call, m': Moment)
    requires Sound(m) && Handled(m, m1) && Called(m1, call, m')
    ensures Sound(m')
  {
    hide Handled;
    HandledKeeps(m, m1);
  }

  lemma {:induction false} SoundRun(run: seq<Moment>, i: nat)
    requires Chain(run) && i < |run| && Sound(run[0])
    ensures Sound(run[i])
  {
    hide Sound, Called, Handled;
    if i > 0 {
      SoundRun(run, i - 1);
      assert Linked(run[i - 1], run[i]);
      var call :| Wrote(run[i - 1], call, run[i]);
      var m1 :| Handled(run[i - 1], m1) && Called(m1, call, run[i]);
      SoundCall(run[i - 1], m1, call, run[i]);
    }
  }

  /** What a lister with a caught-up informer returns, in whatever order. */
  method ListSlices(store: Store, svc: Service) returns (listed: seq<EndpointSlice>)
    requires forall n :: n in store ==> store[n].name == n && n != EMPTY
    ensures CaughtUp(listed, svc, store) && Usable(svc, listed)
  {
    hide Labelled;
    listed := [];
    var todo := store.Keys;
    while todo != {}
      invariant todo <= store.Keys
      invariant forall s :: s in listed ==> s.name in store && s.name !in todo && store[s.name] == s && Labelled(s, svc)
      invariant forall n :: n in store && n !in todo && Labelled(store[n], svc) ==> store[n] in listed
      invariant DistinctNames(listed)
      decreases |todo|
    {
      var n :| n in todo;
      todo := todo - {n};
      if Labelled(store[n], svc) {
        assert forall s :: s in listed ==> s.name != n;
        listed := listed + [store[n]];
      }
    }
  }

  /** The address types for which nothing is desired. */
  ghost function Undesired(svc: Service, pods: Pods): set<AddressType>
    requires svc.addressTypes <= pods.Keys
  {
    set a | a in svc.addressTypes && !Desires(Gather(pods[a]))
  }

  /** After a sync without errors in a namespace that is not terminating, a second one on a caught-up listing writes
      no slice of an address type with something desired; when something is desired for all of them it makes no call
      at all and reports no error. */
  method SecondSyncIsIdle(r: Reconcilers.Reconciler, svc: Service, pods: Pods, listed: seq<EndpointSlice>)
    returns (errs: seq<SyncError>, errs2: seq<SyncError>, ghost between: Moment, ghost run2: seq<Moment>)
    requires r.maxEndpointsPerSlice >= 1 && r.metricsCache.Valid() && svc.addressTypes <= pods.Keys
    requires HasProxyLabel(svc) && !svc.deleting && Sound(r.Now())
    requires CaughtUp(listed, svc, r.api.store) && Usable(svc, listed)
    modifies r.api, r.tracker, r.metricsCache
    ensures Chain(run2) && run2[0] == between && Handled(run2[|run2| - 1], r.Now())
    ensures errs == [] && !r.api.terminating ==> WritesOf(run2, Undesired(svc, pods))
    ensures errs == [] && !r.api.terminating && Undesired(svc, pods) == {} ==>
              errs2 == [] && r.api.store == between.store
  {
    hide AllExact, AlwaysPublished, OwnWrites, Labelled, Handled, Chain, Gather, WritesOf, Busy, Tidied, CaughtUp,
         Sound, NodeMissing, Desires, Accounted;
    ghost var run, dropped, dropped2;
    ListedOf(listed, svc, r.api.store);
    errs, run, dropped := r.Reconcile(svc, pods, listed);
    between := r.Now();
    ChainSize(run);
    SoundRun(run, |run| - 1);
    HandledKeeps(run[|run| - 1], between);
    SoundNames(run[|run| - 1]);
    var again := ListSlices(r.api.store, svc);
    errs2, run2, dropped2 := r.Reconcile(svc, pods, again);
    ghost var busy := Busy(svc, r.maxEndpointsPerSlice, pods, again);
    if errs == [] && dropped == {} {
      OnlyUndesiredBusy(svc, r.maxEndpointsPerSlice, pods, between.store, again);
      assert busy <= Undesired(svc, pods);
      MoreTypes(run2, busy, Undesired(svc, pods));
      NoneOfNone(run2, Undesired(svc, pods));
    }
    ChainSize(run2);
    HandledKeeps(run2[|run2| - 1], r.Now());
  }

  lemma ListedOf(listed: seq<EndpointSlice>, svc: Service, s: Store)
    requires CaughtUp(listed, svc, s)
    ensures Listed(listed, svc, s)
  {
    hide Listed, ListedExactly, DistinctNames;
  }

  lemma SoundNames(m: Moment)
    requires Sound(m)
    ensures forall n :: n in m.store ==> m.store[n].name == n && n != EMPTY
  {
  }
}
