/** What other writers do reaches the controller (pkg/service-controller/endpointslice_controller.go): their changes are
    news to the slice handlers, their deletions are unexpected, and both wake the service. */
module Wakeups {
  import opened Wrappers
  import opened Discovery
  import opened Trackers
  import opened Controllers
  import Protocol

  /** A step of somebody else that creates slice s or changes its ports or endpoints. */
  ghost predicate Changed(r: Protocol.Run, k: nat, s: EndpointSlice) {
    && k < |r.steps| && |r.states| == |r.steps| + 1 && r.steps[k] == Protocol.Foreign(s)
    && (Protocol.Live(r.states[k], s.uid) ==> s.generation > Protocol.Last(r.states[k].objs[s.uid]).generation)
  }

  /** The controller does not write slice uid after step k and before state j. */
  ghost predicate NotRewritten(r: Protocol.Run, k: nat, j: nat, uid: Text)
    requires j <= |r.steps|
  {
    forall m :: k < m < j ==> !(r.steps[m].Write? && r.steps[m].slice.uid == uid)
  }

  /** As long as the controller does not write the slice again, what it tracks is older than the foreign change. */
  lemma {:induction false} ForeignChangeIsNews(r: Protocol.Run, k: nat, j: nat, s: EndpointSlice)
    requires Protocol.IsRun(r) && Protocol.NeverForgets(r) && Changed(r, k, s)
    requires k < j <= |r.steps| && NotRewritten(r, k, j, s.uid)
    ensures s.uid in r.states[j].gens ==> s.generation > r.states[j].gens[s.uid]
  {
    hide Protocol.Init, Protocol.Known, Protocol.Next, Protocol.Live;
    Protocol.RunKnown(r, k);
    assert Protocol.Next(r.states[k], r.steps[k], r.states[k + 1]);
    ChangeIsNewer(r.states[k], s, r.states[k + 1]);
    if j > k + 1 {
      ForeignChangeIsNews(r, k, j - 1, s);
      assert Protocol.Next(r.states[j - 1], r.steps[j - 1], r.states[j]);
      NewsStays(r.states[j - 1], r.steps[j - 1], r.states[j], s);
    }
  }

  lemma ChangeIsNewer(st: Protocol.State, s: EndpointSlice, st': Protocol.State)
    requires Protocol.Known(st) && Protocol.Next(st, Protocol.Foreign(s), st')
    requires Protocol.Live(st, s.uid) ==> s.generation > Protocol.Last(st.objs[s.uid]).generation
    ensures s.uid in st'.gens ==> s.generation > st'.gens[s.uid]
    ensures s.generation >= 1
  {
    hide Protocol.NamesApart, Protocol.Follows, Protocol.History;
    if s.uid in st.objs {
      assert Protocol.HistoryAt(st, s.uid) && Protocol.KnownAt(st, s.uid);
      Protocol.NewestPositive(st.objs[s.uid], s.uid);
    }
  }

  lemma NewsStays(st: Protocol.State, step: Protocol.Step, st': Protocol.State, s: EndpointSlice)
    requires Protocol.Next(st, step, st') && s.generation >= 1
    requires !(step.Write? && step.slice.uid == s.uid)
    requires s.uid in st.gens ==> s.generation > st.gens[s.uid]
    ensures s.uid in st'.gens ==> s.generation > st'.gens[s.uid]
  {
    hide Protocol.Follows, Protocol.Live;
  }

  /** What somebody else deleted is never expected to be gone. */
  lemma {:induction false} ForeignRemovalIsUnexpected(r: Protocol.Run, k: nat, j: nat, uid: Text)
    requires Protocol.IsRun(r) && Protocol.NeverForgets(r) && k < j <= |r.steps|
    requires r.steps[k] == Protocol.ForeignRemove(uid)
    ensures uid in r.states[j].objs && r.states[j].objs[uid].gone
    ensures uid in r.states[j].gens ==> r.states[j].gens[uid] != DELETION_EXPECTED
  {
    hide Protocol.Init, Protocol.Known, Protocol.Next;
    if j == k + 1 {
      Protocol.RunKnown(r, k);
      assert Protocol.Next(r.states[k], r.steps[k], r.states[k + 1]);
      RemovalUnexpected(r.states[k], uid, r.states[k + 1]);
    } else {
      ForeignRemovalIsUnexpected(r, k, j - 1, uid);
      assert Protocol.Next(r.states[j - 1], r.steps[j - 1], r.states[j]);
      GoneStays(r.states[j - 1], r.steps[j - 1], r.states[j], uid);
    }
  }

  lemma RemovalUnexpected(st: Protocol.State, uid: Text, st': Protocol.State)
    requires Protocol.Known(st) && Protocol.Next(st, Protocol.ForeignRemove(uid), st')
    ensures uid in st'.objs && st'.objs[uid].gone
    ensures uid in st'.gens ==> st'.gens[uid] != DELETION_EXPECTED
  {
    hide Protocol.Histories;
    assert Protocol.KnownAt(st, uid);
  }

  lemma GoneStays(st: Protocol.State, step: Protocol.Step, st': Protocol.State, uid: Text)
    requires Protocol.Next(st, step, st') && uid in st.objs && st.objs[uid].gone
    requires uid in st.gens ==> st.gens[uid] != DELETION_EXPECTED
    ensures uid in st'.objs && st'.objs[uid].gone
    ensures uid in st'.gens ==> st'.gens[uid] != DELETION_EXPECTED
  {
    hide Protocol.Follows;
  }

  // ---------- the handlers ----------

  /** The controller's tracker is that of the run's last state. */
  ghost predicate At(c: Controller, svc: Service, r: Protocol.Run)
    reads c.reconciler.tracker
  {
    && Protocol.IsRun(r) && Protocol.NeverForgets(r) && r.states != []
    && r.states[|r.states| - 1].gens == GenerationsOf(c.reconciler.tracker.generationsByService, Key(svc))
  }

  function Key(svc: Service): NamespacedName {
    NamespacedName(svc.namespace, svc.name)
  }

  /** However late it is delivered: a slice that somebody else created or changed wakes its service, unless the
      controller has written it again since. */
  method ForeignChangeWakes(c: Controller, svc: Service, prev: Option<EndpointSlice>, s: EndpointSlice,
                            ghost r: Protocol.Run, ghost k: nat)
    requires At(c, svc, r) && Changed(r, k, s) && NotRewritten(r, k, |r.steps|, s.uid)
    requires Labelled(s, svc) && svc.name != EMPTY
    modifies c
    ensures Key(svc) in c.queue
  {
    hide Protocol.IsRun, Protocol.NeverForgets, Changed, NotRewritten;
    RunLength(r, k, s);
    ForeignChangeIsNews(r, k, |r.steps|, s);
    assert ServiceNN(s) == Key(svc) && ManagedByController(s);
    match prev
    case None => c.OnEndpointSliceAdd(s);
    case Some(p) => c.OnEndpointSliceUpdate(p, s);
  }

  lemma RunLength(r: Protocol.Run, k: nat, s: EndpointSlice)
    requires Changed(r, k, s)
    ensures k < |r.steps| && |r.states| == |r.steps| + 1
  {
  }

  /** A tracked slice that somebody else deleted wakes its service when the delete handler runs. */
  method ForeignRemovalWakes(c: Controller, svc: Service, s: EndpointSlice, ghost r: Protocol.Run, ghost k: nat)
    requires At(c, svc, r) && k < |r.steps| && r.steps[k] == Protocol.ForeignRemove(s.uid)
    requires Labelled(s, svc) && svc.name != EMPTY && Knows(c.reconciler.tracker.generationsByService, s)
    modifies c, c.reconciler.tracker
    ensures Key(svc) in c.queue && !Knows(c.reconciler.tracker.generationsByService, s)
  {
    hide Protocol.Next, Protocol.NeverForgets, Protocol.Init;
    ForeignRemovalIsUnexpected(r, k, |r.steps|, s.uid);
    assert ServiceNN(s) == Key(svc) && ManagedByController(s);
    c.OnEndpointSliceDelete(s);
  }

  // ---------- the controller's own writes ----------

  /** With one writer: no event of a version of a tracked, living slice tells anything new, however late it comes; the
      late event of a slice that the controller has deleted since does. */
  lemma OwnVersions(r: Protocol.Run, s: EndpointSlice)
    requires Protocol.IsRun(r) && Protocol.SingleWriter(r)
    requires var st := r.states[|r.steps|];
             s.uid in st.objs && s in st.objs[s.uid].versions && s.uid in st.gens
    ensures var st := r.states[|r.steps|];
            s.generation > st.gens[s.uid] <==> st.objs[s.uid].gone
  {
    hide Protocol.Init, Protocol.Next, Protocol.Follows, Protocol.NamesApart;
    var st := r.states[|r.steps|];
    Protocol.RunSynced(r, |r.steps|);
    assert Protocol.SyncedAt(st, s.uid) && Protocol.HistoryAt(st, s.uid);
    var o := st.objs[s.uid];
    var i :| 0 <= i < |o.versions| && o.versions[i] == s;
    Protocol.VersionsGrow(o, s.uid, i, |o.versions| - 1);
  }

  /** So the add or update handler of such an event wakes the service exactly if the slice is not tracked, or has been
      deleted since. */
  method OwnWriteIsQuiet(c: Controller, svc: Service, prev: Option<EndpointSlice>, s: EndpointSlice,
                         ghost r: Protocol.Run)
    requires At(c, svc, r) && Protocol.SingleWriter(r)
    requires var objs := r.states[|r.states| - 1].objs;
             s.uid in objs && s in objs[s.uid].versions
    requires Labelled(s, svc) && svc.name != EMPTY && (prev.Some? ==> Labelled(prev.value, svc))
    modifies c
    ensures var tracked := s.uid in GenerationsOf(c.reconciler.tracker.generationsByService, Key(svc));
            c.queue == old(c.queue) + if tracked && !r.states[|r.states| - 1].objs[s.uid].gone then {} else {Key(svc)}
  {
    hide Protocol.Init, Protocol.Next, Protocol.SingleWriter, Protocol.NeverForgets;
    if s.uid in GenerationsOf(c.reconciler.tracker.generationsByService, Key(svc)) {
      OwnVersions(r, s);
    }
    assert ServiceNN(s) == Key(svc) && ManagedByController(s);
    match prev
    case None => c.OnEndpointSliceAdd(s);
    case Some(p) =>
      assert ServiceNN(p) == Key(svc) && ManagedByController(p);
      c.OnEndpointSliceUpdate(p, s);
  }
}
