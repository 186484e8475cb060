/** The generation-tracker protocol around pkg/service-controller/endpointslice_tracker.go: the slices of one service
    at the API server, the informer's lagging view of them, and the tracker, as a state machine over their steps. */
module Protocol {
  import opened Wrappers
  import opened Discovery
  import opened Trackers

  /** All versions of one slice, oldest first, and whether it has been deleted since. */
  datatype Object = Object(versions: seq<EndpointSlice>, gone: bool)

  /** seen: how many of a slice's events (one per version, one for the deletion) have reached the informer's store;
      pending: deletions in the store whose handler has not run yet; gens: the tracker's entry of the service. */
  datatype State = State(objs: map<Text, Object>, seen: map<Text, nat>, gens: Generations, pending: set<Text>)

  function Events(o: Object): nat {
    |o.versions| + if o.gone then 1 else 0
  }

  function Last(o: Object): EndpointSlice
    requires o.versions != []
  {
    o.versions[|o.versions| - 1]
  }

  /** The next version of a slice: the generation grows exactly when ports or endpoints change. */
  predicate Follows(s: EndpointSlice, t: EndpointSlice) {
    && t.uid == s.uid && t.name == s.name && t.addressType == s.addressType
    && t.generation == if s.ports == t.ports && s.endpoints == t.endpoints then s.generation else s.generation + 1
  }

  predicate Live(st: State, uid: Text) {
    uid in st.objs && !st.objs[uid].gone && st.objs[uid].versions != []
  }

  // ---------- steps ----------

  predicate Creates(st: State, st': State, s: EndpointSlice, gens: Generations) {
    && s.uid !in st.objs && s.generation >= 1
    && (forall uid :: uid in st.objs && Live(st, uid) ==> Last(st.objs[uid]).name != s.name)
    && st' == State(st.objs[s.uid := Object([s], false)], st.seen[s.uid := 0], gens, st.pending)
  }

  predicate Updates(st: State, st': State, s: EndpointSlice, gens: Generations) {
    && Live(st, s.uid) && Follows(Last(st.objs[s.uid]), s)
    && st' == st.(objs := st.objs[s.uid := Object(st.objs[s.uid].versions + [s], false)], gens := gens)
  }

  predicate Deletes(st: State, st': State, uid: Text, gens: Generations) {
    && Live(st, uid)
    && st' == st.(objs := st.objs[uid := st.objs[uid].(gone := true)], gens := gens)
  }

  datatype Step =
    | Write(slice: EndpointSlice)                // the controller creates or updates, and records the generation
    | Remove(uid: Text)                          // the controller deletes, and records that
    | Deliver(uid: Text)                         // the informer's store takes in the next event of a slice
    | Handle(uid: Text)                          // the delete handler runs
    | Foreign(slice: EndpointSlice)              // somebody else creates or updates
    | ForeignRemove(uid: Text)                   // somebody else deletes
    | Forget                                     // the tracker forgets the service

  /** The steps of the system; every API write of the controller and its record are one step. */
  predicate Next(st: State, step: Step, st': State) {
    match step
    case Write(s) =>
      var gens := st.gens[s.uid := s.generation];
      Creates(st, st', s, gens) || Updates(st, st', s, gens)
    case Remove(uid) => Deletes(st, st', uid, st.gens[uid := DELETION_EXPECTED])
    case Deliver(uid) =>
      && uid in st.objs && uid in st.seen && st.seen[uid] < Events(st.objs[uid])
      && var n := st.seen[uid] + 1;
         st' == st.(seen := st.seen[uid := n],
                    pending := if n > |st.objs[uid].versions| then st.pending + {uid} else st.pending)
    case Handle(uid) =>
      uid in st.pending && st' == st.(pending := st.pending - {uid}, gens := st.gens - {uid})
    case Foreign(s) => Creates(st, st', s, st.gens) || Updates(st, st', s, st.gens)
    case ForeignRemove(uid) => Deletes(st, st', uid, st.gens)
    case Forget => st' == st.(gens := map[])
  }

  /** A controller that starts knows nothing, and its informer has caught up. */
  ghost predicate Init(st: State) {
    && Histories(st) && Quiet(st) && st.gens == map[]
  }

  /** The informer has caught up and all delete handlers have run. */
  ghost predicate Quiet(st: State) {
    (forall uid :: uid in st.objs ==> uid in st.seen && st.seen[uid] == Events(st.objs[uid])) && st.pending == {}
  }

  datatype Run = Run(states: seq<State>, steps: seq<Step>)

  ghost predicate IsRun(r: Run) {
    && |r.states| == |r.steps| + 1 && Init(r.states[0])
    && forall i :: 0 <= i < |r.steps| ==> Next(r.states[i], r.steps[i], r.states[i + 1])
  }

  predicate ByController(step: Step) {
    step.Write? || step.Remove? || step.Deliver? || step.Handle?
  }

  /** Nobody else writes the service's slices, and the service is never deleted. */
  ghost predicate SingleWriter(r: Run) {
    forall i :: 0 <= i < |r.steps| ==> ByController(r.steps[i])
  }

  /** Others may write too, but the service is never deleted. */
  ghost predicate NeverForgets(r: Run) {
    Remembers(r.steps)
  }

  // ---------- the informer's view ----------

  predicate InView(st: State, uid: Text) {
    uid in st.objs && uid in st.seen && 0 < st.seen[uid] <= |st.objs[uid].versions|
  }

  function Seen(st: State, uid: Text): EndpointSlice
    requires InView(st, uid)
  {
    st.objs[uid].versions[st.seen[uid] - 1]
  }

  /** The lister returns exactly the slices of the view, each once. */
  ghost predicate Listing(st: State, listed: seq<EndpointSlice>) {
    && (forall i, j :: 0 <= i < j < |listed| ==> listed[i].uid != listed[j].uid)
    && (forall s :: s in listed ==> InView(st, s.uid) && Seen(st, s.uid) == s)
    && (forall uid :: InView(st, uid) ==> Seen(st, uid) in listed)
  }

  // ---------- slices and their versions ----------

  /** Equal in everything the generation speaks for. */
  predicate Alike(s: EndpointSlice, t: EndpointSlice) {
    && s.uid == t.uid && s.name == t.name && s.addressType == t.addressType
    && s.ports == t.ports && s.endpoints == t.endpoints
  }

  ghost predicate History(o: Object, uid: Text) {
    && o.versions != []
    && (forall i :: 0 <= i < |o.versions| ==> o.versions[i].uid == uid && o.versions[i].generation >= 1)
    && (forall i :: 0 <= i < |o.versions| - 1 ==> Follows(o.versions[i], o.versions[i + 1]))
  }

  /** What holds of every slice at all times. */
  ghost predicate HistoryAt(st: State, uid: Text) {
    && uid in st.objs && uid in st.seen
    && History(st.objs[uid], uid) && st.seen[uid] <= Events(st.objs[uid])
    && (uid in st.pending ==> st.objs[uid].gone && st.seen[uid] == Events(st.objs[uid]))
  }

  ghost predicate Histories(st: State) {
    && (forall uid :: uid in st.objs || uid in st.seen || uid in st.pending ==> HistoryAt(st, uid))
    && NamesApart(st)
  }

  ghost predicate NamesApart(st: State) {
    forall u, v :: Live(st, u) && Live(st, v) && u != v ==> Last(st.objs[u]).name != Last(st.objs[v]).name
  }

  /** Generations never decrease, and equal generations mean equal ports and endpoints. */
  lemma {:induction false} VersionsGrow(o: Object, uid: Text, i: nat, j: nat)
    requires History(o, uid) && i <= j < |o.versions|
    ensures o.versions[i].generation <= o.versions[j].generation
    ensures o.versions[i].generation == o.versions[j].generation ==> Alike(o.versions[i], o.versions[j])
    ensures o.versions[i].name == o.versions[j].name
    decreases j - i
  {
    if i < j {
      VersionsGrow(o, uid, i, j - 1);
      assert Follows(o.versions[j - 1], o.versions[j]);
    }
  }

  lemma HistoryGrows(o: Object, uid: Text, s: EndpointSlice)
    requires History(o, uid) && Follows(Last(o), s) && s.uid == uid
    ensures History(Object(o.versions + [s], false), uid)
  {
    hide Follows;
    var vs := o.versions + [s];
    assert s.generation >= 1 by { FollowsGrows(Last(o), s); }
    forall i | 0 <= i < |vs| - 1 ensures Follows(vs[i], vs[i + 1]) {
      assert i < |o.versions| - 1 ==> vs[i + 1] == o.versions[i + 1];
    }
  }

  lemma FollowsGrows(s: EndpointSlice, t: EndpointSlice)
    requires Follows(s, t)
    ensures s.generation <= t.generation <= s.generation + 1
  {
  }

  /** The slice a step is about. */
  function Subject(step: Step): Text {
    match step
    case Write(s) => s.uid
    case Foreign(s) => s.uid
    case Remove(uid) => uid
    case ForeignRemove(uid) => uid
    case Deliver(uid) => uid
    case Handle(uid) => uid
    case Forget => EMPTY
  }

  /** Nothing about slice uid differs between the two states. */
  ghost predicate SameAt(st: State, st': State, uid: Text) {
    && (uid in st'.objs <==> uid in st.objs) && (uid in st.objs && uid in st'.objs ==> st'.objs[uid] == st.objs[uid])
    && (uid in st'.seen <==> uid in st.seen) && (uid in st.seen && uid in st'.seen ==> st'.seen[uid] == st.seen[uid])
    && (uid in st'.pending <==> uid in st.pending)
    && (uid in st'.gens <==> uid in st.gens) && (uid in st.gens && uid in st'.gens ==> st'.gens[uid] == st.gens[uid])
  }

  lemma OthersSame(st: State, step: Step, st': State, uid: Text)
    requires Next(st, step, st') && !step.Forget? && uid != Subject(step)
    ensures SameAt(st, st', uid)
  {
    hide Follows, Live;
  }

  lemma SubjectHistory(st: State, step: Step, st': State)
    requires Histories(st) && Next(st, step, st') && !step.Forget?
    ensures HistoryAt(st', Subject(step))
  {
    hide Follows, History, NamesApart;
    match step
    case Write(s) =>
      WriteHistory(st, st', s, st.gens[s.uid := s.generation]);
    case Foreign(s) =>
      WriteHistory(st, st', s, st.gens);
    case Remove(uid) =>
      GoneHistory(st.objs[uid], uid);
    case ForeignRemove(uid) =>
      GoneHistory(st.objs[uid], uid);
    case Deliver(uid) =>
    case Handle(uid) =>
    case Forget =>
  }

  lemma StepHistories(st: State, step: Step, st': State)
    requires Histories(st) && Next(st, step, st')
    ensures Histories(st')
  {
    hide Next, HistoryAt, NamesApart;
    StepNames(st, step, st');
    if step.Forget? {
      ForgetHistories(st, st');
    } else {
      SubjectHistory(st, step, st');
      forall uid | uid in st'.objs || uid in st'.seen || uid in st'.pending ensures HistoryAt(st', uid) {
        if uid != Subject(step) {
          OthersSame(st, step, st', uid);
          SameHistory(st, st', uid);
        }
      }
    }
  }

  lemma ForgetHistories(st: State, st': State)
    requires Histories(st) && Next(st, Forget, st')
    ensures Histories(st')
  {
    hide History;
    assert forall uid :: HistoryAt(st, uid) ==> HistoryAt(st', uid);
  }

  lemma SameHistory(st: State, st': State, uid: Text)
    requires SameAt(st, st', uid) && HistoryAt(st, uid)
    ensures HistoryAt(st', uid)
  {
    hide History;
  }

  lemma StepNames(st: State, step: Step, st': State)
    requires Histories(st) && Next(st, step, st')
    ensures NamesApart(st')
  {
    hide History;
    forall u, v | Live(st', u) && Live(st', v) && u != v ensures Last(st'.objs[u]).name != Last(st'.objs[v]).name {
      LiveName(st, step, st', u);
      LiveName(st, step, st', v);
    }
  }

  /** A live slice was there under the same name, or is new under a name of its own. */
  lemma LiveName(st: State, step: Step, st': State, uid: Text)
    requires Histories(st) && Next(st, step, st') && Live(st', uid)
    ensures (Live(st, uid) && Last(st.objs[uid]).name == Last(st'.objs[uid]).name)
            || (uid == Subject(step) && forall v :: Live(st, v) ==> Last(st.objs[v]).name != Last(st'.objs[uid]).name)
  {
    hide History, NamesApart;
    if !step.Forget? && uid != Subject(step) {
      OthersSame(st, step, st', uid);
    }
  }

  lemma GoneHistory(o: Object, uid: Text)
    requires History(o, uid)
    ensures History(o.(gone := true), uid)
  {
    hide Follows;
  }

  lemma WriteHistory(st: State, st': State, s: EndpointSlice, gens: Generations)
    requires Histories(st) && (Creates(st, st', s, gens) || Updates(st, st', s, gens))
    ensures HistoryAt(st', s.uid)
  {
    hide History, NamesApart, Follows;
    if Creates(st, st', s, gens) {
      assert s.uid !in st.pending;
      NewHistory(s);
    } else {
      assert HistoryAt(st, s.uid);
      HistoryGrows(st.objs[s.uid], s.uid, s);
    }
  }

  lemma NewHistory(s: EndpointSlice)
    requires s.generation >= 1
    ensures History(Object([s], false), s.uid)
  {
  }

  // ---------- one writer ----------

  /** What is tracked of a slice is its newest version or its deletion; an untracked slice has been seen to its end. */
  ghost predicate SyncedAt(st: State, uid: Text) {
    && uid in st.objs && uid in st.seen && st.objs[uid].versions != []
    && var o := st.objs[uid];
       if uid in st.gens then st.gens[uid] == (if o.gone then DELETION_EXPECTED else Last(o).generation)
       else st.seen[uid] == Events(o)
  }

  ghost predicate Synced(st: State) {
    && Histories(st)
    && (forall uid :: uid in st.gens || uid in st.objs ==> SyncedAt(st, uid))
  }

  lemma StepSynced(st: State, step: Step, st': State)
    requires Synced(st) && ByController(step) && Next(st, step, st')
    ensures Synced(st')
  {
    hide Next, Histories, SyncedAt, SameAt;
    StepHistories(st, step, st');
    SubjectSynced(st, step, st');
    forall uid | uid in st'.gens || uid in st'.objs ensures SyncedAt(st', uid) {
      if uid != Subject(step) {
        OthersSame(st, step, st', uid);
        SameSynced(st, st', uid);
      }
    }
  }

  lemma SameSynced(st: State, st': State, uid: Text)
    requires SameAt(st, st', uid) && (uid in st'.gens || uid in st'.objs)
    requires uid in st.gens || uid in st.objs ==> SyncedAt(st, uid)
    ensures SyncedAt(st', uid)
  {
  }

  lemma SubjectSynced(st: State, step: Step, st': State)
    requires Synced(st) && ByController(step) && Next(st, step, st')
    ensures SyncedAt(st', Subject(step))
  {
    hide Follows, NamesApart, History;
    assert Subject(step) in st.objs ==> HistoryAt(st, Subject(step)) && SyncedAt(st, Subject(step));
    if step.Handle? {
      assert HistoryAt(st, Subject(step));
    }
  }

  lemma {:induction false} RunSynced(r: Run, i: nat)
    requires IsRun(r) && SingleWriter(r) && i < |r.states|
    ensures Synced(r.states[i])
  {
    hide Next, Synced, Init;
    if i == 0 {
      InitSynced(r.states[0]);
    } else {
      RunSynced(r, i - 1);
      StepSynced(r.states[i - 1], r.steps[i - 1], r.states[i]);
    }
  }

  lemma InitSynced(st: State)
    requires Init(st)
    ensures Synced(st)
  {
    hide History, NamesApart;
    forall uid | uid in st.objs ensures SyncedAt(st, uid) {
      assert HistoryAt(st, uid);
      HasVersions(st.objs[uid], uid);
    }
  }

  lemma HasVersions(o: Object, uid: Text)
    requires History(o, uid)
    ensures o.versions != []
  {
  }

  // ---------- listing first, checking later ----------

  predicate InformerStep(step: Step) {
    step.Deliver? || step.Handle?
  }

  ghost predicate OnlyInformer(r: Run, i: nat, j: nat)
    requires j <= |r.steps|
  {
    forall k :: i <= k < j ==> InformerStep(r.steps[k])
  }

  /** The delete handler of slice uid runs between the two states. */
  ghost predicate HandledIn(r: Run, i: nat, j: nat, uid: Text)
    requires j <= |r.steps|
  {
    exists k :: i <= k < j && r.steps[k] == Handle(uid)
  }

  /** The listing shows every slice of the API server, with its newest ports and endpoints, and no other. */
  ghost predicate Accurate(st: State, listed: seq<EndpointSlice>) {
    && (forall uid :: Live(st, uid) ==> exists s :: s in listed && s.uid == uid)
    && (forall s :: s in listed ==> Live(st, s.uid) && Alike(s, Last(st.objs[s.uid])))
  }

  /** What is tracked of slice uid is the same in both states. */
  predicate SameTracked(st: State, st': State, uid: Text) {
    (uid in st'.gens <==> uid in st.gens) && (uid in st.gens && uid in st'.gens ==> st'.gens[uid] == st.gens[uid])
  }

  lemma {:induction false} InformerKeeps(r: Run, i: nat, j: nat)
    requires IsRun(r) && i <= j <= |r.steps| && OnlyInformer(r, i, j)
    ensures r.states[j].objs == r.states[i].objs
    ensures forall uid :: HandledIn(r, i, j, uid) || SameTracked(r.states[i], r.states[j], uid)
    decreases j - i
  {
    hide Next, Init, SameTracked;
    if i == j {
      forall uid ensures SameTracked(r.states[i], r.states[j], uid) {
        TrackedTwice(r.states[i], r.states[i], r.states[i], uid);
      }
    } else {
      InformerKeeps(r, i, j - 1);
      var step := r.steps[j - 1];
      assert Next(r.states[j - 1], step, r.states[j]);
      InformerStepKeeps(r.states[j - 1], step, r.states[j]);
      forall uid ensures HandledIn(r, i, j, uid) || SameTracked(r.states[i], r.states[j], uid) {
        if step == Handle(uid) || HandledIn(r, i, j - 1, uid) {
          assert HandledIn(r, i, j, uid);
        } else {
          TrackedTwice(r.states[i], r.states[j - 1], r.states[j], uid);
        }
      }
    }
  }

  lemma TrackedTwice(st: State, st1: State, st2: State, uid: Text)
    ensures SameTracked(st, st, uid)
    ensures SameTracked(st, st1, uid) && SameTracked(st1, st2, uid) ==> SameTracked(st, st2, uid)
  {
  }

  lemma InformerStepKeeps(st: State, step: Step, st': State)
    requires Next(st, step, st') && InformerStep(step)
    ensures st'.objs == st.objs
    ensures forall uid :: step == Handle(uid) || SameTracked(st, st', uid)
  {
  }

  /** A delete handler runs only for slices that are gone. */
  lemma HandledIsGone(r: Run, i: nat, j: nat, uid: Text)
    requires IsRun(r) && SingleWriter(r) && i <= j <= |r.steps| && OnlyInformer(r, i, j) && HandledIn(r, i, j, uid)
    ensures !Live(r.states[j], uid)
  {
    hide Init, History, NamesApart, SameTracked;
    var k :| i <= k < j && r.steps[k] == Handle(uid);
    assert Next(r.states[k], r.steps[k], r.states[k + 1]);
    RunSynced(r, k);
    assert HistoryAt(r.states[k], uid);
    InformerKeeps(r, k, j);
  }

  /** A listed slice whose delete handler has not run since is shown as it is. */
  lemma ShownAsIs(st: State, st': State, listed: seq<EndpointSlice>, s: EndpointSlice)
    requires Synced(st) && Listing(st, listed) && !Stale(st'.gens, listed) && s in listed
    requires st'.objs == st.objs && SameTracked(st, st', s.uid)
    ensures Live(st', s.uid) && Alike(s, Last(st'.objs[s.uid]))
  {
    hide Alike, Follows, NamesApart;
    var o := st.objs[s.uid];
    assert HistoryAt(st, s.uid) && SyncedAt(st, s.uid) && !Outdated(st'.gens, s);
    VersionsGrow(o, s.uid, st.seen[s.uid] - 1, |o.versions| - 1);
  }

  /** A live slice is listed, for otherwise it would be missing. */
  lemma LiveIsListed(st: State, st': State, listed: seq<EndpointSlice>, uid: Text)
    requires Synced(st) && Listing(st, listed) && !Stale(st'.gens, listed)
    requires st'.objs == st.objs && Live(st, uid) && SameTracked(st, st', uid)
    ensures exists s :: s in listed && s.uid == uid
  {
    hide Follows, NamesApart;
    var o := st.objs[uid];
    assert HistoryAt(st, uid) && SyncedAt(st, uid);
    if uid in st.gens {
      assert Last(o).generation >= 1;
      assert !Missing(st'.gens, listed, uid);
    } else {
      SeenUid(st, uid);
      assert Seen(st, uid) in listed;
    }
  }

  /** In every run with one writer: a listing that passes StaleSlices later, after deliveries and delete handlers
      only, shows exactly the API server's slices if and only if no delete handler of a listed slice has run in
      between. */
  lemma FreshInEveryRun(r: Run, i: nat, j: nat, listed: seq<EndpointSlice>)
    requires IsRun(r) && SingleWriter(r) && i <= j <= |r.steps| && OnlyInformer(r, i, j)
    requires Listing(r.states[i], listed) && !Stale(r.states[j].gens, listed)
    ensures Accurate(r.states[j], listed) <==> forall s :: s in listed ==> !HandledIn(r, i, j, s.uid)
  {
    hide Next, Synced, Listing, Stale, Init, Alike, HandledIn, SameTracked, SingleWriter, OnlyInformer;
    var st, st' := r.states[i], r.states[j];
    RunSynced(r, i);
    InformerKeeps(r, i, j);
    if s :| s in listed && HandledIn(r, i, j, s.uid) {
      HandledIsGone(r, i, j, s.uid);
    } else {
      forall s | s in listed ensures Live(st', s.uid) && Alike(s, Last(st'.objs[s.uid])) {
        ShownAsIs(st, st', listed, s);
      }
      forall uid | Live(st', uid) ensures exists s :: s in listed && s.uid == uid {
        LiveNotHandled(r, i, j, uid);
        LiveIsListed(st, st', listed, uid);
      }
    }
  }

  lemma LiveNotHandled(r: Run, i: nat, j: nat, uid: Text)
    requires IsRun(r) && SingleWriter(r) && i <= j <= |r.steps| && OnlyInformer(r, i, j) && Live(r.states[j], uid)
    ensures !HandledIn(r, i, j, uid) && Live(r.states[i], uid) && SameTracked(r.states[i], r.states[j], uid)
  {
    hide Next, Init, SameTracked, SingleWriter, OnlyInformer, HandledIn;
    InformerKeeps(r, i, j);
    if HandledIn(r, i, j, uid) {
      HandledIsGone(r, i, j, uid);
    }
  }

  // ---------- other writers ----------

  /** What is tracked is not newer than its slice, a deletion is expected of deleted slices only, and what is tracked
      of a deleted slice has its handler still to come. */
  ghost predicate KnownAt(st: State, uid: Text) {
    && uid in st.objs && uid in st.seen && st.objs[uid].versions != []
    && (uid in st.gens ==>
          && (st.gens[uid] == DELETION_EXPECTED ==> st.objs[uid].gone)
          && st.gens[uid] <= Last(st.objs[uid]).generation
          && (st.objs[uid].gone && st.seen[uid] == Events(st.objs[uid]) ==> uid in st.pending))
  }

  ghost predicate Known(st: State) {
    && Histories(st)
    && (forall uid :: uid in st.gens || uid in st.objs ==> KnownAt(st, uid))
  }

  lemma StepKnown(st: State, step: Step, st': State)
    requires Known(st) && !step.Forget? && Next(st, step, st')
    ensures Known(st')
  {
    hide Next, Histories, KnownAt, SameAt;
    StepHistories(st, step, st');
    SubjectKnown(st, step, st');
    forall uid | uid in st'.gens || uid in st'.objs ensures KnownAt(st', uid) {
      if uid != Subject(step) {
        OthersSame(st, step, st', uid);
        SameKnown(st, st', uid);
      }
    }
  }

  lemma SameKnown(st: State, st': State, uid: Text)
    requires SameAt(st, st', uid) && (uid in st'.gens || uid in st'.objs)
    requires uid in st.gens || uid in st.objs ==> KnownAt(st, uid)
    ensures KnownAt(st', uid)
  {
  }

  lemma SubjectKnown(st: State, step: Step, st': State)
    requires Known(st) && !step.Forget? && Next(st, step, st')
    ensures KnownAt(st', Subject(step))
  {
    hide NamesApart, History, Follows;
    var uid := Subject(step);
    if uid in st.objs {
      assert HistoryAt(st, uid) && KnownAt(st, uid);
      LastGrows(st, step, st');
      NewestPositive(st.objs[uid], uid);
    }
    if step.Handle? {
      assert HistoryAt(st, uid);
    }
  }

  lemma NewestPositive(o: Object, uid: Text)
    requires History(o, uid)
    ensures o.versions != [] && Last(o).generation >= 1
  {
    hide Follows;
  }

  lemma LastGrows(st: State, step: Step, st': State)
    requires Next(st, step, st') && !step.Forget? && Subject(step) in st.objs && st.objs[Subject(step)].versions != []
    ensures Subject(step) in st'.objs && st'.objs[Subject(step)].versions != []
    ensures Last(st.objs[Subject(step)]).generation <= Last(st'.objs[Subject(step)]).generation
  {
  }

  lemma {:induction false} RunKnown(r: Run, i: nat)
    requires IsRun(r) && NeverForgets(r) && i < |r.states|
    ensures Known(r.states[i])
  {
    hide Next, Known, Init;
    if i == 0 {
      InitKnown(r.states[0]);
    } else {
      RunKnown(r, i - 1);
      StepKnown(r.states[i - 1], r.steps[i - 1], r.states[i]);
    }
  }

  lemma InitKnown(st: State)
    requires Init(st)
    ensures Known(st)
  {
    hide History, NamesApart;
    forall uid | uid in st.objs ensures KnownAt(st, uid) {
      assert HistoryAt(st, uid);
      HasVersions(st.objs[uid], uid);
    }
  }

  /** Whoever writes: once the informer has caught up and the delete handlers have run, the view is not stale. */
  lemma QuietIsNotStale(r: Run, i: nat, listed: seq<EndpointSlice>)
    requires IsRun(r) && NeverForgets(r) && i < |r.states| && Quiet(r.states[i]) && Listing(r.states[i], listed)
    ensures !Stale(r.states[i].gens, listed)
  {
    hide Next, Known, Quiet, Listing, Outdated, Missing, Init;
    var st := r.states[i];
    RunKnown(r, i);
    forall s | s in listed ensures !Outdated(st.gens, s) {
      QuietNotOutdated(st, listed, s);
    }
    forall uid ensures !Missing(st.gens, listed, uid) {
      QuietNotMissing(st, listed, uid);
    }
  }

  lemma QuietNotOutdated(st: State, listed: seq<EndpointSlice>, s: EndpointSlice)
    requires Known(st) && Quiet(st) && Listing(st, listed) && s in listed
    ensures !Outdated(st.gens, s)
  {
    hide NamesApart, History, Follows;
    assert HistoryAt(st, s.uid) && KnownAt(st, s.uid);
  }

  lemma QuietNotMissing(st: State, listed: seq<EndpointSlice>, uid: Text)
    requires Known(st) && Quiet(st) && Listing(st, listed)
    ensures !Missing(st.gens, listed, uid)
  {
    hide NamesApart, Follows;
    if uid in st.gens && st.gens[uid] != DELETION_EXPECTED {
      assert KnownAt(st, uid) && HistoryAt(st, uid);
      assert InView(st, uid);
      SeenUid(st, uid);
    }
  }

  lemma SeenUid(st: State, uid: Text)
    requires Histories(st) && InView(st, uid)
    ensures Seen(st, uid).uid == uid
  {
    hide NamesApart, Follows;
    assert HistoryAt(st, uid);
  }

  // ---------- what the assumptions are for ----------

  /** A run in which a slice has been created, the service forgotten, and nothing delivered yet: the empty listing
      passes although the API server has the slice. */
  lemma ForgettingIsUnsafe(s: EndpointSlice) returns (r: Run)
    requires s.generation >= 1
    ensures IsRun(r)
    ensures var st := r.states[|r.states| - 1];
            Live(st, s.uid) && Listing(st, []) && !Stale(st.gens, [])
  {
    var s0 := State(map[], map[], map[], {});
    var s1 := State(map[s.uid := Object([s], false)], map[s.uid := 0], map[s.uid := s.generation], {});
    var s2 := s1.(gens := map[]);
    assert Creates(s0, s1, s, s0.gens[s.uid := s.generation]);
    r := Run([s0, s1, s2], [Write(s), Forget]);
    assert Next(s0, Write(s), s1) && Next(s1, Forget, s2);
  }

  /** Create, deliver, delete by somebody else, deliver, handle; the record of the create is yet to come. */
  function LateRun(s: EndpointSlice): Run {
    var live, gone := map[s.uid := Object([s], false)], map[s.uid := Object([s], true)];
    Run([State(map[], map[], map[], {}), State(live, map[s.uid := 0], map[], {}),
         State(live, map[s.uid := 1], map[], {}),
         State(gone, map[s.uid := 1], map[], {}), State(gone, map[s.uid := 2], map[], {s.uid}),
         State(gone, map[s.uid := 2], map[], {})],
        [Foreign(s), Deliver(s.uid), ForeignRemove(s.uid), Deliver(s.uid), Handle(s.uid)])
  }

  lemma LateSteps(s: EndpointSlice)
    requires s.generation >= 1
    ensures forall i :: 0 <= i < 5 ==> Next(LateRun(s).states[i], LateRun(s).steps[i], LateRun(s).states[i + 1])
  {
    var r := LateRun(s);
    assert Creates(r.states[0], r.states[1], s, r.states[0].gens);
    assert Next(r.states[1], r.steps[1], r.states[2]);
    assert Next(r.states[2], r.steps[2], r.states[3]);
    assert Next(r.states[3], r.steps[3], r.states[4]);
    assert Next(r.states[4], r.steps[4], r.states[5]);
  }

  /** Any further steps from a state. */
  ghost predicate Path(states: seq<State>, steps: seq<Step>) {
    |states| == |steps| + 1 && forall i :: 0 <= i < |steps| ==> Next(states[i], steps[i], states[i + 1])
  }

  predicate Remembers(steps: seq<Step>) {
    forall i :: 0 <= i < |steps| ==> !steps[i].Forget?
  }

  /** Every listing is stale, now and whatever else happens, unless the service is forgotten. */
  ghost predicate StaleForGood(st: State) {
    forall states: seq<State>, steps: seq<Step>, listed: seq<EndpointSlice> |
      Path(states, steps) && states[0] == st && Remembers(steps) && Listing(states[|steps|], listed) ::
      Stale(states[|steps|].gens, listed)
  }

  /** A deleted slice that is still tracked, with its deletion not expected, and out of the informer's view. */
  predicate Unseen(st: State, uid: Text) {
    && uid in st.gens && st.gens[uid] != DELETION_EXPECTED
    && uid in st.objs && st.objs[uid].gone && !InView(st, uid)
  }

  /** Such a slice, with all its events and handlers over. */
  predicate Orphaned(st: State, uid: Text) {
    Unseen(st, uid) && uid !in st.pending && uid in st.seen && st.seen[uid] >= Events(st.objs[uid])
  }

  lemma UnseenIsStale(st: State, uid: Text, listed: seq<EndpointSlice>)
    requires Unseen(st, uid) && Listing(st, listed)
    ensures Stale(st.gens, listed)
  {
    assert forall s :: s in listed ==> s.uid != uid;
    assert Missing(st.gens, listed, uid);
  }

  lemma UnseenStep(st: State, step: Step, st': State, uid: Text)
    requires Unseen(st, uid) && Next(st, step, st') && !step.Forget?
    requires step != Deliver(uid) && step != Handle(uid)
    ensures Unseen(st', uid)
  {
    hide Follows;
  }

  lemma {:induction false} OrphanStays(states: seq<State>, steps: seq<Step>, uid: Text, i: nat)
    requires Path(states, steps) && Orphaned(states[0], uid) && i <= |steps| && Remembers(steps)
    ensures Orphaned(states[i], uid)
  {
    hide Next, Orphaned;
    if i > 0 {
      OrphanStays(states, steps, uid, i - 1);
      OrphanStep(states[i - 1], steps[i - 1], states[i], uid);
    }
  }

  lemma OrphanStep(st: State, step: Step, st': State, uid: Text)
    requires Orphaned(st, uid) && Next(st, step, st') && !step.Forget?
    ensures Orphaned(st', uid)
  {
    hide Follows;
    UnseenStep(st, step, st', uid);
  }

  lemma OrphanIsStaleForGood(st: State, uid: Text)
    requires Orphaned(st, uid)
    ensures StaleForGood(st)
  {
    hide Next, Listing, Stale, Orphaned;
    forall states: seq<State>, steps: seq<Step>, listed: seq<EndpointSlice> |
      Path(states, steps) && states[0] == st && Remembers(steps) && Listing(states[|steps|], listed)
      ensures Stale(states[|steps|].gens, listed)
    {
      OrphanStays(states, steps, uid, |steps|);
      OrphanIsUnseen(states[|steps|], uid);
      UnseenIsStale(states[|steps|], uid, listed);
    }
  }

  lemma OrphanIsUnseen(st: State, uid: Text)
    requires Orphaned(st, uid)
    ensures Unseen(st, uid)
  {
  }

  /** With the record as a step of its own the protocol can wedge: somebody deletes the new slice and the delete handler
      runs before the record is made. From then on every listing is stale, whatever happens, although the
      informer has caught up. */
  lemma LateRecordWedges(s: EndpointSlice)
    requires s.generation >= 1
    ensures IsRun(LateRun(s)) && NeverForgets(LateRun(s)) && Quiet(LateRun(s).states[5])
    ensures var st := LateRun(s).states[5];
            var wedged := st.(gens := st.gens[s.uid := s.generation]);
            Quiet(wedged) && Listing(wedged, []) && StaleForGood(wedged)
  {
    hide Next, StaleForGood;
    LateSteps(s);
    var st := LateRun(s).states[5];
    OrphanIsStaleForGood(st.(gens := st.gens[s.uid := s.generation]), s.uid);
  }

  /** As long as the delete event of a tracked slice that somebody else deleted does not come, every listing is stale,
      whatever else happens. */
  lemma {:induction false} LostDeletionWedges(states: seq<State>, steps: seq<Step>, uid: Text, i: nat,
                                              listed: seq<EndpointSlice>)
    requires Path(states, steps) && Unseen(states[0], uid) && i <= |steps| && Listing(states[i], listed)
    requires forall k :: 0 <= k < |steps| ==> !steps[k].Forget? && steps[k] != Deliver(uid) && steps[k] != Handle(uid)
    ensures Stale(states[i].gens, listed)
  {
    hide Next, Unseen, Listing, Stale;
    UnseenStays(states, steps, uid, i);
    UnseenIsStale(states[i], uid, listed);
  }

  lemma {:induction false} UnseenStays(states: seq<State>, steps: seq<Step>, uid: Text, i: nat)
    requires Path(states, steps) && Unseen(states[0], uid) && i <= |steps|
    requires forall k :: 0 <= k < |steps| ==> !steps[k].Forget? && steps[k] != Deliver(uid) && steps[k] != Handle(uid)
    ensures Unseen(states[i], uid)
  {
    hide Next, Unseen;
    if i > 0 {
      UnseenStays(states, steps, uid, i - 1);
      UnseenStep(states[i - 1], steps[i - 1], states[i], uid);
    }
  }

  /** Create, deliver, delete, deliver, handle, all by the controller. */
  function HandledRun(s: EndpointSlice): Run {
    var live, gone := map[s.uid := Object([s], false)], map[s.uid := Object([s], true)];
    Run([State(map[], map[], map[], {}),
         State(live, map[s.uid := 0], map[s.uid := s.generation], {}),
         State(live, map[s.uid := 1], map[s.uid := s.generation], {}),
         State(gone, map[s.uid := 1], map[s.uid := DELETION_EXPECTED], {}),
         State(gone, map[s.uid := 2], map[s.uid := DELETION_EXPECTED], {s.uid}),
         State(gone, map[s.uid := 2], map[], {})],
        [Write(s), Deliver(s.uid), Remove(s.uid), Deliver(s.uid), Handle(s.uid)])
  }

  lemma HandledSteps(s: EndpointSlice)
    requires s.generation >= 1
    ensures forall i :: 0 <= i < 5 ==>
              Next(HandledRun(s).states[i], HandledRun(s).steps[i], HandledRun(s).states[i + 1])
  {
    var r := HandledRun(s);
    assert Creates(r.states[0], r.states[1], s, r.states[0].gens[s.uid := s.generation]);
    assert Next(r.states[1], r.steps[1], r.states[2]);
    assert Next(r.states[2], r.steps[2], r.states[3]);
    assert Next(r.states[3], r.steps[3], r.states[4]);
    assert Next(r.states[4], r.steps[4], r.states[5]);
  }

  /** One writer is not enough when the delete handler runs between the listing and the check: the slice listed in the
      fourth state is gone, and the check in the last state does not notice. */
  lemma HandlerInBetween(s: EndpointSlice)
    requires s.generation >= 1
    ensures IsRun(HandledRun(s)) && SingleWriter(HandledRun(s)) && OnlyInformer(HandledRun(s), 3, 5)
    ensures var r := HandledRun(s);
            Listing(r.states[3], [s]) && !Stale(r.states[5].gens, [s]) && !Accurate(r.states[5], [s])
  {
    hide Next;
    HandledSteps(s);
    var r := HandledRun(s);
    assert Seen(r.states[3], s.uid) == s;
    assert s in [s] && !Live(r.states[5], s.uid);
  }
}
