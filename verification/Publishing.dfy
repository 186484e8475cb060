/** What finalize's calls (pkg/service-controller/reconciler.go) do to the published endpoints: nothing that stays
    desired is ever missing on the way, and at the end everything desired is published exactly once. */
module Publishing {
  import opened Wrappers
  import opened Discovery
  import opened Packing
  import opened Recycling
  import opened Writes

  // ---------- how far the calls have got ----------

  /** The names given to the slices created so far, and how many updates and deletes are done. */
  datatype Stage = Stage(created: seq<Text>, updated: nat, deleted: nat)

  /** The changes fit the store: they update and delete slices that are there, no slice twice. */
  ghost predicate Legal(s0: Store, r: Changes) {
    && (forall s :: s in r.updates || s in r.deletes ==> s.name in s0)
    && DistinctNames(r.updates) && DistinctNames(r.deletes)
    && (forall u, d :: u in r.updates && d in r.deletes ==> u.name != d.name)
  }

  ghost predicate Shelved(s: Store) {
    forall n :: n in s ==> s[n].name == n
  }

  ghost predicate Bounds(creates: seq<EndpointSlice>, r: Changes, at: Stage) {
    && |at.created| <= |creates| && at.updated <= |r.updates| && at.deleted <= |r.deletes|
    && (at.updated > 0 ==> |at.created| == |creates|)
    && (at.deleted > 0 ==> |at.created| == |creates| && at.updated == |r.updates|)
  }

  ghost predicate FreshNames(s0: Store, names: seq<Text>) {
    && (forall i, j :: 0 <= i < j < |names| ==> names[i] != names[j])
    && (forall n :: n in names ==> n !in s0)
  }

  /** The store after the first calls, name by name. */
  ghost predicate Reached(s0: Store, creates: seq<EndpointSlice>, r: Changes, at: Stage, s: Store) {
    && Bounds(creates, r, at) && FreshNames(s0, at.created) && Shelved(s)
    && (forall n :: n in s <==> (n in s0 || n in at.created) && n !in Names(r.deletes[..at.deleted]))
    && (forall i :: 0 <= i < |at.created| ==> at.created[i] in s && Stored(s[at.created[i]], creates[i]))
    && (forall i :: 0 <= i < at.updated ==> r.updates[i].name in s && Stored(s[r.updates[i].name], r.updates[i]))
    && (forall n :: n in s && n in s0 && n !in Names(r.updates[..at.updated]) ==> s[n] == s0[n])
  }

  lemma NothingReached(s0: Store, creates: seq<EndpointSlice>, r: Changes)
    requires Shelved(s0)
    ensures Reached(s0, creates, r, Stage([], 0, 0), s0)
  {
  }

  lemma ReachCreate(s0: Store, creates: seq<EndpointSlice>, r: Changes, at: Stage, m: Moment, m': Moment,
                    t: EndpointSlice)
    requires Legal(s0, r) && Reached(s0, creates, r, at, m.store)
    requires |at.created| < |creates| && at.updated == 0 && at.deleted == 0
    requires NewAt(m, creates[|at.created|], t) && m'.store == m.store[t.name := t]
    ensures Reached(s0, creates, r, at.(created := at.created + [t.name]), m'.store)
  {
    hide DistinctNames, Stored;
    assert Names(r.deletes[..0]) == {};
    var names := at.created + [t.name];
    assert forall n :: n in names <==> n in at.created || n == t.name;
    assert forall n :: n in s0 ==> n in m.store;
    forall i | 0 <= i < |names| ensures names[i] in m'.store && Stored(m'.store[names[i]], creates[i]) {
      if i < |at.created| {
        assert at.created[i] != t.name;
      }
    }
  }

  lemma NamesUpTo(slices: seq<EndpointSlice>, i: nat)
    requires i < |slices|
    ensures Names(slices[..i + 1]) == Names(slices[..i]) + {slices[i].name}
    ensures DistinctNames(slices) ==> slices[i].name !in Names(slices[..i])
  {
    assert slices[..i + 1] == slices[..i] + [slices[i]];
    if DistinctNames(slices) {
      forall s | s in slices[..i] ensures s.name != slices[i].name {
        var j :| 0 <= j < i && slices[j] == s;
      }
    }
  }

  lemma NameUpTo(slices: seq<EndpointSlice>, i: nat, j: nat)
    requires j < i <= |slices|
    ensures slices[j].name in Names(slices[..i])
  {
    assert slices[..i][j] == slices[j];
  }

  lemma ReachUpdate(s0: Store, creates: seq<EndpointSlice>, r: Changes, at: Stage, s: Store, u: EndpointSlice,
                    t: EndpointSlice)
    requires Legal(s0, r) && Reached(s0, creates, r, at, s)
    requires |at.created| == |creates| && at.updated < |r.updates| && at.deleted == 0
    requires u == r.updates[at.updated] && Stored(t, u) && t.name == u.name && u.name in s
    ensures Reached(s0, creates, r, at.(updated := at.updated + 1), s[u.name := t])
  {
    hide Stored, Names, DistinctNames;
    NamesUpTo(r.updates, at.updated);
    assert u in r.updates && u.name in s0;
    var s' := s[u.name := t];
    forall i | 0 <= i < |at.created| ensures at.created[i] in s' && Stored(s'[at.created[i]], creates[i]) {
      assert at.created[i] in at.created;
    }
    forall i | 0 <= i < at.updated + 1 ensures r.updates[i].name in s' && Stored(s'[r.updates[i].name], r.updates[i]) {
      if i < at.updated {
        NameUpTo(r.updates, at.updated, i);
      }
    }
  }

  lemma ReachDelete(s0: Store, creates: seq<EndpointSlice>, r: Changes, at: Stage, s: Store, d: EndpointSlice)
    requires Legal(s0, r) && Reached(s0, creates, r, at, s)
    requires |at.created| == |creates| && at.updated == |r.updates| && at.deleted < |r.deletes|
    requires d == r.deletes[at.deleted]
    ensures Reached(s0, creates, r, at.(deleted := at.deleted + 1), s - {d.name})
  {
    hide Stored, Names, DistinctNames;
    NamesUpTo(r.deletes, at.deleted);
    assert d in r.deletes && d.name in s0;
    var s' := s - {d.name};
    forall i | 0 <= i < |at.created| ensures at.created[i] in s' && Stored(s'[at.created[i]], creates[i]) {
      assert at.created[i] in at.created;
    }
    forall i | 0 <= i < at.updated ensures r.updates[i].name in s' && Stored(s'[r.updates[i].name], r.updates[i]) {
      assert r.updates[i] in r.updates;
    }
  }

  /** After i calls of a run the store is what the first i calls say. */
  lemma {:induction false} StageOf(svc: Service, r: Changes, run: seq<Moment>, i: nat) returns (at: Stage)
    requires Run(run, Calls(svc, r)) && i < |run| && Shelved(run[0].store) && Legal(run[0].store, r)
    ensures Reached(run[0].store, Creates(svc, r), r, at, run[i].store)
    ensures |at.created| + at.updated + at.deleted == i
  {
    hide Reached, Legal, Calls, Shelved, NewAt, Handled;
    var s0, creates := run[0].store, Creates(svc, r);
    if i == 0 {
      at := Stage([], 0, 0);
      NothingReached(s0, creates, r);
    } else {
      at := StageOf(svc, r, run, i - 1);
      var m' := run[i];
      var call := Calls(svc, r)[i - 1];
      assert Wrote(run[i - 1], call, m');
      var m :| Handled(run[i - 1], m) && Called(m, call, m');
      HandledKeeps(run[i - 1], m);
      CallAt(svc, r, i - 1);
      ReachedBounds(s0, creates, r, at, m.store);
      match call
      case Create(c) =>
        var t :| NewAt(m, c, t) && m'.store == m.store[t.name := t];
        ReachCreate(s0, creates, r, at, m, m', t);
        at := at.(created := at.created + [t.name]);
      case Update(u) =>
        ReachUpdate(s0, creates, r, at, m.store, u, Revised(m.store[u.name], u));
        at := at.(updated := at.updated + 1);
      case Delete(d) =>
        ReachDelete(s0, creates, r, at, m.store, d);
        at := at.(deleted := at.deleted + 1);
    }
  }

  lemma ReachedBounds(s0: Store, creates: seq<EndpointSlice>, r: Changes, at: Stage, s: Store)
    requires Reached(s0, creates, r, at, s)
    ensures Bounds(creates, r, at)
  {
  }
}
