/** The coalescing change trackers of pkg/proxy/controllers/service.go and pod.go: both collect, per object, what was
    last applied and what is wanted now, and cancel changes that lead back. One model serves both. */
module ChangeTrackers {
  import opened Wrappers
  import opened Discovery

  /** How objects become entries of the map: the key of an object, its entries (None where the source has a nil map),
      and the object an entry belongs to. */
  datatype Scheme<!O(!new), !K(!new), V> = Scheme(
    key: O -> NamespacedName, entries: O -> Option<map<K, V>>, owner: K -> NamespacedName)

  /** Entries of an object belong to it. */
  ghost predicate SchemeOk<O(!new), K(!new), V>(s: Scheme<O, K, V>) {
    forall o, k :: s.entries(o).Some? && k in s.entries(o).value ==> s.owner(k) == s.key(o)
  }

  datatype Change<K, V> = Change(previous: Option<map<K, V>>, current: Option<map<K, V>>)

  function Entries<O(!new), K(!new), V>(s: Scheme<O, K, V>, o: Option<O>): Option<map<K, V>> {
    if o.Some? then s.entries(o.value) else None
  }

  /** A nil map holds nothing. */
  function Plain<K, V>(m: Option<map<K, V>>): map<K, V> {
    if m.Some? then m.value else map[]
  }

  /** The latest version of an object, if it exists. */
  function LatestOf<O>(live: map<NamespacedName, O>, nn: NamespacedName): Option<O> {
    if nn in live then Some(live[nn]) else None
  }

  /** The entries of m that belong to nn are exactly those of part. */
  ghost predicate PartIs<O(!new), K(!new), V>(s: Scheme<O, K, V>, m: map<K, V>, nn: NamespacedName, part: map<K, V>) {
    forall k: K :: s.owner(k) == nn ==> (k in m <==> k in part) && (k in m && k in part ==> m[k] == part[k])
  }

  /** m and the collected changes together stand for the live objects. */
  ghost predicate Tracks<O(!new), K(!new), V>(s: Scheme<O, K, V>, m: map<K, V>,
                                              items: map<NamespacedName, Change<K, V>>, live: map<NamespacedName, O>)
  {
    && SchemeOk(s)
    && (forall nn :: nn in live ==> s.key(live[nn]) == nn)
    && forall nn :: TracksAt(s, m, items, live, nn)
  }

  ghost predicate TracksAt<O(!new), K(!new), V>(s: Scheme<O, K, V>, m: map<K, V>,
                                                items: map<NamespacedName, Change<K, V>>, live: map<NamespacedName, O>,
                                                nn: NamespacedName)
  {
    var wanted := Plain(Entries(s, LatestOf(live, nn)));
    if nn in items then
      && PartIs(s, m, nn, Plain(items[nn].previous)) && Plain(items[nn].current) == wanted
      && Belongs(s, nn, items[nn].previous) && Belongs(s, nn, items[nn].current)
    else PartIs(s, m, nn, wanted)
  }

  ghost predicate Belongs<O(!new), K(!new), V>(s: Scheme<O, K, V>, nn: NamespacedName, part: Option<map<K, V>>) {
    forall k :: k in Plain(part) ==> s.owner(k) == nn
  }

  /** The live objects after one event. */
  function NextLive<O>(live: map<NamespacedName, O>, nn: NamespacedName, current: Option<O>): map<NamespacedName, O> {
    if current.Some? then live[nn := current.value] else live - {nn}
  }

  lemma EntriesBelong<O(!new), K(!new), V>(s: Scheme<O, K, V>, o: Option<O>, nn: NamespacedName)
    requires SchemeOk(s) && (o.Some? ==> s.key(o.value) == nn)
    ensures Belongs(s, nn, Entries(s, o))
  {
  }

  class ChangeTracker<O(!new), K(==, !new), V(==)> {
    const scheme: Scheme<O, K, V>
    var items: map<NamespacedName, Change<K, V>>

    constructor (scheme: Scheme<O, K, V>)
      ensures this.scheme == scheme && items == map[]
    {
      this.scheme := scheme;
      items := map[];
    }

    /** An event of one object. When each event's previous version is the one delivered last, map and changes keep
        standing for the live objects, also when the change cancels out. */
    method Update(previous: Option<O>, current: Option<O>, ghost m: map<K, V>, ghost live: map<NamespacedName, O>)
      returns (told: bool)
      requires previous.Some? && current.Some? ==> scheme.key(previous.value) == scheme.key(current.value)
      modifies this
      ensures told <==> previous.Some? || current.Some?
      ensures !told ==> items == old(items)
      ensures told ==>
                var nn := scheme.key(if current.Some? then current.value else previous.value);
                && items - {nn} == old(items) - {nn}
                && (Tracks(scheme, m, old(items), live) && previous == LatestOf(live, nn) ==>
                      Tracks(scheme, m, items, NextLive(live, nn, current)))
    {
      if current.None? && previous.None? {
        return false;
      }
      var namespacedName := scheme.key(if current.Some? then current.value else previous.value);
      var change;
      if namespacedName in items {
        change := items[namespacedName];
      } else {
        change := Change(Entries(scheme, previous), None);
      }
      change := change.(current := Entries(scheme, current));
      ghost var before := items;
      if change.previous == change.current {
        items := items - {namespacedName};
      } else {
        items := items[namespacedName := change];
      }
      if Tracks(scheme, m, before, live) && previous == LatestOf(live, namespacedName) {
        UpdateTracks(scheme, m, before, items, live, namespacedName, current, change);
      }
      told := true;
    }
  }

  lemma UpdateTracks<O(!new), K(!new), V>(s: Scheme<O, K, V>, m: map<K, V>, before: map<NamespacedName, Change<K, V>>,
                                          items: map<NamespacedName, Change<K, V>>, live: map<NamespacedName, O>,
                                          nn: NamespacedName, current: Option<O>, change: Change<K, V>)
    requires Tracks(s, m, before, live) && (current.Some? ==> s.key(current.value) == nn)
    requires change == Change(if nn in before then before[nn].previous else Entries(s, LatestOf(live, nn)),
                              Entries(s, current))
    requires items == if change.previous == change.current then before - {nn} else before[nn := change]
    ensures Tracks(s, m, items, NextLive(live, nn, current))
  {
    hide PartIs, SchemeOk, Belongs;
    var next := NextLive(live, nn, current);
    EntriesBelong(s, current, nn);
    EntriesBelong(s, LatestOf(live, nn), nn);
    assert TracksAt(s, m, before, live, nn);
    forall other ensures TracksAt(s, m, items, next, other) {
      assert TracksAt(s, m, before, live, other);
      if other != nn {
        assert LatestOf(next, other) == LatestOf(live, other);
      }
    }
  }

  // ---------- applying ----------

  class TrackedMap<O(!new), K(==, !new), V(==)> {
    var m: map<K, V>

    constructor ()
      ensures m == map[]
    {
      m := map[];
    }

    method Merge(other: map<K, V>)
      modifies this
      ensures m == old(m) + other
    {
      var todo := other;
      while todo != map[]
        invariant m + todo == old(m) + other
        decreases |todo|
      {
        var k :| k in todo;
        MoveOne(m, todo, k);
        m := m[k := todo[k]];
        todo := todo - {k};
      }
      assert m + todo == m;
    }

    method Unmerge(other: map<K, V>)
      modifies this
      ensures m == old(m) - other.Keys
    {
      var todo := other.Keys;
      while todo != {}
        invariant todo <= other.Keys
        invariant m == old(m) - (other.Keys - todo)
        decreases |todo|
      {
        var k :| k in todo;
        todo := todo - {k};
        m := m - {k};
      }
    }

    /** apply: afterwards nothing is pending and the map holds exactly the entries of the live objects, whatever was
        collected or cancelled since the last time and in whatever order the changes are taken. */
    method Apply(changes: ChangeTracker<O, K, V>, ghost live: map<NamespacedName, O>)
      requires Tracks(changes.scheme, m, changes.items, live)
      modifies this, changes
      ensures changes.items == map[] && Tracks(changes.scheme, m, map[], live)
      ensures forall k :: k in m <==> EntryOf(changes.scheme, live, k)
      ensures forall k | k in m ::
                var entries := Plain(Entries(changes.scheme, LatestOf(live, changes.scheme.owner(k))));
                k in entries && m[k] == entries[k]
    {
      hide Tracks, PartIs;
      ghost var s := changes.scheme;
      var todo := changes.items;
      while todo != map[]
        invariant Tracks(s, m, todo, live)
        invariant changes.scheme == s
        decreases |todo|
      {
        var nn :| nn in todo;
        var change := todo[nn];
        ghost var before := m;
        Unmerge(Plain(change.previous));
        Merge(Plain(change.current));
        ApplyTracks(s, before, m, todo, live, nn);
        todo := todo - {nn};
      }
      changes.items := map[];
      AllTracked(s, m, live);
    }
  }

  /** k is an entry of a live object. */
  ghost predicate EntryOf<O(!new), K(!new), V>(s: Scheme<O, K, V>, live: map<NamespacedName, O>, k: K) {
    exists nn :: nn in live && k in Plain(s.entries(live[nn]))
  }

  lemma ApplyTracks<O(!new), K(!new), V>(s: Scheme<O, K, V>, m: map<K, V>, m': map<K, V>,
                                         items: map<NamespacedName, Change<K, V>>, live: map<NamespacedName, O>,
                                         nn: NamespacedName)
    requires Tracks(s, m, items, live) && nn in items
    requires m' == (m - Plain(items[nn].previous).Keys) + Plain(items[nn].current)
    ensures Tracks(s, m', items - {nn}, live)
  {
    assert TracksAt(s, m, items, live, nn);
    forall other ensures TracksAt(s, m', items - {nn}, live, other) {
      assert TracksAt(s, m, items, live, other);
    }
  }

  lemma AllTracked<O(!new), K(!new), V>(s: Scheme<O, K, V>, m: map<K, V>, live: map<NamespacedName, O>)
    requires Tracks(s, m, map[], live)
    ensures forall k :: k in m <==> EntryOf(s, live, k)
    ensures forall k | k in m ::
              var entries := Plain(Entries(s, LatestOf(live, s.owner(k))));
              k in entries && m[k] == entries[k]
  {
    forall k
      ensures k in m <==> EntryOf(s, live, k)
      ensures k in m ==> k in Plain(Entries(s, LatestOf(live, s.owner(k))))
                         && m[k] == Plain(Entries(s, LatestOf(live, s.owner(k))))[k]
    {
      assert TracksAt(s, m, map[], live, s.owner(k));
      if EntryOf(s, live, k) {
        var nn :| nn in live && k in Plain(s.entries(live[nn]));
        assert s.owner(k) == nn;
      }
    }
  }

  // ---------- any sequence of events and syncs ----------

  datatype Op<O> = Event(nn: NamespacedName, current: Option<O>) | Sync

  function LiveAfter<O>(ops: seq<Op<O>>): map<NamespacedName, O> {
    if ops == [] then map[]
    else
      var before, op := LiveAfter(ops[..|ops| - 1]), ops[|ops| - 1];
      if op.Event? then NextLive(before, op.nn, op.current) else before
  }

  /** Replaying any events, with syncs anywhere between them, and syncing: the map is the union of the entries of the
      objects that are live then. */
  method Replay<O(!new), K(==, !new), V(==)>(scheme: Scheme<O, K, V>, ops: seq<Op<O>>)
    returns (final: TrackedMap<O, K, V>)
    requires SchemeOk(scheme)
    requires forall i :: 0 <= i < |ops| && ops[i].Event? && ops[i].current.Some? ==>
               scheme.key(ops[i].current.value) == ops[i].nn
    ensures forall k :: k in final.m <==> EntryOf(scheme, LiveAfter(ops), k)
    ensures forall k | k in final.m ::
              var entries := Plain(Entries(scheme, LatestOf(LiveAfter(ops), scheme.owner(k))));
              k in entries && final.m[k] == entries[k]
  {
    hide Tracks, PartIs, SchemeOk;
    final := new TrackedMap();
    var tracker := new ChangeTracker(scheme);
    var live: map<NamespacedName, O> := map[];
    NothingTracked<O, K, V>(scheme);
    for i := 0 to |ops|
      invariant live == LiveAfter(ops[..i]) && tracker.scheme == scheme
      invariant Tracks(scheme, final.m, tracker.items, live)
      invariant fresh(final) && fresh(tracker)
    {
      assert ops[..i + 1][..i] == ops[..i];
      match ops[i]
      case Sync => final.Apply(tracker, live);
      case Event(nn, current) =>
        var previous := LatestOf(live, nn);
        if nn in live {
          LiveKey(scheme, final.m, tracker.items, live, nn);
        }
        if previous.None? && current.None? {
          assert live - {nn} == live;
        }
        var told := tracker.Update(previous, current, final.m, live);
        live := NextLive(live, nn, current);
    }
    assert ops[..|ops|] == ops;
    final.Apply(tracker, live);
  }

  lemma NothingTracked<O(!new), K(!new), V>(s: Scheme<O, K, V>)
    requires SchemeOk(s)
    ensures Tracks(s, map[], map[], map[])
  {
  }

  lemma LiveKey<O(!new), K(!new), V>(s: Scheme<O, K, V>, m: map<K, V>, items: map<NamespacedName, Change<K, V>>,
                                     live: map<NamespacedName, O>, nn: NamespacedName)
    requires Tracks(s, m, items, live) && nn in live
    ensures s.key(live[nn]) == nn
  {
  }
}
