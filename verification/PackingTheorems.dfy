/** What follows from the three phases of reconcileByPortMapping, for every list of existing slices
    (duplicates within and across slices included), every set of desired endpoints and every pop order. */
module PackingTheorems {
  import opened Wrappers
  import opened Discovery
  import opened EndpointSets
  import opened Packing

  /** The slices of the port map once creates, updates and deletes are applied. */
  function Survivors(existing: seq<EndpointSlice>, p: Packing): seq<EndpointSlice>
    requires Names(existing) <= p.final.byName.Keys
  {
    Live(existing, p.final.byName, p.final.toDelete) + p.creates
  }

  /** Every desired endpoint is published exactly once, and nothing else is. */
  lemma ExactlyOnce(svc: Service, max: nat, meta: EndpointMeta, existing: seq<EndpointSlice>, d0: Items, p: Packing)
    requires max >= 1 && Packed(svc, max, meta, existing, d0, p)
    ensures forall k :: Copies(Survivors(existing, p), k) == One(k in d0)
  {
    hide Phases, Live, Sorted, Lists, TotalEndpoints;
    forall k ensures Copies(Survivors(existing, p), k) == One(k in d0) {
      CopiesConcat(Live(existing, p.final.byName, p.final.toDelete), p.creates, k);
    }
  }

  /** Unchanged, updated and deleted slices partition the existing ones. */
  lemma Partition(svc: Service, max: nat, meta: EndpointMeta, existing: seq<EndpointSlice>, d0: Items, p: Packing)
    requires max >= 1 && Packed(svc, max, meta, existing, d0, p) && DistinctNames(existing)
    ensures Names(p.updates) + Names(p.deletes) + p.final.intact == Names(existing)
    ensures Names(p.updates) !! Names(p.deletes) !! p.final.intact
    ensures |p.updates| + |p.deletes| + |p.final.intact| == |existing|
    ensures forall s :: s in p.deletes ==> s in existing
    ensures forall s :: s in existing && s.name in p.final.intact ==> Cur(p.final, s.name) == s
  {
    hide Phases, Conserved, TotalEndpoints, Avail, Sorted, Lists, Cur, Names;
    ListNames(p.updates, p.final.toUpdate, p.final);
    ListNames(p.deletes, p.final.toDelete, p.final);
    ThreeSets(existing, p.final);
    Unchanged(existing, p.final, p.deletes);
  }

  lemma ThreeSets(existing: seq<EndpointSlice>, t: Sorting)
    requires Sorted(existing, t) && DistinctNames(existing)
    ensures t.toUpdate + t.toDelete + t.intact == Names(existing) && t.toUpdate !! t.toDelete !! t.intact
    ensures |t.toUpdate| + |t.toDelete| + |t.intact| == |existing|
  {
    hide Names, DistinctNames, Cur, SameFrame;
    CountNames(existing);
    CountThree(t.toUpdate, t.toDelete, t.intact, Names(existing));
  }

  lemma CountThree(a: set<Text>, b: set<Text>, c: set<Text>, all: set<Text>)
    requires a !! b !! c && a + b + c == all
    ensures |a| + |b| + |c| == |all|
  {
    assert all == (a + b) + c;
  }

  lemma Unchanged(existing: seq<EndpointSlice>, t: Sorting, deletes: seq<EndpointSlice>)
    requires Sorted(existing, t) && Lists(deletes, t.toDelete, t)
    ensures forall s :: s in deletes ==> s in existing
    ensures forall s :: s in existing && s.name in t.intact ==> Cur(t, s.name) == s
  {
    forall s | s in deletes ensures s in existing {
      assert s.name in Names(existing);
      var r :| r in existing && r.name == s.name;
    }
  }

  lemma ListNames(slices: seq<EndpointSlice>, names: set<Text>, t: Sorting)
    requires Lists(slices, names, t)
    ensures Names(slices) == names && |slices| == |names|
  {
  }

  lemma {:induction false} CountNames(slices: seq<EndpointSlice>)
    requires DistinctNames(slices)
    ensures |Names(slices)| == |slices|
  {
    if slices != [] {
      var front, last := slices[..|slices| - 1], slices[|slices| - 1];
      CountNames(front);
      assert slices == front + [last];
      assert Names(slices) == Names(front) + {last.name};
      assert last.name !in Names(front);
    }
  }

  // ---------- growing ----------

  /** Slices only ever gain endpoints after phase 1, and never past max. */
  ghost predicate OnlyGrew(t: Sorting, t': Sorting, max: nat, d: Items) {
    && t'.toDelete == t.toDelete && t'.byName.Keys == t.byName.Keys
    && t.toUpdate <= t'.toUpdate && t'.intact <= t.intact
    && forall n :: n in t.byName ==>
         Cur(t', n) == Cur(t, n) || (n !in t.toDelete && Grew(Cur(t, n), Cur(t', n), max, d))
  }

  lemma SecondGrows(max: nat, t: Sorting, d: Items, t': Sorting, left: Items)
    requires ToppedUp(max, t, t.toUpdate, d, t', left) && t.toUpdate !! t.toDelete
    ensures OnlyGrew(t, t', max, d) && t'.intact == t.intact && t'.toUpdate == t.toUpdate
  {
    hide Grew, Cur, Size;
  }

  lemma ThirdGrows(svc: Service, max: nat, meta: EndpointMeta, t: Sorting, d: Items, count: nat,
                   t': Sorting, creates: seq<EndpointSlice>)
    requires max >= 1 && Placed(svc, max, meta, t, d, count, t', creates)
    requires t.intact !! t.toDelete && t.intact <= t.byName.Keys
    ensures OnlyGrew(t, t', max, d)
    ensures forall s :: s in creates ==> NewSlice(s, svc, meta, d)
  {
    hide Grew, NewSlice, Fits;
    if t' != t {
      var n :| BestFit(t, n, count % max, max) && FilledInto(t, t', n, count % max, max, d);
      assert forall m :: m != n ==> Cur(t', m) == Cur(t, m);
    }
  }

  /** Both growing phases together, seen from the outcome of phase 1. */
  ghost predicate Grown(svc: Service, meta: EndpointMeta, existing: seq<EndpointSlice>, d0: Items, max: nat,
                        swept: Sorting, topped: Sorting, final: Sorting, creates: seq<EndpointSlice>)
  {
    && Swept(svc, existing, |existing|, d0, swept)
    && OnlyGrew(swept, topped, max, d0) && OnlyGrew(topped, final, max, d0)
    && forall s :: s in creates ==> NewSlice(s, svc, meta, d0)
  }

  lemma PhasesGrow(svc: Service, max: nat, meta: EndpointMeta, existing: seq<EndpointSlice>, d0: Items,
                   swept: Sorting, topped: Sorting, left: Items, placed: Sorting, creates: seq<EndpointSlice>)
    requires max >= 1 && Phases(svc, max, meta, existing, d0, swept, topped, left, placed, creates)
    ensures Grown(svc, meta, existing, d0, max, swept, topped, placed, creates)
  {
    hide ToppedUp, Placed, OnlyGrew, NewSlice, Avail, Grew, SweptAt, PartOf;
    var avail := Avail(existing, |existing|, d0);
    SortedSets(svc, existing, d0, swept);
    SecondGrows(max, swept, avail, topped, left);
    GrewKeys(swept, topped, max, avail);
    ThirdGrows(svc, max, meta, topped, left, |left|, placed, creates);
    AvailPart(existing, d0);
    Widen(swept, topped, max, avail, d0);
    PartOfTrans(left, avail, d0);
    Widen(topped, placed, max, left, d0);
    forall s | s in creates ensures NewSlice(s, svc, meta, d0) {
      WidenNew(s, svc, meta, left, d0);
    }
  }

  lemma SortedSets(svc: Service, existing: seq<EndpointSlice>, d0: Items, t: Sorting)
    requires Swept(svc, existing, |existing|, d0, t)
    ensures t.toUpdate !! t.toDelete && t.intact !! t.toDelete && t.intact <= t.byName.Keys
  {
    assert existing[..|existing|] == existing;
  }

  lemma GrewKeys(t: Sorting, t': Sorting, max: nat, d: Items)
    requires OnlyGrew(t, t', max, d)
    ensures t'.toDelete == t.toDelete && t'.byName.Keys == t.byName.Keys
  {
  }

  lemma AvailPart(existing: seq<EndpointSlice>, d0: Items)
    ensures PartOf(Avail(existing, |existing|, d0), d0)
  {
  }

  lemma PartOfTrans(a: Items, b: Items, c: Items)
    requires PartOf(a, b) && PartOf(b, c)
    ensures PartOf(a, c)
  {
  }

  lemma Widen(t: Sorting, t': Sorting, max: nat, d: Items, d0: Items)
    requires OnlyGrew(t, t', max, d) && PartOf(d, d0)
    ensures OnlyGrew(t, t', max, d0)
  {
    hide Cur;
  }

  lemma WidenNew(s: EndpointSlice, svc: Service, meta: EndpointMeta, d: Items, d0: Items)
    requires NewSlice(s, svc, meta, d) && PartOf(d, d0)
    ensures NewSlice(s, svc, meta, d0)
  {
    hide NewEndpointSlice;
  }

  lemma KeySetGrows(s: EndpointSlice, r: EndpointSlice, max: nat, d: Items)
    requires r == s || Grew(s, r, max, d)
    ensures KeySet(s.endpoints) <= KeySet(r.endpoints)
    ensures |s.endpoints| <= |r.endpoints| && (|r.endpoints| <= max || r == s)
  {
  }

  // ---------- kept in place ----------

  lemma FirstHolder(existing: seq<EndpointSlice>, i: nat, k: EndpointKey) returns (j: nat)
    requires i < |existing| && k in KeySet(existing[i].endpoints)
    ensures j <= i && k in KeySet(existing[j].endpoints) && k !in Seen(existing[..j])
  {
    if k in Seen(existing[..i]) {
      var s, e :| s in existing[..i] && e in s.endpoints && KeyOf(e) == k;
      var h :| 0 <= h < i && existing[h] == s;
      j := FirstHolder(existing, h, k);
    } else {
      j := i;
    }
  }

  /** A desired endpoint that is published stays published by the slice that lists it first: that slice
      is not deleted and its final form still holds the endpoint. */
  lemma KeptInPlace(svc: Service, max: nat, meta: EndpointMeta, existing: seq<EndpointSlice>, d0: Items, p: Packing,
                    i: nat, k: EndpointKey)
    returns (j: nat)
    requires max >= 1 && Packed(svc, max, meta, existing, d0, p) && WellKeyed(d0)
    requires i < |existing| && k in KeySet(existing[i].endpoints) && k in d0
    ensures j <= i && k in KeySet(existing[j].endpoints)
    ensures existing[j].name !in p.final.toDelete
    ensures k in KeySet(Cur(p.final, existing[j].name).endpoints)
  {
    hide Conserved, Lists, Phases, Sorted, TotalEndpoints, KeySet, Seen, Avail;
    j := FirstHolder(existing, i, k);
    var swept, topped, left :| Phases(svc, max, meta, existing, d0, swept, topped, left, p.final, p.creates);
    PhasesGrow(svc, max, meta, existing, d0, swept, topped, left, p.final, p.creates);
    StaysIn(svc, max, meta, existing, d0, swept, topped, p.final, p.creates, j, k);
  }

  lemma StaysIn(svc: Service, max: nat, meta: EndpointMeta, existing: seq<EndpointSlice>, d0: Items,
                swept: Sorting, topped: Sorting, final: Sorting, creates: seq<EndpointSlice>, j: nat, k: EndpointKey)
    requires Grown(svc, meta, existing, d0, max, swept, topped, final, creates) && WellKeyed(d0)
    requires j < |existing| && k in KeySet(existing[j].endpoints) && k !in Seen(existing[..j]) && k in d0
    ensures existing[j].name !in final.toDelete && k in KeySet(Cur(final, existing[j].name).endpoints)
  {
    hide KeySet, Seen, Judge, Judged, Grew, NewSlice, Keys;
    var s, avail := existing[j], Avail(existing, j, d0);
    assert SweptAt(svc, existing, j, d0, swept);
    JudgedKeys(svc, s, avail, k);
    KeysAre(Judged(svc, s, avail).endpoints);
    KeySetGrows(Cur(swept, s.name), Cur(topped, s.name), max, d0);
    KeySetGrows(Cur(topped, s.name), Cur(final, s.name), max, d0);
  }

  // ---------- what survives is up to date, labelled and within bounds ----------

  /** The final form of every slice that is not deleted. */
  ghost predicate GoodSlice(s: EndpointSlice, svc: Service, d0: Items) {
    Faithful(s.endpoints, d0) && WellLabelled(s, svc)
  }

  /** Every surviving slice holds desired endpoints in their desired form and carries the service's labels;
      every new slice is a service slice of the port map with between 1 and max desired endpoints. */
  lemma SurvivorsAreGood(svc: Service, max: nat, meta: EndpointMeta, existing: seq<EndpointSlice>, d0: Items,
                         p: Packing)
    requires max >= 1 && Packed(svc, max, meta, existing, d0, p) && WellKeyed(d0)
    requires forall s :: s in existing ==> Labelled(s, svc)
    ensures forall n :: n in p.final.byName && n !in p.final.toDelete ==> GoodSlice(Cur(p.final, n), svc, d0)
    ensures forall s :: s in p.creates ==> GoodSlice(s, svc, d0) && NewSlice(s, svc, meta, d0)
    ensures forall s :: s in p.creates ==> 0 < |s.endpoints| <= max
    ensures forall n, e :: n in p.final.byName && n !in p.final.toDelete && e in p.final.byName[n].endpoints ==>
              exists k :: k in d0 && Shows(e, d0[k])
    ensures forall s, e :: s in p.creates && e in s.endpoints ==> exists k :: k in d0 && Shows(e, d0[k])
  {
    hide Conserved, Lists, Phases, Sorted, TotalEndpoints, Avail, GoodSlice, NewSlice, Shows;
    var swept, topped, left :| Phases(svc, max, meta, existing, d0, swept, topped, left, p.final, p.creates);
    PhasesGrow(svc, max, meta, existing, d0, swept, topped, left, p.final, p.creates);
    GrownIsGood(svc, max, meta, existing, d0, swept, topped, p.final, p.creates);
    CreateSizes(svc, max, meta, existing, d0, swept, topped, left, p.final, p.creates);
    forall n, e | n in p.final.byName && n !in p.final.toDelete && e in p.final.byName[n].endpoints
      ensures exists k :: k in d0 && Shows(e, d0[k])
    {
      GoodShows(Cur(p.final, n), svc, d0, e);
    }
    forall s, e | s in p.creates && e in s.endpoints ensures exists k :: k in d0 && Shows(e, d0[k]) {
      GoodShows(s, svc, d0, e);
    }
  }

  lemma GoodShows(s: EndpointSlice, svc: Service, d0: Items, e: Endpoint)
    requires GoodSlice(s, svc, d0) && e in s.endpoints
    ensures KeyOf(e) in d0 && Shows(e, d0[KeyOf(e)])
  {
    hide Shows, KeyOf;
  }

  lemma CreateSizes(svc: Service, max: nat, meta: EndpointMeta, existing: seq<EndpointSlice>, d0: Items,
                    swept: Sorting, topped: Sorting, left: Items, placed: Sorting, creates: seq<EndpointSlice>)
    requires max >= 1 && Phases(svc, max, meta, existing, d0, swept, topped, left, placed, creates)
    ensures forall s :: s in creates ==> 0 < |s.endpoints| <= max
  {
    hide Swept, ToppedUp, Avail, PartOf, NewSlice;
    forall s | s in creates ensures 0 < |s.endpoints| <= max {
      var i :| 0 <= i < |creates| && creates[i] == s;
    }
  }

  lemma GrownIsGood(svc: Service, max: nat, meta: EndpointMeta, existing: seq<EndpointSlice>, d0: Items,
                    swept: Sorting, topped: Sorting, final: Sorting, creates: seq<EndpointSlice>)
    requires Grown(svc, meta, existing, d0, max, swept, topped, final, creates) && WellKeyed(d0)
    requires forall s :: s in existing ==> Labelled(s, svc)
    ensures forall n :: n in final.byName && n !in final.toDelete ==> GoodSlice(Cur(final, n), svc, d0)
    ensures forall s :: s in creates ==> GoodSlice(s, svc, d0) && NewSlice(s, svc, meta, d0)
  {
    hide Swept, Grew, Faithful, WellLabelled, NewSlice;
    SweptIsFaithful(svc, existing, d0, swept);
    forall n | n in final.byName && n !in final.toDelete ensures GoodSlice(Cur(final, n), svc, d0) {
      GrewIsGood(Cur(swept, n), Cur(topped, n), svc, max, d0);
      GrewIsGood(Cur(topped, n), Cur(final, n), svc, max, d0);
    }
    forall s | s in creates ensures GoodSlice(s, svc, d0) {
      NewIsGood(s, svc, meta, d0);
    }
  }

  lemma GrewIsGood(s: EndpointSlice, r: EndpointSlice, svc: Service, max: nat, d0: Items)
    requires GoodSlice(s, svc, d0) && (r == s || Grew(s, r, max, d0))
    ensures GoodSlice(r, svc, d0)
  {
    hide Shows, KeyOf;
    forall e | e in r.endpoints ensures KeyOf(e) in d0 && Shows(e, d0[KeyOf(e)]) {
      if r != s {
        assert e in s.endpoints || e in r.endpoints[|s.endpoints|..];
        ShowsItself(e);
      }
    }
  }

  lemma NewIsGood(s: EndpointSlice, svc: Service, meta: EndpointMeta, d0: Items)
    requires NewSlice(s, svc, meta, d0)
    ensures GoodSlice(s, svc, d0)
  {
    hide Unreserved, Shows, KeyOf;
    forall e ensures Shows(e, e) {
      ShowsItself(e);
    }
  }

  /** No slice is ever filled past max: one that ends above max had at least as many endpoints before. */
  lemma NeverPastMax(svc: Service, max: nat, meta: EndpointMeta, existing: seq<EndpointSlice>, d0: Items, p: Packing,
                     i: nat)
    requires max >= 1 && Packed(svc, max, meta, existing, d0, p) && WellKeyed(d0)
    requires i < |existing| && existing[i].name !in p.final.toDelete
    ensures var size := Size(p.final, existing[i].name);
            size <= max || size <= |existing[i].endpoints|
  {
    hide Conserved, Lists, Phases, Sorted, TotalEndpoints, Avail, Grew;
    var swept, topped, left :| Phases(svc, max, meta, existing, d0, swept, topped, left, p.final, p.creates);
    PhasesGrow(svc, max, meta, existing, d0, swept, topped, left, p.final, p.creates);
    var n := existing[i].name;
    SweepShrinks(svc, existing, d0, swept, i);
    KeySetGrows(Cur(swept, n), Cur(topped, n), max, d0);
    KeySetGrows(Cur(topped, n), Cur(p.final, n), max, d0);
  }

  lemma SweepShrinks(svc: Service, existing: seq<EndpointSlice>, d0: Items, t: Sorting, i: nat)
    requires Swept(svc, existing, |existing|, d0, t) && i < |existing| && WellKeyed(d0)
    ensures existing[i].name in t.byName && Size(t, existing[i].name) <= |existing[i].endpoints|
  {
    assert SweptAt(svc, existing, i, d0, t);
    KeptFrom(existing[i].endpoints, Avail(existing, i, d0));
  }

  // ---------- how few slices phase 3 creates ----------

  /** Phase 3 creates as few slices as any placement of `count` endpoints that puts x of them into at most one
      unchanged slice and the others into c new slices of at most max, unless they come to whole loads and an
      unchanged slice is empty. */
  lemma FewestCreates(svc: Service, max: nat, meta: EndpointMeta, t: Sorting, d: Items, count: nat,
                      t': Sorting, creates: seq<EndpointSlice>, x: nat, c: nat)
    requires max >= 1 && Placed(svc, max, meta, t, d, count, t', creates)
    requires Places(t, max, count, x, c) && !Wasteful(t, max, count)
    ensures |creates| <= c
  {
    hide NewSlices, FilledInto, Cur, BestFit;
    Loads(count, max, x, c);
    FitsMonotone(t, x, count % max, max);
  }

  /** x endpoints fit into one unchanged slice, and the others into c new ones. */
  ghost predicate Places(t: Sorting, max: nat, count: nat, x: nat, c: nat) {
    (x == 0 || exists n :: n in t.intact && Fits(Cur(t, n), x, max)) && count <= x + c * max
  }

  /** There are endpoints for whole new slices, although an unchanged slice is empty. */
  ghost predicate Wasteful(t: Sorting, max: nat, count: nat)
    requires max >= 1
  {
    count > 0 && count % max == 0 && exists n :: n in t.intact && Size(t, n) == 0
  }

  /** Phase 3 creates as few slices as can be, except in the wasteful case and exactly then. */
  lemma FewestUnlessWasteful(svc: Service, max: nat, meta: EndpointMeta, t: Sorting, d: Items, count: nat,
                             t': Sorting, creates: seq<EndpointSlice>)
    requires max >= 1 && Placed(svc, max, meta, t, d, count, t', creates)
    ensures (forall x, c :: Places(t, max, count, x, c) ==> |creates| <= c) <==> !Wasteful(t, max, count)
  {
    hide Placed, Cur;
    if Wasteful(t, max, count) {
      var n :| n in t.intact && Size(t, n) == 0;
      EmptySliceUnused(svc, max, meta, t, d, count, t', creates, n);
      assert Places(t, max, count, max, |creates| - 1);
    } else {
      forall x, c | Places(t, max, count, x, c) ensures |creates| <= c {
        FewestCreates(svc, max, meta, t, d, count, t', creates, x, c);
      }
    }
  }

  lemma FitsMonotone(t: Sorting, x: nat, rest: nat, max: nat)
    ensures rest <= x && (exists n :: n in t.intact && Fits(Cur(t, n), x, max)) ==>
              exists n :: n in t.intact && Fits(Cur(t, n), rest, max)
    ensures (exists n :: n in t.intact && Fits(Cur(t, n), x, max)) ==> x <= max
    ensures (exists n :: n in t.intact && Fits(Cur(t, n), x, max)) && (forall n :: n in t.intact ==> Size(t, n) > 0) ==>
              x < max
  {
    hide Cur;
    if n :| n in t.intact && Fits(Cur(t, n), x, max) {
      assert Size(t, n) == |Cur(t, n).endpoints|;
      if rest <= x {
        assert Fits(Cur(t, n), rest, max);
      }
    }
  }

  lemma Loads(count: nat, max: nat, x: nat, c: nat)
    requires max >= 1 && count <= x + c * max
    ensures count == 0 ==> count / max == 0 && count % max == 0
    ensures x < max || (x == max && count % max > 0) ==> count / max <= c
    ensures x < count % max ==> count / max + 1 <= c
  {
    var full, rest := count / max, count % max;
    assert (full - c) * max <= x - rest;
    Multiple(full - c, max);
  }

  lemma Multiple(k: int, max: nat)
    requires max >= 1
    ensures k >= 1 ==> k * max >= max
    ensures k >= 0 ==> k * max >= 0
  {
  }

  /** The exception is real: when the endpoints come to whole loads and an unchanged slice is empty, one slice
      fewer would do. */
  lemma EmptySliceUnused(svc: Service, max: nat, meta: EndpointMeta, t: Sorting, d: Items, count: nat,
                         t': Sorting, creates: seq<EndpointSlice>, n: Text)
    requires max >= 1 && Placed(svc, max, meta, t, d, count, t', creates)
    requires count > 0 && count % max == 0 && n in t.intact && Size(t, n) == 0
    ensures |creates| >= 1 && Fits(Cur(t, n), max, max) && count <= max + (|creates| - 1) * max
    ensures t' == t
  {
    hide NewSlices;
    assert count == (count / max) * max;
  }

  /** One slice for at most one endpoint, one empty slice that is in order, one endpoint desired: a slice is created
      for it and the empty one stays empty. */
  lemma OneTooMany(svc: Service, meta: EndpointMeta, s: EndpointSlice, e: Endpoint, p: Packing)
    requires s.endpoints == [] && !LabelsChanged(s, svc)
    requires Packed(svc, 1, meta, [s], map[KeyOf(e) := e], p)
    ensures |p.creates| == 1 && p.final.intact == {s.name} && Cur(p.final, s.name) == s
  {
    hide KeyOf, LabelsChanged, NewSlices, Grew, InOrder;
    var d0 := map[KeyOf(e) := e];
    var swept, topped, left :| Phases(svc, 1, meta, [s], d0, swept, topped, left, p.final, p.creates);
    OneEmpty(svc, s, d0, swept);
    assert [s][0] in [s];
    AtMostOne(left, KeyOf(e));
    OneLive(s, p.final, KeyOf(e));
  }

  lemma OneEmpty(svc: Service, s: EndpointSlice, d0: Items, t: Sorting)
    requires s.endpoints == [] && !LabelsChanged(s, svc) && Swept(svc, [s], 1, d0, t)
    ensures t.intact == {s.name} && t.toUpdate == {} && t.toDelete == {}
  {
    hide LabelsChanged;
    assert SweptAt(svc, [s], 0, d0, t);
    assert [s][..1] == [s];
    assert Names([s]) == {s.name};
  }

  lemma AtMostOne(left: Items, k: EndpointKey)
    requires forall j :: j in left ==> j == k
    ensures |left| <= 1 && (k !in left ==> |left| == 0)
  {
    assert left.Keys <= {k};
    if k in left {
      assert left.Keys == {k};
    } else {
      assert left.Keys == {};
    }
  }

  lemma OneLive(s: EndpointSlice, t: Sorting, k: EndpointKey)
    requires Names([s]) <= t.byName.Keys && s.name in t.byName && s.name !in t.toDelete
    requires t.byName[s.name].endpoints == []
    ensures Copies(Live([s], t.byName, t.toDelete), k) == 0
  {
    assert [s][..0] == [];
  }

  // ---------- nothing to do ----------

  ghost predicate NoRepeats(eps: seq<Endpoint>) {
    forall i, j :: 0 <= i < j < |eps| ==> KeyOf(eps[i]) != KeyOf(eps[j])
  }

  /** The slices already publish exactly the desired endpoints, each once, in good form. */
  ghost predicate Tidy(svc: Service, existing: seq<EndpointSlice>, d0: Items) {
    && (forall i :: 0 <= i < |existing| ==> GoodSlice(existing[i], svc, d0) && NoRepeats(existing[i].endpoints))
    && (forall i, j :: 0 <= i < j < |existing| ==> KeySet(existing[i].endpoints) !! KeySet(existing[j].endpoints))
    && (forall k :: k in d0 ==> k in Seen(existing))
  }

  /** On tidy slices reconcileByPortMapping creates, updates and deletes nothing. */
  lemma TidyIsIdle(svc: Service, max: nat, meta: EndpointMeta, existing: seq<EndpointSlice>, d0: Items, p: Packing)
    requires max >= 1 && Packed(svc, max, meta, existing, d0, p) && WellKeyed(d0) && Tidy(svc, existing, d0)
    ensures p.creates == [] && p.updates == [] && p.deletes == []
    ensures p.final.intact == Names(existing)
  {
    hide Tidy, Conserved, Phases, TotalEndpoints, Avail, Names;
    var swept, topped, left :| Phases(svc, max, meta, existing, d0, swept, topped, left, p.final, p.creates);
    TidyPhases(svc, max, meta, existing, d0, swept, topped, left, p.final, p.creates);
  }

  lemma TidyPhases(svc: Service, max: nat, meta: EndpointMeta, existing: seq<EndpointSlice>, d0: Items,
                   swept: Sorting, topped: Sorting, left: Items, placed: Sorting, creates: seq<EndpointSlice>)
    requires max >= 1 && WellKeyed(d0) && Tidy(svc, existing, d0)
    requires Phases(svc, max, meta, existing, d0, swept, topped, left, placed, creates)
    ensures creates == [] && placed.toUpdate == {} && placed.toDelete == {} && placed.intact == Names(existing)
  {
    hide Tidy, Avail, Swept, Grew, BestFit, FilledInto, Names, NewSlice, Fits;
    TidySweep(svc, existing, d0, swept);
    NothingLeft(svc, existing, d0);
    assert left == map[];
    assert |left| == 0;
    Division0(max);
  }

  lemma Division0(max: nat)
    requires max >= 1
    ensures 0 / max == 0 && 0 % max == 0
  {
  }

  lemma NothingLeft(svc: Service, existing: seq<EndpointSlice>, d0: Items)
    requires Tidy(svc, existing, d0)
    ensures Avail(existing, |existing|, d0) == map[]
  {
    hide GoodSlice, NoRepeats, Seen;
    assert existing[..|existing|] == existing;
  }

  lemma TidySweep(svc: Service, existing: seq<EndpointSlice>, d0: Items, t: Sorting)
    requires Tidy(svc, existing, d0) && WellKeyed(d0) && Swept(svc, existing, |existing|, d0, t)
    ensures t.toUpdate == {} && t.toDelete == {} && t.intact == Names(existing)
  {
    hide Tidy, Judge, Judged, Avail, SameFrame;
    assert existing[..|existing|] == existing;
    forall n | n in Names(existing) ensures n !in t.toUpdate && n !in t.toDelete {
      var s :| s in existing && s.name == n;
      var i :| 0 <= i < |existing| && existing[i] == s;
      assert SweptAt(svc, existing, i, d0, t);
      TidyVerdict(svc, existing, d0, i);
    }
  }

  lemma TidyVerdict(svc: Service, existing: seq<EndpointSlice>, d0: Items, i: nat)
    requires Tidy(svc, existing, d0) && WellKeyed(d0) && i < |existing|
    ensures Judge(svc, existing[i], Avail(existing, i, d0)).Untouched?
  {
    hide KeySet, Kept, AnyChanged, EqualBeyondHash, LabelsChanged, Labelled, Shows;
    var s, avail := existing[i], Avail(existing, i, d0);
    assert GoodSlice(s, svc, d0) && NoRepeats(s.endpoints);
    forall e | e in s.endpoints ensures KeyOf(e) in avail && EqualBeyondHash(avail[KeyOf(e)], e) {
      NotSeen(existing, i, e, svc, d0);
      SameShows(e, avail[KeyOf(e)]);
    }
    SettledSliceStays(s.endpoints, avail);
  }

  lemma NotSeen(existing: seq<EndpointSlice>, i: nat, e: Endpoint, svc: Service, d0: Items)
    requires Tidy(svc, existing, d0) && i < |existing| && e in existing[i].endpoints
    ensures KeyOf(e) !in Seen(existing[..i])
  {
    hide GoodSlice, NoRepeats;
    assert KeyOf(e) in KeySet(existing[i].endpoints);
    forall s, f | s in existing[..i] && f in s.endpoints ensures KeyOf(f) != KeyOf(e) {
      var j :| 0 <= j < i && existing[j] == s;
      assert KeySet(existing[j].endpoints) !! KeySet(existing[i].endpoints);
      assert KeyOf(f) in KeySet(existing[j].endpoints);
    }
  }

  // ---------- from counts to places ----------

  lemma CopyInside(eps: seq<Endpoint>)
    requires forall k :: Keys(eps)[k] <= 1
    ensures NoRepeats(eps)
  {
    forall i, j | 0 <= i < j < |eps| ensures KeyOf(eps[i]) != KeyOf(eps[j]) {
      var ks := KeySeq(eps);
      assert ks == ks[..j] + ([ks[j]] + ks[j + 1..]);
      assert ks[..j][i] == ks[i];
      assert multiset(ks)[ks[j]] == multiset(ks[..j])[ks[j]] + multiset([ks[j]] + ks[j + 1..])[ks[j]];
      assert Keys(eps)[ks[j]] <= 1;
      assert ks[j] !in multiset(ks[..j]);
    }
  }
}
