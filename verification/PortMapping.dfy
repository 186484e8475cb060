/** reconcileByPortMapping of pkg/service-controller/reconciler.go. */
module PortMapping {
  import opened Wrappers
  import opened Discovery
  import opened EndpointSets
  import opened Packing

  /** The inner loop of phase 1: takes the desired endpoints of one slice out of the set. */
  method KeepDesired(eps: seq<Endpoint>, desired: EndpointSet)
    returns (newEndpoints: seq<Endpoint>, endpointUpdated: bool)
    requires desired.Valid()
    modifies desired
    ensures desired.Valid() && desired.items == old(desired.items) - KeySet(eps)
    ensures newEndpoints == Kept(eps, old(desired.items))
    ensures endpointUpdated == AnyChanged(eps, old(desired.items))
  {
    hide Kept, AnyChanged, KeySet, EqualBeyondHash;
    newEndpoints, endpointUpdated := [], false;
    KeySetNone(eps);
    ghost var d0 := desired.items;
    for i := 0 to |eps|
      invariant desired.Valid() && desired.items == d0 - KeySet(eps[..i])
      invariant newEndpoints + Kept(eps[i..], desired.items) == Kept(eps, d0)
      invariant endpointUpdated || AnyChanged(eps[i..], desired.items) <==> AnyChanged(eps, d0)
    {
      var endpoint := eps[i];
      KeptStep(eps, i, desired.items, newEndpoints);
      KeySetPush(eps, i, d0);
      var got := desired.Get(endpoint);
      if got.Some? {
        newEndpoints := newEndpoints + [got.value];
        if !EqualBeyondHash(got.value, endpoint) {
          endpointUpdated := true;
        }
        desired.Delete(endpoint);
      } else {
        assert desired.items - {KeyOf(endpoint)} == desired.items;
      }
    }
    assert eps[..|eps|] == eps;
    KeptNone(eps, desired.items, newEndpoints);
  }

  lemma KeySetNone(eps: seq<Endpoint>)
    ensures KeySet(eps[..0]) == {}
    ensures eps[0..] == eps
  {
  }

  lemma KeySetPush(eps: seq<Endpoint>, i: nat, d0: Items)
    requires i < |eps|
    ensures d0 - KeySet(eps[..i + 1]) == (d0 - KeySet(eps[..i])) - {KeyOf(eps[i])}
  {
    assert eps[..i + 1] == eps[..i] + [eps[i]];
  }

  /** Where a verdict on slice s puts it. */
  ghost function Filed(t: Sorting, s: EndpointSlice, v: Verdict): Sorting {
    Sorting(t.byName[s.name := if v.Rewrite? then v.slice else s],
            if v.Untouched? then t.intact + {s.name} else t.intact,
            if v.Rewrite? then t.toUpdate + {s.name} else t.toUpdate,
            if v.Drop? then t.toDelete + {s.name} else t.toDelete)
  }

  /** The body of the phase 1 loop. */
  method SortOne(svc: Service, existingSlice: EndpointSlice, desired: EndpointSet, t: Sorting)
    returns (t': Sorting, removed: int)
    requires desired.Valid()
    modifies desired
    ensures desired.Valid() && desired.items == old(desired.items) - KeySet(existingSlice.endpoints)
    ensures t' == Filed(t, existingSlice, Judge(svc, existingSlice, old(desired.items)))
    ensures removed == |existingSlice.endpoints| - |Kept(existingSlice.endpoints, old(desired.items))|
  {
    hide KeySet, Kept, AnyChanged, LabelsChanged, ServiceLabels, WellKeyed;
    t', removed := t, 0;
    var name := existingSlice.name;
    t' := t'.(byName := t'.byName[name := existingSlice]);
    KeptFrom(existingSlice.endpoints, desired.items);
    var newEndpoints, endpointUpdated := KeepDesired(existingSlice.endpoints, desired);
    var labels, labelsChanged := SetEndpointSliceLabels(existingSlice, svc);
    if endpointUpdated || |existingSlice.endpoints| != |newEndpoints| {
      if |existingSlice.endpoints| > |newEndpoints| {
        removed := |existingSlice.endpoints| - |newEndpoints|;
      }
      if |newEndpoints| == 0 {
        t' := t'.(toDelete := t'.toDelete + {name});
      } else {
        var epSlice := existingSlice.(endpoints := newEndpoints, labels := labels);
        t' := t'.(byName := t'.byName[name := epSlice], toUpdate := t'.toUpdate + {name});
      }
    } else if labelsChanged {
      var epSlice := existingSlice.(labels := labels);
      t' := t'.(byName := t'.byName[name := epSlice], toUpdate := t'.toUpdate + {name});
    } else {
      t' := t'.(intact := t'.intact + {name});
    }
  }

  /** Phase 1. */
  method Sweep(svc: Service, existing: seq<EndpointSlice>, desired: EndpointSet)
    returns (t: Sorting, numRemoved: int)
    requires desired.Valid() && DistinctNames(existing)
    modifies desired
    ensures desired.Valid() && desired.items == Avail(existing, |existing|, old(desired.items))
    ensures Swept(svc, existing, |existing|, old(desired.items), t)
    ensures numRemoved == Removed(existing, |existing|, old(desired.items))
  {
    t := Sorting(map[], {}, {}, {});
    numRemoved := 0;
    ghost var d0 := desired.items;
    for i := 0 to |existing|
      invariant desired.Valid() && desired.items == Avail(existing, i, d0)
      invariant Swept(svc, existing, i, d0, t)
      invariant numRemoved == Removed(existing, i, d0)
    {
      AvailStep(existing, i, d0);
      SweptPush(svc, existing, i, d0, t);
      var removed;
      t, removed := SortOne(svc, existing[i], desired, t);
      numRemoved := numRemoved + removed;
    }
  }

  lemma SweptPush(svc: Service, existing: seq<EndpointSlice>, i: nat, d0: Items, t: Sorting)
    requires i < |existing| && DistinctNames(existing)
    requires Swept(svc, existing, i, d0, t)
    ensures Swept(svc, existing, i + 1, d0, Filed(t, existing[i], Judge(svc, existing[i], Avail(existing, i, d0))))
  {
    hide Avail, Judge, Seen, Sorted, SweptAt, Names, DistinctNames, SameFrame, Filed;
    var s, v := existing[i], Judge(svc, existing[i], Avail(existing, i, d0));
    NewName(existing, i);
    JudgedFrame(svc, s, Avail(existing, i, d0));
    assert existing[..i + 1] == existing[..i] + [s];
    FiledSorted(existing[..i], t, s, v, Judged(svc, s, Avail(existing, i, d0)));
    forall j | 0 <= j < i ensures SweptAt(svc, existing, j, d0, Filed(t, s, v)) {
      assert SweptAt(svc, existing, j, d0, t);
      EarlierName(existing, j, i);
      FiledKeeps(svc, existing, j, d0, t, s, v);
    }
    FiledLast(svc, existing, i, d0, t);
  }

  lemma EarlierName(existing: seq<EndpointSlice>, j: nat, i: nat)
    requires j < i < |existing| && DistinctNames(existing)
    ensures existing[j].name != existing[i].name
  {
  }

  lemma FiledSorted(existing: seq<EndpointSlice>, t: Sorting, s: EndpointSlice, v: Verdict, judged: EndpointSlice)
    requires Sorted(existing, t) && s.name !in Names(existing)
    requires SameFrame(s, judged) && judged == if v.Rewrite? then v.slice else s
    requires Names(existing + [s]) == Names(existing) + {s.name}
    ensures Sorted(existing + [s], Filed(t, s, v))
  {
    hide SameFrame;
    var t' := Filed(t, s, v);
    forall r | r in existing + [s]
      ensures SameFrame(r, t'.byName[r.name]) && (r.name !in t'.toUpdate ==> t'.byName[r.name] == r)
    {
      if r in existing {
        assert r.name in Names(existing);
      }
    }
  }

  lemma FiledKeeps(svc: Service, existing: seq<EndpointSlice>, j: nat, d0: Items, t: Sorting, s: EndpointSlice,
                   v: Verdict)
    requires j < |existing| && SweptAt(svc, existing, j, d0, t) && s.name != existing[j].name
    ensures SweptAt(svc, existing, j, d0, Filed(t, s, v))
  {
    hide Judge, Judged, Avail;
  }

  lemma FiledLast(svc: Service, existing: seq<EndpointSlice>, i: nat, d0: Items, t: Sorting)
    requires i < |existing| && Sorted(existing[..i], t) && existing[i].name !in Names(existing[..i])
    ensures SweptAt(svc, existing, i, d0, Filed(t, existing[i], Judge(svc, existing[i], Avail(existing, i, d0))))
  {
    hide Judge, Avail, Names, SameFrame;
  }

  lemma NewName(existing: seq<EndpointSlice>, i: nat)
    requires i < |existing| && DistinctNames(existing)
    ensures Names(existing[..i + 1]) == Names(existing[..i]) + {existing[i].name}
    ensures existing[i].name !in Names(existing[..i])
  {
    assert existing[..i + 1] == existing[..i] + [existing[i]];
    forall r | r in existing[..i] ensures r.name != existing[i].name {
      var j :| 0 <= j < i && existing[j] == r;
    }
  }

  /** The loop shared by phases 2 and 3: pops desired endpoints into a slice until one of them gives out. */
  method Fill(desired: EndpointSet, s: EndpointSlice, max: nat) returns (r: EndpointSlice, ghost added: seq<Endpoint>)
    requires desired.Valid()
    modifies desired
    ensures desired.Valid()
    ensures r == Extended(s, added) && Moved(old(desired.items), added, desired.items)
    ensures |added| == Room(s, |old(desired.items)|, max)
  {
    var endpoints;
    endpoints, added := FillEndpoints(desired, s.endpoints, max);
    r := s.(endpoints := endpoints);
  }

  method FillEndpoints(desired: EndpointSet, base: seq<Endpoint>, max: nat)
    returns (endpoints: seq<Endpoint>, ghost added: seq<Endpoint>)
    requires desired.Valid()
    modifies desired
    ensures desired.Valid()
    ensures endpoints == base + added && Moved(old(desired.items), added, desired.items)
    ensures |added| == Smaller(|old(desired.items)|, if |base| < max then max - |base| else 0)
  {
    hide Moved;
    endpoints, added := base, [];
    ghost var d0 := desired.items;
    MovedNone(d0);
    while |desired.items| > 0 && |endpoints| < max
      invariant desired.Valid() && Moved(d0, added, desired.items)
      invariant endpoints == base + added
      invariant |added| == |d0| - |desired.items| && (added == [] || |endpoints| <= max)
      decreases |desired.items|
    {
      ghost var before := desired.items;
      var endpoint := desired.PopAny();
      MovedOne(d0, added, before, endpoint.value, desired.items);
      AddedOne(base, added, endpoint.value);
      added := added + [endpoint.value];
      endpoints := endpoints + [endpoint.value];
    }
  }

  lemma AddedOne(base: seq<Endpoint>, added: seq<Endpoint>, e: Endpoint)
    ensures base + added + [e] == base + (added + [e])
  {
  }

  function Smaller(a: nat, b: nat): nat {
    if a < b then a else b
  }

  /** The order lists each name once, fuller slices before emptier ones. */
  ghost predicate FullestFirst(order: seq<Text>, names: set<Text>, byName: map<Text, EndpointSlice>) {
    && names <= byName.Keys
    && (forall n :: n in order <==> n in names)
    && (forall i, j :: 0 <= i < j < |order| ==>
          order[i] != order[j] && |byName[order[i]].endpoints| >= |byName[order[j]].endpoints|)
  }

  /** UnsortedList followed by sort.Sort on endpointSliceEndpointLen: any order, fullest first. */
  method SortByFullness(names: set<Text>, byName: map<Text, EndpointSlice>) returns (order: seq<Text>)
    requires names <= byName.Keys
    ensures FullestFirst(order, names, byName)
  {
    order := [];
    var todo := names;
    while todo != {}
      invariant todo <= names
      invariant forall n :: n in order <==> n in names - todo
      invariant forall i :: 0 <= i < |order| ==> order[i] in names
      invariant forall i, j :: 0 <= i < j < |order| ==>
                  order[i] != order[j] && |byName[order[i]].endpoints| >= |byName[order[j]].endpoints|
      invariant forall n, m :: n in order && m in todo ==> |byName[n].endpoints| >= |byName[m].endpoints|
      decreases |todo|
    {
      FullestExists(todo, byName);
      var n :| n in todo && forall m :: m in todo ==> |byName[m].endpoints| <= |byName[n].endpoints|;
      order := order + [n];
      todo := todo - {n};
    }
  }

  lemma {:induction false} FullestExists(names: set<Text>, byName: map<Text, EndpointSlice>)
    requires names != {} && names <= byName.Keys
    ensures exists n :: n in names && forall m :: m in names ==> |byName[m].endpoints| <= |byName[n].endpoints|
    decreases |names|
  {
    var n :| n in names;
    var rest := names - {n};
    if rest != {} {
      FullestExists(rest, byName);
      var f :| f in rest && forall m :: m in rest ==> |byName[m].endpoints| <= |byName[f].endpoints|;
      var best := if |byName[n].endpoints| > |byName[f].endpoints| then n else f;
      assert forall m :: m in names ==> m == n || m in rest;
      assert forall m :: m in names ==> |byName[m].endpoints| <= |byName[best].endpoints|;
    } else {
      assert forall m :: m in names ==> m !in rest;
    }
  }

  /** getSliceToFill of pkg/service-controller/utils.go: the slice closest to full once numEndpoints are added. */
  method GetSliceToFill(slices: seq<EndpointSlice>, numEndpoints: nat, max: nat) returns (slice: Option<EndpointSlice>)
    requires numEndpoints > 0
    ensures slice.None? <==> forall s :: s in slices ==> !Fits(s, numEndpoints, max)
    ensures slice.Some? ==> slice.value in slices && Fits(slice.value, numEndpoints, max)
    ensures slice.Some? ==> forall s :: s in slices && Fits(s, numEndpoints, max) ==>
              |s.endpoints| <= |slice.value.endpoints|
  {
    var closestDiff: int := max;
    slice := None;
    for i := 0 to |slices|
      invariant 0 < closestDiff <= max || (slice.None? && closestDiff == max)
      invariant slice.None? ==> closestDiff == max && forall s :: s in slices[..i] ==> !Fits(s, numEndpoints, max)
      invariant slice.Some? ==>
        && slice.value in slices && Fits(slice.value, numEndpoints, max)
        && closestDiff == max - (numEndpoints + |slice.value.endpoints|)
        && forall s :: s in slices[..i] && Fits(s, numEndpoints, max) ==> |s.endpoints| <= |slice.value.endpoints|
    {
      assert slices[..i + 1] == slices[..i] + [slices[i]];
      var currentDiff := max - (numEndpoints + |slices[i].endpoints|);
      if currentDiff >= 0 && currentDiff < closestDiff {
        closestDiff := currentDiff;
        slice := Some(slices[i]);
        assert slice.value in slices;
        if closestDiff == 0 {
          return;
        }
      }
    }
    assert slices[..|slices|] == slices;
  }

  // ---------- phase 2 ----------

  /** How many endpoints a slice takes from a set of `count`. */
  function Room(s: EndpointSlice, count: nat, max: nat): nat {
    Smaller(count, if |s.endpoints| < max then max - |s.endpoints| else 0)
  }

  function Extended(s: EndpointSlice, added: seq<Endpoint>): EndpointSlice {
    s.(endpoints := s.endpoints + added)
  }

  lemma GrewBy(s: EndpointSlice, added: seq<Endpoint>, max: nat, d: Items, left: Items, left': Items)
    requires PartOf(left, d) && Moved(left, added, left') && |added| == Room(s, |left|, max)
    ensures Grew(s, Extended(s, added), max, d)
    ensures left' != map[] ==> |Extended(s, added).endpoints| >= max
    ensures |s.endpoints| < |Extended(s, added).endpoints| ==> left != map[]
  {
    var r := Extended(s, added);
    assert r.endpoints[|s.endpoints|..] == added;
    if added == [] {
      assert r.endpoints == s.endpoints;
    }
    if left' != map[] {
      assert |left'| > 0;
    }
  }

  lemma PutCur(t: Sorting, n: Text, s: EndpointSlice)
    ensures Cur(Put(t, n, s), n) == s
    ensures forall m :: m != n ==> Cur(Put(t, n, s), m) == Cur(t, m)
    ensures Put(t, n, s) == t.(byName := Put(t, n, s).byName)
    ensures n in t.byName ==> Put(t, n, s).byName.Keys == t.byName.Keys
  {
  }

  lemma TopOne(max: nat, t: Sorting, done: set<Text>, d: Items, t': Sorting, left: Items,
               n: Text, added: seq<Endpoint>, left': Items)
    requires n !in done && n in t.byName && forall m :: m in done ==> Size(t, m) >= Size(t, n)
    requires ToppedUp(max, t, done, d, t', left) && PartOf(left, d)
    requires Moved(left, added, left') && |added| == Room(Cur(t', n), |left|, max)
    ensures ToppedUp(max, t, done + {n}, d, Put(t', n, Extended(Cur(t', n), added)), left')
  {
    hide Grew, Moved, Room, Extended, Cur, Put, PartOf, InOrder;
    var t'' := Put(t', n, Extended(Cur(t', n), added));
    PutCur(t', n, Extended(Cur(t', n), added));
    GrewBy(Cur(t', n), added, max, d, left, left');
    LeftShrinks(left, added, left');
    GrewSize(Cur(t, n), Cur(t'', n), max, d);
    RoomNone(Cur(t', n), added, left, left', max);
    OrderOne(max, t, done, t', t'', n);
  }

  lemma GrewSize(s: EndpointSlice, r: EndpointSlice, max: nat, d: Items)
    requires Grew(s, r, max, d)
    ensures |s.endpoints| <= |r.endpoints|
  {
  }

  /** A slice only receives endpoints while there are some. */
  lemma RoomNone(s: EndpointSlice, added: seq<Endpoint>, left: Items, left': Items, max: nat)
    requires Moved(left, added, left') && |added| == Room(s, |left|, max)
    ensures left == map[] ==> |Extended(s, added).endpoints| == |s.endpoints|
  {
  }

  lemma OrderOne(max: nat, t: Sorting, done: set<Text>, t': Sorting, t'': Sorting, n: Text)
    requires InOrder(max, t, done, t') && n !in done
    requires forall m :: m in done ==> Size(t, m) >= Size(t, n)
    requires forall m :: m != n ==> Size(t'', m) == Size(t', m)
    requires Size(t', n) == Size(t, n)
    requires Received(t, t'', n) ==> forall m :: m in done ==> Size(t', m) >= max
    ensures InOrder(max, t, done + {n}, t'')
  {
    hide Size;
  }

  lemma LeftShrinks(left: Items, added: seq<Endpoint>, left': Items)
    requires Moved(left, added, left')
    ensures left' != map[] ==> left != map[]
  {
    if left' != map[] {
      var k :| k in left';
      assert k in left;
    }
  }

  /** Phase 2. */
  method FillUpdated(max: nat, ghost existing: seq<EndpointSlice>, ghost d0: Items, desired: EndpointSet, t: Sorting)
    returns (t': Sorting)
    requires desired.Valid() && DistinctNames(existing) && Sorted(existing, t)
    requires Conserved(existing, t, [], desired.items, d0)
    modifies desired
    ensures desired.Valid() && PartOf(desired.items, old(desired.items))
    ensures ToppedUp(max, t, t.toUpdate, old(desired.items), t', desired.items)
    ensures Conserved(existing, t', [], desired.items, d0) && Sorted(existing, t')
  {
    hide ToppedUp, Sorted, Conserved, FullestFirst, Moved, Cur, Put, Extended, Room, PartOf, Firsts;
    SortedNames(existing, t);
    t' := t;
    NothingToTop(max, t, desired.items);
    if |desired.items| > 0 && |t.toUpdate| > 0 {
      ghost var d := desired.items;
      ghost var done := {};
      var slices := SortByFullness(t.toUpdate, t.byName);
      FirstsNone(slices);
      for i := 0 to |slices|
        invariant desired.Valid() && PartOf(desired.items, d)
        invariant t'.toUpdate == t.toUpdate && done == Firsts(slices, i)
        invariant Sorted(existing, t') && Conserved(existing, t', [], desired.items, d0)
        invariant ToppedUp(max, t, done, d, t', desired.items)
      {
        ghost var left, u := desired.items, t';
        var name := slices[i];
        NextInOrder(slices, t, i);
        var slice, added := Fill(desired, Cur(t', name), max);
        t' := Put(t', name, slice);
        TopOne(max, t, done, d, u, left, name, added, desired.items);
        GrowKeeps(existing, u, [], left, d0, name, added, desired.items, d);
        done := done + {name};
      }
      OrderIsAll(slices, t);
    }
  }

  function Firsts(order: seq<Text>, i: nat): set<Text>
    requires i <= |order|
  {
    set n | n in order[..i]
  }

  lemma FirstsNone(order: seq<Text>)
    ensures Firsts(order, 0) == {}
  {
  }

  lemma NextInOrder(order: seq<Text>, t: Sorting, i: nat)
    requires FullestFirst(order, t.toUpdate, t.byName) && i < |order|
    ensures order[i] in t.toUpdate && order[i] in t.byName && order[i] !in Firsts(order, i)
    ensures forall m :: m in Firsts(order, i) ==> Size(t, m) >= Size(t, order[i])
    ensures Firsts(order, i + 1) == Firsts(order, i) + {order[i]}
  {
    assert order[..i + 1] == order[..i] + [order[i]];
  }

  lemma OrderIsAll(order: seq<Text>, t: Sorting)
    requires FullestFirst(order, t.toUpdate, t.byName)
    ensures Firsts(order, |order|) == t.toUpdate
  {
    assert order[..|order|] == order;
  }

  lemma SortedNames(existing: seq<EndpointSlice>, t: Sorting)
    requires Sorted(existing, t)
    ensures t.toUpdate <= t.byName.Keys && t.intact <= t.byName.Keys && t.toDelete <= t.byName.Keys
  {
  }

  lemma NothingToTop(max: nat, t: Sorting, d: Items)
    ensures ToppedUp(max, t, {}, d, t, d) && PartOf(d, d)
    ensures |d| == 0 || |t.toUpdate| == 0 ==> ToppedUp(max, t, t.toUpdate, d, t, d)
  {
    forall n | n in t.toUpdate ensures Grew(Cur(t, n), Cur(t, n), max, d) {
      assert Cur(t, n).endpoints + [] == Cur(t, n).endpoints;
    }
  }

  lemma GrowKeeps(existing: seq<EndpointSlice>, t: Sorting, creates: seq<EndpointSlice>, left: Items, d0: Items,
                  n: Text, added: seq<Endpoint>, left': Items, d: Items)
    requires DistinctNames(existing) && Sorted(existing, t) && n in t.toUpdate
    requires Conserved(existing, t, creates, left, d0) && PartOf(left, d)
    requires Moved(left, added, left')
    ensures var t' := Put(t, n, Extended(Cur(t, n), added));
            Conserved(existing, t', creates, left', d0) && Sorted(existing, t') && t'.toUpdate == t.toUpdate
    ensures PartOf(left', d)
  {
    hide Conserved, Keys;
    GrowConserves(existing, t, creates, left, d0, n, Extended(Cur(t, n), added), added, left');
  }

  // ---------- phase 3 ----------

  /** Phase 3 while only full slices have been created. */
  ghost predicate OnlyFull(svc: Service, max: nat, meta: EndpointMeta, d: Items, left: Items,
                           creates: seq<EndpointSlice>) {
    && max >= 1 && PartOf(left, d)
    && NewSlices(creates, |creates|, svc, max, meta, d)
    && |d| == max * |creates| + |left|
  }

  lemma MulBound(max: nat, x: int)
    requires max >= 1
    ensures x >= 1 ==> max * x >= max
    ensures x <= -1 ==> max * x + max <= 0
  {
  }

  lemma Division(count: nat, max: nat, full: nat, rest: nat)
    requires max >= 1 && count == max * full + rest && rest < max
    ensures count / max == full && count % max == rest
  {
    var q := count / max;
    assert max * (q - full) == rest - count % max;
    MulBound(max, q - full);
  }

  lemma CreateStep(svc: Service, max: nat, meta: EndpointMeta, t: Sorting, d: Items, left: Items,
                   creates: seq<EndpointSlice>, s: EndpointSlice, added: seq<Endpoint>, left': Items)
    requires OnlyFull(svc, max, meta, d, left, creates) && left != map[]
    requires |left| < max ==> forall n :: n in t.intact ==> !Fits(Cur(t, n), |left|, max)
    requires s == Extended(NewEndpointSlice(svc, meta), added)
    requires Moved(left, added, left') && |added| == Room(NewEndpointSlice(svc, meta), |left|, max)
    ensures if left' == map[] then Placed(svc, max, meta, t, d, |d|, t, creates + [s])
            else OnlyFull(svc, max, meta, d, left', creates + [s])
  {
    hide Moved, NewEndpointSlice, Fits, Cur, Extended, PartOf, FromItems;
    NewFilled(svc, meta, added, left, left', d, max);
    PushNew(svc, max, meta, d, creates, s);
    assert max * (|creates| + 1) == max * |creates| + max;
    if left' == map[] {
      if |left| == max {
        Division(|d|, max, |creates| + 1, 0);
      } else {
        Division(|d|, max, |creates|, |left|);
      }
    }
  }

  lemma NewFilled(svc: Service, meta: EndpointMeta, added: seq<Endpoint>, left: Items, left': Items, d: Items, max: nat)
    requires Moved(left, added, left') && PartOf(left, d)
    requires |added| == Room(NewEndpointSlice(svc, meta), |left|, max)
    ensures var s := Extended(NewEndpointSlice(svc, meta), added);
            NewSlice(s, svc, meta, d) && |s.endpoints| == |added|
    ensures |added| == Smaller(|left|, max) == |left| - |left'|
    ensures PartOf(left', d) && (left' == map[] <==> |left'| == 0) && (left != map[] ==> |left| > 0)
  {
    var s := Extended(NewEndpointSlice(svc, meta), added);
    assert s.endpoints == added;
  }

  lemma PushNew(svc: Service, max: nat, meta: EndpointMeta, d: Items, creates: seq<EndpointSlice>, s: EndpointSlice)
    requires NewSlices(creates, |creates|, svc, max, meta, d) && NewSlice(s, svc, meta, d)
    ensures |s.endpoints| == max ==> NewSlices(creates + [s], |creates| + 1, svc, max, meta, d)
    ensures 0 < |s.endpoints| < max ==> NewSlices(creates + [s], |creates|, svc, max, meta, d)
  {
    hide NewSlice;
  }

  /** What was left went into the best fitting unchanged slice. */
  lemma FitStep(svc: Service, max: nat, meta: EndpointMeta, t: Sorting, d: Items, left: Items,
                creates: seq<EndpointSlice>, n: Text, added: seq<Endpoint>, left': Items)
    requires OnlyFull(svc, max, meta, d, left, creates) && 0 < |left| < max
    requires BestFit(t, n, |left|, max)
    requires Moved(left, added, left') && |added| == Room(Cur(t, n), |left|, max)
    ensures left' == map[]
    ensures Placed(svc, max, meta, t, d, |d|, Moved1(t, n, Extended(Cur(t, n), added)), creates)
  {
    hide Moved, Extended, PartOf, NewSlices, Grew;
    Division(|d|, max, |creates|, |left|);
    GrewBy(Cur(t, n), added, max, d, left, left');
    FitFills(Cur(t, n), added, left, left', max);
    var t' := Moved1(t, n, Extended(Cur(t, n), added));
    assert Cur(t', n) == Extended(Cur(t, n), added);
    assert FilledInto(t, t', n, |left|, max, d);
  }

  lemma FitFills(s: EndpointSlice, added: seq<Endpoint>, left: Items, left': Items, max: nat)
    requires Moved(left, added, left') && |added| == Room(s, |left|, max) && Fits(s, |left|, max) && |left| > 0
    ensures left' == map[] && |Extended(s, added).endpoints| == |s.endpoints| + |left|
  {
  }

  /** Slice n gets a new form and becomes one to be updated. */
  function Moved1(t: Sorting, n: Text, s: EndpointSlice): Sorting {
    Sorting(t.byName[n := s], t.intact - {n}, t.toUpdate + {n}, t.toDelete)
  }

  lemma FitKeeps(existing: seq<EndpointSlice>, t: Sorting, creates: seq<EndpointSlice>, left: Items, d0: Items,
                 n: Text, added: seq<Endpoint>, left': Items)
    requires DistinctNames(existing) && Sorted(existing, t) && n in t.intact
    requires Conserved(existing, t, creates, left, d0) && Moved(left, added, left')
    ensures var t' := Moved1(t, n, Extended(Cur(t, n), added));
            Conserved(existing, t', creates, left', d0) && Sorted(existing, t')
  {
    hide Conserved, Sorted, Keys, Moved, Extended;
    var s := Extended(Cur(t, n), added);
    IntactIsLive(existing, t, n);
    ExtendedBy(Cur(t, n), added, left, left');
    GrowConserves(existing, t, creates, left, d0, n, s, added, left');
    ConservedFrame(existing, t.(byName := t.byName[n := s]), Moved1(t, n, s), creates, left', d0);
    SortedMoved(existing, t, n, added);
  }

  lemma IntactIsLive(existing: seq<EndpointSlice>, t: Sorting, n: Text)
    requires Sorted(existing, t) && n in t.intact
    ensures n in t.byName && n !in t.toDelete
  {
  }

  lemma ExtendedBy(s: EndpointSlice, added: seq<Endpoint>, left: Items, left': Items)
    requires Moved(left, added, left')
    ensures Extended(s, added).endpoints == s.endpoints + added
    ensures forall k :: Keys(added)[k] + One(k in left') == One(k in left)
  {
  }

  lemma ConservedFrame(existing: seq<EndpointSlice>, t: Sorting, t': Sorting, creates: seq<EndpointSlice>, left: Items,
                       d0: Items)
    requires Conserved(existing, t, creates, left, d0) && t'.byName == t.byName && t'.toDelete == t.toDelete
    ensures Conserved(existing, t', creates, left, d0)
  {
    hide Live, Copies;
  }

  lemma SortedMoved(existing: seq<EndpointSlice>, t: Sorting, n: Text, added: seq<Endpoint>)
    requires Sorted(existing, t) && n in t.intact
    ensures Sorted(existing, Moved1(t, n, Extended(Cur(t, n), added)))
  {
  }

  lemma CreateKeeps(existing: seq<EndpointSlice>, t: Sorting, creates: seq<EndpointSlice>, left: Items, d0: Items,
                    svc: Service, meta: EndpointMeta, added: seq<Endpoint>, left': Items)
    requires Conserved(existing, t, creates, left, d0) && Moved(left, added, left')
    ensures Conserved(existing, t, creates + [Extended(NewEndpointSlice(svc, meta), added)], left', d0)
  {
    hide Conserved, Keys;
    var s := Extended(NewEndpointSlice(svc, meta), added);
    assert s.endpoints == added;
    CreateConserves(existing, t, creates, left, d0, s, left');
  }

  /** Phase 3. */
  method PlaceRest(svc: Service, max: nat, meta: EndpointMeta, ghost existing: seq<EndpointSlice>, ghost d0: Items,
                   desired: EndpointSet, t: Sorting)
    returns (t': Sorting, creates: seq<EndpointSlice>)
    requires max >= 1 && desired.Valid() && DistinctNames(existing) && Sorted(existing, t)
    requires forall s :: s in existing ==> s.name != EMPTY
    requires Conserved(existing, t, [], desired.items, d0)
    modifies desired
    ensures desired.Valid() && desired.items == map[]
    ensures Placed(svc, max, meta, t, old(desired.items), |old(desired.items)|, t', creates)
    ensures Conserved(existing, t', creates, map[], d0) && Sorted(existing, t')
  {
    hide Placed, Conserved, Sorted, Moved, Extended, Room, OnlyFull, NewSlices, NewEndpointSlice, Fits, Cur,
         BestFit, FilledInto, Moved1;
    t', creates := t, [];
    ghost var d := desired.items;
    StartPlacing(svc, max, meta, t, d);
    while |desired.items| > 0
      invariant desired.Valid()
      invariant Conserved(existing, t', creates, desired.items, d0) && Sorted(existing, t')
      invariant if desired.items == map[] then Placed(svc, max, meta, t, d, |d|, t', creates)
                else t' == t && OnlyFull(svc, max, meta, d, desired.items, creates)
      decreases |desired.items|
    {
      ghost var left := desired.items;
      var sliceToFill := None;
      if |desired.items| < max && |t'.intact| > 0 {
        sliceToFill := BestUnchanged(t', existing, |desired.items|, max);
      }
      var base := if sliceToFill.None? then NewEndpointSlice(svc, meta) else sliceToFill.value;
      var slice, added := Fill(desired, base, max);
      NameTells(svc, meta, base, added);
      if slice.name != EMPTY {
        FitStep(svc, max, meta, t, d, left, creates, base.name, added, desired.items);
        FitKeeps(existing, t', creates, left, d0, base.name, added, desired.items);
        t' := Moved1(t', slice.name, slice);
      } else {
        NothingIntact(t', |left|, max);
        CreateStep(svc, max, meta, t, d, left, creates, slice, added, desired.items);
        CreateKeeps(existing, t', creates, left, d0, svc, meta, added, desired.items);
        FillTook(base, left, added, desired.items, max);
        creates := creates + [slice];
      }
    }
  }

  /** Existing slices have names, new ones do not. */
  lemma NameTells(svc: Service, meta: EndpointMeta, base: EndpointSlice, added: seq<Endpoint>)
    ensures Extended(base, added).name == base.name
    ensures NewEndpointSlice(svc, meta).name == EMPTY && NewEndpointSlice(svc, meta).endpoints == []
  {
  }

  /** The slice phase 3 fills when the rest is smaller than a full load: the best fit, if any fits. */
  method BestUnchanged(t: Sorting, ghost existing: seq<EndpointSlice>, count: nat, max: nat)
    returns (slice: Option<EndpointSlice>)
    requires Sorted(existing, t) && count > 0 && forall s :: s in existing ==> s.name != EMPTY
    ensures slice.None? ==> forall n :: n in t.intact ==> !Fits(Cur(t, n), count, max)
    ensures slice.Some? ==> var n := slice.value.name;
              n != EMPTY && n in t.intact && Cur(t, n) == slice.value && BestFit(t, n, count, max)
  {
    hide Fits;
    IntactNames(existing, t);
    var unchangedSlices := Lookup(t.intact, t);
    assert forall n :: n in t.intact ==> Cur(t, n) in unchangedSlices;
    slice := GetSliceToFill(unchangedSlices, count, max);
  }

  lemma IntactNames(existing: seq<EndpointSlice>, t: Sorting)
    requires Sorted(existing, t) && forall s :: s in existing ==> s.name != EMPTY
    ensures forall n :: n in t.byName ==> n != EMPTY && t.byName[n].name == n
  {
  }

  lemma NothingIntact(t: Sorting, count: nat, max: nat)
    ensures |t.intact| == 0 ==> forall n :: n in t.intact ==> !Fits(Cur(t, n), count, max)
  {
  }

  lemma FillTook(s: EndpointSlice, left: Items, added: seq<Endpoint>, left': Items, max: nat)
    requires Moved(left, added, left') && |added| == Room(s, |left|, max) && |left| > 0 && |s.endpoints| < max
    ensures |left'| < |left|
  {
  }

  /** The slices the names stand for, in no particular order. */
  method Lookup(names: set<Text>, t: Sorting) returns (slices: seq<EndpointSlice>)
    requires names <= t.byName.Keys && forall n :: n in t.byName ==> t.byName[n].name == n
    ensures Lists(slices, names, t)
  {
    hide Lists;
    slices := [];
    var todo := names;
    ListsNone(t);
    assert names - todo == {};
    while todo != {}
      invariant todo <= names && Lists(slices, names - todo, t)
      decreases |todo|
    {
      var n :| n in todo;
      ListsPush(slices, names - todo, t, n);
      assert names - (todo - {n}) == names - todo + {n};
      todo := todo - {n};
      slices := slices + [t.byName[n]];
    }
    assert names - todo == names;
  }

  lemma ListsNone(t: Sorting)
    ensures Lists([], {}, t)
  {
  }

  lemma ListsPush(slices: seq<EndpointSlice>, names: set<Text>, t: Sorting, n: Text)
    requires Lists(slices, names, t) && n !in names && n in t.byName && t.byName[n].name == n
    ensures Lists(slices + [t.byName[n]], names + {n}, t)
  {
  }

  lemma StartPlacing(svc: Service, max: nat, meta: EndpointMeta, t: Sorting, d: Items)
    requires max >= 1
    ensures if d == map[] then Placed(svc, max, meta, t, d, |d|, t, []) else OnlyFull(svc, max, meta, d, d, [])
  {
    if d == map[] {
      Division(0, max, 0, 0);
    }
  }

  // ---------- the whole ----------

  method ReconcileByPortMapping(svc: Service, max: nat, existing: seq<EndpointSlice>, desired: EndpointSet,
                                meta: EndpointMeta)
    returns (slicesToCreate: seq<EndpointSlice>, slicesToUpdate: seq<EndpointSlice>, slicesToDelete: seq<EndpointSlice>,
             numAdded: int, numRemoved: int, ghost final: Sorting)
    requires max >= 1 && desired.Valid() && DistinctNames(existing)
    requires forall s :: s in existing ==> s.name != EMPTY
    modifies desired
    ensures Packed(svc, max, meta, existing, old(desired.items),
                   Packing(final, slicesToCreate, slicesToUpdate, slicesToDelete, numAdded, numRemoved))
  {
    hide Swept, Conserved, ToppedUp, Placed, Avail, Removed, TotalEndpoints, Sorted, PartOf;
    ghost var d0 := desired.items;
    var swept, topped, placed;
    swept, numRemoved := Sweep(svc, existing, desired);
    SweptIsConserved(svc, existing, d0, swept);
    SweptIsSorted(svc, existing, d0, swept);
    SweepAccounts(existing, |existing|, d0);
    assert existing[..|existing|] == existing;
    numAdded := desired.Len();
    topped := FillUpdated(max, existing, d0, desired, swept);
    ghost var left := desired.items;
    placed, slicesToCreate := PlaceRest(svc, max, meta, existing, d0, desired, topped);
    final := placed;
    IntactNames(existing, placed);
    SortedNames(existing, placed);
    slicesToUpdate := Lookup(placed.toUpdate, placed);
    slicesToDelete := Lookup(placed.toDelete, placed);
    assert Phases(svc, max, meta, existing, d0, swept, topped, left, placed, slicesToCreate);
  }

  lemma SweptIsSorted(svc: Service, existing: seq<EndpointSlice>, d0: Items, t: Sorting)
    requires Swept(svc, existing, |existing|, d0, t)
    ensures Sorted(existing, t)
  {
    assert existing[..|existing|] == existing;
  }
}
