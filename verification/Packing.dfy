/** What the three phases of reconcileByPortMapping (pkg/service-controller/reconciler.go)
    promise, stated on values: copies of a key are counted, so "exactly once" is an equation. */
module Packing {
  import opened Wrappers
  import opened Discovery
  import opened EndpointSets

  // ---------- counting keys ----------

  function KeySeq(eps: seq<Endpoint>): (keys: seq<EndpointKey>)
    ensures |keys| == |eps| && forall i :: 0 <= i < |eps| ==> keys[i] == KeyOf(eps[i])
  {
    seq(|eps|, i requires 0 <= i < |eps| => KeyOf(eps[i]))
  }

  function Keys(eps: seq<Endpoint>): multiset<EndpointKey> {
    multiset(KeySeq(eps))
  }

  function KeySet(eps: seq<Endpoint>): set<EndpointKey> {
    set e | e in eps :: KeyOf(e)
  }

  function One(b: bool): nat {
    if b then 1 else 0
  }

  /** How often key k occurs among the endpoints of some slices. */
  function Copies(slices: seq<EndpointSlice>, k: EndpointKey): nat {
    if slices == [] then 0
    else Copies(slices[..|slices| - 1], k) + Keys(slices[|slices| - 1].endpoints)[k]
  }

  function Seen(slices: seq<EndpointSlice>): set<EndpointKey> {
    set s, e | s in slices && e in s.endpoints :: KeyOf(e)
  }

  lemma KeysConcat(a: seq<Endpoint>, b: seq<Endpoint>)
    ensures Keys(a + b) == Keys(a) + Keys(b)
  {
    assert KeySeq(a + b) == KeySeq(a) + KeySeq(b);
  }

  lemma KeysPush(eps: seq<Endpoint>, e: Endpoint)
    ensures Keys(eps + [e]) == Keys(eps) + multiset{KeyOf(e)}
  {
    assert KeySeq(eps + [e]) == KeySeq(eps) + [KeyOf(e)];
  }

  lemma KeysAre(eps: seq<Endpoint>)
    ensures |Keys(eps)| == |eps|
    ensures forall k :: k in Keys(eps) <==> k in KeySet(eps)
  {
    forall k ensures k in Keys(eps) <==> k in KeySet(eps) {
      if k in KeySeq(eps) {
        var i :| 0 <= i < |eps| && KeySeq(eps)[i] == k;
        assert eps[i] in eps;
      }
      if k in KeySet(eps) {
        var e :| e in eps && KeyOf(e) == k;
        var i :| 0 <= i < |eps| && eps[i] == e;
        assert KeySeq(eps)[i] == k;
      }
    }
  }

  lemma CopiesPush(slices: seq<EndpointSlice>, s: EndpointSlice, k: EndpointKey)
    ensures Copies(slices + [s], k) == Copies(slices, k) + Keys(s.endpoints)[k]
  {
    assert (slices + [s])[..|slices|] == slices;
  }

  lemma {:induction false} CopiesConcat(a: seq<EndpointSlice>, b: seq<EndpointSlice>, k: EndpointKey)
    ensures Copies(a + b, k) == Copies(a, k) + Copies(b, k)
  {
    hide Keys;
    if b == [] {
      assert a + b == a;
    } else {
      var front, last := b[..|b| - 1], b[|b| - 1];
      CopiesConcat(a, front, k);
      assert a + b == (a + front) + [last];
      CopiesPush(a + front, last, k);
    }
  }

  // ---------- phase 1: what stays where it is ----------

  /** The desired versions of the endpoints that stay: each available key once, at its first occurrence. */
  function Kept(eps: seq<Endpoint>, avail: Items): seq<Endpoint> {
    if eps == [] then []
    else
      var k := KeyOf(eps[0]);
      (if k in avail then [avail[k]] else []) + Kept(eps[1..], avail - {k})
  }

  lemma KeptNone(eps: seq<Endpoint>, avail: Items, acc: seq<Endpoint>)
    ensures acc + Kept(eps[|eps|..], avail) == acc && !AnyChanged(eps[|eps|..], avail)
  {
  }

  /** One step of the loop that builds Kept from the left. */
  lemma KeptStep(eps: seq<Endpoint>, i: nat, avail: Items, acc: seq<Endpoint>)
    requires i < |eps|
    ensures var k := KeyOf(eps[i]);
            acc + Kept(eps[i..], avail)
            == (if k in avail then acc + [avail[k]] else acc) + Kept(eps[i + 1..], avail - {k})
    ensures var k := KeyOf(eps[i]);
            AnyChanged(eps[i..], avail) ==
              ((k in avail && !EqualBeyondHash(avail[k], eps[i])) || AnyChanged(eps[i + 1..], avail - {k}))
  {
    assert eps[i..][1..] == eps[i + 1..];
    var k, rest := KeyOf(eps[i]), Kept(eps[i + 1..], avail - {KeyOf(eps[i])});
    if k in avail {
      assert acc + ([avail[k]] + rest) == (acc + [avail[k]]) + rest;
    } else {
      assert [] + rest == rest;
    }
  }

  /** Some endpoint that stays differs from its desired version beyond the key. */
  predicate AnyChanged(eps: seq<Endpoint>, avail: Items) {
    eps != [] &&
    var k := KeyOf(eps[0]);
    || (k in avail && !EqualBeyondHash(avail[k], eps[0]))
    || AnyChanged(eps[1..], avail - {k})
  }

  datatype Verdict = Untouched | Rewrite(slice: EndpointSlice) | Drop

  function Judge(svc: Service, s: EndpointSlice, avail: Items): Verdict {
    var kept := Kept(s.endpoints, avail);
    if AnyChanged(s.endpoints, avail) || |s.endpoints| != |kept| then
      if kept == [] then Drop else Rewrite(s.(endpoints := kept, labels := ServiceLabels(svc)))
    else if LabelsChanged(s, svc) then Rewrite(s.(labels := ServiceLabels(svc)))
    else Untouched
  }

  function Judged(svc: Service, s: EndpointSlice, avail: Items): EndpointSlice {
    var v := Judge(svc, s, avail);
    if v.Rewrite? then v.slice else s
  }

  lemma {:induction false} KeptFrom(eps: seq<Endpoint>, avail: Items)
    requires WellKeyed(avail)
    ensures |Kept(eps, avail)| <= |eps|
    ensures forall e :: e in Kept(eps, avail) ==> KeyOf(e) in avail && avail[KeyOf(e)] == e
  {
    if eps != [] {
      var k := KeyOf(eps[0]);
      var less := avail - {k};
      KeptFrom(eps[1..], less);
      var rest := Kept(eps[1..], less);
      forall e | e in Kept(eps, avail) ensures KeyOf(e) in avail && avail[KeyOf(e)] == e {
        if e in rest {
          assert KeyOf(e) in less;
        } else {
          assert e == avail[k];
        }
      }
    }
  }

  lemma {:induction false} KeptKeys(eps: seq<Endpoint>, avail: Items, key: EndpointKey)
    requires WellKeyed(avail)
    ensures Keys(Kept(eps, avail))[key] == One(key in KeySet(eps) && key in avail)
  {
    hide Keys, KeySet, KeyOf, WellKeyed;
    if eps == [] {
      NoKeys(key);
    } else {
      var k := KeyOf(eps[0]);
      var rest := Kept(eps[1..], avail - {k});
      StillKeyed(avail, k);
      KeptKeys(eps[1..], avail - {k}, key);
      KeySetSplit(eps);
      if k in avail {
        PrependCount(avail[k], rest, key);
      } else {
        assert [] + rest == rest;
      }
    }
  }

  lemma NoKeys(key: EndpointKey)
    ensures Keys([])[key] == 0 && key !in KeySet([])
  {
    assert KeySeq([]) == [];
  }

  lemma PrependCount(e: Endpoint, eps: seq<Endpoint>, key: EndpointKey)
    ensures Keys([e] + eps)[key] == One(key == KeyOf(e)) + Keys(eps)[key]
  {
    hide Keys;
    KeysPrepend(e, eps);
  }

  lemma KeySetSplit(eps: seq<Endpoint>)
    requires eps != []
    ensures KeySet(eps) == {KeyOf(eps[0])} + KeySet(eps[1..])
  {
    assert eps == [eps[0]] + eps[1..];
  }

  lemma KeysPrepend(e: Endpoint, eps: seq<Endpoint>)
    ensures Keys([e] + eps) == multiset{KeyOf(e)} + Keys(eps)
  {
    assert KeySeq([e] + eps) == [KeyOf(e)] + KeySeq(eps);
  }

  lemma StillKeyed(avail: Items, k: EndpointKey)
    requires WellKeyed(avail)
    ensures WellKeyed(avail - {k}) && (k in avail ==> KeyOf(avail[k]) == k)
  {
  }

  /** A slice that loses nothing holds available keys only, none of them twice. */
  lemma {:induction false} KeptAll(eps: seq<Endpoint>, avail: Items)
    requires WellKeyed(avail)
    requires |Kept(eps, avail)| == |eps|
    ensures Keys(eps) == Keys(Kept(eps, avail))
    ensures forall e :: e in eps ==> KeyOf(e) in avail
    ensures !AnyChanged(eps, avail) ==> forall e :: e in eps ==> EqualBeyondHash(avail[KeyOf(e)], e)
  {
    hide Keys, KeyOf, EqualBeyondHash, WellKeyed;
    if eps != [] {
      var k := KeyOf(eps[0]);
      var less := avail - {k};
      var rest := Kept(eps[1..], less);
      StillKeyed(avail, k);
      KeptFrom(eps[1..], less);
      assert k in avail && |rest| == |eps[1..]|;
      KeptAll(eps[1..], less);
      KeysPrepend(eps[0], eps[1..]);
      assert [eps[0]] + eps[1..] == eps;
      KeysPrepend(avail[k], rest);
      forall e | e in eps
        ensures KeyOf(e) in avail
        ensures !AnyChanged(eps, avail) ==> EqualBeyondHash(avail[KeyOf(e)], e)
      {
        if e in eps[1..] {
          assert KeyOf(e) in less;
        } else {
          assert e == eps[0];
        }
      }
    }
  }

  /** Conversely: a slice of available, distinct, up-to-date endpoints loses nothing and changes nothing. */
  lemma {:induction false} SettledSliceStays(eps: seq<Endpoint>, avail: Items)
    requires forall e :: e in eps ==> KeyOf(e) in avail && EqualBeyondHash(avail[KeyOf(e)], e)
    requires forall i, j :: 0 <= i < j < |eps| ==> KeyOf(eps[i]) != KeyOf(eps[j])
    ensures |Kept(eps, avail)| == |eps| && !AnyChanged(eps, avail)
  {
    if eps != [] {
      assert eps[0] in eps;
      SettledSliceStays(eps[1..], avail - {KeyOf(eps[0])});
    }
  }

  // ---------- phase 1 over all the slices of a port map ----------

  function Names(slices: seq<EndpointSlice>): set<Text> {
    set s | s in slices :: s.name
  }

  ghost predicate DistinctNames(slices: seq<EndpointSlice>) {
    forall i, j :: 0 <= i < j < |slices| ==> slices[i].name != slices[j].name
  }

  /** What is still to be placed when the first i slices have been looked at. */
  function Avail(existing: seq<EndpointSlice>, i: nat, d0: Items): Items
    requires i <= |existing|
  {
    d0 - Seen(existing[..i])
  }

  lemma AvailNone(existing: seq<EndpointSlice>, d0: Items)
    ensures Avail(existing, 0, d0) == d0
  {
    assert Seen(existing[..0]) == {};
  }

  lemma AvailStep(existing: seq<EndpointSlice>, i: nat, d0: Items)
    requires i < |existing|
    ensures Avail(existing, i + 1, d0) == Avail(existing, i, d0) - KeySet(existing[i].endpoints)
  {
    assert existing[..i + 1] == existing[..i] + [existing[i]];
    assert Seen(existing[..i + 1]) == Seen(existing[..i]) + KeySet(existing[i].endpoints);
  }

  /** The slices that survive phase 1, in their phase 1 form. */
  function SweptLive(svc: Service, existing: seq<EndpointSlice>, i: nat, d0: Items): seq<EndpointSlice>
    requires i <= |existing|
  {
    if i == 0 then []
    else
      var s, avail := existing[i - 1], Avail(existing, i - 1, d0);
      SweptLive(svc, existing, i - 1, d0) + (if Judge(svc, s, avail).Drop? then [] else [Judged(svc, s, avail)])
  }

  /** The slices of `existing` that are not dropped, as the map now has them. */
  function Live(existing: seq<EndpointSlice>, byName: map<Text, EndpointSlice>, dropped: set<Text>): seq<EndpointSlice>
    requires Names(existing) <= byName.Keys
  {
    if existing == [] then []
    else
      var front, last := existing[..|existing| - 1], existing[|existing| - 1];
      assert last.name in Names(existing);
      assert Names(front) <= Names(existing);
      Live(front, byName, dropped) + (if last.name in dropped then [] else [byName[last.name]])
  }

  /** One slice after its verdict holds exactly the keys it took out of what was available. */
  lemma JudgedKeys(svc: Service, s: EndpointSlice, avail: Items, k: EndpointKey)
    requires WellKeyed(avail)
    ensures var v, took := Judge(svc, s, avail), One(k in KeySet(s.endpoints) && k in avail);
            && (v.Drop? ==> took == 0)
            && (!v.Drop? ==> Keys(Judged(svc, s, avail).endpoints)[k] == took)
  {
    KeptKeys(s.endpoints, avail, k);
    if |Kept(s.endpoints, avail)| == |s.endpoints| {
      KeptAll(s.endpoints, avail);
    }
    assert KeySeq([]) == [];
  }

  lemma SweptNone(svc: Service, existing: seq<EndpointSlice>, d0: Items)
    ensures SweptLive(svc, existing, 0, d0) == []
  {
  }

  lemma SweptStep(svc: Service, existing: seq<EndpointSlice>, i: nat, d0: Items, k: EndpointKey)
    requires i < |existing| && WellKeyed(d0)
    ensures Copies(SweptLive(svc, existing, i + 1, d0), k)
         == Copies(SweptLive(svc, existing, i, d0), k)
            + One(k in KeySet(existing[i].endpoints) && k in Avail(existing, i, d0))
  {
    var s, avail := existing[i], Avail(existing, i, d0);
    JudgedKeys(svc, s, avail, k);
    var before := SweptLive(svc, existing, i, d0);
    if Judge(svc, s, avail).Drop? {
      assert SweptLive(svc, existing, i + 1, d0) == before;
    } else {
      CopiesPush(before, Judged(svc, s, avail), k);
    }
  }

  /** Conservation across phase 1. */
  lemma {:induction false} SweepConserves(svc: Service, existing: seq<EndpointSlice>, i: nat, d0: Items, k: EndpointKey)
    requires i <= |existing| && WellKeyed(d0)
    ensures Copies(SweptLive(svc, existing, i, d0), k) + One(k in Avail(existing, i, d0)) == One(k in d0)
  {
    hide Avail, SweptLive, KeySet, WellKeyed, Copies;
    if i == 0 {
      AvailNone(existing, d0);
      SweptNone(svc, existing, d0);
      NoCopies(k);
    } else {
      SweepConserves(svc, existing, i - 1, d0, k);
      SweptStep(svc, existing, i - 1, d0, k);
      AvailStep(existing, i - 1, d0);
      TakenAway(Avail(existing, i - 1, d0), KeySet(existing[i - 1].endpoints), k);
    }
  }

  lemma NoCopies(k: EndpointKey)
    ensures Copies([], k) == 0
  {
  }

  lemma TakenAway(d: Items, keys: set<EndpointKey>, k: EndpointKey)
    ensures One(k in d) == One(k in keys && k in d) + One(k in d - keys)
  {
  }

  /** Changing one surviving slice changes the count by the difference of its keys. */
  lemma {:induction false} LiveTouch(existing: seq<EndpointSlice>, byName: map<Text, EndpointSlice>,
                                     dropped: set<Text>, n: Text, s: EndpointSlice, k: EndpointKey)
    requires DistinctNames(existing) && Names(existing) <= byName.Keys
    requires n in Names(existing) && n !in dropped
    ensures Copies(Live(existing, byName[n := s], dropped), k) + Keys(byName[n].endpoints)[k]
         == Copies(Live(existing, byName, dropped), k) + Keys(s.endpoints)[k]
  {
    var front, last := existing[..|existing| - 1], existing[|existing| - 1];
    assert existing == front + [last];
    assert Names(existing) == Names(front) + {last.name};
    if last.name == n {
      LiveFrame(front, byName, byName[n := s], dropped);
      CopiesPush(Live(front, byName, dropped), byName[n], k);
      CopiesPush(Live(front, byName, dropped), s, k);
    } else {
      LiveTouch(front, byName, dropped, n, s, k);
      if last.name in dropped {
        assert Live(existing, byName, dropped) == Live(front, byName, dropped);
        assert Live(existing, byName[n := s], dropped) == Live(front, byName[n := s], dropped);
      } else {
        CopiesPush(Live(front, byName, dropped), byName[last.name], k);
        CopiesPush(Live(front, byName[n := s], dropped), byName[last.name], k);
      }
    }
  }

  lemma {:induction false} LiveFrame(existing: seq<EndpointSlice>, byName: map<Text, EndpointSlice>,
                                     byName': map<Text, EndpointSlice>, dropped: set<Text>)
    requires Names(existing) <= byName.Keys && Names(existing) <= byName'.Keys
    requires forall s :: s in existing ==> byName[s.name] == byName'[s.name]
    ensures Live(existing, byName, dropped) == Live(existing, byName', dropped)
  {
    if existing != [] {
      var front, last := existing[..|existing| - 1], existing[|existing| - 1];
      assert last in existing;
      LiveFrame(front, byName, byName', dropped);
    }
  }

  // ---------- the state between the phases ----------

  /** slicesByName and the three name sets of the source. */
  datatype Sorting = Sorting(
    byName: map<Text, EndpointSlice>,
    intact: set<Text>,
    toUpdate: set<Text>,
    toDelete: set<Text>)

  const NO_SLICE := EndpointSlice(EMPTY, EMPTY, EMPTY, 0, map[], [], EMPTY, [], [])

  /** The current form of the slice called n. */
  function Cur(t: Sorting, n: Text): EndpointSlice {
    if n in t.byName then t.byName[n] else NO_SLICE
  }

  function Put(t: Sorting, n: Text, s: EndpointSlice): Sorting {
    t.(byName := t.byName[n := s])
  }

  /** Every existing slice is in exactly one of the three sets, and its entry is that slice
      with at most its endpoints and labels replaced. */
  ghost predicate Sorted(existing: seq<EndpointSlice>, t: Sorting) {
    && t.byName.Keys == Names(existing)
    && t.intact + t.toUpdate + t.toDelete == Names(existing)
    && t.intact !! t.toUpdate !! t.toDelete
    && (forall s :: s in existing ==>
          SameFrame(s, t.byName[s.name]) && (s.name !in t.toUpdate ==> t.byName[s.name] == s))
  }

  predicate SameFrame(s: EndpointSlice, r: EndpointSlice) {
    r == s.(endpoints := r.endpoints, labels := r.labels)
  }

  lemma JudgedFrame(svc: Service, s: EndpointSlice, avail: Items)
    ensures SameFrame(s, Judged(svc, s, avail))
  {
  }

  /** The outcome of phase 1: each of the first i slices is sorted by its verdict. */
  ghost predicate Swept(svc: Service, existing: seq<EndpointSlice>, i: nat, d0: Items, t: Sorting)
    requires i <= |existing|
  {
    && Sorted(existing[..i], t)
    && forall j :: 0 <= j < i ==> SweptAt(svc, existing, j, d0, t)
  }

  ghost predicate SweptAt(svc: Service, existing: seq<EndpointSlice>, j: nat, d0: Items, t: Sorting)
    requires j < |existing|
  {
    var s, avail := existing[j], Avail(existing, j, d0);
    var v := Judge(svc, s, avail);
    && s.name in t.byName && t.byName[s.name] == Judged(svc, s, avail)
    && (s.name in t.intact <==> v.Untouched?)
    && (s.name in t.toUpdate <==> v.Rewrite?)
    && (s.name in t.toDelete <==> v.Drop?)
  }

  lemma {:induction false} SweptIsLive(svc: Service, existing: seq<EndpointSlice>, i: nat, d0: Items, t: Sorting)
    requires i <= |existing| && Names(existing[..i]) <= t.byName.Keys
    requires forall j :: 0 <= j < i ==> SweptAt(svc, existing, j, d0, t)
    ensures Live(existing[..i], t.byName, t.toDelete) == SweptLive(svc, existing, i, d0)
  {
    if i != 0 {
      assert existing[..i][..i - 1] == existing[..i - 1];
      assert Names(existing[..i - 1]) <= Names(existing[..i]);
      SweptIsLive(svc, existing, i - 1, d0, t);
      assert SweptAt(svc, existing, i - 1, d0, t);
    }
  }

  /** Key k has one place: still to be placed, in a surviving slice, or in a new one; none if it is not desired. */
  ghost predicate Conserved(existing: seq<EndpointSlice>, t: Sorting, creates: seq<EndpointSlice>,
                            left: Items, d0: Items)
  {
    && Names(existing) <= t.byName.Keys
    && forall k :: Copies(Live(existing, t.byName, t.toDelete), k) + Copies(creates, k) + One(k in left) == One(k in d0)
  }

  lemma SweptIsConserved(svc: Service, existing: seq<EndpointSlice>, d0: Items, t: Sorting)
    requires WellKeyed(d0) && Swept(svc, existing, |existing|, d0, t)
    ensures Conserved(existing, t, [], Avail(existing, |existing|, d0), d0)
  {
    assert existing[..|existing|] == existing;
    SweptIsLive(svc, existing, |existing|, d0, t);
    forall k
      ensures Copies(Live(existing, t.byName, t.toDelete), k) + One(k in Avail(existing, |existing|, d0))
           == One(k in d0)
    {
      SweepConserves(svc, existing, |existing|, d0, k);
    }
  }

  // ---------- accounting ----------

  function TotalEndpoints(slices: seq<EndpointSlice>): nat {
    if slices == [] then 0 else TotalEndpoints(slices[..|slices| - 1]) + |slices[|slices| - 1].endpoints|
  }

  /** numRemoved after the first i slices: the endpoints that did not stay. */
  function Removed(existing: seq<EndpointSlice>, i: nat, d0: Items): int
    requires i <= |existing|
  {
    if i == 0 then 0
    else Removed(existing, i - 1, d0)
         + |existing[i - 1].endpoints| - |Kept(existing[i - 1].endpoints, Avail(existing, i - 1, d0))|
  }

  lemma KeptCount(eps: seq<Endpoint>, avail: Items)
    requires WellKeyed(avail)
    ensures |Kept(eps, avail)| == |avail| - |avail - KeySet(eps)|
  {
    var kept, m := Keys(Kept(eps, avail)), KeySet(eps) * avail.Keys;
    forall k ensures kept[k] == multiset(m)[k] { KeptKeys(eps, avail, k); }
    assert kept == multiset(m);
    KeysAre(Kept(eps, avail));
    assert |kept| == |m|;
    assert (avail - KeySet(eps)).Keys == avail.Keys - m;
  }

  lemma AvailCount(existing: seq<EndpointSlice>, i: nat, d0: Items)
    requires i < |existing| && WellKeyed(d0)
    ensures |Avail(existing, i + 1, d0)|
         == |Avail(existing, i, d0)| - |Kept(existing[i].endpoints, Avail(existing, i, d0))|
  {
    AvailStep(existing, i, d0);
    KeptCount(existing[i].endpoints, Avail(existing, i, d0));
  }

  lemma TotalPush(existing: seq<EndpointSlice>, i: nat)
    requires i < |existing|
    ensures TotalEndpoints(existing[..i + 1]) == TotalEndpoints(existing[..i]) + |existing[i].endpoints|
  {
    assert existing[..i + 1][..i] == existing[..i];
  }

  /** Endpoints found - removed + added == desired: numRemoved and numAdded account for every endpoint. */
  lemma {:induction false} SweepAccounts(existing: seq<EndpointSlice>, i: nat, d0: Items)
    requires i <= |existing| && WellKeyed(d0)
    ensures TotalEndpoints(existing[..i]) - Removed(existing, i, d0) + |Avail(existing, i, d0)| == |d0|
  {
    hide Avail, Kept;
    if i == 0 {
      AvailNone(existing, d0);
    } else {
      SweepAccounts(existing, i - 1, d0);
      AvailCount(existing, i - 1, d0);
      TotalPush(existing, i - 1);
    }
  }

  // ---------- phase 2: topping up the slices that are written anyway ----------

  /** Every endpoint is the desired version of its key. */
  ghost predicate FromItems(eps: seq<Endpoint>, d: Items) {
    forall e :: e in eps ==> KeyOf(e) in d && d[KeyOf(e)] == e
  }

  /** Popping `added` off d leaves `left`: every key is in one of the two, once. */
  ghost predicate Moved(d: Items, added: seq<Endpoint>, left: Items) {
    && FromItems(added, d)
    && |added| == |d| - |left|
    && (forall k :: Keys(added)[k] + One(k in left) == One(k in d))
    && (forall k :: k in left ==> k in d && left[k] == d[k])
  }

  lemma MovedNone(d: Items)
    ensures Moved(d, [], d)
  {
    assert KeySeq([]) == [];
  }

  lemma MovedOne(d: Items, added: seq<Endpoint>, left: Items, e: Endpoint, left': Items)
    requires Moved(d, added, left)
    requires KeyOf(e) in left && left[KeyOf(e)] == e
    requires left' == left - {KeyOf(e)} && |left'| == |left| - 1
    ensures Moved(d, added + [e], left')
  {
    hide Keys;
    KeysPush(added, e);
    forall k ensures Keys(added + [e])[k] + One(k in left') == One(k in d) {
      assert Keys(added)[k] + One(k in left) == One(k in d);
    }
  }

  /** r is s with desired endpoints appended, and appending never takes it past max. */
  ghost predicate Grew(s: EndpointSlice, r: EndpointSlice, max: nat, d: Items) {
    && |s.endpoints| <= |r.endpoints|
    && r == s.(endpoints := s.endpoints + r.endpoints[|s.endpoints|..])
    && FromItems(r.endpoints[|s.endpoints|..], d)
    && (r == s || |r.endpoints| <= max)
  }

  function Size(t: Sorting, n: Text): nat {
    |Cur(t, n).endpoints|
  }

  predicate Received(t: Sorting, t': Sorting, n: Text) {
    Size(t, n) < Size(t', n)
  }

  /** The outcome of phase 2 on the slices `names` with `left` still to be placed: the fullest slices
      were filled first, and at most one slice that received endpoints has room left. */
  ghost predicate ToppedUp(max: nat, t: Sorting, names: set<Text>, d: Items, t': Sorting, left: Items) {
    && t' == t.(byName := t'.byName) && t'.byName.Keys == t.byName.Keys
    && (forall n :: n !in names ==> Cur(t', n) == Cur(t, n))
    && (forall n :: n in names ==> Grew(Cur(t, n), Cur(t', n), max, d))
    && (left == map[] || forall n :: n in names ==> Size(t', n) >= max)
    && InOrder(max, t, names, t')
  }

  /** A slice received endpoints only if all the slices fuller than it are full now, and all that received some are
      full except at most one. */
  ghost predicate InOrder(max: nat, t: Sorting, names: set<Text>, t': Sorting) {
    && (forall n, m :: n in names && m in names && Received(t, t', n) && Size(t, m) > Size(t, n) ==> Size(t', m) >= max)
    && (forall n, m :: n in names && m in names && n != m && Received(t, t', n) && Received(t, t', m) ==>
          Size(t', n) >= max || Size(t', m) >= max)
  }

  // ---------- phase 3: the rest ----------

  /** Slice s can take n more endpoints. */
  predicate Fits(s: EndpointSlice, n: nat, max: nat) {
    |s.endpoints| + n <= max
  }

  ghost predicate BestFit(t: Sorting, n: Text, rest: nat, max: nat) {
    && n in t.intact && Fits(Cur(t, n), rest, max)
    && forall m :: m in t.intact && Fits(Cur(t, m), rest, max) ==> Size(t, m) <= Size(t, n)
  }

  ghost predicate NewSlice(s: EndpointSlice, svc: Service, meta: EndpointMeta, d: Items) {
    s == NewEndpointSlice(svc, meta).(endpoints := s.endpoints) && FromItems(s.endpoints, d)
  }

  /** Slices 0..full are filled to the brim; a last one, if there is one more, is not empty. */
  ghost predicate NewSlices(creates: seq<EndpointSlice>, full: nat, svc: Service, max: nat, meta: EndpointMeta,
                            d: Items) {
    && (forall s :: s in creates ==> NewSlice(s, svc, meta, d))
    && full <= |creates| <= full + 1
    && (forall i :: 0 <= i < full ==> |creates[i].endpoints| == max)
    && (|creates| == full + 1 ==> 0 < |creates[full].endpoints| < max)
  }

  /** The outcome of phase 3 on `count` endpoints: one new slice per full load; what is left over goes into the
      best fitting unchanged slice if one fits, and into a last new slice otherwise. */
  ghost predicate Placed(svc: Service, max: nat, meta: EndpointMeta, t: Sorting, d: Items, count: nat,
                         t': Sorting, creates: seq<EndpointSlice>)
    requires max >= 1
  {
    var full, rest := count / max, count % max;
    && NewSlices(creates, full, svc, max, meta, d)
    && if rest == 0 then t' == t && |creates| == full
       else if exists n :: n in t.intact && Fits(Cur(t, n), rest, max) then
         && |creates| == full
         && exists n :: BestFit(t, n, rest, max) && FilledInto(t, t', n, rest, max, d)
       else t' == t && |creates| == full + 1 && |creates[full].endpoints| == rest
  }

  ghost predicate FilledInto(t: Sorting, t': Sorting, n: Text, rest: nat, max: nat, d: Items) {
    && t' == Sorting(t.byName[n := Cur(t', n)], t.intact - {n}, t.toUpdate + {n}, t.toDelete)
    && Grew(Cur(t, n), Cur(t', n), max, d)
    && Size(t', n) == Size(t, n) + rest
  }

  // ---------- what every phase keeps ----------

  /** Endpoint e says what d says, field by field: the same addresses in whatever order, the same host, node, zone and
      readiness, the same target up to its resource version; serving and terminating count where both say something. */
  predicate Shows(e: Endpoint, d: Endpoint) {
    && multiset(e.addresses) == multiset(d.addresses)
    && (if e.hostname.Some? then e.hostname.value else EMPTY) == (if d.hostname.Some? then d.hostname.value else EMPTY)
    && e.nodeName == d.nodeName && e.zone == d.zone && e.ready == d.ready
    && (e.serving.Some? && d.serving.Some? ==> e.serving.value == d.serving.value)
    && (e.terminating.Some? && d.terminating.Some? ==> e.terminating.value == d.terminating.value)
    && (e.targetRef.Some? <==> d.targetRef.Some?)
    && (e.targetRef.Some? && d.targetRef.Some? ==>
          var t, u := e.targetRef.value, d.targetRef.value;
          t.kind == u.kind && t.namespace == u.namespace && t.name == u.name && t.uid == u.uid)
  }

  /** The comparison of keys and that of everything beyond them make up this notion together. */
  lemma SameShows(e: Endpoint, d: Endpoint)
    ensures Shows(e, d) <==> KeyOf(e) == KeyOf(d) && EqualBeyondHash(d, e)
  {
  }

  /** Every published endpoint is desired, and says what the desired one says. */
  ghost predicate Faithful(eps: seq<Endpoint>, d0: Items) {
    forall e :: e in eps ==> KeyOf(e) in d0 && Shows(e, d0[KeyOf(e)])
  }

  ghost predicate AllFaithful(t: Sorting, d0: Items) {
    forall n :: n in t.byName && n !in t.toDelete ==> Faithful(t.byName[n].endpoints, d0)
  }

  lemma KeptFaithful(eps: seq<Endpoint>, avail: Items, d0: Items)
    requires WellKeyed(avail)
    requires forall k :: k in avail ==> k in d0 && d0[k] == avail[k]
    ensures Faithful(Kept(eps, avail), d0)
    ensures |Kept(eps, avail)| == |eps| && !AnyChanged(eps, avail) ==> Faithful(eps, d0)
  {
    hide Shows, KeyOf, EqualBeyondHash;
    KeptFrom(eps, avail);
    forall e ensures Shows(e, e) {
      ShowsItself(e);
    }
    if |Kept(eps, avail)| == |eps| {
      KeptAll(eps, avail);
      forall e | e in eps && !AnyChanged(eps, avail) ensures Shows(e, avail[KeyOf(e)]) {
        assert KeyOf(avail[KeyOf(e)]) == KeyOf(e);
        SameShows(e, avail[KeyOf(e)]);
      }
    }
  }

  lemma ShowsItself(e: Endpoint)
    ensures Shows(e, e)
  {
  }

  lemma JudgedFaithful(svc: Service, s: EndpointSlice, avail: Items, d0: Items)
    requires WellKeyed(avail) && !Judge(svc, s, avail).Drop? && Labelled(s, svc)
    requires forall k :: k in avail ==> k in d0 && d0[k] == avail[k]
    ensures Faithful(Judged(svc, s, avail).endpoints, d0)
    ensures WellLabelled(Judged(svc, s, avail), svc)
  {
    hide Kept, AnyChanged, Faithful, ServiceLabels, Unreserved, ManagedByController;
    KeptFaithful(s.endpoints, avail, d0);
    if Judge(svc, s, avail).Rewrite? {
      ServiceLabelsSettle(Judged(svc, s, avail), svc);
    }
  }

  lemma SweptIsFaithful(svc: Service, existing: seq<EndpointSlice>, d0: Items, t: Sorting)
    requires WellKeyed(d0) && Swept(svc, existing, |existing|, d0, t)
    requires forall s :: s in existing ==> Labelled(s, svc)
    ensures AllFaithful(t, d0)
    ensures forall n :: n in t.byName && n !in t.toDelete ==> WellLabelled(t.byName[n], svc)
  {
    assert existing[..|existing|] == existing;
    forall n | n in t.byName && n !in t.toDelete
      ensures Faithful(t.byName[n].endpoints, d0) && WellLabelled(t.byName[n], svc)
    {
      var s :| s in existing && s.name == n;
      var j :| 0 <= j < |existing| && existing[j] == s;
      assert SweptAt(svc, existing, j, d0, t);
      JudgedFaithful(svc, s, Avail(existing, j, d0), d0);
    }
  }

  /** Putting desired endpoints into one surviving slice moves their count from `left` to that slice. */
  lemma GrowConserves(existing: seq<EndpointSlice>, t: Sorting, creates: seq<EndpointSlice>, left: Items, d0: Items,
                      n: Text, s: EndpointSlice, added: seq<Endpoint>, left': Items)
    requires DistinctNames(existing) && Sorted(existing, t) && n in t.byName && n !in t.toDelete
    requires Conserved(existing, t, creates, left, d0)
    requires s.endpoints == t.byName[n].endpoints + added
    requires forall k :: Keys(added)[k] + One(k in left') == One(k in left)
    ensures Conserved(existing, t.(byName := t.byName[n := s]), creates, left', d0)
  {
    hide Live, Copies, Keys, Names, DistinctNames, SameFrame;
    var t' := t.(byName := t.byName[n := s]);
    KeysConcat(t.byName[n].endpoints, added);
    forall k
      ensures Copies(Live(existing, t'.byName, t'.toDelete), k) + Copies(creates, k) + One(k in left') == One(k in d0)
    {
      LiveTouch(existing, t.byName, t.toDelete, n, s, k);
    }
  }

  lemma CreateConserves(existing: seq<EndpointSlice>, t: Sorting, creates: seq<EndpointSlice>, left: Items, d0: Items,
                        s: EndpointSlice, left': Items)
    requires Conserved(existing, t, creates, left, d0)
    requires forall k :: Keys(s.endpoints)[k] + One(k in left') == One(k in left)
    ensures Conserved(existing, t, creates + [s], left', d0)
  {
    forall k
      ensures Copies(Live(existing, t.byName, t.toDelete), k) + Copies(creates + [s], k) + One(k in left')
           == One(k in d0)
    {
      CopiesPush(creates, s, k);
    }
  }

  // ---------- the result of reconcileByPortMapping ----------

  /** The list holds the current form of each named slice, once. */
  ghost predicate Lists(slices: seq<EndpointSlice>, names: set<Text>, t: Sorting) {
    && |slices| == |names| && DistinctNames(slices)
    && (forall s :: s in slices ==> s.name in names && Cur(t, s.name) == s)
    && (forall n :: n in names ==> Cur(t, n) in slices && Cur(t, n).name == n)
  }

  datatype Packing = Packing(
    final: Sorting,
    creates: seq<EndpointSlice>,
    updates: seq<EndpointSlice>,
    deletes: seq<EndpointSlice>,
    added: int,
    removed: int)

  /** The three phases one after the other; `left` is what phase 2 leaves to phase 3. */
  ghost predicate Phases(svc: Service, max: nat, meta: EndpointMeta, existing: seq<EndpointSlice>, d0: Items,
                         swept: Sorting, topped: Sorting, left: Items, placed: Sorting, creates: seq<EndpointSlice>)
    requires max >= 1
  {
    var avail := Avail(existing, |existing|, d0);
    && Swept(svc, existing, |existing|, d0, swept)
    && ToppedUp(max, swept, swept.toUpdate, avail, topped, left)
    && PartOf(left, avail)
    && Placed(svc, max, meta, topped, left, |left|, placed, creates)
  }

  /** `left` is what is left of d. */
  ghost predicate PartOf(left: Items, d: Items) {
    forall k :: k in left ==> k in d && left[k] == d[k]
  }

  ghost predicate Packed(svc: Service, max: nat, meta: EndpointMeta, existing: seq<EndpointSlice>, d0: Items,
                         p: Packing)
    requires max >= 1
  {
    && (exists swept, topped, left ::
          Phases(svc, max, meta, existing, d0, swept, topped, left, p.final, p.creates))
    && Sorted(existing, p.final)
    && Conserved(existing, p.final, p.creates, map[], d0)
    && Lists(p.updates, p.final.toUpdate, p.final)
    && Lists(p.deletes, p.final.toDelete, p.final)
    && TotalEndpoints(existing) - p.removed + p.added == |d0|
    && p.added == |Avail(existing, |existing|, d0)|
  }
}
