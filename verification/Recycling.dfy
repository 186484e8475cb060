/** The first half of finalize (pkg/service-controller/reconciler.go): creates take over slices that would
    otherwise be deleted. */
module Recycling {
  import opened Discovery
  import opened Packing

  datatype Changes = Changes(creates: seq<EndpointSlice>, updates: seq<EndpointSlice>, deletes: seq<EndpointSlice>)

  /** A slice about to be deleted may take the place of a new one. */
  predicate Reusable(svc: Service, doomed: EndpointSlice, created: EndpointSlice) {
    doomed.addressType == created.addressType && OwnedBy(doomed, svc)
  }

  /** The j-th create from the end, under the name of the j-th victim. */
  function Renamed(creates: seq<EndpointSlice>, victims: seq<EndpointSlice>, j: nat): EndpointSlice
    requires j < |victims| <= |creates|
  {
    creates[|creates| - 1 - j].(name := victims[j].name)
  }

  /** r is c with the last |victims| creates turned into updates of the victims, which are no longer deleted. */
  ghost predicate Recycled(svc: Service, c: Changes, r: Changes, victims: seq<EndpointSlice>) {
    var n := |victims|;
    && n <= |c.creates| && r.creates == c.creates[..|c.creates| - n]
    && |r.updates| == |c.updates| + n && r.updates[..|c.updates|] == c.updates
    && (forall j :: 0 <= j < n ==>
          r.updates[|c.updates| + j] == Renamed(c.creates, victims, j)
          && Reusable(svc, victims[j], c.creates[|c.creates| - 1 - j]))
    && |r.deletes| + n == |c.deletes|
    && DistinctNames(victims) && DistinctNames(r.deletes)
    && (forall d :: d in c.deletes <==> d in victims || d in r.deletes)
    && (forall v, d :: v in victims && d in r.deletes ==> v.name != d.name)
  }

  lemma NothingRecycled(svc: Service, c: Changes)
    requires DistinctNames(c.deletes)
    ensures Recycled(svc, c, c, [])
  {
  }

  lemma RecycleOne(svc: Service, c: Changes, r: Changes, victims: seq<EndpointSlice>, i: nat)
    requires Recycled(svc, c, r, victims) && i < |r.deletes| && r.creates != []
    requires Reusable(svc, r.deletes[i], r.creates[|r.creates| - 1])
    ensures var last := r.creates[|r.creates| - 1];
            Recycled(svc, c, Changes(r.creates[..|r.creates| - 1], r.updates + [last.(name := r.deletes[i].name)],
                                     r.deletes[..i] + r.deletes[i + 1..]), victims + [r.deletes[i]])
  {
    hide OwnedBy, DistinctNames, Reusable, Renamed;
    var last := r.creates[|r.creates| - 1];
    var d := r.deletes[i];
    RecycledLists(svc, c, r, victims, r.updates + [last.(name := d.name)], d);
    RecycledDeletes(svc, c, r, victims, i);
    assert c.creates[..|c.creates| - |victims|][..|r.creates| - 1] == c.creates[..|r.creates| - 1];
  }

  /** What is left to delete when one more slice is reused. */
  lemma RecycledDeletes(svc: Service, c: Changes, r: Changes, victims: seq<EndpointSlice>, i: nat)
    requires Recycled(svc, c, r, victims) && i < |r.deletes|
    ensures var d, rest, more := r.deletes[i], r.deletes[..i] + r.deletes[i + 1..], victims + [r.deletes[i]];
            && |rest| + |more| == |c.deletes| && DistinctNames(more) && DistinctNames(rest)
            && (forall e :: e in c.deletes <==> e in more || e in rest)
            && (forall v, e :: v in more && e in rest ==> v.name != e.name)
  {
    hide OwnedBy, DistinctNames, Reusable, Renamed;
    var d := r.deletes[i];
    assert d in r.deletes;
    RestOf(r.deletes, i);
    MoreVictims(victims, d);
    assert forall v :: v in victims + [d] <==> v in victims || v == d;
  }

  lemma MoreVictims(victims: seq<EndpointSlice>, d: EndpointSlice)
    requires DistinctNames(victims) && forall v :: v in victims ==> v.name != d.name
    ensures DistinctNames(victims + [d])
  {
  }

  lemma RecycledLists(svc: Service, c: Changes, r: Changes, victims: seq<EndpointSlice>, updates: seq<EndpointSlice>,
                      d: EndpointSlice)
    requires Recycled(svc, c, r, victims) && r.creates != [] && Reusable(svc, d, r.creates[|r.creates| - 1])
    requires updates == r.updates + [r.creates[|r.creates| - 1].(name := d.name)]
    ensures |victims| < |c.creates| && updates[..|c.updates|] == c.updates
    ensures forall j :: 0 <= j < |victims| + 1 ==>
              && updates[|c.updates| + j] == Renamed(c.creates, victims + [d], j)
              && Reusable(svc, (victims + [d])[j], c.creates[|c.creates| - 1 - j])
  {
    hide Reusable, DistinctNames;
    assert updates[..|c.updates|] == r.updates[..|c.updates|];
  }

  lemma RestOf(slices: seq<EndpointSlice>, i: nat)
    requires i < |slices| && DistinctNames(slices)
    ensures DistinctNames(slices[..i] + slices[i + 1..])
    ensures forall d :: d in slices <==> d == slices[i] || d in slices[..i] + slices[i + 1..]
    ensures forall d :: d in slices[..i] + slices[i + 1..] ==> d.name != slices[i].name
  {
    assert slices == slices[..i] + [slices[i]] + slices[i + 1..];
  }

  /** No create is left, or every slice left to delete was refused by some create. */
  ghost predicate Exhausted(svc: Service, c: Changes, r: Changes) {
    r.creates == [] || forall d :: d in r.deletes ==> exists s :: s in c.creates && !Reusable(svc, d, s)
  }

  /** When all slices share one address type, recycling ends without creates or with only foreign slices to delete. */
  lemma OnlyForeignLeft(svc: Service, c: Changes, r: Changes, victims: seq<EndpointSlice>, a: AddressType)
    requires Recycled(svc, c, r, victims) && Exhausted(svc, c, r)
    requires forall s :: s in c.creates || s in c.deletes ==> s.addressType == a
    ensures r.creates == [] || forall d :: d in r.deletes ==> !OwnedBy(d, svc)
    ensures (forall d :: d in c.deletes ==> OwnedBy(d, svc)) ==> r.creates == [] || r.deletes == []
  {
    hide OwnedBy, DistinctNames;
    if r.creates != [] && r.deletes != [] {
      assert r.deletes[0] in r.deletes;
    }
  }

  /** The recycling loop. */
  method RecycleDeletes(svc: Service, slicesToCreate: seq<EndpointSlice>, slicesToUpdate: seq<EndpointSlice>,
                        slicesToDelete: seq<EndpointSlice>)
    returns (r: Changes, ghost victims: seq<EndpointSlice>)
    requires DistinctNames(slicesToDelete)
    ensures Recycled(svc, Changes(slicesToCreate, slicesToUpdate, slicesToDelete), r, victims)
    ensures Exhausted(svc, Changes(slicesToCreate, slicesToUpdate, slicesToDelete), r)
  {
    hide OwnedBy, DistinctNames;
    ghost var c := Changes(slicesToCreate, slicesToUpdate, slicesToDelete);
    var creates, updates, deletes := slicesToCreate, slicesToUpdate, slicesToDelete;
    victims := [];
    NothingRecycled(svc, c);
    var i := 0;
    while i < |deletes|
      invariant 0 <= i <= |deletes|
      invariant Recycled(svc, c, Changes(creates, updates, deletes), victims)
      invariant forall j :: 0 <= j < i ==> exists s :: s in c.creates && !Reusable(svc, deletes[j], s)
      decreases |deletes| - i
    {
      if |creates| == 0 {
        break;
      }
      var sliceToDelete := deletes[i];
      var slice := creates[|creates| - 1];
      var owned := Owned(sliceToDelete, svc);
      if sliceToDelete.addressType == slice.addressType && owned {
        RecycleOne(svc, c, Changes(creates, updates, deletes), victims, i);
        victims := victims + [sliceToDelete];
        creates := creates[..|creates| - 1];
        updates := updates + [slice.(name := sliceToDelete.name)];
        deletes := deletes[..i] + deletes[i + 1..];
      } else {
        assert slice in c.creates && !Reusable(svc, deletes[i], slice);
        i := i + 1;
      }
    }
    r := Changes(creates, updates, deletes);
  }

  /** Recycling keeps the number of writes, the names written to or deleted, and never touches a slice of another
      owner or address type. */
  lemma RecyclingConserves(svc: Service, c: Changes, r: Changes, victims: seq<EndpointSlice>)
    requires Recycled(svc, c, r, victims)
    ensures |r.creates| + |r.updates| == |c.creates| + |c.updates|
    ensures Names(r.updates) + Names(r.deletes) == Names(c.updates) + Names(c.deletes)
    ensures forall d :: d in c.deletes && d !in r.deletes ==>
              OwnedBy(d, svc) && exists s :: s in c.creates && s.addressType == d.addressType
                                             && s.(name := d.name) in r.updates
  {
    hide OwnedBy, Recycled;
    RecycledCounts(svc, c, r, victims);
    forall d | d in c.deletes && d !in r.deletes
      ensures OwnedBy(d, svc)
      ensures exists s :: s in c.creates && s.addressType == d.addressType && s.(name := d.name) in r.updates
    {
      VictimReused(svc, c, r, victims, d);
    }
    RecycledNames(svc, c, r, victims);
  }

  lemma RecycledCounts(svc: Service, c: Changes, r: Changes, victims: seq<EndpointSlice>)
    requires Recycled(svc, c, r, victims)
    ensures |r.creates| + |r.updates| == |c.creates| + |c.updates|
  {
  }

  lemma VictimReused(svc: Service, c: Changes, r: Changes, victims: seq<EndpointSlice>, d: EndpointSlice)
    requires Recycled(svc, c, r, victims) && d in c.deletes && d !in r.deletes
    ensures OwnedBy(d, svc)
    ensures exists s :: s in c.creates && s.addressType == d.addressType && s.(name := d.name) in r.updates
  {
    hide OwnedBy, DistinctNames;
    var j :| 0 <= j < |victims| && victims[j] == d;
    var s := c.creates[|c.creates| - 1 - j];
    assert r.updates[|c.updates| + j] == s.(name := d.name);
    assert s in c.creates && s.(name := d.name) in r.updates;
  }

  lemma RecycledNames(svc: Service, c: Changes, r: Changes, victims: seq<EndpointSlice>)
    requires Recycled(svc, c, r, victims)
    ensures Names(r.updates) == Names(c.updates) + Names(victims)
    ensures Names(c.deletes) == Names(victims) + Names(r.deletes)
  {
    hide OwnedBy, DistinctNames;
    var n := |c.updates|;
    forall u | u in r.updates ensures u.name in Names(c.updates) + Names(victims) {
      var i :| 0 <= i < |r.updates| && r.updates[i] == u;
      if i < n {
        assert u == r.updates[..n][i];
      } else {
        assert u == Renamed(c.creates, victims, i - n) && victims[i - n] in victims;
      }
    }
    forall u | u in c.updates ensures u in r.updates {
      assert u in r.updates[..n];
    }
    forall v | v in victims ensures v.name in Names(r.updates) {
      var j :| 0 <= j < |victims| && victims[j] == v;
      assert r.updates[n + j] in r.updates;
    }
  }
}
