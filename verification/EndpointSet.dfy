/** pkg/service-controller/endpointset.go: the hash-keyed set the packer consumes. */
module EndpointSets {
  import opened Wrappers
  import opened Discovery

  type Items = map<EndpointKey, Endpoint>

  /** Every endpoint sits under its own key. */
  ghost predicate WellKeyed(items: Items) {
    forall k :: k in items ==> KeyOf(items[k]) == k
  }

  class EndpointSet {
    var items: Items

    ghost predicate Valid()
      reads this
    {
      WellKeyed(items)
    }

    constructor (items: Items)
      requires WellKeyed(items)
      ensures Valid() && this.items == items
    {
      this.items := items;
    }

    method Delete(e: Endpoint)
      requires Valid()
      modifies this
      ensures Valid() && items == old(items) - {KeyOf(e)}
    {
      items := items - {KeyOf(e)};
    }

    /** The endpoint stored under e's key, which need not be e itself. */
    method Get(e: Endpoint) returns (r: Option<Endpoint>)
      requires Valid()
      ensures r.Some? <==> KeyOf(e) in items
      ensures r.Some? ==> r.value == items[KeyOf(e)]
    {
      if KeyOf(e) in items {
        r := Some(items[KeyOf(e)]);
      } else {
        r := None;
      }
    }

    /** Takes out one element, whichever the map yields first. */
    method PopAny() returns (r: Option<Endpoint>)
      requires Valid()
      modifies this
      ensures Valid()
      ensures r.None? <==> old(items) == map[]
      ensures r.None? ==> items == old(items)
      ensures r.Some? ==> KeyOf(r.value) in old(items) && old(items)[KeyOf(r.value)] == r.value
      ensures r.Some? ==> items == old(items) - {KeyOf(r.value)} && |items| == |old(items)| - 1
    {
      if items == map[] {
        r := None;
      } else {
        assert items.Keys != {};
        var k :| k in items.Keys;
        var e := items[k];
        Delete(e);
        assert items.Keys == old(items).Keys - {k};
        r := Some(e);
      }
    }

    method Len() returns (n: nat)
      ensures n == |items|
    {
      n := |items|;
    }
  }
}
