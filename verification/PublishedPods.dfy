/** What a service publishes, in terms of its pods and of the fields of the slices in the API server: the meaning of
    "published exactly" in pkg/service-controller/reconciler.go without keys, hashes and comparisons. */
module PublishedPods {
  import opened Wrappers
  import opened Discovery
  import opened Packing
  import opened PackingTheorems
  import opened Planning
  import opened Writes
  import opened PublishingTheorems

  /** By namespace, address type and labels the slice is one of the service's. */
  predicate IsOf(s: EndpointSlice, svc: Service, a: AddressType) {
    var name, manager := Text("kubernetes.io/service-name"), Text("endpointslice.kubernetes.io/managed-by");
    && s.namespace == svc.namespace && s.addressType == a
    && name in s.labels && s.labels[name] == svc.name
    && manager in s.labels && s.labels[manager] == Text("multus-endpointslice-controller.npwg.k8s.io")
  }

  /** The j-th endpoint of slice n, which is one of the service's. */
  predicate Place(store: Store, n: Text, j: nat, svc: Service, a: AddressType) {
    n in store && IsOf(store[n], svc, a) && j < |store[n].endpoints|
  }

  function HostOf(e: Endpoint): Text {
    if e.hostname.Some? then e.hostname.value else EMPTY
  }

  /** The same ports, the same addresses and the same host, in whatever order. */
  predicate SameTarget(ports: seq<EndpointPort>, e: Endpoint, ports': seq<EndpointPort>, e': Endpoint) {
    multiset(ports) == multiset(ports') && multiset(e.addresses) == multiset(e'.addresses) && HostOf(e) == HostOf(e')
  }

  /** The pod belongs to the service's endpoints and has an address. */
  predicate Contributes(p: PodView) {
    p.included && p.endpoint.addresses != []
  }

  /** Pod i is the last one that contributes this endpoint. */
  ghost predicate LastPod(pods: seq<PodView>, i: nat, ports: seq<EndpointPort>, e: Endpoint) {
    && i < |pods| && Contributes(pods[i]) && SameTarget(ports, e, pods[i].ports, pods[i].endpoint)
    && forall h :: i < h < |pods| && Contributes(pods[h]) ==> !SameTarget(ports, e, pods[h].ports, pods[h].endpoint)
  }

  /** Every published endpoint is that of a contributing pod, field by field; every contributing pod is published; and
      nothing is published twice. */
  ghost predicate PublishesPods(store: Store, svc: Service, a: AddressType, pods: seq<PodView>) {
    && (forall n, j: nat | Place(store, n, j, svc, a) ::
          ShownByPod(pods, store[n].ports, store[n].endpoints[j]))
    && (forall i :: 0 <= i < |pods| && Contributes(pods[i]) ==>
          exists n, j: nat :: Place(store, n, j, svc, a)
                              && SameTarget(store[n].ports, store[n].endpoints[j], pods[i].ports, pods[i].endpoint))
    && (forall n, j: nat, m, l: nat | Place(store, n, j, svc, a) && Place(store, m, l, svc, a)
                                      && SameTarget(store[n].ports, store[n].endpoints[j],
                                                    store[m].ports, store[m].endpoints[l]) ::
          n == m && j == l)
  }

  ghost predicate ShownByPod(pods: seq<PodView>, ports: seq<EndpointPort>, e: Endpoint) {
    exists i: nat :: LastPod(pods, i, ports, e) && Shows(e, pods[i].endpoint)
  }

  lemma IsMine(s: EndpointSlice, svc: Service, a: AddressType)
    ensures IsOf(s, svc, a) <==> Mine(s, svc, a)
  {
  }

  lemma TargetIsKey(ports: seq<EndpointPort>, e: Endpoint, p: PodView)
    ensures Contributes(p) && SameTarget(ports, e, p.ports, p.endpoint) <==> AsksFor(p, multiset(ports), KeyOf(e))
  {
  }

  /** A store that publishes exactly what is gathered from the pods publishes the pods. */
  lemma PodsArePublished(store: Store, svc: Service, a: AddressType, pods: seq<PodView>)
    requires PublishedExactly(store, svc, a, Gather(pods))
    ensures PublishesPods(store, svc, a, pods)
  {
    hide PublishedExactly, IsOf, SameTarget, ShownByPod, Gather, Contributes;
    forall n, j: nat | Place(store, n, j, svc, a) ensures ShownByPod(pods, store[n].ports, store[n].endpoints[j]) {
      PlaceShown(store, svc, a, pods, n, j);
    }
    forall i | 0 <= i < |pods| && Contributes(pods[i])
      ensures exists n, j: nat :: Place(store, n, j, svc, a)
                                  && SameTarget(store[n].ports, store[n].endpoints[j], pods[i].ports, pods[i].endpoint)
    {
      PodPlaced(store, svc, a, pods, i);
    }
    forall n, j: nat, m, l: nat | Place(store, n, j, svc, a) && Place(store, m, l, svc, a)
                                  && SameTarget(store[n].ports, store[n].endpoints[j],
                                                store[m].ports, store[m].endpoints[l])
      ensures n == m && j == l
    {
      OnePlace(store, svc, a, Gather(pods), n, j, m, l);
    }
  }

  lemma PlaceShown(store: Store, svc: Service, a: AddressType, pods: seq<PodView>, n: Text, j: nat)
    requires PublishedExactly(store, svc, a, Gather(pods)) && Place(store, n, j, svc, a)
    ensures ShownByPod(pods, store[n].ports, store[n].endpoints[j])
  {
    hide IsOf, SameTarget, Gather, Contributes, Mine, Shows, AsksFor, NoRepeats, Published;
    IsMine(store[n], svc, a);
    var s, e := store[n], store[n].endpoints[j];
    assert e in s.endpoints && ShownRight(s, e, Gather(pods));
    GatherMeans(pods, PortKey(s), KeyOf(e));
    var i :| 0 <= i < |pods| && AsksFor(pods[i], PortKey(s), KeyOf(e))
             && pods[i].endpoint == Gathered(pods, PortKey(s), KeyOf(e)).value
             && forall h :: i < h < |pods| ==> !AsksFor(pods[h], PortKey(s), KeyOf(e));
    forall h | i <= h < |pods|
      ensures Contributes(pods[h]) && SameTarget(s.ports, e, pods[h].ports, pods[h].endpoint)
              <==> AsksFor(pods[h], PortKey(s), KeyOf(e))
    {
      TargetIsKey(s.ports, e, pods[h]);
    }
    assert LastPod(pods, i, s.ports, e);
  }

  lemma PodPlaced(store: Store, svc: Service, a: AddressType, pods: seq<PodView>, i: nat)
    requires PublishedExactly(store, svc, a, Gather(pods)) && i < |pods| && Contributes(pods[i])
    ensures exists n, j: nat :: Place(store, n, j, svc, a)
                                && SameTarget(store[n].ports, store[n].endpoints[j], pods[i].ports, pods[i].endpoint)
  {
    hide IsOf, Gather, Mine, Shows, NoRepeats, ShownRight;
    var pm, k := multiset(pods[i].ports), KeyOf(pods[i].endpoint);
    assert pods[i] in pods && AsksFor(pods[i], pm, k);
    GatherMeans(pods, pm, k);
    assert Asked(Gather(pods), pm, k);
    var n :| Holds(store, n, svc, a, pm, k);
    IsMine(store[n], svc, a);
    var e :| e in store[n].endpoints && KeyOf(e) == k;
    var j :| 0 <= j < |store[n].endpoints| && store[n].endpoints[j] == e;
    assert Place(store, n, j, svc, a);
  }

  lemma OnePlace(store: Store, svc: Service, a: AddressType, desired: Desired, n: Text, j: nat, m: Text, l: nat)
    requires PublishedExactly(store, svc, a, desired) && Place(store, n, j, svc, a) && Place(store, m, l, svc, a)
    requires SameTarget(store[n].ports, store[n].endpoints[j], store[m].ports, store[m].endpoints[l])
    ensures n == m && j == l
  {
    hide IsOf, Mine, Shows, Published, ShownRight, Asked;
    IsMine(store[n], svc, a);
    IsMine(store[m], svc, a);
    var e, f := store[n].endpoints[j], store[m].endpoints[l];
    assert e in store[n].endpoints && f in store[m].endpoints && KeyOf(e) == KeyOf(f);
    assert Holds(store, n, svc, a, PortKey(store[n]), KeyOf(e));
    assert Holds(store, m, svc, a, PortKey(store[n]), KeyOf(e));
    assert NoRepeats(store[n].endpoints);
  }
}
