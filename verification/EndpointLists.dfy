/** The endpoint lists of pkg/proxy/controllers/endpointslice.go: sorted by endpoint string, determined by what the
    slices offer, whatever order the maps are walked in. */
module EndpointLists {
  import opened Wrappers
  import opened Discovery
  import opened EndpointStrings
  import opened ProxyEndpoints

  type EMap = map<ServicePortName, seq<BaseEndpointInfo>>

  predicate Ordered(a: Text, b: Text) {
    Before(a.chars, b.chars)
  }

  ghost predicate StrictlySorted(list: seq<BaseEndpointInfo>) {
    forall i, j :: 0 <= i < j < |list| ==> Ordered(list[i].endpoint, list[j].endpoint)
  }

  predicate Offered(offers: set<Offer>, key: Text) {
    Offer(key, true) in offers || Offer(key, false) in offers
  }

  /** The list for a set of offers: every offered string once, sorted, local if any offer of it is. */
  ghost predicate Lists(offers: set<Offer>, list: seq<BaseEndpointInfo>) {
    && StrictlySorted(list)
    && (forall b :: b in list ==> Offered(offers, b.endpoint) && (b.isLocal <==> Offer(b.endpoint, true) in offers))
    && (forall key :: Offered(offers, key) ==> exists b :: b in list && b.endpoint == key)
  }

  /** Equal endpoint by endpoint. */
  predicate SameList(a: seq<BaseEndpointInfo>, b: seq<BaseEndpointInfo>) {
    |a| == |b| && forall i :: 0 <= i < |a| ==> a[i].endpoint == b[i].endpoint && a[i].isLocal == b[i].isLocal
  }

  lemma OrderFacts(a: Text, b: Text)
    ensures !Ordered(a, a)
    ensures Ordered(a, b) || a == b || Ordered(b, a)
    ensures !(Ordered(a, b) && Ordered(b, a))
  {
    Irreflexive(a.chars);
    Total(a.chars, b.chars);
    if Ordered(a, b) && Ordered(b, a) {
      Transitive(a.chars, b.chars, a.chars);
    }
  }

  /** The offers determine the list: any two orders of walking the maps give equal lists. */
  lemma {:induction false} OneList(offers: set<Offer>, a: seq<BaseEndpointInfo>, b: seq<BaseEndpointInfo>)
    requires Lists(offers, a) && Lists(offers, b)
    ensures SameList(a, b)
    decreases |a|
  {
    hide Ordered;
    if a == [] || b == [] {
      Empties(offers, a, b);
      Empties(offers, b, a);
    } else {
      SameFirst(offers, a, b);
      var rest := offers - {Offer(a[0].endpoint, true), Offer(a[0].endpoint, false)};
      RestLists(offers, a);
      RestLists(offers, b);
      OneList(rest, a[1..], b[1..]);
    }
  }

  lemma Empties(offers: set<Offer>, a: seq<BaseEndpointInfo>, b: seq<BaseEndpointInfo>)
    requires Lists(offers, a) && Lists(offers, b)
    ensures b != [] ==> a != []
  {
    if b != [] {
      assert b[0] in b;
      var x :| x in a && x.endpoint == b[0].endpoint;
    }
  }

  lemma SameFirst(offers: set<Offer>, a: seq<BaseEndpointInfo>, b: seq<BaseEndpointInfo>)
    requires Lists(offers, a) && Lists(offers, b) && a != [] && b != []
    ensures a[0].endpoint == b[0].endpoint && a[0].isLocal == b[0].isLocal
  {
    hide Ordered;
    assert a[0] in a && b[0] in b;
    var x :| x in a && x.endpoint == b[0].endpoint;
    var y :| y in b && y.endpoint == a[0].endpoint;
    var i :| 0 <= i < |a| && a[i] == x;
    var j :| 0 <= j < |b| && b[j] == y;
    OrderFacts(a[0].endpoint, b[0].endpoint);
  }

  lemma RestLists(offers: set<Offer>, a: seq<BaseEndpointInfo>)
    requires Lists(offers, a) && a != []
    ensures Lists(offers - {Offer(a[0].endpoint, true), Offer(a[0].endpoint, false)}, a[1..])
  {
    hide Ordered;
    var first := a[0].endpoint;
    var rest := offers - {Offer(first, true), Offer(first, false)};
    forall b | b in a[1..]
      ensures Offered(rest, b.endpoint) && (b.isLocal <==> Offer(b.endpoint, true) in rest)
    {
      var i :| 1 <= i < |a| && a[i] == b;
      OrderFacts(first, b.endpoint);
    }
    forall key | Offered(rest, key) ensures exists b :: b in a[1..] && b.endpoint == key {
      assert Offered(offers, key);
      var b :| b in a && b.endpoint == key;
      assert b != a[0];
      assert b in a[1..];
    }
  }

  lemma {:induction false} LeastExists(m: map<Text, BaseEndpointInfo>)
    requires m != map[]
    ensures exists k :: k in m && forall j :: j in m && j != k ==> Ordered(k, j)
    decreases |m|
  {
    hide Ordered;
    var k :| k in m;
    var rest := m - {k};
    if rest == map[] {
      assert forall j :: j in m && j != k ==> j in rest;
    } else {
      LeastExists(rest);
      var least :| least in rest && forall j :: j in rest && j != least ==> Ordered(least, j);
      OrderFacts(k, least);
      if Ordered(k, least) {
        forall j | j in m && j != k ensures Ordered(k, j) {
          if j != least {
            OrderedTrans(k, least, j);
          }
        }
      } else {
        assert forall j :: j in m && j != least ==> Ordered(least, j);
      }
    }
  }

  lemma OrderedTrans(a: Text, b: Text, c: Text)
    requires Ordered(a, b) && Ordered(b, c)
    ensures Ordered(a, c)
  {
    Transitive(a.chars, b.chars, c.chars);
  }

  /** The least endpoints of m are in the list, the others are still to come. */
  ghost predicate Sorting(m: map<Text, BaseEndpointInfo>, todo: map<Text, BaseEndpointInfo>,
                          list: seq<BaseEndpointInfo>) {
    && (forall k :: k in todo ==> k in m && todo[k] == m[k])
    && (forall b :: b in list ==> b.endpoint in m && b == m[b.endpoint])
    && (forall k :: k in m && k !in todo ==> m[k] in list)
    && (forall b, k :: b in list && k in todo ==> Ordered(b.endpoint, k))
    && StrictlySorted(list)
  }

  lemma SortStep(m: map<Text, BaseEndpointInfo>, todo: map<Text, BaseEndpointInfo>, list: seq<BaseEndpointInfo>,
                 k: Text)
    requires Sorting(m, todo, list) && (forall j :: j in m ==> m[j].endpoint == j)
    requires k in todo && forall j :: j in todo && j != k ==> Ordered(k, j)
    ensures Sorting(m, todo - {k}, list + [todo[k]])
  {
    hide Ordered, StrictlySorted;
    SortedPush(list, todo[k]);
  }

  lemma SortedPush(list: seq<BaseEndpointInfo>, b: BaseEndpointInfo)
    requires StrictlySorted(list) && forall x :: x in list ==> Ordered(x.endpoint, b.endpoint)
    ensures StrictlySorted(list + [b])
  {
    hide Ordered;
  }

  lemma SortedAll(m: map<Text, BaseEndpointInfo>, list: seq<BaseEndpointInfo>, offers: set<Offer>)
    requires Sorting(m, map[], list) && Holds(m, offers)
    ensures Lists(offers, list)
  {
    hide Ordered, StrictlySorted;
    forall key | Offered(offers, key) ensures exists b :: b in list && b.endpoint == key {
      assert key in m && m[key] in list;
    }
  }

  /** The endpoints of one service port in the order of their strings; distinct strings leave no choice. */
  method SortByEndpoint(m: map<Text, BaseEndpointInfo>, ghost offers: set<Offer>) returns (list: seq<BaseEndpointInfo>)
    requires Holds(m, offers)
    ensures Lists(offers, list)
  {
    hide Ordered, Lists, Sorting;
    list := [];
    var todo := m;
    assert Sorting(m, todo, list) by { SortStart(m); }
    assert forall j :: j in m ==> m[j].endpoint == j;
    while todo != map[]
      invariant Sorting(m, todo, list)
      decreases |todo|
    {
      LeastExists(todo);
      var k :| k in todo && forall j :: j in todo && j != k ==> Ordered(k, j);
      SortStep(m, todo, list, k);
      list := list + [todo[k]];
      todo := todo - {k};
    }
    SortedAll(m, list, offers);
  }

  lemma SortStart(m: map<Text, BaseEndpointInfo>)
    ensures Sorting(m, m, [])
  {
  }

  /** The list under spn is the one for these offers; without offers there is none. */
  ghost predicate ListedAt(em: EMap, spn: ServicePortName, offers: set<Offer>) {
    && (spn in em <==> offers != {})
    && (spn in em ==> Lists(offers, em[spn]))
  }

  /** The part of em that belongs to service nn is what these slices give. */
  ghost predicate PartIs(c: Config, em: EMap, nn: NamespacedName, infos: map<Text, SliceInfo>) {
    forall spn: ServicePortName :: spn.nn == nn ==> ListedAt(em, spn, AllOffers(c, nn, infos, spn))
  }

  /** endpointsMapFromEndpointInfo, over the service ports in whatever order. */
  method EndpointsMapFrom(c: Config, nn: NamespacedName, infos: map<Text, SliceInfo>, g: ByServicePort)
    returns (em: EMap)
    requires Grouped(g, nn, spn => AllOffers(c, nn, infos, spn))
    ensures PartIs(c, em, nn, infos) && forall spn :: spn in em ==> spn.nn == nn
  {
    hide Lists, AllOffers, Holds;
    em := map[];
    var todo := g.Keys;
    while todo != {}
      invariant todo <= g.Keys
      invariant forall spn :: spn in em ==> spn in g && spn !in todo
      invariant forall spn :: spn in g && spn !in todo ==> ListedAt(em, spn, AllOffers(c, nn, infos, spn))
      decreases |todo|
    {
      var spn :| spn in todo;
      todo := todo - {spn};
      ghost var offers := AllOffers(c, nn, infos, spn);
      assert Holds(At(g, spn), offers);
      HoldsNone(g[spn], offers);
      if |g[spn]| > 0 {
        var list := SortByEndpoint(g[spn], offers);
        em := em[spn := list];
      }
    }
    forall spn: ServicePortName | spn.nn == nn && spn !in g ensures AllOffers(c, nn, infos, spn) == {} {
      assert Holds(At(g, spn), AllOffers(c, nn, infos, spn));
      HoldsNone(At(g, spn), AllOffers(c, nn, infos, spn));
    }
  }

  lemma HoldsNone(m: map<Text, BaseEndpointInfo>, offers: set<Offer>)
    requires Holds(m, offers)
    ensures |m| == 0 <==> offers == {}
  {
    if m == map[] && offers != {} {
      var o :| o in offers;
      assert o.key !in m;
    }
    if o :| o in offers {
      assert o == Offer(o.key, true) || o == Offer(o.key, false);
      assert o.key in m;
    }
    if k :| k in m {
      assert Offer(k, true) in offers || Offer(k, false) in offers;
    }
  }

  /** getEndpointsMap. */
  method GetEndpointsMap(c: Config, nn: NamespacedName, infos: map<Text, SliceInfo>) returns (em: EMap)
    ensures PartIs(c, em, nn, infos) && forall spn :: spn in em ==> spn.nn == nn
  {
    hide Grouped, PartIs;
    var g := EndpointInfoByServicePort(c, nn, infos);
    em := EndpointsMapFrom(c, nn, infos, g);
  }

  /** Two computations from the same slices agree: the same service ports, and equal lists under each. */
  lemma OneMap(c: Config, nn: NamespacedName, infos: map<Text, SliceInfo>, a: EMap, b: EMap, spn: ServicePortName)
    requires PartIs(c, a, nn, infos) && PartIs(c, b, nn, infos) && spn.nn == nn
    ensures spn in a <==> spn in b
    ensures spn in a && spn in b ==> SameList(a[spn], b[spn])
  {
    hide Lists, AllOffers;
    assert ListedAt(a, spn, AllOffers(c, nn, infos, spn)) && ListedAt(b, spn, AllOffers(c, nn, infos, spn));
    if spn in a {
      OneList(AllOffers(c, nn, infos, spn), a[spn], b[spn]);
    }
  }
}
