/** How pkg/proxy/controllers/endpointslice.go turns the slices of a service into endpoint lists by service port:
    every loop ranges over a Go map, and the outcome does not depend on the order. */
module ProxyEndpoints {
  import opened Wrappers
  import opened Discovery
  import opened EndpointStrings

  /** An address and whether the address parser takes it for IPv6. */
  datatype Address = Address(ip: string, v6: bool)

  datatype EndpointInfo = EndpointInfo(
    addresses: seq<Address>, nodeName: Option<Text>, ready: bool, serving: bool, terminating: bool)

  datatype PortInfo = PortInfo(name: Option<Text>, port: Option<nat>, protocol: Text)

  datatype SliceInfo = SliceInfo(ports: seq<PortInfo>, endpoints: seq<EndpointInfo>, remove: bool)

  datatype ServicePortName = ServicePortName(nn: NamespacedName, port: Text, protocol: Text)

  datatype BaseEndpointInfo = BaseEndpointInfo(
    endpoint: Text, isLocal: bool, ready: bool, serving: bool, terminating: bool)

  /** The proxy's own node and IP family. */
  datatype Config = Config(hostname: Text, v6: bool)

  predicate Equal(a: BaseEndpointInfo, b: BaseEndpointInfo) {
    a.endpoint == b.endpoint && a.isLocal == b.isLocal
  }

  predicate IsLocalName(c: Config, hostname: Text) {
    c.hostname != EMPTY && hostname == c.hostname
  }

  /** Topology is never filled in, so a missing node name reads as the empty one. */
  predicate IsLocal(c: Config, e: EndpointInfo) {
    IsLocalName(c, if e.nodeName.Some? then e.nodeName.value else EMPTY)
  }

  predicate GoodPort(p: PortInfo) {
    p.name.Some? && p.port.Some? && p.port.value != 0
  }

  predicate GoodEndpoint(c: Config, e: EndpointInfo) {
    e.addresses != [] && e.addresses[0].v6 == c.v6
  }

  function EndpointString(e: EndpointInfo, port: nat): Text
    requires e.addresses != []
  {
    Text(JoinHostPort(e.addresses[0].ip, Itoa(port)))
  }

  function PortName(nn: NamespacedName, p: PortInfo): ServicePortName
    requires p.name.Some?
  {
    ServicePortName(nn, p.name.value, p.protocol)
  }

  // ---------- what slices offer ----------

  /** An endpoint string offered for a port, and whether a local endpoint offers it. */
  datatype Offer = Offer(key: Text, local: bool)

  /** What a list of endpoints offers on one port number. */
  function OffersOn(c: Config, port: nat, endpoints: seq<EndpointInfo>): set<Offer> {
    set e | e in endpoints && GoodEndpoint(c, e) :: Offer(EndpointString(e, port), IsLocal(c, e))
  }

  /** What a slice offers for a service port. */
  function OffersOf(c: Config, nn: NamespacedName, s: SliceInfo, spn: ServicePortName): set<Offer> {
    OffersOfPorts(c, nn, s.ports, s.endpoints, spn)
  }

  function OffersOfPorts(c: Config, nn: NamespacedName, ports: seq<PortInfo>, endpoints: seq<EndpointInfo>,
                         spn: ServicePortName): set<Offer>
  {
    set p, o | p in ports && GoodPort(p) && PortName(nn, p) == spn && o in OffersOn(c, p.port.value, endpoints) :: o
  }

  /** What all slices of a service offer for a service port. */
  function AllOffers(c: Config, nn: NamespacedName, infos: map<Text, SliceInfo>, spn: ServicePortName): set<Offer> {
    set n, o | n in infos && o in OffersOf(c, nn, infos[n], spn) :: o
  }

  /** The grouped endpoints m are those of the offers: a string is local if any offer of it is. */
  ghost predicate Holds(m: map<Text, BaseEndpointInfo>, offers: set<Offer>) {
    && (forall k :: k in m <==> Offer(k, true) in offers || Offer(k, false) in offers)
    && (forall k :: k in m ==> m[k].endpoint == k && (m[k].isLocal <==> Offer(k, true) in offers))
  }

  type ByServicePort = map<ServicePortName, map<Text, BaseEndpointInfo>>

  function At(g: ByServicePort, spn: ServicePortName): map<Text, BaseEndpointInfo> {
    if spn in g then g[spn] else map[]
  }

  // ---------- the grouping loops ----------

  method AddEndpoints(c: Config, portNum: nat, endpointSet: map<Text, BaseEndpointInfo>, endpoints: seq<EndpointInfo>,
                      ghost before: set<Offer>)
    returns (r: map<Text, BaseEndpointInfo>)
    requires Holds(endpointSet, before)
    ensures Holds(r, before + OffersOn(c, portNum, endpoints))
  {
    hide EndpointString, IsLocal, Holds, OffersOn;
    r := endpointSet;
    NothingOn(c, portNum, endpoints);
    ghost var offers := before;
    for i := 0 to |endpoints|
      invariant offers == before + OffersOn(c, portNum, endpoints[..i])
      invariant Holds(r, offers)
    {
      var endpoint := endpoints[i];
      OffersOnNext(c, portNum, endpoints, i);
      if |endpoint.addresses| == 0 {
        continue;
      }
      if c.v6 != endpoint.addresses[0].v6 {
        continue;
      }
      var isLocal := IsLocalAt(c, endpoint);
      var key := EndpointString(endpoint, portNum);
      var info := BaseEndpointInfo(key, isLocal, endpoint.ready, endpoint.serving, endpoint.terminating);
      HoldsNext(r, offers, info);
      if info.endpoint !in r || isLocal {
        r := r[info.endpoint := info];
      }
      offers := offers + {Offer(key, isLocal)};
    }
    assert endpoints[..|endpoints|] == endpoints;
  }

  method IsLocalAt(c: Config, e: EndpointInfo) returns (isLocal: bool)
    ensures isLocal == IsLocal(c, e)
  {
    if e.nodeName.Some? {
      isLocal := IsLocalName(c, e.nodeName.value);
    } else {
      isLocal := IsLocalName(c, EMPTY);
    }
  }

  /** A new endpoint string is entered; a known one is replaced only by a local endpoint. */
  lemma HoldsNext(m: map<Text, BaseEndpointInfo>, offers: set<Offer>, info: BaseEndpointInfo)
    requires Holds(m, offers)
    ensures Holds(if info.endpoint !in m || info.isLocal then m[info.endpoint := info] else m,
                  offers + {Offer(info.endpoint, info.isLocal)})
  {
  }

  lemma NothingOn(c: Config, port: nat, endpoints: seq<EndpointInfo>)
    ensures OffersOn(c, port, endpoints[..0]) == {}
  {
  }

  lemma OffersOnNext(c: Config, port: nat, endpoints: seq<EndpointInfo>, i: nat)
    requires i < |endpoints|
    ensures OffersOn(c, port, endpoints[..i + 1])
         == OffersOn(c, port, endpoints[..i])
            + if GoodEndpoint(c, endpoints[i])
              then {Offer(EndpointString(endpoints[i], port), IsLocal(c, endpoints[i]))} else {}
  {
    assert endpoints[..i + 1] == endpoints[..i] + [endpoints[i]];
  }

  /** The groups hold, for every service port of the service, what is offered for it so far. */
  ghost predicate Grouped(g: ByServicePort, nn: NamespacedName, offers: ServicePortName -> set<Offer>) {
    && (forall spn :: spn in g ==> spn.nn == nn)
    && (forall spn :: Holds(At(g, spn), offers(spn)))
  }

  method AddPorts(c: Config, nn: NamespacedName, info: SliceInfo, g0: ByServicePort,
                  ghost before: ServicePortName -> set<Offer>)
    returns (g: ByServicePort)
    requires Grouped(g0, nn, before)
    ensures Grouped(g, nn, spn => before(spn) + OffersOf(c, nn, info, spn))
  {
    hide Holds, OffersOn, OffersOfPorts;
    g := g0;
    forall spn ensures Holds(At(g, spn), before(spn) + OffersOfPorts(c, nn, info.ports[..0], info.endpoints, spn)) {
      NoPorts(c, nn, info, spn, before(spn));
    }
    for i := 0 to |info.ports|
      invariant forall spn :: spn in g ==> spn.nn == nn
      invariant forall spn ::
                  Holds(At(g, spn), before(spn) + OffersOfPorts(c, nn, info.ports[..i], info.endpoints, spn))
    {
      var port := info.ports[i];
      ghost var g' := g;
      if port.name.None? {
        forall spn { PortsNext(c, nn, info, i, spn, before(spn)); }
        continue;
      }
      if port.port.None? || port.port.value == 0 {
        forall spn { PortsNext(c, nn, info, i, spn, before(spn)); }
        continue;
      }
      var svcPortName := PortName(nn, port);
      ghost var offers := before(svcPortName) + OffersOfPorts(c, nn, info.ports[..i], info.endpoints, svcPortName);
      var endpoints := AddEndpoints(c, port.port.value, At(g, svcPortName), info.endpoints, offers);
      g := g[svcPortName := endpoints];
      forall spn
        ensures Holds(At(g, spn), before(spn) + OffersOfPorts(c, nn, info.ports[..i + 1], info.endpoints, spn))
      {
        PortsNext(c, nn, info, i, spn, before(spn));
        assert spn != svcPortName ==> At(g, spn) == At(g', spn);
      }
    }
    assert info.ports[..|info.ports|] == info.ports;
  }

  lemma NoPorts(c: Config, nn: NamespacedName, info: SliceInfo, spn: ServicePortName, before: set<Offer>)
    ensures before + OffersOfPorts(c, nn, info.ports[..0], info.endpoints, spn) == before
  {
  }

  lemma PortsNext(c: Config, nn: NamespacedName, info: SliceInfo, i: nat, spn: ServicePortName, before: set<Offer>)
    requires i < |info.ports|
    ensures var p := info.ports[i];
            var now := before + OffersOfPorts(c, nn, info.ports[..i], info.endpoints, spn);
            before + OffersOfPorts(c, nn, info.ports[..i + 1], info.endpoints, spn)
            == if GoodPort(p) && PortName(nn, p) == spn then now + OffersOn(c, p.port.value, info.endpoints) else now
  {
    hide OffersOn;
    assert info.ports[..i + 1] == info.ports[..i] + [info.ports[i]];
  }

  /** The groups for these slices. */
  ghost predicate GroupedFor(g: ByServicePort, c: Config, nn: NamespacedName, done: map<Text, SliceInfo>) {
    Grouped(g, nn, spn => AllOffers(c, nn, done, spn))
  }

  /** One more slice. */
  method AddInfo(c: Config, nn: NamespacedName, name: Text, info: SliceInfo, g0: ByServicePort,
                 ghost done: map<Text, SliceInfo>)
    returns (g: ByServicePort)
    requires GroupedFor(g0, c, nn, done) && name !in done
    ensures GroupedFor(g, c, nn, done[name := info])
  {
    hide Holds, OffersOf, AllOffers;
    g := AddPorts(c, nn, info, g0, spn => AllOffers(c, nn, done, spn));
    forall spn { OffersNext(c, nn, done, name, info, spn); }
  }

  /** endpointInfoByServicePort, over the slices in whatever order. */
  method EndpointInfoByServicePort(c: Config, nn: NamespacedName, infos: map<Text, SliceInfo>)
    returns (g: ByServicePort)
    ensures Grouped(g, nn, spn => AllOffers(c, nn, infos, spn))
  {
    hide Grouped, GroupedFor, AllOffers;
    g := map[];
    var todo := infos;
    ghost var done: map<Text, SliceInfo> := map[];
    NothingOffered(c, nn);
    while todo != map[]
      invariant done.Keys !! todo.Keys && done + todo == infos
      invariant GroupedFor(g, c, nn, done)
      decreases |todo|
    {
      var name :| name in todo;
      g := AddInfo(c, nn, name, todo[name], g, done);
      MoveOne(done, todo, name);
      done := done[name := todo[name]];
      todo := todo - {name};
    }
    assert done == infos;
    GroupedMeans(g, c, nn, infos);
  }

  lemma GroupedMeans(g: ByServicePort, c: Config, nn: NamespacedName, infos: map<Text, SliceInfo>)
    requires GroupedFor(g, c, nn, infos)
    ensures Grouped(g, nn, spn => AllOffers(c, nn, infos, spn))
  {
    hide Holds, AllOffers;
  }

  lemma NothingOffered(c: Config, nn: NamespacedName)
    ensures GroupedFor(map[], c, nn, map[])
  {
  }

  lemma OffersNext(c: Config, nn: NamespacedName, done: map<Text, SliceInfo>, name: Text, info: SliceInfo,
                   spn: ServicePortName)
    requires name !in done
    ensures AllOffers(c, nn, done[name := info], spn) == AllOffers(c, nn, done, spn) + OffersOf(c, nn, info, spn)
  {
    hide OffersOf;
    var more := done[name := info];
    forall o | o in AllOffers(c, nn, done, spn) ensures o in AllOffers(c, nn, more, spn) {
      var n :| n in done && o in OffersOf(c, nn, done[n], spn);
      assert more[n] == done[n];
    }
    forall o | o in OffersOf(c, nn, info, spn) ensures o in AllOffers(c, nn, more, spn) {
      assert more[name] == info;
    }
  }
}
