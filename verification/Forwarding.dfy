/** From services and EndpointSlices to packets (pkg/proxy): what the nat table of a network namespace does to a packet,
    told in the fields of the objects that the proxy watches. */
module Forwarding {
  import opened Wrappers
  import opened Discovery
  import opened ProxyEndpoints
  import opened EndpointLists
  import opened ServicePorts
  import opened Iptables
  import opened ProxyRules
  import opened IptableBuffers
  import opened RuleSync
  import opened ProxySync
  import opened Packets
  import ChangeTrackers
  import ProxyCache

  /** The protocol of a packet, as the rules name it, and that of a service port. */
  predicate SameProtocol(lower: string, upper: string) {
    (upper == "TCP" && lower == "tcp") || (upper == "UDP" && lower == "udp") || (upper == "SCTP" && lower == "sctp")
  }

  /** The packet is for this port of a live service: it has the service's cluster IP, and the service is not headless
      and is on the network of one of the interfaces. */
  ghost predicate ForPort(services: seq<ChangeTrackers.Op<ProxyService>>, ifaces: seq<Interface>, p: Packet,
                          spn: ServicePortName, j: nat, i: nat)
  {
    var live := LiveService(services, spn.nn);
    live.Some? &&
    var svc := live.value;
    && LastPort(svc, j, spn) && i < |ifaces| && IsNetwork(ifaces[i].netattachName, svc)
    && svc.clusterIP.chars != "None" && p.destination == svc.clusterIP.chars
    && p.port == svc.ports[j].port && SameProtocol(p.protocol, svc.ports[j].protocol.chars)
  }

  /** An endpoint of one of the service's latest slices gives this destination for the service port. */
  ghost predicate Serves(c: Config, slices: seq<ProxyCache.Op>, spn: ServicePortName, endpoint: Text) {
    exists i: nat, e, port :: ProxyCache.Gives(c, slices, spn, i, e, port, endpoint)
  }

  ghost predicate Reaches(c: Config, slices: seq<ProxyCache.Op>, services: seq<ChangeTrackers.Op<ProxyService>>,
                          ifaces: seq<Interface>, p: Packet, spn: ServicePortName, endpoint: Text)
  {
    (exists j: nat, i: nat :: ForPort(services, ifaces, p, spn, j, i)) && Serves(c, slices, spn, endpoint)
  }

  // ---------- services ----------

  lemma PortIsProper(services: seq<ChangeTrackers.Op<ProxyService>>, nn: NamespacedName, j: nat)
    requires ProperServices(services) && LiveService(services, nn).Some?
    requires j < |LiveService(services, nn).value.ports|
    ensures IsProtocol(LiveService(services, nn).value.ports[j].protocol.chars)
  {
    hide IsName, ChangeTrackers.LiveAfter, IsProtocol;
    LiveFrom(services, nn);
    var svc := LiveService(services, nn).value;
    var i :| 0 <= i < |services| && services[i].Event? && services[i].current == Some(svc);
    assert svc.ports[j] in svc.ports;
    assert WellNamed(PortKeyOf(svc, svc.ports[j]));
  }

  lemma SaysProtocol(info: ServicePortInfo, svc: ProxyService, q: ServicePort, p: Packet)
    requires Says(info, svc, q) && IsProtocol(q.protocol.chars)
    ensures SameProtocol(p.protocol, q.protocol.chars) <==> p.protocol == info.protocol.chars
  {
    hide IsNetwork;
    assert |"TCP"| == 3 && "TCP"[0] == 'T' && "UDP"[0] == 'U' && "SCTP"[0] == 'S';
    assert "tcp"[0] == 't' && "udp"[0] == 'u' && "sctp"[0] == 's';
  }

  /** The entries of the service map that a packet is for are those of the live services it is for. */
  lemma ForEntry(services: seq<ChangeTrackers.Op<ProxyService>>, ifaces: seq<Interface>, sm: ServiceMap, p: Packet,
                 spn: ServicePortName)
    requires ShowsLive(sm, services) && ProperServices(services)
    ensures (exists i: nat :: Wanted(ifaces, sm, i, spn) && IsFor(p, sm[spn]))
            <==> exists j: nat, i: nat :: ForPort(services, ifaces, p, spn, j, i)
  {
    hide ProperServices, LiveService, IsNetwork, SameProtocol, IsProtocol, Says, Matches, IsFor;
    if LiveService(services, spn.nn).Some? {
      var svc := LiveService(services, spn.nn).value;
      assert ShowsService(sm, svc, spn);
      if i: nat :| Wanted(ifaces, sm, i, spn) && IsFor(p, sm[spn]) {
        var j: nat :| LastPort(svc, j, spn) && Says(sm[spn], svc, svc.ports[j]);
        PortIsProper(services, spn.nn, j);
        EntryFits(services, ifaces, sm, p, spn, j, i);
      }
      if j: nat, i: nat :| ForPort(services, ifaces, p, spn, j, i) {
        HasNetwork(ifaces[i].netattachName, svc);
        var l: nat :| LastPort(svc, l, spn) && Says(sm[spn], svc, svc.ports[l]);
        LastOnce(svc, j, l, spn);
        PortIsProper(services, spn.nn, j);
        EntryFits(services, ifaces, sm, p, spn, j, i);
      }
    }
  }

  lemma HasNetwork(network: Text, svc: ProxyService)
    requires IsNetwork(network, svc)
    ensures svc.network.Some?
  {
    hide Picks;
  }

  lemma LastOnce(svc: ProxyService, j: nat, l: nat, spn: ServicePortName)
    requires LastPort(svc, j, spn) && LastPort(svc, l, spn)
    ensures j == l
  {
  }

  lemma EntryFits(services: seq<ChangeTrackers.Op<ProxyService>>, ifaces: seq<Interface>, sm: ServiceMap, p: Packet,
                  spn: ServicePortName, j: nat, i: nat)
    requires LiveService(services, spn.nn).Some? && spn in sm
    requires var svc := LiveService(services, spn.nn).value;
             LastPort(svc, j, spn) && Says(sm[spn], svc, svc.ports[j]) && IsProtocol(svc.ports[j].protocol.chars)
    ensures Wanted(ifaces, sm, i, spn) && IsFor(p, sm[spn]) <==> ForPort(services, ifaces, p, spn, j, i)
  {
    hide LiveService, IsNetwork, SameProtocol, IsProtocol;
    var svc := LiveService(services, spn.nn).value;
    SaysProtocol(sm[spn], svc, svc.ports[j], p);
    if i < |ifaces| && IsNetwork(ifaces[i].netattachName, svc) {
      OneNetwork(ifaces[i].netattachName, sm[spn].targetNetwork, svc);
    }
  }

  // ---------- endpoints ----------

  lemma ServedBy(c: Config, slices: seq<ProxyCache.Op>, em: EMap, spn: ServicePortName, endpoint: Text)
    requires ProxyCache.ShowsWatched(c, em, slices)
    ensures Serves(c, slices, spn, endpoint) <==> endpoint in EndpointsOf(em, spn)
  {
    hide ProxyCache.Gives, ProxyCache.OnNode, StrictlySorted;
    var list := ProxyCache.ListAt(em, spn);
    assert ProxyCache.ShowsWatchedAt(c, list, slices, spn);
    if Serves(c, slices, spn, endpoint) {
      var i: nat, e, port :| ProxyCache.Gives(c, slices, spn, i, e, port, endpoint);
      var b :| b in list && b.endpoint == endpoint;
      var h :| 0 <= h < |list| && list[h] == b;
      assert EndpointsOf(em, spn)[h] == endpoint;
    }
    if endpoint in EndpointsOf(em, spn) {
      var h :| 0 <= h < |EndpointsOf(em, spn)| && EndpointsOf(em, spn)[h] == endpoint;
      assert list[h] in list;
    }
  }

  // ---------- packets ----------

  /** A table as specified for the live services and the latest slices gives a packet a new destination exactly if the
      packet is for a port of a live service, on the network of one of the interfaces, that some endpoint serves; and
      the new destination is then such an endpoint. */
  lemma PacketsReachEndpoints(c: Config, slices: seq<ProxyCache.Op>, services: seq<ChangeTrackers.Op<ProxyService>>,
                              ifaces: seq<Interface>, t0: Table, t: Table, sm: ServiceMap, em: EMap, p: Packet,
                              draws: Draws, depth: nat)
    requires ShowsLive(sm, services) && ProxyCache.ShowsWatched(c, em, slices) && ProperServices(services)
    requires Specified(t0, t, ifaces, sm, em) && ProperDraws(draws) && depth >= 3
    ensures var d := Walk(t, Services, 0, p, draws, depth);
            && (d.Some? <==> exists spn, endpoint :: Reaches(c, slices, services, ifaces, p, spn, endpoint))
            && (d.Some? ==> exists spn :: Reaches(c, slices, services, ifaces, p, spn, d.value))
  {
    hide ShowsLive, ProxyCache.ShowsWatched, ProperServices, Specified, ProperDraws, Walk, Wanted, IsFor, ForPort,
         Serves, EndpointsOf, Drawn;
    PacketsGo(t0, t, ifaces, sm, em, p, draws, depth);
    var d := Walk(t, Services, 0, p, draws, depth);
    if d.Some? {
      ChosenReaches(c, slices, services, ifaces, sm, em, p, draws, d.value);
    }
    if spn, endpoint :| Reaches(c, slices, services, ifaces, p, spn, endpoint) {
      ForEntry(services, ifaces, sm, p, spn);
      ServedBy(c, slices, em, spn, endpoint);
      AddressedBy(ifaces, sm, em, p, spn);
    }
  }

  lemma AddressedBy(ifaces: seq<Interface>, sm: ServiceMap, em: EMap, p: Packet, spn: ServicePortName)
    requires exists i: nat :: Wanted(ifaces, sm, i, spn) && IsFor(p, sm[spn])
    requires EndpointsOf(em, spn) != []
    ensures Packets.Addressed(ifaces, sm, em, p)
  {
    hide Matches, IsFor, EndpointsOf;
  }

  lemma ChosenReaches(c: Config, slices: seq<ProxyCache.Op>, services: seq<ChangeTrackers.Op<ProxyService>>,
                      ifaces: seq<Interface>, sm: ServiceMap, em: EMap, p: Packet, draws: Draws, endpoint: Text)
    requires ShowsLive(sm, services) && ProxyCache.ShowsWatched(c, em, slices) && ProperServices(services)
    requires Chooses(ifaces, sm, em, p, draws, endpoint)
    ensures exists spn :: Reaches(c, slices, services, ifaces, p, spn, endpoint)
  {
    hide ShowsLive, ProxyCache.ShowsWatched, ProperServices, Matches, IsFor, ForPort, Serves, EndpointsOf;
    var i: nat, spn, k: nat :|
      ChosenFor(ifaces, sm, em, p, draws, i, spn, k) && EndpointsOf(em, spn)[k] == endpoint;
    ForEntry(services, ifaces, sm, p, spn);
    ServedBy(c, slices, em, spn, endpoint);
    assert Reaches(c, slices, services, ifaces, p, spn, endpoint);
  }
}
