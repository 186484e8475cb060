/** From services to service ports (pkg/proxy/controllers/service.go), and the two uses of the change tracker. */
module ServicePorts {
  import opened Wrappers
  import opened Discovery
  import opened ProxyEndpoints
  import opened ChangeTrackers

  datatype ServicePort = ServicePort(name: Text, protocol: Text, port: int, targetPort: Text)

  /** The service-network annotation, if there is one. */
  datatype ProxyService = ProxyService(
    namespace: Text, name: Text, network: Option<Text>, clusterIP: Text, ports: seq<ServicePort>)

  /** Chains of the nat table. The hashes in the names of the proxy's own chains stand for the hashed texts. */
  datatype Chain =
    | Services
    | SvcChain(hashed: Text)
    | SepChain(hashed: Text)
    | OtherMultus(name: Text)
    | Foreign(name: Text)

  datatype ServicePortInfo = ServicePortInfo(
    name: Text, clusterIP: Text, targetNetwork: Text, port: int, targetPort: Text, protocol: Text, chain: Chain)

  /** The chain of a service port: name and protocol are hashed one after the other. */
  function ServiceChain(name: Text, protocol: Text): Chain {
    SvcChain(Text(name.chars + protocol.chars))
  }

  /** The chain of an endpoint of a service port. */
  function ServiceEndpointChain(name: Text, protocol: Text, endpoint: Text): Chain {
    SepChain(Text(name.chars + protocol.chars + endpoint.chars))
  }

  /** strings.ToLower on protocol names. */
  function ToLower(s: string): string {
    seq(|s|, i requires 0 <= i < |s| => if 'A' <= s[i] <= 'Z' then ((s[i] as int) + 32) as char else s[i])
  }

  /** fmtPortName. */
  function Suffix(port: Text): string {
    if port == EMPTY then "" else ":" + port.chars
  }

  /** ServicePortName.String. */
  function NameOf(spn: ServicePortName): Text {
    Text(spn.nn.namespace.chars + "/" + spn.nn.name.chars + Suffix(spn.port))
  }

  function WithoutSpaces(s: string): string {
    if s == "" then "" else (if s[0] == ' ' then "" else [s[0]]) + WithoutSpaces(s[1..])
  }

  /** A network without a namespace is one of the service's own. */
  function TargetNetwork(svc: ProxyService): Text
    requires svc.network.Some?
  {
    var n := svc.network.value.chars;
    if '/' in n then svc.network.value else Text(svc.namespace.chars + "/" + WithoutSpaces(n))
  }

  function PortKeyOf(svc: ProxyService, p: ServicePort): ServicePortName {
    ServicePortName(NamespacedName(svc.namespace, svc.name), p.name, p.protocol)
  }

  function InfoOf(svc: ProxyService, p: ServicePort): ServicePortInfo
    requires svc.network.Some?
  {
    var name, protocol := NameOf(PortKeyOf(svc, p)), Text(ToLower(p.protocol.chars));
    ServicePortInfo(name, svc.clusterIP, TargetNetwork(svc), p.port, p.targetPort, protocol,
                    ServiceChain(name, protocol))
  }

  type ServiceMap = map<ServicePortName, ServicePortInfo>

  /** The entries of the first i ports; a later port of the same name and protocol wins. */
  function PortsMap(svc: ProxyService, i: nat): ServiceMap
    requires svc.network.Some? && i <= |svc.ports|
  {
    if i == 0 then map[] else PortsMap(svc, i - 1)[PortKeyOf(svc, svc.ports[i - 1]) := InfoOf(svc, svc.ports[i - 1])]
  }

  /** A service without the annotation has no map at all. */
  function ServiceEntries(svc: ProxyService): Option<ServiceMap> {
    if svc.network.None? then None else Some(PortsMap(svc, |svc.ports|))
  }

  method ServiceToServiceMap(svc: ProxyService) returns (serviceMap: Option<ServiceMap>)
    ensures serviceMap == ServiceEntries(svc)
    ensures serviceMap.Some? <==> svc.network.Some?
    ensures var m := if serviceMap.Some? then serviceMap.value else map[];
            forall spn :: ShowsService(m, svc, spn)
  {
    hide ShowsService;
    ghost var entries := if svc.network.Some? then PortsMap(svc, |svc.ports|) else map[];
    forall spn ensures ShowsService(entries, svc, spn) {
      EntriesShow(svc, spn);
    }
    if svc.network.None? {
      return None;
    }
    var m: ServiceMap := map[];
    for i := 0 to |svc.ports|
      invariant m == PortsMap(svc, i)
    {
      var port := svc.ports[i];
      m := m[PortKeyOf(svc, port) := InfoOf(svc, port)];
    }
    serviceMap := Some(m);
  }

  /** Every port of the service is in the map, under its own name and as its last definition says, and nothing else
      is. */
  lemma {:induction false} PortsMapMeans(svc: ProxyService, i: nat, spn: ServicePortName)
    requires svc.network.Some? && i <= |svc.ports|
    ensures spn in PortsMap(svc, i) <==> exists j :: 0 <= j < i && PortKeyOf(svc, svc.ports[j]) == spn
    ensures spn in PortsMap(svc, i) ==>
              exists j :: 0 <= j < i && PortKeyOf(svc, svc.ports[j]) == spn
                          && PortsMap(svc, i)[spn] == InfoOf(svc, svc.ports[j])
                          && forall h :: j < h < i ==> PortKeyOf(svc, svc.ports[h]) != spn
    ensures spn in PortsMap(svc, i) ==> spn.nn == NamespacedName(svc.namespace, svc.name)
  {
    hide InfoOf;
    if i > 0 {
      PortsMapMeans(svc, i - 1, spn);
    }
  }

  // ---------- what an entry says ----------

  /** The indices pick out exactly the characters of s that are no spaces, in their order. */
  ghost predicate Picks(s: string, r: string, indices: seq<nat>) {
    && |indices| == |r|
    && (forall k :: 0 <= k < |r| ==> indices[k] < |s| && s[indices[k]] == r[k])
    && (forall k, h :: 0 <= k < h < |r| ==> indices[k] < indices[h])
    && (forall i :: 0 <= i < |s| ==> (s[i] != ' ' <==> i in indices))
  }

  /** The network of a service: its annotation, below its own namespace unless it names one. */
  ghost predicate IsNetwork(network: Text, svc: ProxyService) {
    && svc.network.Some?
    && if '/' in svc.network.value.chars then network == svc.network.value
       else exists r, indices :: Picks(svc.network.value.chars, r, indices)
                                 && network.chars == svc.namespace.chars + "/" + r
  }

  /** Port j is the service's last one with this name and protocol. */
  ghost predicate LastPort(svc: ProxyService, j: nat, spn: ServicePortName) {
    && j < |svc.ports| && spn.nn == NamespacedName(svc.namespace, svc.name)
    && svc.ports[j].name == spn.port && svc.ports[j].protocol == spn.protocol
    && forall h :: j < h < |svc.ports| ==> svc.ports[h].name != spn.port || svc.ports[h].protocol != spn.protocol
  }

  /** The entry says what the service says of this port of it. */
  ghost predicate Says(info: ServicePortInfo, svc: ProxyService, p: ServicePort) {
    && info.port == p.port && info.targetPort == p.targetPort && info.clusterIP == svc.clusterIP
    && IsNetwork(info.targetNetwork, svc)
    && info.name.chars == svc.namespace.chars + "/" + svc.name.chars
                          + (if p.name.chars == "" then "" else ":" + p.name.chars)
    && (p.protocol.chars == "TCP" ==> info.protocol.chars == "tcp")
    && (p.protocol.chars == "UDP" ==> info.protocol.chars == "udp")
    && (p.protocol.chars == "SCTP" ==> info.protocol.chars == "sctp")
  }

  /** The map has an entry for each port of an annotated service, which says what its last definition says. */
  ghost predicate ShowsService(m: ServiceMap, svc: ProxyService, spn: ServicePortName) {
    && (spn in m <==> svc.network.Some? && exists j: nat :: LastPort(svc, j, spn))
    && (spn in m ==> exists j: nat :: LastPort(svc, j, spn) && Says(m[spn], svc, svc.ports[j]))
  }

  function Shifted(indices: seq<nat>): seq<nat> {
    seq(|indices|, k requires 0 <= k < |indices| => indices[k] + 1)
  }

  lemma ShiftedIs(indices: seq<nat>)
    ensures 0 !in Shifted(indices) && forall i: nat :: i in indices <==> i + 1 in Shifted(indices)
  {
    forall i: nat | i in indices ensures i + 1 in Shifted(indices) {
      var k :| 0 <= k < |indices| && indices[k] == i;
      assert Shifted(indices)[k] == i + 1;
    }
  }

  lemma SkipSpace(s: string, r: string, indices: seq<nat>)
    requires s != "" && s[0] == ' ' && Picks(s[1..], r, indices)
    ensures Picks(s, r, Shifted(indices))
  {
    ShiftedIs(indices);
    forall i | 0 <= i < |s| ensures s[i] != ' ' <==> i in Shifted(indices) {
      if i > 0 {
        assert s[i] == s[1..][i - 1];
        assert i - 1 in indices <==> (i - 1) + 1 in Shifted(indices);
      }
    }
  }

  lemma PickFirst(s: string, r: string, indices: seq<nat>)
    requires s != "" && s[0] != ' ' && Picks(s[1..], r, indices)
    ensures Picks(s, [s[0]] + r, [0] + Shifted(indices))
  {
    hide Shifted;
    PickedOrder(s, r, indices);
    var all := [0] + Shifted(indices);
    forall i | 0 <= i < |s| ensures s[i] != ' ' <==> i in all {
      PickedAt(s, r, indices, i);
    }
  }

  lemma PickedAt(s: string, r: string, indices: seq<nat>, i: nat)
    requires s != "" && s[0] != ' ' && Picks(s[1..], r, indices) && i < |s|
    ensures s[i] != ' ' <==> i in [0] + Shifted(indices)
  {
    hide Shifted;
    ShiftedIs(indices);
    assert i in [0] + Shifted(indices) <==> i == 0 || i in Shifted(indices);
    if i > 0 {
      assert s[i] == s[1..][i - 1];
      assert i - 1 in indices <==> (i - 1) + 1 in Shifted(indices);
    }
  }

  lemma PickedOrder(s: string, r: string, indices: seq<nat>)
    requires s != "" && Picks(s[1..], r, indices)
    ensures var q, all := [s[0]] + r, [0] + Shifted(indices);
            && |all| == |q|
            && (forall k :: 0 <= k < |q| ==> all[k] < |s| && s[all[k]] == q[k])
            && (forall k, h :: 0 <= k < h < |q| ==> all[k] < all[h])
  {
    var q, all := [s[0]] + r, [0] + Shifted(indices);
    forall k | 0 < k < |q| ensures all[k] == indices[k - 1] + 1 && q[k] == r[k - 1] && q[k] == s[all[k]] {
      assert s[1..][indices[k - 1]] == r[k - 1];
    }
  }

  lemma {:induction false} SpacesPicked(s: string) returns (indices: seq<nat>)
    ensures Picks(s, WithoutSpaces(s), indices)
  {
    hide Picks, Shifted;
    if s == "" {
      indices := [];
      NonePicked();
    } else {
      var rest := SpacesPicked(s[1..]);
      if s[0] == ' ' {
        SkipSpace(s, WithoutSpaces(s[1..]), rest);
        indices := Shifted(rest);
        assert "" + WithoutSpaces(s[1..]) == WithoutSpaces(s[1..]);
      } else {
        PickFirst(s, WithoutSpaces(s[1..]), rest);
        indices := [0] + Shifted(rest);
      }
    }
  }

  lemma NonePicked()
    ensures Picks("", "", [])
  {
  }

  lemma NetworkIs(svc: ProxyService)
    requires svc.network.Some?
    ensures IsNetwork(TargetNetwork(svc), svc)
  {
    hide WithoutSpaces, Picks;
    var indices := SpacesPicked(svc.network.value.chars);
    assert Picks(svc.network.value.chars, WithoutSpaces(svc.network.value.chars), indices);
  }

  /** The same set in two strictly increasing sequences: they are the same. */
  lemma {:induction false} OneOrder(a: seq<nat>, b: seq<nat>)
    requires forall k, h :: 0 <= k < h < |a| ==> a[k] < a[h]
    requires forall k, h :: 0 <= k < h < |b| ==> b[k] < b[h]
    requires forall i :: i in a <==> i in b
    ensures a == b
  {
    if a == [] || b == [] {
      FirstIsIn(a);
      FirstIsIn(b);
    } else {
      var m, n := |a| - 1, |b| - 1;
      assert a[m] in b && b[n] in a;
      assert a[m] == b[n];
      assert a == a[..m] + [a[m]] && b == b[..n] + [b[n]];
      forall i ensures i in a[..m] <==> i in b[..n] {
        assert i in a[..m] <==> i in a && i != a[m];
        assert i in b[..n] <==> i in b && i != b[n];
      }
      OneOrder(a[..m], b[..n]);
    }
  }

  /** The network of a service is one. */
  lemma OneNetwork(a: Text, b: Text, svc: ProxyService)
    requires IsNetwork(a, svc) && IsNetwork(b, svc)
    ensures a == b
  {
    var s := svc.network.value.chars;
    if '/' !in s {
      var r, indices :| Picks(s, r, indices) && a.chars == svc.namespace.chars + "/" + r;
      var r', indices' :| Picks(s, r', indices') && b.chars == svc.namespace.chars + "/" + r';
      PickedOnce(s, r, indices, r', indices');
    }
  }

  lemma PickedOnce(s: string, r: string, indices: seq<nat>, r': string, indices': seq<nat>)
    requires Picks(s, r, indices) && Picks(s, r', indices')
    ensures r == r'
  {
    forall i ensures i in indices <==> i in indices' {
      if i in indices {
        var k :| 0 <= k < |indices| && indices[k] == i;
      }
      if i in indices' {
        var k :| 0 <= k < |indices'| && indices'[k] == i;
      }
    }
    OneOrder(indices, indices');
  }

  lemma LowerIs()
    ensures ToLower("TCP") == "tcp" && ToLower("UDP") == "udp" && ToLower("SCTP") == "sctp"
  {
  }

  lemma InfoSays(svc: ProxyService, p: ServicePort)
    requires svc.network.Some?
    ensures Says(InfoOf(svc, p), svc, p)
  {
    hide IsNetwork, TargetNetwork, ToLower;
    NetworkIs(svc);
    LowerIs();
    assert p.name == EMPTY <==> p.name.chars == "";
  }

  lemma EntriesShow(svc: ProxyService, spn: ServicePortName)
    ensures ShowsService(if svc.network.Some? then PortsMap(svc, |svc.ports|) else map[], svc, spn)
  {
    hide InfoOf, Says, PortsMap;
    if svc.network.Some? {
      PortsMapMeans(svc, |svc.ports|, spn);
      forall j | 0 <= j < |svc.ports|
        ensures PortKeyOf(svc, svc.ports[j]) == spn <==>
                  spn.nn == NamespacedName(svc.namespace, svc.name) && svc.ports[j].name == spn.port
                  && svc.ports[j].protocol == spn.protocol
      {
      }
      if spn in PortsMap(svc, |svc.ports|) {
        var j :| 0 <= j < |svc.ports| && PortKeyOf(svc, svc.ports[j]) == spn
                 && PortsMap(svc, |svc.ports|)[spn] == InfoOf(svc, svc.ports[j])
                 && forall h :: j < h < |svc.ports| ==> PortKeyOf(svc, svc.ports[h]) != spn;
        assert LastPort(svc, j, spn);
        InfoSays(svc, svc.ports[j]);
      }
    }
  }

  // ---------- names ----------

  /** Object and port names have no slash, colon or space in them, and the protocol is one that a service may have. */
  predicate WellNamed(spn: ServicePortName) {
    && IsName(spn.nn.namespace.chars) && IsName(spn.nn.name.chars) && IsName(spn.port.chars)
    && IsProtocol(spn.protocol.chars)
  }

  predicate IsName(s: string) {
    '/' !in s && ':' !in s && ' ' !in s
  }

  predicate IsProtocol(s: string) {
    s == "TCP" || s == "UDP" || s == "SCTP"
  }

  predicate IsLowered(s: string) {
    s == "tcp" || s == "udp" || s == "sctp"
  }

  /** An endpoint string has no p, the letter that ends every protocol: it is made of digits, hexadecimal letters, dots,
      colons and brackets. */
  predicate PlainEndpoint(endpoint: Text) {
    'p' !in endpoint.chars
  }

  /** Name and protocol can be told from their concatenation, although no mark is set between them. */
  lemma JoinTells(a: string, p: string, b: string, q: string)
    requires IsLowered(p) && IsLowered(q) && a + p == b + q
    ensures a == b && p == q
  {
    hide IsLowered;
    ThirdLast(p);
    ThirdLast(q);
    FromTheEnd(a, p);
    FromTheEnd(b, q);
    assert a == (a + p)[..|a + p| - |p|] && b == (b + q)[..|b + q| - |q|];
  }

  /** The third last letter tells the protocol, the last one is a p. */
  lemma ThirdLast(p: string)
    requires IsLowered(p)
    ensures |p| >= 3 && p[|p| - 1] == 'p'
    ensures p == if p[|p| - 3] == 't' then "tcp" else if p[|p| - 3] == 'u' then "udp" else "sctp"
  {
  }

  lemma FromTheEnd(a: string, p: string)
    requires |p| >= 3
    ensures (a + p)[|a + p| - 3] == p[|p| - 3]
  {
  }

  lemma LastCut(a: string, ra: string, b: string, rb: string, c: char)
    requires c !in ra && c !in rb && a + [c] + ra == b + [c] + rb
    ensures a == b && ra == rb
  {
    var s := a + [c] + ra;
    assert forall i :: |a| < i < |s| ==> s[i] == ra[i - |a| - 1] && s[i] != c;
    assert forall i :: |b| < i < |s| ==> s[i] == rb[i - |b| - 1] && s[i] != c;
    assert s[|a|] == c && s[|b|] == c;
    assert |a| == |b|;
    assert a == s[..|a|] && b == s[..|b|];
    assert ra == s[|a| + 1..] && rb == s[|b| + 1..];
  }

  /** Name, protocol and endpoint can be told from their concatenation. */
  lemma JoinWithEndpointTells(a: string, p: string, e: string, b: string, q: string, f: string)
    requires IsLowered(p) && IsLowered(q) && 'p' !in e && 'p' !in f && a + p + e == b + q + f
    ensures a == b && p == q && e == f
  {
    hide IsLowered;
    LastP(a, p);
    LastP(b, q);
    LastCut(a + p[..|p| - 1], e, b + q[..|q| - 1], f, 'p');
    JoinTells(a, p, b, q);
  }

  /** The p at the end of the protocol stands alone. */
  lemma LastP(a: string, p: string)
    requires IsLowered(p)
    ensures |p| >= 1 && a + p == (a + p[..|p| - 1]) + ['p']
  {
    hide IsLowered;
    ThirdLast(p);
    assert p == p[..|p| - 1] + ['p'];
  }

  lemma FirstCut(a: string, ra: string, b: string, rb: string, c: char)
    requires c !in a && c !in b && a + [c] + ra == b + [c] + rb
    ensures a == b && ra == rb
  {
    var s := a + [c] + ra;
    assert forall i :: 0 <= i < |a| ==> s[i] == a[i] && a[i] != c;
    assert forall i :: 0 <= i < |b| ==> s[i] == b[i] && b[i] != c;
    assert s[|a|] == c && s[|b|] == c;
    assert |a| == |b|;
    assert a == s[..|a|] && b == s[..|b|];
    assert ra == s[|a| + 1..] && rb == s[|b| + 1..];
  }

  /** The name of a service port determines it up to the protocol. */
  lemma NameTells(a: ServicePortName, b: ServicePortName)
    requires WellNamed(a) && WellNamed(b) && NameOf(a) == NameOf(b)
    ensures a.nn == b.nn && a.port == b.port
  {
    hide NameOf, Suffix, IsProtocol;
    NameCut(a);
    NameCut(b);
    FirstCut(a.nn.namespace.chars, a.nn.name.chars + Suffix(a.port),
             b.nn.namespace.chars, b.nn.name.chars + Suffix(b.port), '/');
    SuffixTells(a.nn.name.chars, a.port, b.nn.name.chars, b.port);
  }

  lemma NameCut(spn: ServicePortName)
    ensures NameOf(spn).chars == spn.nn.namespace.chars + ['/'] + (spn.nn.name.chars + Suffix(spn.port))
  {
    hide Suffix;
  }

  lemma SuffixTells(a: string, pa: Text, b: string, pb: Text)
    requires ':' !in a && ':' !in b && a + Suffix(pa) == b + Suffix(pb)
    ensures a == b && pa == pb
  {
    hide Suffix;
    SuffixCut(a, pa);
    SuffixCut(b, pb);
    FirstCut(a, Ended(pa), b, Ended(pb), ':');
    EndedTells(pa, pb);
  }

  /** A suffix with its mark moved to the end. */
  function Ended(port: Text): string {
    if port == EMPTY then "" else port.chars + ":"
  }

  lemma SuffixCut(a: string, port: Text)
    ensures a + Suffix(port) + ":" == a + [':'] + Ended(port)
  {
    if port != EMPTY {
      assert a + (":" + port.chars) + ":" == a + [':'] + (port.chars + ":");
    }
  }

  lemma EndedTells(pa: Text, pb: Text)
    requires Ended(pa) == Ended(pb)
    ensures pa == pb
  {
    var ra, rb := Ended(pa), Ended(pb);
    assert pa != EMPTY ==> ra[..|ra| - 1] == pa.chars;
    assert pb != EMPTY ==> rb[..|rb| - 1] == pb.chars;
  }

  lemma LowerTells(a: Text, b: Text)
    requires IsProtocol(a.chars) && IsProtocol(b.chars)
    ensures IsLowered(ToLower(a.chars)) && IsLowered(ToLower(b.chars))
    ensures ToLower(a.chars) == ToLower(b.chars) ==> a == b
  {
    assert ToLower("TCP") == "tcp" && ToLower("UDP") == "udp" && ToLower("SCTP") == "sctp";
  }

  /** Different service ports have different chains, and so have their endpoints. */
  lemma ChainTells(svc: ProxyService, p: ServicePort, svc': ProxyService, p': ServicePort)
    requires svc.network.Some? && svc'.network.Some? && PortKeyOf(svc, p) != PortKeyOf(svc', p')
    requires WellNamed(PortKeyOf(svc, p)) && WellNamed(PortKeyOf(svc', p'))
    ensures InfoOf(svc, p).chain != InfoOf(svc', p').chain
    ensures forall e, f :: PlainEndpoint(e) && PlainEndpoint(f) ==>
              var a, b := InfoOf(svc, p), InfoOf(svc', p');
              ServiceEndpointChain(a.name, a.protocol, e) != ServiceEndpointChain(b.name, b.protocol, f)
  {
    hide NameOf, ToLower, IsLowered;
    var a, b := InfoOf(svc, p), InfoOf(svc', p');
    NamesTell(svc, p, svc', p');
    if a.chain == b.chain {
      JoinTells(a.name.chars, a.protocol.chars, b.name.chars, b.protocol.chars);
    }
    forall e, f | PlainEndpoint(e) && PlainEndpoint(f)
      ensures ServiceEndpointChain(a.name, a.protocol, e) != ServiceEndpointChain(b.name, b.protocol, f)
    {
      if ServiceEndpointChain(a.name, a.protocol, e) == ServiceEndpointChain(b.name, b.protocol, f) {
        JoinWithEndpointTells(a.name.chars, a.protocol.chars, e.chars, b.name.chars, b.protocol.chars, f.chars);
      }
    }
  }

  lemma NamesTell(svc: ProxyService, p: ServicePort, svc': ProxyService, p': ServicePort)
    requires svc.network.Some? && svc'.network.Some? && PortKeyOf(svc, p) != PortKeyOf(svc', p')
    requires WellNamed(PortKeyOf(svc, p)) && WellNamed(PortKeyOf(svc', p'))
    ensures var a, b := InfoOf(svc, p), InfoOf(svc', p');
            && IsLowered(a.protocol.chars) && IsLowered(b.protocol.chars)
            && (a.name.chars != b.name.chars || a.protocol.chars != b.protocol.chars)
  {
    hide NameOf, ToLower;
    var a, b := PortKeyOf(svc, p), PortKeyOf(svc', p');
    LowerTells(p.protocol, p'.protocol);
    if NameOf(a) == NameOf(b) && ToLower(p.protocol.chars) == ToLower(p'.protocol.chars) {
      NameTells(a, b);
    }
  }

  // ---------- the change trackers at work ----------

  function ServiceKeyOf(svc: ProxyService): NamespacedName {
    NamespacedName(svc.namespace, svc.name)
  }

  const SERVICE_SCHEME: Scheme<ProxyService, ServicePortName, ServicePortInfo> :=
    Scheme(ServiceKeyOf, ServiceEntries, (spn: ServicePortName) => spn.nn)

  lemma ServiceSchemeOk()
    ensures SchemeOk(SERVICE_SCHEME)
  {
    forall svc, spn | SERVICE_SCHEME.entries(svc).Some? && spn in SERVICE_SCHEME.entries(svc).value
      ensures SERVICE_SCHEME.owner(spn) == SERVICE_SCHEME.key(svc)
    {
      PortsMapMeans(svc, |svc.ports|, spn);
    }
  }

  /** The service of this name that is live after these events. */
  function LiveService(ops: seq<Op<ProxyService>>, nn: NamespacedName): Option<ProxyService> {
    LatestOf(LiveAfter(ops), nn)
  }

  /** The map shows the live services, each port as its last definition says. */
  ghost predicate ShowsLive(m: ServiceMap, ops: seq<Op<ProxyService>>) {
    forall spn: ServicePortName ::
      var svc := LiveService(ops, spn.nn);
      if svc.Some? then ShowsService(m, svc.value, spn) else spn !in m
  }

  /** ServiceMap after any service events and a sync: a service port is there exactly if a live service has it, and says
      what that service says. */
  method ReplayServices(ops: seq<Op<ProxyService>>)
    returns (final: TrackedMap<ProxyService, ServicePortName, ServicePortInfo>)
    requires forall i :: 0 <= i < |ops| && ops[i].Event? && ops[i].current.Some? ==>
               ServiceKeyOf(ops[i].current.value) == ops[i].nn
    ensures forall spn :: spn in final.m <==> EntryOf(SERVICE_SCHEME, LiveAfter(ops), spn)
    ensures forall spn | spn in final.m ::
              var svc := LatestOf(LiveAfter(ops), spn.nn);
              svc.Some? && svc.value.network.Some? && spn in PortsMap(svc.value, |svc.value.ports|)
              && final.m[spn] == PortsMap(svc.value, |svc.value.ports|)[spn]
    ensures ShowsLive(final.m, ops)
  {
    hide PortsMap, ShowsService, LiveAfter;
    ServiceSchemeOk();
    final := Replay(SERVICE_SCHEME, ops);
    forall spn: ServicePortName
      ensures LiveService(ops, spn.nn).Some? ==> ShowsService(final.m, LiveService(ops, spn.nn).value, spn)
      ensures LiveService(ops, spn.nn).None? ==> spn !in final.m
    {
      LiveShows(final.m, ops, spn);
    }
  }

  lemma LiveShows(m: ServiceMap, ops: seq<Op<ProxyService>>, spn: ServicePortName)
    requires spn in m <==> EntryOf(SERVICE_SCHEME, LiveAfter(ops), spn)
    requires spn in m ==>
               var svc := LatestOf(LiveAfter(ops), spn.nn);
               svc.Some? && svc.value.network.Some? && spn in PortsMap(svc.value, |svc.value.ports|)
               && m[spn] == PortsMap(svc.value, |svc.value.ports|)[spn]
    ensures LiveService(ops, spn.nn).Some? ==> ShowsService(m, LiveService(ops, spn.nn).value, spn)
    ensures LiveService(ops, spn.nn).None? ==> spn !in m
  {
    hide PortsMap, Says, LiveAfter, LastPort;
    if LiveService(ops, spn.nn).Some? {
      var svc := LiveService(ops, spn.nn).value;
      EntriesShow(svc, spn);
      if svc.network.Some? && spn in PortsMap(svc, |svc.ports|) {
        assert EntryOf(SERVICE_SCHEME, LiveAfter(ops), spn);
      }
    }
  }

  /** A pod as the proxy sees it; info is what newPodInfo makes of it, or None if that fails. */
  datatype ProxyPod<PodInfo> = ProxyPod(namespace: Text, name: Text, info: Option<PodInfo>)

  function PodKeyOf<P>(p: ProxyPod<P>): NamespacedName {
    NamespacedName(p.namespace, p.name)
  }

  function PodEntries<P>(p: ProxyPod<P>): Option<map<NamespacedName, P>> {
    if p.info.Some? then Some(map[PodKeyOf(p) := p.info.value]) else None
  }

  function PodScheme<P(!new)>(): Scheme<ProxyPod<P>, NamespacedName, P> {
    Scheme((p: ProxyPod<P>) => PodKeyOf(p), (p: ProxyPod<P>) => PodEntries(p), (nn: NamespacedName) => nn)
  }

  /** PodMap after any pod events and a sync: exactly the live pods whose information could be had. */
  method ReplayPods<P(!new, ==)>(ops: seq<Op<ProxyPod<P>>>) returns (final: TrackedMap<ProxyPod<P>, NamespacedName, P>)
    requires forall i :: 0 <= i < |ops| && ops[i].Event? && ops[i].current.Some? ==>
               PodKeyOf(ops[i].current.value) == ops[i].nn
    ensures forall nn :: nn in final.m <==> nn in LiveAfter(ops) && LiveAfter(ops)[nn].info.Some?
    ensures forall nn :: nn in final.m ==> final.m[nn] == LiveAfter(ops)[nn].info.value
  {
    var scheme := PodScheme<P>();
    final := Replay(scheme, ops);
    forall nn
      ensures nn in final.m <==> nn in LiveAfter(ops) && LiveAfter(ops)[nn].info.Some?
      ensures nn in final.m ==> final.m[nn] == LiveAfter(ops)[nn].info.value
    {
      LiveKeys(ops, nn);
      assert nn in final.m <==> EntryOf(scheme, LiveAfter(ops), nn);
    }
  }

  lemma {:induction false} LiveKeys<P>(ops: seq<Op<ProxyPod<P>>>, nn: NamespacedName)
    requires forall i :: 0 <= i < |ops| && ops[i].Event? && ops[i].current.Some? ==>
               PodKeyOf(ops[i].current.value) == ops[i].nn
    ensures forall m :: m in LiveAfter(ops) ==> PodKeyOf(LiveAfter(ops)[m]) == m
  {
    if ops != [] {
      LiveKeys(ops[..|ops| - 1], nn);
    }
  }
}
