/** generateServiceForwardingRules of pkg/proxy/server/server.go: which service ports get rules in a network namespace,
    and what its nat table is after the sync. */
module RuleSync {
  import opened Wrappers
  import opened EndpointStrings
  import opened ProxyEndpoints
  import opened EndpointLists
  import opened ServicePorts
  import opened Iptables
  import opened LoadBalancing
  import opened ProxyRules
  import opened IptableBuffers
  import RuleText

  const HEADLESS := Text("None")

  /** The interface is on the network of a service port that is not headless. */
  predicate Matches(iface: Interface, info: ServicePortInfo) {
    iface.netattachName == info.targetNetwork && info.clusterIP != Text("None")
  }

  datatype Pick = Pick(iface: nat, spn: ServicePortName)

  /** One job for every interface and every service port on its network. */
  ghost predicate JobsFor(t: Table, links: set<Text>, ifaces: seq<Interface>, sm: ServiceMap, em: EMap,
                          picks: seq<Pick>, jobs: seq<Job>)
  {
    && |picks| == |jobs|
    && (forall k :: 0 <= k < |picks| ==> PickOk(t, links, ifaces, sm, em, picks[k], jobs[k]))
    && (forall k, h :: 0 <= k < h < |picks| ==> picks[k] != picks[h])
    && (forall i, spn :: Wanted(ifaces, sm, i, spn) ==> Pick(i, spn) in picks)
  }

  ghost predicate Wanted(ifaces: seq<Interface>, sm: ServiceMap, i: nat, spn: ServicePortName) {
    i < |ifaces| && spn in sm && Matches(ifaces[i], sm[spn])
  }

  ghost predicate PickOk(t: Table, links: set<Text>, ifaces: seq<Interface>, sm: ServiceMap, em: EMap, p: Pick,
                         j: Job) {
    && Wanted(ifaces, sm, p.iface, p.spn) && j == JobOf(t, links, em, p.spn, sm[p.spn], ifaces[p.iface])
    && !Panics(t, links, sm[p.spn], ifaces[p.iface])
  }

  /** A new chain is wanted on an interface whose link is found but that has no address. */
  ghost predicate SomePanic(t: Table, links: set<Text>, ifaces: seq<Interface>, sm: ServiceMap) {
    exists i: nat, spn :: Wanted(ifaces, sm, i, spn) && Panics(t, links, sm[spn], ifaces[i])
  }

  lemma NoPanic(t: Table, links: set<Text>, ifaces: seq<Interface>, sm: ServiceMap, em: EMap, picks: seq<Pick>,
                jobs: seq<Job>)
    requires JobsFor(t, links, ifaces, sm, em, picks, jobs)
    ensures !SomePanic(t, links, ifaces, sm)
  {
    hide Matches, Panics, JobOf;
    forall i: nat, spn | Wanted(ifaces, sm, i, spn)
      ensures spn in sm && i < |ifaces| && !Panics(t, links, sm[spn], ifaces[i]) {
      var k :| 0 <= k < |picks| && picks[k] == Pick(i, spn);
      assert PickOk(t, links, ifaces, sm, em, picks[k], jobs[k]);
    }
  }

  lemma PanicIs(t: Table, links: set<Text>, ifaces: seq<Interface>, sm: ServiceMap, i: nat, spn: ServicePortName)
    requires i < |ifaces| && spn in sm && Matches(ifaces[i], sm[spn]) && Panics(t, links, sm[spn], ifaces[i])
    ensures SomePanic(t, links, ifaces, sm)
  {
    hide Matches, Panics;
    assert Wanted(ifaces, sm, i, spn);
  }

  /** The picks and jobs of the interfaces before i, and of interface i the service ports outside todo. */
  ghost predicate Picked(t: Table, links: set<Text>, ifaces: seq<Interface>, sm: ServiceMap, em: EMap,
                         picks: seq<Pick>, jobs: seq<Job>, i: nat, todo: set<ServicePortName>)
  {
    && |picks| == |jobs|
    && (forall k :: 0 <= k < |picks| ==> PickOk(t, links, ifaces, sm, em, picks[k], jobs[k]))
    && (forall k, h :: 0 <= k < h < |picks| ==> picks[k] != picks[h])
    && (forall k :: 0 <= k < |picks| ==> picks[k].iface < i || (picks[k].iface == i && picks[k].spn !in todo))
    && (forall h: nat, spn :: Wanted(ifaces, sm, h, spn) && (h < i || (h == i && spn !in todo)) ==>
          Pick(h, spn) in picks)
  }

  lemma PickNext(t: Table, links: set<Text>, ifaces: seq<Interface>, sm: ServiceMap, em: EMap,
                 picks: seq<Pick>, jobs: seq<Job>, i: nat, todo: set<ServicePortName>, spn: ServicePortName)
    requires Picked(t, links, ifaces, sm, em, picks, jobs, i, todo) && i < |ifaces| && spn in todo && spn in sm
    ensures Matches(ifaces[i], sm[spn]) && !Panics(t, links, sm[spn], ifaces[i]) ==>
              Picked(t, links, ifaces, sm, em, picks + [Pick(i, spn)],
                     jobs + [JobOf(t, links, em, spn, sm[spn], ifaces[i])], i, todo - {spn})
    ensures !Matches(ifaces[i], sm[spn]) ==> Picked(t, links, ifaces, sm, em, picks, jobs, i, todo - {spn})
  {
    hide JobOf, Matches, Panics;
    var p := Pick(i, spn);
    assert forall x :: x in picks + [p] <==> x in picks || x == p;
  }

  lemma PickInterface(t: Table, links: set<Text>, ifaces: seq<Interface>, sm: ServiceMap, em: EMap,
                      picks: seq<Pick>, jobs: seq<Job>, i: nat)
    requires Picked(t, links, ifaces, sm, em, picks, jobs, i, {})
    ensures Picked(t, links, ifaces, sm, em, picks, jobs, i + 1, sm.Keys)
  {
    hide JobOf, Matches;
  }

  lemma PickStart(t: Table, links: set<Text>, ifaces: seq<Interface>, sm: ServiceMap, em: EMap)
    ensures Picked(t, links, ifaces, sm, em, [], [], 0, sm.Keys)
  {
  }

  lemma PickEnd(t: Table, links: set<Text>, ifaces: seq<Interface>, sm: ServiceMap, em: EMap,
                picks: seq<Pick>, jobs: seq<Job>)
    requires Picked(t, links, ifaces, sm, em, picks, jobs, |ifaces|, sm.Keys)
    ensures JobsFor(t, links, ifaces, sm, em, picks, jobs)
  {
    hide JobOf, Matches;
  }

  /** The rule loop, over the service map in whatever order. The result is the script to restore, if there is anything
      to restore, and the cluster IPs remembered for the chains that go. It panics exactly if a saved dispatch rule is
      too short, or a new chain is wanted on an interface without addresses. */
  method GenerateServiceForwardingRules(probabilities: Probabilities, ifaces: seq<Interface>, sm: ServiceMap, em: EMap,
                                        links: set<Text>, t: Table)
    returns (panicked: bool, restore: Option<seq<Line>>, oldClusterIPs: seq<string>, ghost picks: seq<Pick>,
             ghost jobs: seq<Job>, ghost stale: seq<Chain>, ghost clusterIPs: map<string, string>)
    requires probabilities.Valid()
    modifies probabilities
    ensures probabilities.Valid()
    ensures panicked <==> RuleText.HasShortLine(t) || SomePanic(t, links, ifaces, sm)
    ensures panicked ==> restore.None?
    ensures !panicked ==> RuleText.Remembered(t, clusterIPs) && oldClusterIPs == OldClusterIPs(clusterIPs, stale)
    ensures !panicked ==> JobsFor(t, links, ifaces, sm, em, picks, jobs) && StaleOf(t, jobs, stale)
    ensures restore.Some? ==> restore.value == Script(jobs, stale)
    ensures !panicked ==> (restore.None? <==> stale == [] && forall j :: j in jobs ==> !j.programmed)
  {
    hide Picked, JobsFor, StaleOf, JobOf, All, Active, Panics, SomePanic, RuleText.SavedAs, RuleText.IsShort,
         RuleText.ReadFrom, RuleText.HasShortLine;
    var buffer := new IptableBuffer();
    var lines := RuleText.SaveInto(t);
    RuleText.ShortLineSaved(t, lines);
    restore, oldClusterIPs, picks, jobs, stale, clusterIPs := None, [], [], [], [], map[];
    panicked := buffer.Init(Some(Saved(t, lines)));
    if panicked {
      return;
    }
    clusterIPs := buffer.clusterIPs;
    PickStart(t, links, ifaces, sm, em);
    for i := 0 to |ifaces|
      invariant fresh(buffer) && buffer.clusterIPs == clusterIPs && buffer.oldClusterIPs == []
      invariant !panicked && restore.None?
      invariant buffer.Holds(t, jobs) && probabilities.Valid()
      invariant Picked(t, links, ifaces, sm, em, picks, jobs, i, sm.Keys)
    {
      var todo := sm.Keys;
      while todo != {}
        invariant fresh(buffer) && buffer.clusterIPs == clusterIPs && buffer.oldClusterIPs == []
        invariant !panicked && restore.None?
        invariant buffer.Holds(t, jobs) && probabilities.Valid() && todo <= sm.Keys
        invariant Picked(t, links, ifaces, sm, em, picks, jobs, i, todo)
        decreases |todo|
      {
        var svcPortName :| svcPortName in todo;
        PickNext(t, links, ifaces, sm, em, picks, jobs, i, todo, svcPortName);
        todo := todo - {svcPortName};
        var svcInfo := sm[svcPortName];
        if ifaces[i].netattachName == svcInfo.targetNetwork && svcInfo.clusterIP != HEADLESS {
          panicked := buffer.GenerateServicePortForwardingRules(probabilities, em, svcPortName, svcInfo, ifaces[i],
                                                                links, t, jobs);
          if panicked {
            PanicIs(t, links, ifaces, sm, i, svcPortName);
            return;
          }
          picks := picks + [Pick(i, svcPortName)];
          jobs := jobs + [JobOf(t, links, em, svcPortName, svcInfo, ifaces[i])];
        }
      }
      PickInterface(t, links, ifaces, sm, em, picks, jobs, i);
    }
    PickEnd(t, links, ifaces, sm, em, picks, jobs);
    NoPanic(t, links, ifaces, sm, em, picks, jobs);
    var changed;
    changed, stale := buffer.FinalizeRules(t, jobs);
    restore := if changed then Some(buffer.natRules) else None;
    oldClusterIPs := buffer.oldClusterIPs;
  }

  // ---------- the table after the sync ----------

  /** The rules of the service port are written for interface i: its chain is there already, or the link is found. */
  ghost predicate Programs(t: Table, links: set<Text>, ifaces: seq<Interface>, sm: ServiceMap, i: nat,
                           spn: ServicePortName) {
    Wanted(ifaces, sm, i, spn) && (sm[spn].chain in t || ifaces[i].interfaceName in links)
  }

  ghost predicate Programmed(t: Table, links: set<Text>, ifaces: seq<Interface>, sm: ServiceMap, spn: ServicePortName) {
    exists i: nat :: Programs(t, links, ifaces, sm, i, spn)
  }

  ghost predicate AtMostOnce(t: Table, links: set<Text>, ifaces: seq<Interface>, sm: ServiceMap) {
    forall i: nat, h: nat, spn | Programs(t, links, ifaces, sm, i, spn) && Programs(t, links, ifaces, sm, h, spn)
      :: i == h
  }

  /** Every wanted service port has its rules written for exactly one interface. */
  ghost predicate OnceEach(t: Table, links: set<Text>, ifaces: seq<Interface>, sm: ServiceMap) {
    && AtMostOnce(t, links, ifaces, sm)
    && forall i: nat, spn | Wanted(ifaces, sm, i, spn) :: Programmed(t, links, ifaces, sm, spn)
  }

  /** That is so when all links are found and no network is on two interfaces. */
  lemma OneInterfacePerNetwork(t: Table, links: set<Text>, ifaces: seq<Interface>, sm: ServiceMap)
    requires forall i, h :: 0 <= i < h < |ifaces| ==> ifaces[i].netattachName != ifaces[h].netattachName
    requires forall i :: 0 <= i < |ifaces| ==> ifaces[i].interfaceName in links
    ensures OnceEach(t, links, ifaces, sm)
  {
    forall i: nat, h: nat, spn | Programs(t, links, ifaces, sm, i, spn) && Programs(t, links, ifaces, sm, h, spn)
      ensures i == h
    {
      assert ifaces[i].netattachName == ifaces[h].netattachName;
    }
    forall i: nat, spn | Wanted(ifaces, sm, i, spn) ensures Programmed(t, links, ifaces, sm, spn) {
      assert Programs(t, links, ifaces, sm, i, spn);
    }
  }

  /** Service ports have chains of their own, and so have their endpoints. */
  ghost predicate ChainsApart(sm: ServiceMap, em: EMap) {
    && (forall spn :: spn in sm ==> sm[spn].chain == ServiceChain(sm[spn].name, sm[spn].protocol))
    && (forall a, b :: a in sm && b in sm && a != b ==>
          && sm[a].chain != sm[b].chain
          && forall e, f :: e in EndpointsOf(em, a) && f in EndpointsOf(em, b) ==>
               EndpointChain(sm[a], e) != EndpointChain(sm[b], f))
  }

  ghost predicate PlainMap(em: EMap) {
    forall spn, b :: spn in em && b in em[spn] ==> PlainEndpoint(b.endpoint)
  }

  lemma PlainStrings(em: EMap, spn: ServicePortName)
    requires PlainMap(em)
    ensures forall e :: e in EndpointsOf(em, spn) ==> PlainEndpoint(e)
  {
  }

  /** A map made from services with proper names has that property. */
  lemma MapChainsApart(sm: ServiceMap, em: EMap)
    requires forall spn :: spn in sm ==> WellNamed(spn) && FromService(sm, spn)
    requires PlainMap(em)
    ensures ChainsApart(sm, em)
  {
    hide WellNamed, PlainMap, EndpointsOf, ServiceEndpointChain, ServiceChain;
    forall a, b | a in sm && b in sm && a != b
      ensures sm[a].chain != sm[b].chain
      ensures forall e, f :: e in EndpointsOf(em, a) && f in EndpointsOf(em, b) ==>
                EndpointChain(sm[a], e) != EndpointChain(sm[b], f)
    {
      PlainStrings(em, a);
      PlainStrings(em, b);
      var svc: ProxyService, p: ServicePort :| svc.network.Some? && PortKeyOf(svc, p) == a && sm[a] == InfoOf(svc, p);
      var svc': ProxyService, p': ServicePort :| svc'.network.Some? && PortKeyOf(svc', p') == b
               && sm[b] == InfoOf(svc', p');
      ChainTells(svc, p, svc', p');
    }
  }

  ghost predicate FromService(sm: ServiceMap, spn: ServicePortName)
    requires spn in sm
  {
    exists svc: ProxyService, p: ServicePort ::
      svc.network.Some? && PortKeyOf(svc, p) == spn && sm[spn] == InfoOf(svc, p)
  }

  ghost predicate SortedLists(em: EMap) {
    forall spn :: spn in em ==> StrictlySorted(em[spn])
  }

  lemma JobsAreApart(t: Table, links: set<Text>, ifaces: seq<Interface>, sm: ServiceMap, em: EMap,
                     picks: seq<Pick>, jobs: seq<Job>)
    requires JobsFor(t, links, ifaces, sm, em, picks, jobs) && AtMostOnce(t, links, ifaces, sm)
    requires ChainsApart(sm, em) && SortedLists(em)
    ensures JobsApart(jobs)
  {
    hide Matches, Panics, EndpointsOf;
    forall j | j in jobs
      ensures j.info.chain == ServiceChain(j.info.name, j.info.protocol)
      ensures forall h, i :: 0 <= h < i < |j.endpoints| ==> j.endpoints[h] != j.endpoints[i]
    {
      var k :| 0 <= k < |jobs| && jobs[k] == j;
      assert PickOk(t, links, ifaces, sm, em, picks[k], j);
      Different(em, picks[k].spn);
    }
    forall i, j | 0 <= i < |jobs| && 0 <= j < |jobs| && i != j && jobs[i].programmed && jobs[j].programmed
      ensures Apart(jobs[i], jobs[j])
    {
      JobPrograms(t, links, ifaces, sm, em, picks, jobs, i);
      JobPrograms(t, links, ifaces, sm, em, picks, jobs, j);
      assert picks[i] != picks[j];
    }
  }

  /** A job is programmed exactly if its pick says so. */
  lemma JobPrograms(t: Table, links: set<Text>, ifaces: seq<Interface>, sm: ServiceMap, em: EMap,
                    picks: seq<Pick>, jobs: seq<Job>, k: nat)
    requires JobsFor(t, links, ifaces, sm, em, picks, jobs) && k < |jobs|
    ensures k < |picks| && Wanted(ifaces, sm, picks[k].iface, picks[k].spn)
    ensures jobs[k].programmed <==> Programs(t, links, ifaces, sm, picks[k].iface, picks[k].spn)
    ensures jobs[k].info == sm[picks[k].spn] && jobs[k].endpoints == EndpointsOf(em, picks[k].spn)
  {
    hide Matches, Panics, EndpointsOf;
    assert PickOk(t, links, ifaces, sm, em, picks[k], jobs[k]);
  }

  lemma Different(em: EMap, spn: ServicePortName)
    requires SortedLists(em)
    ensures forall h, i :: 0 <= h < i < |EndpointsOf(em, spn)| ==> EndpointsOf(em, spn)[h] != EndpointsOf(em, spn)[i]
  {
    hide Ordered;
    forall h, i | 0 <= h < i < |EndpointsOf(em, spn)| ensures EndpointsOf(em, spn)[h] != EndpointsOf(em, spn)[i] {
      OrderFacts(em[spn][h].endpoint, em[spn][i].endpoint);
    }
  }

  /** The chains of one service port: its own with one jump per endpoint, theirs with one DNAT rule each. */
  ghost predicate Forwards(t': Table, info: ServicePortInfo, endpoints: seq<Text>) {
    && info.chain in t' && t'[info.chain] == SpreadRules(info, endpoints)
    && (forall h :: 0 <= h < |endpoints| ==>
          EndpointChain(info, endpoints[h]) in t'
          && t'[EndpointChain(info, endpoints[h])] == [DnatRule(info, endpoints[h])])
  }

  /** What a sync is to leave: one dispatch rule and the forwarding chains for every service
      port on a network of the namespace, no other chain of the proxy, and foreign chains as they were. */
  ghost predicate Specified(t: Table, t': Table, ifaces: seq<Interface>, sm: ServiceMap, em: EMap) {
    && (forall c :: c in t && c.Foreign? ==> c in t' && t'[c] == t[c])
    && (forall c :: c in t' && c.Foreign? ==> c in t)
    && Services in t' && DispatchesFor(t'[Services], ifaces, sm)
    && (forall i, spn :: Wanted(ifaces, sm, i, spn) ==> Forwards(t', sm[spn], EndpointsOf(em, spn)))
    && (forall c :: c in t' && IsMultus(c) && c != Services ==> InUse(c, ifaces, sm, em))
  }

  ghost predicate Dispatched(r: Rule, ifaces: seq<Interface>, sm: ServiceMap) {
    exists i, spn :: Wanted(ifaces, sm, i, spn) && r == DispatchRule(sm[spn])
  }

  /** The dispatch rules are exactly those of the wanted service ports, each once. */
  ghost predicate DispatchesFor(rules: seq<Rule>, ifaces: seq<Interface>, sm: ServiceMap) {
    && (forall i, spn :: Wanted(ifaces, sm, i, spn) ==> DispatchRule(sm[spn]) in rules)
    && (forall k :: 0 <= k < |rules| ==> Dispatched(rules[k], ifaces, sm))
    && (forall k, h :: 0 <= k < h < |rules| ==> rules[k] != rules[h])
  }

  ghost predicate InUse(c: Chain, ifaces: seq<Interface>, sm: ServiceMap, em: EMap) {
    exists i, spn :: Wanted(ifaces, sm, i, spn)
                     && (c == sm[spn].chain || exists e :: e in EndpointsOf(em, spn) && c == EndpointChain(sm[spn], e))
  }

  lemma DispatchTarget(info: ServicePortInfo)
    ensures DispatchRule(info).target == Some(info.chain)
  {
  }

  /** A table that meets the jobs, with one programmed job for every wanted service port, is as specified. */
  lemma MeetsIsSpecified(t: Table, t': Table, links: set<Text>, ifaces: seq<Interface>, sm: ServiceMap, em: EMap,
                         picks: seq<Pick>, jobs: seq<Job>)
    requires JobsFor(t, links, ifaces, sm, em, picks, jobs) && JobsApart(jobs) && Meets(t, t', jobs)
    requires OnceEach(t, links, ifaces, sm)
    ensures Specified(t, t', ifaces, sm, em)
  {
    hide JobsFor, JobsApart, Active, Appends, RulesFor, DispatchRule, DnatRule, SpreadRules, Matches, JobOf, Wanted,
         Forwards, InUse, Programs, Programmed, AtMostOnce;
    forall i: nat, spn | Wanted(ifaces, sm, i, spn) ensures spn in sm && Forwards(t', sm[spn], EndpointsOf(em, spn)) {
      WantedIn(ifaces, sm, i, spn);
      JobForwards(t, t', links, ifaces, sm, em, picks, jobs, spn);
    }
    MeetsDispatches(t, t', links, ifaces, sm, em, picks, jobs);
    forall c | c in t' && IsMultus(c) && c != Services ensures InUse(c, ifaces, sm, em) {
      UsedBy(t, links, ifaces, sm, em, picks, jobs, c);
    }
    forall c | c in Active(jobs) ensures IsMultus(c) {
      JobsAreOk(jobs);
      ActiveMultus(jobs, c);
    }
  }

  lemma JobsAreOk(jobs: seq<Job>)
    requires JobsApart(jobs)
    ensures JobsOk(jobs)
  {
  }

  /** The job that programs a service port. */
  lemma JobFor(t: Table, links: set<Text>, ifaces: seq<Interface>, sm: ServiceMap, em: EMap, picks: seq<Pick>,
               jobs: seq<Job>, i: nat, spn: ServicePortName) returns (k: nat)
    requires JobsFor(t, links, ifaces, sm, em, picks, jobs) && Programs(t, links, ifaces, sm, i, spn)
    ensures k < |jobs| && k < |picks| && picks[k] == Pick(i, spn) && spn in sm
    ensures jobs[k].programmed && jobs[k].info == sm[spn] && jobs[k].endpoints == EndpointsOf(em, spn)
  {
    hide Matches, EndpointsOf;
    assert Pick(i, spn) in picks;
    k :| 0 <= k < |picks| && picks[k] == Pick(i, spn);
    JobPrograms(t, links, ifaces, sm, em, picks, jobs, k);
  }

  lemma JobForwards(t: Table, t': Table, links: set<Text>, ifaces: seq<Interface>, sm: ServiceMap, em: EMap,
                    picks: seq<Pick>, jobs: seq<Job>, spn: ServicePortName)
    requires JobsFor(t, links, ifaces, sm, em, picks, jobs) && JobsApart(jobs) && Meets(t, t', jobs)
    requires Programmed(t, links, ifaces, sm, spn)
    ensures spn in sm && Forwards(t', sm[spn], EndpointsOf(em, spn))
  {
    hide JobsFor, JobsApart, Active, Appends, RulesFor, DnatRule, SpreadRules, EndpointsOf, Programs;
    var i: nat :| Programs(t, links, ifaces, sm, i, spn);
    var k := JobFor(t, links, ifaces, sm, em, picks, jobs, i, spn);
    var j := jobs[k];
    assert j in jobs;
    OwnChains(jobs, j);
    ServicePortChain(jobs, k);
    forall h | 0 <= h < |j.endpoints|
      ensures EndpointChain(j.info, j.endpoints[h]) in t'
      ensures t'[EndpointChain(j.info, j.endpoints[h])] == [DnatRule(j.info, j.endpoints[h])]
    {
      assert j.endpoints[h] in j.endpoints;
      EndpointRule(jobs, k, h);
    }
  }

  lemma MeetsDispatches(t: Table, t': Table, links: set<Text>, ifaces: seq<Interface>, sm: ServiceMap, em: EMap,
                        picks: seq<Pick>, jobs: seq<Job>)
    requires JobsFor(t, links, ifaces, sm, em, picks, jobs) && JobsApart(jobs) && Meets(t, t', jobs)
    requires OnceEach(t, links, ifaces, sm)
    ensures Services in t' && DispatchesFor(t'[Services], ifaces, sm)
  {
    hide JobsFor, Appends, RulesFor, DispatchRule, Matches, Wanted, EndpointsOf, Dispatches, Programs, AtMostOnce;
    assert Services in Active(jobs);
    DispatchChain(jobs);
    DispatchesFrom(jobs);
    DispatchesDiffer(jobs);
    var rules := t'[Services];
    forall i: nat, spn | Wanted(ifaces, sm, i, spn) ensures spn in sm && DispatchRule(sm[spn]) in rules {
      var h: nat :| Programs(t, links, ifaces, sm, h, spn);
      var k := JobFor(t, links, ifaces, sm, em, picks, jobs, h, spn);
      assert DispatchRule(jobs[k].info) in rules;
    }
    forall k | 0 <= k < |rules| ensures Dispatched(rules[k], ifaces, sm) {
      assert rules[k] in rules;
      var h :| 0 <= h < |jobs| && jobs[h].programmed && rules[k] == DispatchRule(jobs[h].info);
      JobPrograms(t, links, ifaces, sm, em, picks, jobs, h);
      WantedIn(ifaces, sm, picks[h].iface, picks[h].spn);
    }
  }

  /** Programmed jobs with chains of their own have different dispatch rules. */
  lemma {:induction false} DispatchesDiffer(jobs: seq<Job>)
    requires JobsApart(jobs)
    ensures forall k, h :: 0 <= k < h < |Dispatches(jobs)| ==> Dispatches(jobs)[k] != Dispatches(jobs)[h]
  {
    hide DispatchRule;
    if jobs != [] {
      var front, last := jobs[..|jobs| - 1], jobs[|jobs| - 1];
      FrontApart(jobs);
      DispatchesDiffer(front);
      if last.programmed {
        DispatchesFrom(front);
        var rules := Dispatches(front);
        forall k | 0 <= k < |rules| ensures rules[k] != DispatchRule(last.info) {
          assert rules[k] in rules;
          var i :| 0 <= i < |front| && front[i].programmed && rules[k] == DispatchRule(front[i].info);
          assert front[i] == jobs[i] && Apart(jobs[i], jobs[|jobs| - 1]);
          DispatchTarget(front[i].info);
          DispatchTarget(last.info);
        }
      }
    }
  }

  lemma FrontApart(jobs: seq<Job>)
    requires JobsApart(jobs) && jobs != []
    ensures JobsApart(jobs[..|jobs| - 1])
  {
    hide Apart;
    var front := jobs[..|jobs| - 1];
    assert forall j :: j in front ==> j in jobs;
    assert forall i :: 0 <= i < |front| ==> front[i] == jobs[i];
  }

  lemma WantedIn(ifaces: seq<Interface>, sm: ServiceMap, i: nat, spn: ServicePortName)
    requires Wanted(ifaces, sm, i, spn)
    ensures spn in sm && i < |ifaces|
  {
  }

  lemma UsedBy(t: Table, links: set<Text>, ifaces: seq<Interface>, sm: ServiceMap, em: EMap, picks: seq<Pick>,
               jobs: seq<Job>, c: Chain)
    requires JobsFor(t, links, ifaces, sm, em, picks, jobs) && c in Active(jobs) && c != Services
    ensures InUse(c, ifaces, sm, em)
  {
    hide JobsFor, Wanted, EndpointsOf, ChainLines, EndpointChain;
    AllFrom(jobs, ChainLines);
    var l :| l in All(jobs, ChainLines) && l.chain == c;
    var j :| j in jobs && l in ChainLines(j);
    var k :| 0 <= k < |jobs| && jobs[k] == j;
    JobPrograms(t, links, ifaces, sm, em, picks, jobs, k);
    WantedIn(ifaces, sm, picks[k].iface, picks[k].spn);
    DeclaredBy(j, l);
  }

  lemma DeclaredBy(j: Job, l: Line)
    requires l in ChainLines(j)
    ensures l.chain == j.info.chain || exists e :: e in j.endpoints && l.chain == EndpointChain(j.info, e)
  {
    if l.chain != j.info.chain {
      var i :| 0 <= i < |j.endpoints| && l == Declare(EndpointChain(j.info, j.endpoints[i]));
      assert j.endpoints[i] in j.endpoints;
    }
  }

  // ---------- the main results ----------

  /** Every service port whose rules are written has an IPv4 cluster IP and IPv4 endpoints. */
  ghost predicate AllIPv4(t: Table, links: set<Text>, ifaces: seq<Interface>, sm: ServiceMap, em: EMap) {
    forall i: nat, spn | Programs(t, links, ifaces, sm, i, spn) :: HasIPv4(sm, em, spn)
  }

  ghost predicate HasIPv4(sm: ServiceMap, em: EMap, spn: ServicePortName)
    requires spn in sm
  {
    IsIPv4(sm[spn].clusterIP.chars) && forall e :: e in EndpointsOf(em, spn) ==> IsHostPort(e.chars)
  }

  lemma JobsAddressed(t: Table, links: set<Text>, ifaces: seq<Interface>, sm: ServiceMap, em: EMap,
                      picks: seq<Pick>, jobs: seq<Job>)
    requires JobsFor(t, links, ifaces, sm, em, picks, jobs)
    ensures AllAddressed(jobs) <==> AllIPv4(t, links, ifaces, sm, em)
  {
    hide JobsFor, Wanted, EndpointsOf, IsIPv4, IsHostPort;
    if AllAddressed(jobs) {
      forall i: nat, spn | Programs(t, links, ifaces, sm, i, spn) ensures spn in sm && HasIPv4(sm, em, spn) {
        var k := JobFor(t, links, ifaces, sm, em, picks, jobs, i, spn);
        assert jobs[k] in jobs && Addressed(jobs[k]);
      }
    }
    if AllIPv4(t, links, ifaces, sm, em) {
      forall j | j in jobs && j.programmed ensures Addressed(j) {
        var k :| 0 <= k < |jobs| && jobs[k] == j;
        JobPrograms(t, links, ifaces, sm, em, picks, jobs, k);
        WantedIn(ifaces, sm, picks[k].iface, picks[k].spn);
        assert HasIPv4(sm, em, picks[k].spn);
      }
    }
  }

  /** All service ports on the networks of the interfaces have IPv4 cluster IPs and endpoints, the headless ones left
      aside. */
  ghost predicate IPv4ButHeadless(ifaces: seq<Interface>, sm: ServiceMap, em: EMap) {
    forall i, spn :: 0 <= i < |ifaces| && spn in sm && ifaces[i].netattachName == sm[spn].targetNetwork
                     && sm[spn].clusterIP.chars != "None" ==>
      IsIPv4(sm[spn].clusterIP.chars) && forall e :: e in EndpointsOf(em, spn) ==> IsHostPort(e.chars)
  }

  lemma AllButHeadless(t: Table, links: set<Text>, ifaces: seq<Interface>, sm: ServiceMap, em: EMap)
    ensures IPv4ButHeadless(ifaces, sm, em) ==> AllIPv4(t, links, ifaces, sm, em)
  {
    hide IsIPv4, IsHostPort, EndpointsOf;
  }

  /** Headless service ports stay out: every job is about a service port on the network of an interface with a cluster
      IP other than "None", and restoring succeeds when all of those have IPv4 cluster IPs and endpoints. */
  lemma HeadlessIgnored(t: Table, links: set<Text>, ifaces: seq<Interface>, sm: ServiceMap, em: EMap,
                        picks: seq<Pick>, jobs: seq<Job>, stale: seq<Chain>)
    requires WellFormed(t) && ChainsApart(sm, em) && SortedLists(em)
    requires JobsFor(t, links, ifaces, sm, em, picks, jobs) && StaleOf(t, jobs, stale)
    ensures forall j :: j in jobs ==>
              exists i, spn :: 0 <= i < |ifaces| && spn in sm && j.info == sm[spn]
                               && ifaces[i].netattachName == sm[spn].targetNetwork && sm[spn].clusterIP.chars != "None"
    ensures IPv4ButHeadless(ifaces, sm, em) ==> Run(t, Script(jobs, stale)).Some?
  {
    hide WellFormed, ChainsApart, SortedLists, Script, JobsFor, StaleOf, IPv4ButHeadless, EndpointsOf, Meets,
         Specified, OnceEach, AllIPv4;
    AllButHeadless(t, links, ifaces, sm, em);
    RestoredTable(t, links, ifaces, sm, em, picks, jobs, stale);
    forall j | j in jobs
      ensures exists i, spn :: 0 <= i < |ifaces| && spn in sm && j.info == sm[spn]
                               && ifaces[i].netattachName == sm[spn].targetNetwork && sm[spn].clusterIP.chars != "None"
    {
      var k :| 0 <= k < |jobs| && jobs[k] == j;
      JobPrograms(t, links, ifaces, sm, em, picks, jobs, k);
    }
  }

  /** A service without a cluster IP of its own, as an ExternalName service is, makes the whole script fail. */
  lemma ExternalNameRefused(t: Table, links: set<Text>, ifaces: seq<Interface>, sm: ServiceMap, em: EMap,
                            i: nat, spn: ServicePortName)
    requires i < |ifaces| && spn in sm && sm[spn].clusterIP == EMPTY && sm[spn].targetNetwork == ifaces[i].netattachName
    requires ifaces[i].interfaceName in links
    ensures !AllIPv4(t, links, ifaces, sm, em)
  {
    if IsIPv4("") {
      IPv4Chars("");
    }
    assert Programs(t, links, ifaces, sm, i, spn);
  }

  /** So does one with an IPv6 cluster IP. */
  lemma IPv6Refused(t: Table, links: set<Text>, ifaces: seq<Interface>, sm: ServiceMap, em: EMap,
                    i: nat, spn: ServicePortName)
    requires Programs(t, links, ifaces, sm, i, spn) && ':' in sm[spn].clusterIP.chars
    ensures !AllIPv4(t, links, ifaces, sm, em)
  {
    hide IsIPv4;
    if IsIPv4(sm[spn].clusterIP.chars) {
      IPv4Chars(sm[spn].clusterIP.chars);
    }
    assert !HasIPv4(sm, em, spn);
  }

  /** The script is accepted if and only if all addresses in it are IPv4 addresses, and then the table it leaves is
      exactly the specified one if and only if every wanted service port has its rules written for exactly one
      interface. */
  lemma RestoredTable(t: Table, links: set<Text>, ifaces: seq<Interface>, sm: ServiceMap, em: EMap,
                      picks: seq<Pick>, jobs: seq<Job>, stale: seq<Chain>)
    requires WellFormed(t) && ChainsApart(sm, em) && SortedLists(em)
    requires JobsFor(t, links, ifaces, sm, em, picks, jobs) && StaleOf(t, jobs, stale)
    ensures Run(t, Script(jobs, stale)).Some? <==> AllIPv4(t, links, ifaces, sm, em)
    ensures AllIPv4(t, links, ifaces, sm, em) ==>
              var t' := Run(t, Script(jobs, stale)).value;
              Meets(t, t', jobs) && (Specified(t, t', ifaces, sm, em) <==> OnceEach(t, links, ifaces, sm))
  {
    hide WellFormed, ChainsApart, SortedLists, Meets, Script, Specified, JobsFor, StaleOf, Active, JobsOk, AllIPv4,
         AllAddressed, OnceEach;
    JobsHaveChains(t, links, ifaces, sm, em, picks, jobs);
    JobsAddressed(t, links, ifaces, sm, em, picks, jobs);
    ScriptMeets(t, jobs, stale);
    if AllIPv4(t, links, ifaces, sm, em) {
      MeetsExactly(t, Run(t, Script(jobs, stale)).value, links, ifaces, sm, em, picks, jobs);
    }
  }

  lemma MeetsExactly(t: Table, t': Table, links: set<Text>, ifaces: seq<Interface>, sm: ServiceMap, em: EMap,
                     picks: seq<Pick>, jobs: seq<Job>)
    requires ChainsApart(sm, em) && SortedLists(em) && JobsOk(jobs) && Meets(t, t', jobs)
    requires JobsFor(t, links, ifaces, sm, em, picks, jobs)
    ensures Specified(t, t', ifaces, sm, em) <==> OnceEach(t, links, ifaces, sm)
  {
    hide AtMostOnce, ChainsApart, SortedLists, Meets, Specified, JobsFor, Active, JobsApart, JobsOk, Wanted, Programmed;
    if !AtMostOnce(t, links, ifaces, sm) {
      WrittenTwice(t, t', links, ifaces, sm, em, picks, jobs);
    } else if i: nat, spn :| Wanted(ifaces, sm, i, spn) && !Programmed(t, links, ifaces, sm, spn) {
      NeverWritten(t, t', links, ifaces, sm, em, picks, jobs, i, spn);
    } else {
      JobsAreApart(t, links, ifaces, sm, em, picks, jobs);
      MeetsIsSpecified(t, t', links, ifaces, sm, em, picks, jobs);
    }
  }

  lemma JobsHaveChains(t: Table, links: set<Text>, ifaces: seq<Interface>, sm: ServiceMap, em: EMap,
                       picks: seq<Pick>, jobs: seq<Job>)
    requires JobsFor(t, links, ifaces, sm, em, picks, jobs) && ChainsApart(sm, em)
    ensures JobsOk(jobs)
  {
    forall j | j in jobs ensures j.info.chain == ServiceChain(j.info.name, j.info.protocol) {
      var k :| 0 <= k < |jobs| && jobs[k] == j;
      assert PickOk(t, links, ifaces, sm, em, picks[k], j);
    }
  }

  /** A service port whose rules are written for two interfaces is dispatched to twice. */
  lemma WrittenTwice(t: Table, t': Table, links: set<Text>, ifaces: seq<Interface>, sm: ServiceMap, em: EMap,
                     picks: seq<Pick>, jobs: seq<Job>)
    requires JobsFor(t, links, ifaces, sm, em, picks, jobs) && JobsOk(jobs) && Meets(t, t', jobs)
    requires !AtMostOnce(t, links, ifaces, sm)
    ensures !Specified(t, t', ifaces, sm, em)
  {
    hide JobsFor, JobsOk, Wanted, DispatchRule, Dispatches, EndpointsOf, Forwards, InUse, Appends, RulesFor,
         DispatchesFor, Programs;
    var i: nat, h: nat, spn :| Programs(t, links, ifaces, sm, i, spn) && Programs(t, links, ifaces, sm, h, spn)
                             && i != h;
    var k := JobFor(t, links, ifaces, sm, em, picks, jobs, i, spn);
    var l := JobFor(t, links, ifaces, sm, em, picks, jobs, h, spn);
    DispatchChain(jobs);
    assert Services in Active(jobs);
    if k < l {
      DispatchedTwice(jobs, k, l, ifaces, sm);
    } else {
      DispatchedTwice(jobs, l, k, ifaces, sm);
    }
  }

  lemma {:induction false} DispatchedTwice(jobs: seq<Job>, k: nat, l: nat, ifaces: seq<Interface>, sm: ServiceMap)
    requires k < l < |jobs| && jobs[k].programmed && jobs[l].programmed && jobs[k].info == jobs[l].info
    ensures !DispatchesFor(Dispatches(jobs), ifaces, sm)
  {
    hide Wanted, DispatchRule;
    var a, b := TwoPlaces(jobs, k, l);
    assert Dispatches(jobs)[a] == Dispatches(jobs)[b];
  }

  lemma {:induction false} TwoPlaces(jobs: seq<Job>, k: nat, l: nat) returns (a: nat, b: nat)
    requires k < l < |jobs| && jobs[k].programmed && jobs[l].programmed
    ensures a < b < |Dispatches(jobs)|
    ensures Dispatches(jobs)[a] == DispatchRule(jobs[k].info) && Dispatches(jobs)[b] == DispatchRule(jobs[l].info)
  {
    hide DispatchRule;
    var front := jobs[..|jobs| - 1];
    if l < |front| {
      a, b := TwoPlaces(front, k, l);
    } else {
      DispatchesFrom(front);
      assert front[k] == jobs[k];
      assert DispatchRule(front[k].info) in Dispatches(front);
      a :| 0 <= a < |Dispatches(front)| && Dispatches(front)[a] == DispatchRule(front[k].info);
      b := |Dispatches(front)|;
    }
  }

  /** A wanted service port whose rules are written for no interface is not dispatched to. */
  lemma NeverWritten(t: Table, t': Table, links: set<Text>, ifaces: seq<Interface>, sm: ServiceMap, em: EMap,
                     picks: seq<Pick>, jobs: seq<Job>, i: nat, spn: ServicePortName)
    requires JobsFor(t, links, ifaces, sm, em, picks, jobs) && JobsOk(jobs) && Meets(t, t', jobs) && ChainsApart(sm, em)
    requires Wanted(ifaces, sm, i, spn) && !Programmed(t, links, ifaces, sm, spn)
    ensures !Specified(t, t', ifaces, sm, em)
  {
    hide JobsFor, JobsOk, DispatchRule, Dispatches, Matches, EndpointsOf, Forwards, InUse, Appends, RulesFor, Programs,
         ChainsApart;
    DispatchChain(jobs);
    assert Services in Active(jobs);
    NotDispatched(t, links, ifaces, sm, em, picks, jobs, i, spn);
    DispatchTarget(sm[spn]);
  }

  lemma NotDispatched(t: Table, links: set<Text>, ifaces: seq<Interface>, sm: ServiceMap, em: EMap, picks: seq<Pick>,
                      jobs: seq<Job>, i: nat, spn: ServicePortName)
    requires JobsFor(t, links, ifaces, sm, em, picks, jobs) && ChainsApart(sm, em)
    requires Wanted(ifaces, sm, i, spn) && !Programmed(t, links, ifaces, sm, spn)
    ensures forall j :: j in jobs && j.programmed ==> j.info.chain != sm[spn].chain
    ensures forall r :: r in Dispatches(jobs) ==> r.target != Some(sm[spn].chain)
  {
    hide JobsFor, DispatchRule, Dispatches, Matches, EndpointsOf, Programs, EndpointChain, ServiceChain;
    forall j | j in jobs && j.programmed ensures j.info.chain != sm[spn].chain {
      var k :| 0 <= k < |jobs| && jobs[k] == j;
      JobPrograms(t, links, ifaces, sm, em, picks, jobs, k);
    }
    DispatchesFrom(jobs);
    forall r | r in Dispatches(jobs) ensures r.target != Some(sm[spn].chain) {
      var k :| 0 <= k < |jobs| && jobs[k].programmed && r == DispatchRule(jobs[k].info);
      DispatchTarget(jobs[k].info);
      assert jobs[k] in jobs;
    }
  }

  /** Whether or not links are found: when the script is accepted, a service port whose chain is new and whose links
      are not found is left with an empty chain and no dispatch rule; all others are complete. */
  lemma RestoredInAnyCase(t: Table, links: set<Text>, ifaces: seq<Interface>, sm: ServiceMap, em: EMap,
                          picks: seq<Pick>, jobs: seq<Job>, stale: seq<Chain>, i: nat, spn: ServicePortName)
    requires WellFormed(t) && AtMostOnce(t, links, ifaces, sm) && ChainsApart(sm, em) && SortedLists(em)
    requires JobsFor(t, links, ifaces, sm, em, picks, jobs) && StaleOf(t, jobs, stale) && Wanted(ifaces, sm, i, spn)
    ensures Run(t, Script(jobs, stale)).Some? <==> AllIPv4(t, links, ifaces, sm, em)
    ensures AllIPv4(t, links, ifaces, sm, em) ==>
            var t' := Run(t, Script(jobs, stale)).value;
            var info := sm[spn];
            if Programmed(t, links, ifaces, sm, spn) then
              Forwards(t', info, EndpointsOf(em, spn)) && Services in t' && DispatchRule(info) in t'[Services]
            else
              info.chain in t' && t'[info.chain] == []
              && Services in t' && forall r :: r in t'[Services] ==> r.target != Some(info.chain)
  {
    hide WellFormed, AtMostOnce, ChainsApart, SortedLists, Script, StaleOf, JobsApart, JobsFor, AllIPv4, AllAddressed,
         Meets, Forwards, DispatchRule;
    JobsAreApart(t, links, ifaces, sm, em, picks, jobs);
    JobsAreOk(jobs);
    JobsAddressed(t, links, ifaces, sm, em, picks, jobs);
    ScriptMeets(t, jobs, stale);
    if AllIPv4(t, links, ifaces, sm, em) {
      MeetsInAnyCase(t, Run(t, Script(jobs, stale)).value, links, ifaces, sm, em, picks, jobs, i, spn);
    }
  }

  lemma MeetsInAnyCase(t: Table, t': Table, links: set<Text>, ifaces: seq<Interface>, sm: ServiceMap, em: EMap,
                       picks: seq<Pick>, jobs: seq<Job>, i: nat, spn: ServicePortName)
    requires ChainsApart(sm, em) && JobsApart(jobs) && JobsOk(jobs) && Meets(t, t', jobs)
    requires JobsFor(t, links, ifaces, sm, em, picks, jobs) && Wanted(ifaces, sm, i, spn)
    ensures Services in t'
    ensures Programmed(t, links, ifaces, sm, spn) ==>
              Forwards(t', sm[spn], EndpointsOf(em, spn)) && DispatchRule(sm[spn]) in t'[Services]
    ensures !Programmed(t, links, ifaces, sm, spn) ==>
              sm[spn].chain in t' && t'[sm[spn].chain] == []
              && forall r :: r in t'[Services] ==> r.target != Some(sm[spn].chain)
  {
    hide ChainsApart, JobsApart, JobsOk, JobsFor, Appends, RulesFor, DispatchRule, Matches, EndpointsOf, Forwards,
         Programs, Active, Dispatches;
    DispatchChain(jobs);
    ServicesActive(jobs);
    if Programmed(t, links, ifaces, sm, spn) {
      JobForwards(t, t', links, ifaces, sm, em, picks, jobs, spn);
      var h: nat :| Programs(t, links, ifaces, sm, h, spn);
      var k := JobFor(t, links, ifaces, sm, em, picks, jobs, h, spn);
      DispatchesFrom(jobs);
    } else {
      NotDispatched(t, links, ifaces, sm, em, picks, jobs, i, spn);
      ChainDeclared(t, links, ifaces, sm, em, picks, jobs, i, spn);
      IdleChain(jobs, sm[spn].chain);
    }
  }

  lemma ServicesActive(jobs: seq<Job>)
    ensures Services in Active(jobs)
  {
  }

  lemma ChainDeclared(t: Table, links: set<Text>, ifaces: seq<Interface>, sm: ServiceMap, em: EMap, picks: seq<Pick>,
                      jobs: seq<Job>, i: nat, spn: ServicePortName)
    requires JobsFor(t, links, ifaces, sm, em, picks, jobs) && Wanted(ifaces, sm, i, spn) && JobsOk(jobs)
    ensures sm[spn].chain in Active(jobs) && sm[spn].chain.SvcChain?
  {
    hide Matches, Active, EndpointsOf;
    var k :| 0 <= k < |picks| && picks[k] == Pick(i, spn);
    assert PickOk(t, links, ifaces, sm, em, picks[k], jobs[k]);
    assert jobs[k] in jobs;
    OwnChains(jobs, jobs[k]);
  }

  lemma {:induction false} DispatchesFrom(jobs: seq<Job>)
    ensures forall r :: r in Dispatches(jobs) <==>
              exists i :: 0 <= i < |jobs| && jobs[i].programmed && r == DispatchRule(jobs[i].info)
  {
    hide DispatchRule;
    if jobs != [] {
      var front, last := jobs[..|jobs| - 1], jobs[|jobs| - 1];
      DispatchesFrom(front);
      assert forall i :: 0 <= i < |front| ==> front[i] == jobs[i];
      forall r | r in Dispatches(front)
        ensures exists i :: 0 <= i < |jobs| && jobs[i].programmed && r == DispatchRule(jobs[i].info)
      {
        var i :| 0 <= i < |front| && front[i].programmed && r == DispatchRule(front[i].info);
        assert jobs[i] == front[i];
      }
      assert jobs[|jobs| - 1] == last;
    }
  }

  lemma SomeWanted(rules: seq<Rule>, ifaces: seq<Interface>, sm: ServiceMap)
    requires DispatchesFor(rules, ifaces, sm) && rules != []
    ensures exists i, spn :: Wanted(ifaces, sm, i, spn)
  {
    hide Matches, DispatchRule;
    assert Dispatched(rules[0], ifaces, sm);
  }

  ghost predicate NoneWanted(ifaces: seq<Interface>, sm: ServiceMap) {
    forall i: nat, spn :: !Wanted(ifaces, sm, i, spn)
  }

  /** When nothing is restored, the table is as specified if and only if no service port is wanted and the dispatch
      chain is empty. */
  lemma NothingToRestore(t: Table, links: set<Text>, ifaces: seq<Interface>, sm: ServiceMap, em: EMap,
                         picks: seq<Pick>, jobs: seq<Job>)
    requires WellFormed(t) && JobsFor(t, links, ifaces, sm, em, picks, jobs) && StaleOf(t, jobs, [])
    requires forall j :: j in jobs ==> !j.programmed
    ensures Specified(t, t, ifaces, sm, em) <==> NoneWanted(ifaces, sm) && t[Services] == []
  {
    hide Matches, EndpointsOf, DispatchRule, Panics, SpreadRules, DnatRule;
    if jobs == [] {
      assert picks == [];
      forall i: nat, spn ensures !Wanted(ifaces, sm, i, spn) {
        assert Pick(i, spn) !in picks;
      }
      NoJobs();
      forall c | c in t && IsMultus(c) ensures c == Services {
      }
      if Specified(t, t, ifaces, sm, em) && t[Services] != [] {
        SomeWanted(t[Services], ifaces, sm);
      }
    } else {
      JobPrograms(t, links, ifaces, sm, em, picks, jobs, 0);
      assert jobs[0] in jobs;
      assert sm[picks[0].spn].chain !in t;
      assert !Forwards(t, sm[picks[0].spn], EndpointsOf(em, picks[0].spn));
    }
  }

  // ---------- how packets are spread ----------

  /** The last words of a service chain's jumps stand for 1/n, 1/(n-1), ..., 1 to ten digits, so that every endpoint
      gets its share of the packets up to n / 2 units of the tenth digit, and every packet gets an endpoint. */
  lemma ChainSpreadsEvenly(info: ServicePortInfo, endpoints: seq<Text>, i: nat)
    requires i < |endpoints|
    ensures var r := SpreadRules(info, endpoints)[i];
            && r.target == Some(EndpointChain(info, endpoints[i]))
            && |r.words| == 10 && Denoted(r.words[9]) == DigitsOf(|endpoints|)[i]
    ensures Within(Chosen(DigitsOf(|endpoints|), i), Share(|endpoints|), Times(|endpoints|, 0.5 / (DIGITS as real)))
    ensures ChosenUpTo(DigitsOf(|endpoints|), |endpoints|) == 1.0
  {
    hide ComputeProbability, Chosen, ChosenUpTo, Times, Share, DigitsOf, Denoted;
    DigitsAt(|endpoints|, i);
    SpreadEvenly(|endpoints|, i);
  }
}
