/** Sync after sync (pkg/proxy/server/server.go): the table a sync leaves is fit for the next one, a sync with nothing
    new changes nothing, and the whole way from slice and service events to the nat table. */
module ProxySync {
  import opened Wrappers
  import opened Discovery
  import opened EndpointStrings
  import opened ProxyEndpoints
  import opened EndpointLists
  import opened ServicePorts
  import opened Iptables
  import opened LoadBalancing
  import opened ProxyRules
  import opened IptableBuffers
  import opened RuleSync
  import opened SavedRules
  import RuleText
  import ProxyCache
  import ChangeTrackers

  // ---------- a table for the next sync ----------

  /** Every jump has a target, the dispatch chain only jumps to other chains of the proxy, and the rules of the proxy's
      chains are ones that iptables accepts; foreign chains are named differently. */
  ghost predicate Own(t: Table) {
    && WellFormed(t)
    && (forall r :: r in t[Services] ==> r.target.Some? && IsMultus(r.target.value) && r.target.value != Services)
    && (forall c, r :: c in t && IsMultus(c) && r in t[c] ==> Accepted(r))
    && Named(t)
  }

  lemma OwnStays(t: Table, t': Table, jobs: seq<Job>)
    requires Own(t) && JobsOk(jobs) && Meets(t, t', jobs) && AllAddressed(jobs)
    ensures Own(t')
  {
    hide Active, Appends, RulesFor, Dispatches, DispatchRule, Meets, JobsOk, AllAddressed, Accepted, HasPrefix;
    StaysWellFormed(t, t', jobs);
    MeetsChain(t, t', jobs, Services);
    DispatchChain(jobs);
    DispatchesFrom(jobs);
    AppendsAccepted(jobs);
    forall r | r in t'[Services] ensures r.target.Some? && IsMultus(r.target.value) && r.target.value != Services {
      var i :| 0 <= i < |jobs| && jobs[i].programmed && r == DispatchRule(jobs[i].info);
      DispatchTarget(jobs[i].info);
      JobChain(jobs, i);
    }
    forall c, r | c in t' && IsMultus(c) && r in t'[c] ensures Accepted(r) {
      MeetsChain(t, t', jobs, c);
      RuleFrom(Appends(jobs), c, r);
    }
    forall c | c in t' && c.Foreign? ensures c in t {
      ForeignStays(t, t', jobs, c);
    }
  }

  lemma ForeignStays(t: Table, t': Table, jobs: seq<Job>, c: Chain)
    requires Meets(t, t', jobs) && JobsOk(jobs) && c in t' && c.Foreign?
    ensures c in t && t'[c] == t[c]
  {
    hide Active, Appends, RulesFor;
    if c in Active(jobs) {
      ActiveMultus(jobs, c);
    }
  }

  lemma JobChain(jobs: seq<Job>, i: nat)
    requires JobsOk(jobs) && i < |jobs|
    ensures jobs[i].info.chain.SvcChain?
  {
    assert jobs[i] in jobs;
  }

  lemma MeetsChain(t: Table, t': Table, jobs: seq<Job>, c: Chain)
    requires Meets(t, t', jobs)
    ensures Services in t'
    ensures c in t' ==>
              (c in t && c.Foreign? && t'[c] == t[c]) || (c in Active(jobs) && t'[c] == RulesFor(Appends(jobs), c))
    ensures (c in t && c.Foreign?) || c in Active(jobs) ==> c in t'
  {
    hide Active, Appends, RulesFor;
    ServicesActive(jobs);
  }

  lemma StaysWellFormed(t: Table, t': Table, jobs: seq<Job>)
    requires WellFormed(t) && JobsOk(jobs) && Meets(t, t', jobs)
    ensures WellFormed(t')
  {
    hide Active, Appends, RulesFor, Meets, JobsOk;
    MeetsChain(t, t', jobs, Services);
    forall c, i | c in t' && 0 <= i < |t'[c]| && t'[c][i].target.Some?
      ensures t'[c][i].target.value in t'
      ensures c.Foreign? ==> t'[c][i].target.value.Foreign? || t'[c][i].target.value == Services
    {
      MeetsChain(t, t', jobs, c);
      MeetsChain(t, t', jobs, t'[c][i].target.value);
      if c in Active(jobs) {
        ActiveMultus(jobs, c);
        assert t'[c][i] in t'[c];
        RuleFrom(Appends(jobs), c, t'[c][i]);
        AppendsInside(jobs, Append(c, t'[c][i]));
      }
    }
  }

  /** When there is no chain to delete and no job is programmed, the dispatch chain is empty. */
  lemma NothingLeftOver(t: Table, jobs: seq<Job>)
    requires Own(t) && JobsOk(jobs) && StaleOf(t, jobs, [])
    requires forall j :: j in jobs ==> !j.programmed && j.info.chain !in t
    ensures t[Services] == [] && forall c :: c in t && IsMultus(c) ==> c == Services
  {
    hide Accepted, HasPrefix, Active;
    forall c | c in t && IsMultus(c) ensures c == Services {
      IdleActive(jobs, c);
    }
    JumpsInside(t);
  }

  lemma IdleActive(jobs: seq<Job>, c: Chain)
    requires c in Active(jobs) && forall j :: j in jobs ==> !j.programmed
    ensures c == Services || exists j :: j in jobs && c == j.info.chain
  {
    hide EndpointDeclares;
    AllFrom(jobs, ChainLines);
    if c != Services {
      var l :| l in All(jobs, ChainLines) && l.chain == c;
      var j :| j in jobs && l in ChainLines(j);
    }
  }

  lemma JumpsInside(t: Table)
    requires Own(t)
    ensures t[Services] == [] || exists c :: c in t && IsMultus(c) && c != Services
  {
    hide Accepted, HasPrefix;
    if t[Services] != [] {
      assert t[Services][0] in t[Services];
      assert t[Services][0].target.value in t;
    }
  }

  /** A job that is not programmed has a new chain. */
  lemma IdleIsNew(t: Table, links: set<Text>, ifaces: seq<Interface>, sm: ServiceMap, em: EMap, picks: seq<Pick>,
                  jobs: seq<Job>)
    requires JobsFor(t, links, ifaces, sm, em, picks, jobs)
    ensures forall j :: j in jobs && !j.programmed ==> j.info.chain !in t
  {
    hide JobsFor, Wanted;
    forall j | j in jobs && !j.programmed ensures j.info.chain !in t {
      var k :| 0 <= k < |jobs| && jobs[k] == j;
      JobPrograms(t, links, ifaces, sm, em, picks, jobs, k);
    }
  }

  /** Without a programmed job, rules for one interface each means that nothing is wanted. */
  lemma NoneProgrammed(t: Table, links: set<Text>, ifaces: seq<Interface>, sm: ServiceMap, em: EMap, picks: seq<Pick>,
                       jobs: seq<Job>)
    requires JobsFor(t, links, ifaces, sm, em, picks, jobs) && forall j :: j in jobs ==> !j.programmed
    ensures OnceEach(t, links, ifaces, sm) <==> NoneWanted(ifaces, sm)
    ensures NoneWanted(ifaces, sm) ==> jobs == []
  {
    hide JobsFor, Wanted, Programs;
    forall i: nat, spn ensures !Programs(t, links, ifaces, sm, i, spn) {
      SomeJob(t, links, ifaces, sm, em, picks, jobs, i, spn);
    }
    if jobs != [] {
      JobPrograms(t, links, ifaces, sm, em, picks, jobs, 0);
    }
  }

  lemma SomeJob(t: Table, links: set<Text>, ifaces: seq<Interface>, sm: ServiceMap, em: EMap, picks: seq<Pick>,
                jobs: seq<Job>, i: nat, spn: ServicePortName)
    requires JobsFor(t, links, ifaces, sm, em, picks, jobs)
    ensures Programs(t, links, ifaces, sm, i, spn) ==> exists j :: j in jobs && j.programmed
  {
    hide JobsFor, Programs;
    if Programs(t, links, ifaces, sm, i, spn) {
      var k := JobFor(t, links, ifaces, sm, em, picks, jobs, i, spn);
      assert jobs[k] in jobs;
    }
  }

  // ---------- what the next sync reads ----------

  /** Names and protocols have no space in them. */
  ghost predicate Spaceless(sm: ServiceMap) {
    forall spn :: spn in sm ==> RuleText.Plain(sm[spn].name.chars) && RuleText.Plain(sm[spn].protocol.chars)
  }

  /** The dispatch rule of a job is one that the next sync can read. */
  lemma JobEchoes(t: Table, links: set<Text>, ifaces: seq<Interface>, sm: ServiceMap, em: EMap, picks: seq<Pick>,
                  jobs: seq<Job>, k: nat)
    requires JobsFor(t, links, ifaces, sm, em, picks, jobs) && ChainsApart(sm, em) && Spaceless(sm)
    requires k < |jobs| && jobs[k].programmed && Addressed(jobs[k])
    ensures IsEcho(DispatchRule(jobs[k].info))
  {
    hide JobsFor, Wanted, EndpointsOf, RuleText.Plain, EndpointChain;
    JobPrograms(t, links, ifaces, sm, em, picks, jobs, k);
    WantedIn(ifaces, sm, picks[k].iface, picks[k].spn);
    PlainJob(jobs[k].info);
    assert EchoFor(DispatchRule(jobs[k].info), jobs[k].info);
  }

  lemma PlainJob(info: ServicePortInfo)
    requires RuleText.Plain(info.name.chars) && RuleText.Plain(info.protocol.chars) && IsIPv4(info.clusterIP.chars)
    requires info.chain == ServiceChain(info.name, info.protocol)
    ensures RuleText.PlainInfo(info, RuleText.ChainName(info.chain))
  {
    hide IsIPv4;
    IPv4Chars(info.clusterIP.chars);
    if info.port < 0 {
      ItoaDigits(-info.port);
    } else {
      ItoaDigits(info.port);
    }
  }

  /** What a sync leaves can be read by the next one. */
  lemma EchoStays(t: Table, t': Table, links: set<Text>, ifaces: seq<Interface>, sm: ServiceMap, em: EMap,
                  picks: seq<Pick>, jobs: seq<Job>)
    requires JobsFor(t, links, ifaces, sm, em, picks, jobs) && ChainsApart(sm, em) && Spaceless(sm) && JobsOk(jobs)
    requires Meets(t, t', jobs) && AllAddressed(jobs)
    ensures Echoed(t')
  {
    hide JobsFor, ChainsApart, Spaceless, JobsOk, Meets, Addressed, Appends, RulesFor, Dispatches, DispatchRule, IsEcho,
         Active;
    MeetsChain(t, t', jobs, Services);
    DispatchChain(jobs);
    DispatchesFrom(jobs);
    ServicesActive(jobs);
    forall c | c in t' ensures !c.OtherMultus? {
      MeetsChain(t, t', jobs, c);
      if c in Active(jobs) {
        ActiveOwn(jobs, c);
      }
    }
    forall r | r in t'[Services] ensures IsEcho(r) {
      var k :| 0 <= k < |jobs| && jobs[k].programmed && r == DispatchRule(jobs[k].info);
      assert jobs[k] in jobs;
      JobEchoes(t, links, ifaces, sm, em, picks, jobs, k);
    }
    forall r, q | r in t'[Services] && q in t'[Services] && r.target == q.target
      ensures r.destination == q.destination {
      var k :| 0 <= k < |jobs| && jobs[k].programmed && r == DispatchRule(jobs[k].info);
      var h :| 0 <= h < |jobs| && jobs[h].programmed && q == DispatchRule(jobs[h].info);
      SameChainSameInfo(t, links, ifaces, sm, em, picks, jobs, k, h);
    }
  }

  lemma ActiveOwn(jobs: seq<Job>, c: Chain)
    requires JobsOk(jobs) && c in Active(jobs)
    ensures c == Services || c.SvcChain? || c.SepChain?
  {
    hide ChainLines;
    AllFrom(jobs, ChainLines);
    if c != Services {
      var l :| l in All(jobs, ChainLines) && l.chain == c;
      var j :| j in jobs && l in ChainLines(j);
      DeclaredBy(j, l);
    }
  }

  lemma SameChainSameInfo(t: Table, links: set<Text>, ifaces: seq<Interface>, sm: ServiceMap, em: EMap,
                          picks: seq<Pick>, jobs: seq<Job>, k: nat, h: nat)
    requires JobsFor(t, links, ifaces, sm, em, picks, jobs) && ChainsApart(sm, em) && k < |jobs| && h < |jobs|
    requires DispatchRule(jobs[k].info).target == DispatchRule(jobs[h].info).target
    ensures jobs[k].info == jobs[h].info
  {
    hide JobsFor, Wanted, EndpointsOf, EndpointChain, ServiceChain, DispatchRule;
    JobPrograms(t, links, ifaces, sm, em, picks, jobs, k);
    JobPrograms(t, links, ifaces, sm, em, picks, jobs, h);
    WantedIn(ifaces, sm, picks[k].iface, picks[k].spn);
    WantedIn(ifaces, sm, picks[h].iface, picks[h].spn);
    DispatchTarget(jobs[k].info);
    DispatchTarget(jobs[h].info);
  }

  /** A table with a rule that iptables would refuse is not one that was left by a sync. */
  lemma NotAsWanted(t: Table, links: set<Text>, ifaces: seq<Interface>, sm: ServiceMap, em: EMap)
    requires Own(t) && !AllIPv4(t, links, ifaces, sm, em) && forall spn :: spn in sm ==> sm[spn].chain.SvcChain?
    ensures !Specified(t, t, ifaces, sm, em)
  {
    hide IsIPv4, IsHostPort, IsDestination, Named, SpreadRules, Matches, EndpointsOf, InUse, WellFormed;
    var i: nat, spn :| Programs(t, links, ifaces, sm, i, spn) && !HasIPv4(sm, em, spn);
    DestinationIs(sm[spn].clusterIP.chars);
    if Specified(t, t, ifaces, sm, em) {
      assert Wanted(ifaces, sm, i, spn);
      var r := DispatchRule(sm[spn]);
      assert Forwards(t, sm[spn], EndpointsOf(em, spn));
      assert r in t[Services] && Accepted(r);
      EndpointsAccepted(t, sm[spn], EndpointsOf(em, spn));
    }
  }

  lemma EndpointsAccepted(t: Table, info: ServicePortInfo, endpoints: seq<Text>)
    requires Forwards(t, info, endpoints) && forall c, r :: c in t && IsMultus(c) && r in t[c] ==> Accepted(r)
    ensures forall e :: e in endpoints ==> IsHostPort(e.chars)
  {
    hide IsHostPort, IsDestination, SpreadRules;
    forall e | e in endpoints ensures IsHostPort(e.chars) {
      var h :| 0 <= h < |endpoints| && endpoints[h] == e;
      var c := EndpointChain(info, e);
      assert t[c] == [DnatRule(info, endpoints[h])] && DnatRule(info, e) in t[c];
      assert Accepted(DnatRule(info, e));
    }
  }

  const LOOK_ALIKE := OtherMultus(Text("MULTUS-SERVICES-OLD"))

  /** A rule of four words in a chain whose name begins like the dispatch chain's makes Init fail, although no service
      port is wanted. */
  lemma LookAlikePanics()
    ensures var t := map[Services := [], LOOK_ALIKE := [Rule(None, [Text("-j"), Text("RETURN")], None, None)]];
            Own(t) && RuleText.HasShortLine(t) && !SomePanic(t, {}, [], map[])
  {
    var r := Rule(None, [Text("-j"), Text("RETURN")], None, None);
    var t: Table := map[Services := [], LOOK_ALIKE := [r]];
    LookAlikeLine(r);
    RuleText.RuleLineAt(t, LOOK_ALIKE, 0);
    var l := RuleText.RuleLine(LOOK_ALIKE, r);
    assert RuleText.IsRuleLine(t, l) && RuleText.IsShort(l);
  }

  lemma LookAlikeLine(r: Rule)
    requires r == Rule(None, [Text("-j"), Text("RETURN")], None, None)
    ensures RuleText.IsShort(RuleText.RuleLine(LOOK_ALIKE, r))
  {
    hide RuleText.Join, RuleText.Split;
    var words := ["-A", "MULTUS-SERVICES-OLD", "-j", "RETURN"];
    assert RuleText.Chars(r.words) == ["-j", "RETURN"];
    assert ["-A", RuleText.ChainName(LOOK_ALIKE)] + RuleText.RuleWords(r) == words;
    RuleText.SplitJoin(words);
    LookAlikeStart(words);
  }

  lemma LookAlikeStart(words: seq<string>)
    requires words == ["-A", "MULTUS-SERVICES-OLD", "-j", "RETURN"]
    ensures RuleText.IsDispatch(RuleText.Join(words))
  {
    assert words[1..] == ["MULTUS-SERVICES-OLD", "-j", "RETURN"];
    var rest := RuleText.Join(words[1..][1..]);
    assert RuleText.Join(words) == "-A " + "MULTUS-SERVICES-OLD" + " " + rest;
    assert "-A " + "MULTUS-SERVICES-OLD" == RuleText.PREFIX + "-OLD";
  }

  // ---------- one sync ----------

  /** One sync of a network namespace. It panics exactly if a dispatch rule in the saved table is too short or a new
      chain is wanted on an interface without addresses. Otherwise the table is as specified if and only if every
      wanted service port has its rules written for exactly one interface and all addresses are IPv4 addresses,
      whether anything was restored or not. The table can be read by the next sync, and the cluster IPs given up are
      those of the dispatched service ports whose chains are gone. */
  method SyncTable(probabilities: Probabilities, ifaces: seq<Interface>, sm: ServiceMap, em: EMap, links: set<Text>,
                   t: Table)
    returns (panicked: bool, t': Table, oldClusterIPs: seq<string>)
    requires probabilities.Valid() && Own(t) && ChainsApart(sm, em) && SortedLists(em) && Spaceless(sm)
    modifies probabilities
    ensures probabilities.Valid()
    ensures panicked <==> RuleText.HasShortLine(t) || SomePanic(t, links, ifaces, sm)
    ensures !panicked ==> Own(t')
    ensures !panicked ==> (Specified(t, t', ifaces, sm, em) <==>
                             OnceEach(t, links, ifaces, sm) && AllIPv4(t, links, ifaces, sm, em))
    ensures !panicked && OnceEach(t, links, ifaces, sm) && IPv4ButHeadless(ifaces, sm, em) ==>
              Specified(t, t', ifaces, sm, em)
    ensures !panicked && (Echoed(t) || AllIPv4(t, links, ifaces, sm, em)) ==> Echoed(t')
    ensures !panicked && Echoed(t) && AllIPv4(t, links, ifaces, sm, em) ==>
              forall ip :: ip in oldClusterIPs <==> exists r :: GivenUp(t, t', r) && r.destination.value.chars == ip
  {
    hide IPv4ButHeadless, ChainsApart, SortedLists, SomePanic, Specified, OnceEach, JobsFor, StaleOf, Script, Meets,
         NoneWanted, AllIPv4,
         Echoed, Spaceless, RuleText.HasShortLine, RuleText.Remembered, AllAddressed, JobsOk, GivenUp, Own;
    var restore;
    ghost var picks, jobs, stale, clusterIPs;
    AllButHeadless(t, links, ifaces, sm, em);
    panicked, restore, oldClusterIPs, picks, jobs, stale, clusterIPs :=
      GenerateServiceForwardingRules(probabilities, ifaces, sm, em, links, t);
    t' := t;
    if panicked {
      return;
    }
    OwnIsWellFormed(t);
    JobsHaveChains(t, links, ifaces, sm, em, picks, jobs);
    JobsAddressed(t, links, ifaces, sm, em, picks, jobs);
    if restore.Some? {
      RestoredTable(t, links, ifaces, sm, em, picks, jobs, stale);
      var restored := Run(t, restore.value);
      if restored.Some? {
        t' := restored.value;
        OwnStays(t, t', jobs);
        EchoStays(t, t', links, ifaces, sm, em, picks, jobs);
        if Echoed(t) {
          StaleAreGone(t, t', jobs, stale, clusterIPs);
        }
      } else {
        SvcChains(sm, em);
        NotAsWanted(t, links, ifaces, sm, em);
      }
    } else {
      NothingRestored(t, links, ifaces, sm, em, picks, jobs);
      NoneGivenUp(t, clusterIPs);
    }
  }

  lemma OwnIsWellFormed(t: Table)
    requires Own(t)
    ensures WellFormed(t) && Named(t)
  {
    hide WellFormed, Named, Accepted;
  }

  /** A dispatch rule to a chain that is gone. */
  predicate GivenUp(t: Table, t': Table, r: Rule) {
    Services in t && r in t[Services] && r.destination.Some? && r.target.Some? && r.target.value !in t'
  }

  lemma StaleAreGone(t: Table, t': Table, jobs: seq<Job>, stale: seq<Chain>, clusterIPs: map<string, string>)
    requires Own(t) && Echoed(t) && RuleText.Remembered(t, clusterIPs)
    requires StaleOf(t, jobs, stale) && Meets(t, t', jobs) && JobsOk(jobs)
    ensures forall ip :: ip in OldClusterIPs(clusterIPs, stale) <==>
              exists r :: GivenUp(t, t', r) && r.destination.value.chars == ip
  {
    hide Active, Appends, RulesFor, IsEcho, Named, Accepted, RuleText.Remembered, Echoed, OldClusterIPs;
    forall ip
      ensures ip in OldClusterIPs(clusterIPs, stale) <==>
                exists r :: GivenUp(t, t', r) && r.destination.value.chars == ip
    {
      OldExactly(t, clusterIPs, stale, ip);
      forall r ensures GivenUp(t, t', r) <==> GivesUp(t, r, stale) {
      }
      if r :| GivesUp(t, r, stale) && r.destination.value.chars == ip {
        assert GivenUp(t, t', r);
      }
      if r :| GivenUp(t, t', r) && r.destination.value.chars == ip {
        assert GivesUp(t, r, stale);
      }
    }
  }

  lemma NoneGivenUp(t: Table, clusterIPs: map<string, string>)
    requires Own(t)
    ensures OldClusterIPs(clusterIPs, []) == [] && forall r :: !GivenUp(t, t, r)
  {
    hide Accepted, Named;
    forall r ensures !GivenUp(t, t, r) {
      if r in t[Services] {
        var i :| 0 <= i < |t[Services]| && t[Services][i] == r;
      }
    }
  }

  lemma NothingRestored(t: Table, links: set<Text>, ifaces: seq<Interface>, sm: ServiceMap, em: EMap, picks: seq<Pick>,
                        jobs: seq<Job>)
    requires Own(t) && JobsFor(t, links, ifaces, sm, em, picks, jobs) && JobsOk(jobs) && StaleOf(t, jobs, [])
    requires forall j :: j in jobs ==> !j.programmed
    ensures Specified(t, t, ifaces, sm, em) <==> OnceEach(t, links, ifaces, sm)
    ensures AllIPv4(t, links, ifaces, sm, em) && Echoed(t)
  {
    hide JobsFor, JobsOk, StaleOf, Specified, OnceEach, NoneWanted, AllIPv4, Addressed, WellFormed, Named, Accepted;
    NothingToRestore(t, links, ifaces, sm, em, picks, jobs);
    NoneProgrammed(t, links, ifaces, sm, em, picks, jobs);
    IdleIsNew(t, links, ifaces, sm, em, picks, jobs);
    NothingLeftOver(t, jobs);
    JobsAddressed(t, links, ifaces, sm, em, picks, jobs);
    ServicesThere(t);
  }

  lemma ServicesThere(t: Table)
    requires Own(t)
    ensures Services in t
  {
  }

  // ---------- the second sync ----------

  /** Equal but for the order of the dispatch rules. */
  ghost predicate SameTable(t: Table, t': Table) {
    && t.Keys == t'.Keys && Services in t
    && (forall c :: c in t && c != Services ==> t'[c] == t[c])
    && multiset(t[Services]) == multiset(t'[Services])
  }

  ghost predicate WantedOnce(ifaces: seq<Interface>, sm: ServiceMap) {
    forall i: nat, h: nat, spn | Wanted(ifaces, sm, i, spn) && Wanted(ifaces, sm, h, spn) :: i == h
  }

  lemma {:induction false} NoRepeatCounts(rules: seq<Rule>)
    ensures (forall k, h :: 0 <= k < h < |rules| ==> rules[k] != rules[h]) <==> forall r :: multiset(rules)[r] <= 1
  {
    if rules != [] {
      var front, last := rules[..|rules| - 1], rules[|rules| - 1];
      NoRepeatCounts(front);
      assert rules == front + [last];
      assert last in front <==> multiset(front)[last] >= 1;
      if last in front {
        assert multiset(rules)[last] >= 2;
        var k :| 0 <= k < |front| && front[k] == last;
        assert rules[k] == rules[|front|];
      } else {
        assert forall r :: multiset(rules)[r] == if r == last then 1 else multiset(front)[r];
        assert forall k :: 0 <= k < |front| ==> rules[k] == front[k] && front[k] in front;
      }
    }
  }

  lemma SameRules(a: seq<Rule>, b: seq<Rule>, ifaces: seq<Interface>, sm: ServiceMap)
    requires DispatchesFor(a, ifaces, sm)
    ensures DispatchesFor(b, ifaces, sm) <==> multiset(a) == multiset(b)
  {
    hide Wanted, DispatchRule;
    NoRepeatCounts(a);
    NoRepeatCounts(b);
    if multiset(a) == multiset(b) {
      forall k | 0 <= k < |b| ensures Dispatched(b[k], ifaces, sm) {
        assert b[k] in multiset(b);
        assert b[k] in a;
      }
      forall i, spn | Wanted(ifaces, sm, i, spn) ensures spn in sm && DispatchRule(sm[spn]) in b {
        WantedIn(ifaces, sm, i, spn);
        assert DispatchRule(sm[spn]) in multiset(a);
      }
    } else if DispatchesFor(b, ifaces, sm) {
      forall r ensures multiset(a)[r] == multiset(b)[r] {
        DispatchedIn(a, r, ifaces, sm);
        DispatchedIn(b, r, ifaces, sm);
      }
    }
  }

  lemma DispatchedIn(rules: seq<Rule>, r: Rule, ifaces: seq<Interface>, sm: ServiceMap)
    requires DispatchesFor(rules, ifaces, sm)
    ensures multiset(rules)[r] == if Dispatched(r, ifaces, sm) then 1 else 0
  {
    hide Wanted, DispatchRule;
    NoRepeatCounts(rules);
    assert r in rules <==> multiset(rules)[r] >= 1;
  }

  /** What a sync is to leave on a table as specified is that table, up to the order of the dispatch rules. */
  lemma SpecifiedOnce(t0: Table, t: Table, t': Table, ifaces: seq<Interface>, sm: ServiceMap, em: EMap)
    requires Specified(t0, t, ifaces, sm, em)
    requires forall spn :: spn in sm ==> sm[spn].chain.SvcChain?
    ensures Specified(t, t', ifaces, sm, em) <==> SameTable(t, t')
  {
    hide Wanted, DispatchesFor, DispatchRule, DnatRule, SpreadRules, EndpointsOf;
    if Specified(t, t', ifaces, sm, em) {
      SameRules(t[Services], t'[Services], ifaces, sm);
      forall c | c in t || c in t' ensures c in t && c in t' && (c != Services ==> t'[c] == t[c]) {
        if IsMultus(c) && c != Services {
          UsedInBoth(t0, t, t', c, ifaces, sm, em);
        }
      }
    } else if SameTable(t, t') {
      SameRules(t[Services], t'[Services], ifaces, sm);
      forall i, spn | Wanted(ifaces, sm, i, spn) ensures spn in sm && Forwards(t', sm[spn], EndpointsOf(em, spn)) {
        WantedIn(ifaces, sm, i, spn);
        assert Forwards(t, sm[spn], EndpointsOf(em, spn));
      }
    }
  }

  lemma UsedInBoth(t0: Table, t: Table, t': Table, c: Chain, ifaces: seq<Interface>, sm: ServiceMap, em: EMap)
    requires Specified(t0, t, ifaces, sm, em) && Specified(t, t', ifaces, sm, em)
    requires (c in t || c in t') && IsMultus(c) && c != Services
    ensures c in t && c in t' && t[c] == t'[c]
  {
    hide Matches, DispatchesFor, DnatRule, SpreadRules, EndpointsOf, EndpointChain;
    assert InUse(c, ifaces, sm, em);
    var i, spn :| Wanted(ifaces, sm, i, spn)
                  && (c == sm[spn].chain || exists e :: e in EndpointsOf(em, spn) && c == EndpointChain(sm[spn], e));
    var eps := EndpointsOf(em, spn);
    assert Forwards(t, sm[spn], eps) && Forwards(t', sm[spn], eps);
    if c != sm[spn].chain {
      var e :| e in eps && c == EndpointChain(sm[spn], e);
      var h :| 0 <= h < |eps| && eps[h] == e;
    }
  }

  /** After a sync all the chains are there: links do not matter any more, and nothing can panic. */
  lemma AllThere(t0: Table, t: Table, links: set<Text>, ifaces: seq<Interface>, sm: ServiceMap, em: EMap)
    requires Specified(t0, t, ifaces, sm, em)
    ensures !SomePanic(t, links, ifaces, sm)
    ensures OnceEach(t, links, ifaces, sm) <==> WantedOnce(ifaces, sm)
  {
    hide Matches, DispatchesFor, EndpointsOf, SpreadRules, DnatRule, InUse;
    forall i: nat, spn | Wanted(ifaces, sm, i, spn) ensures Programs(t, links, ifaces, sm, i, spn) {
      assert Forwards(t, sm[spn], EndpointsOf(em, spn));
    }
  }

  /** Two syncs with the same services and endpoints. The second never panics, whatever links are found, and it leaves
      the table as it is, up to the order of the dispatch rules, if and only if no service port is on the network of
      two interfaces. */
  method SyncTwice(probabilities: Probabilities, ifaces: seq<Interface>, sm: ServiceMap, em: EMap, links: set<Text>,
                   later: set<Text>, t: Table)
    returns (once: Table, twice: Table)
    requires probabilities.Valid() && Own(t) && ChainsApart(sm, em) && SortedLists(em) && Spaceless(sm)
    requires OnceEach(t, links, ifaces, sm) && AllIPv4(t, links, ifaces, sm, em)
    requires !RuleText.HasShortLine(t) && !SomePanic(t, links, ifaces, sm)
    modifies probabilities
    ensures probabilities.Valid() && Own(once) && Own(twice) && Specified(t, once, ifaces, sm, em)
    ensures Echoed(once) && Echoed(twice)
    ensures SameTable(once, twice) <==> WantedOnce(ifaces, sm)
  {
    hide SomePanic, Specified, OnceEach, WellFormed, SortedLists, SameTable, Own, ChainsApart, Spaceless, AllIPv4,
         Echoed, RuleText.HasShortLine, GivenUp;
    var panicked, old1;
    panicked, once, old1 := SyncTable(probabilities, ifaces, sm, em, links, t);
    AllThere(t, once, later, ifaces, sm, em);
    OwnIsWellFormed(once);
    NoShortLine(once);
    SvcChains(sm, em);
    StillIPv4(t, once, links, later, ifaces, sm, em);
    var old2;
    panicked, twice, old2 := SyncTable(probabilities, ifaces, sm, em, later, once);
    SpecifiedOnce(t, once, twice, ifaces, sm, em);
  }

  lemma StillIPv4(t0: Table, t: Table, links: set<Text>, later: set<Text>, ifaces: seq<Interface>, sm: ServiceMap,
                  em: EMap)
    requires OnceEach(t0, links, ifaces, sm) && AllIPv4(t0, links, ifaces, sm, em)
    ensures AllIPv4(t, later, ifaces, sm, em)
  {
    hide HasIPv4, Wanted, AtMostOnce;
    forall i: nat, spn | Programs(t, later, ifaces, sm, i, spn) ensures spn in sm && HasIPv4(sm, em, spn) {
      WantedIn(ifaces, sm, i, spn);
      assert Programmed(t0, links, ifaces, sm, spn);
    }
  }

  lemma SvcChains(sm: ServiceMap, em: EMap)
    requires ChainsApart(sm, em)
    ensures forall spn :: spn in sm ==> sm[spn].chain.SvcChain?
  {
  }

  /** The last sync of a server that stops. The service map is nil, so that a pending change that brings a service port
      panics, and so does a short dispatch rule. Otherwise nothing of the proxy remains but the empty dispatch chain. */
  method CleanUp(probabilities: Probabilities, ifaces: seq<Interface>, em: EMap, links: set<Text>, t: Table,
                 pending: map<NamespacedName, ChangeTrackers.Change<ServicePortName, ServicePortInfo>>)
    returns (panicked: bool, t': Table)
    requires probabilities.Valid() && Own(t) && SortedLists(em)
    modifies probabilities
    ensures probabilities.Valid()
    ensures panicked <==> RuleText.HasShortLine(t) || BringsService(pending)
    ensures !panicked ==> Services in t' && t'[Services] == []
    ensures !panicked ==> forall c :: c in t' && c != Services <==> c in t && c.Foreign?
    ensures !panicked ==> forall c :: c in t && c.Foreign? ==> c in t' && t'[c] == t[c]
  {
    hide SortedLists, Own, Forwards, EndpointsOf, RuleText.HasShortLine, Echoed, GivenUp;
    t' := t;
    if nn :| nn in pending && ChangeTrackers.Plain(pending[nn].current) != map[] {
      panicked := true;
    } else {
      var old1;
      panicked, t', old1 := SyncTable(probabilities, ifaces, map[], em, links, t);
      if !panicked && t'[Services] != [] {
        SomeWanted(t'[Services], ifaces, map[]);
      }
    }
  }

  /** Merging this change would write to the map. */
  predicate BringsService(pending: map<NamespacedName, ChangeTrackers.Change<ServicePortName, ServicePortInfo>>) {
    exists nn :: nn in pending && ChangeTrackers.Plain(pending[nn].current) != map[]
  }

  // ---------- from the events to the table ----------

  /** The events are about services with proper names. */
  ghost predicate ProperServices(ops: seq<ChangeTrackers.Op<ProxyService>>) {
    forall i, p :: 0 <= i < |ops| && ops[i].Event? && ops[i].current.Some? && p in ops[i].current.value.ports ==>
      WellNamed(PortKeyOf(ops[i].current.value, p))
  }

  predicate ProperAddress(a: Address) {
    a.v6 || IsIPv4(a.ip)
  }

  predicate ProperPort(p: PortInfo) {
    p.port.Some? ==> p.port.value < 65536
  }

  /** The addresses in the slices are IPv6 or IPv4 addresses, and the ports are port numbers. */
  ghost predicate ProperSlices(ops: seq<ProxyCache.Op>) {
    && (forall i, e :: 0 <= i < |ops| && ops[i].Event? && e in ops[i].slice.endpoints && e.addresses != [] ==>
          ProperAddress(e.addresses[0]))
    && (forall i, p :: 0 <= i < |ops| && ops[i].Event? && p in ops[i].slice.ports ==> ProperPort(p))
  }

  ghost predicate ProperInfo(info: SliceInfo) {
    && (forall e :: e in info.endpoints && e.addresses != [] ==> ProperAddress(e.addresses[0]))
    && (forall p :: p in info.ports ==> ProperPort(p))
  }

  ghost predicate ProperInfos(infos: map<Text, SliceInfo>) {
    forall n :: n in infos ==> ProperInfo(infos[n])
  }

  lemma {:induction false} LatestAreProper(ops: seq<ProxyCache.Op>, nn: NamespacedName)
    requires ProperSlices(ops)
    ensures ProperInfos(ProxyCache.Latest(ops, nn))
  {
    hide ProxyCache.KeysOk, ProperInfo;
    if ops != [] {
      var front, op := ops[..|ops| - 1], ops[|ops| - 1];
      assert forall i :: 0 <= i < |front| ==> front[i] == ops[i];
      LatestAreProper(front, nn);
      if op.Event? {
        NewInfoIsProper(ops, |ops| - 1);
      }
    }
  }

  lemma NewInfoIsProper(ops: seq<ProxyCache.Op>, i: nat)
    requires ProperSlices(ops) && i < |ops| && ops[i].Event?
    ensures ProperInfo(ProxyCache.NewSliceInfo(ops[i].slice, false))
  {
    hide ProperAddress;
    var info := ProxyCache.NewSliceInfo(ops[i].slice, false);
    forall e | e in info.endpoints && e.addresses != [] ensures ProperAddress(e.addresses[0]) {
      var j :| 0 <= j < |info.endpoints| && info.endpoints[j] == e;
      assert e == ProxyCache.NewEndpointInfo(ops[i].slice.endpoints[j]);
      assert ops[i].slice.endpoints[j] in ops[i].slice.endpoints;
    }
  }

  /** The endpoint map shows the latest slices, service by service. */
  ghost predicate ShowsSlices(c: Config, em: EMap, ops: seq<ProxyCache.Op>) {
    forall nn :: PartIs(c, em, nn, ProxyCache.Latest(ops, nn))
  }

  /** The endpoints of the map are IPv4 addresses with ports. */
  ghost predicate HostPorts(em: EMap) {
    forall spn, b :: spn in em && b in em[spn] ==> IsHostPort(b.endpoint.chars)
  }

  lemma MapIsProper(c: Config, em: EMap, ops: seq<ProxyCache.Op>)
    requires ShowsSlices(c, em, ops) && ProperSlices(ops) && !c.v6
    ensures HostPorts(em) && PlainMap(em) && SortedLists(em)
  {
    hide ProperSlices, IsHostPort, StrictlySorted, ProxyCache.Latest, PlainEndpoint;
    forall spn | spn in em
      ensures StrictlySorted(em[spn]) && forall b :: b in em[spn] ==> IsHostPort(b.endpoint.chars)
    {
      var infos := ProxyCache.Latest(ops, spn.nn);
      assert PartIs(c, em, spn.nn, infos);
      LatestAreProper(ops, spn.nn);
      OffersAreProper(c, spn.nn, infos, spn);
    }
    forall spn, b | spn in em && b in em[spn] ensures PlainEndpoint(b.endpoint) {
      HostPortIsPlain(b.endpoint);
    }
  }

  lemma HostPortIsPlain(endpoint: Text)
    requires IsHostPort(endpoint.chars)
    ensures PlainEndpoint(endpoint)
  {
    hide IsHostPort;
    HostPortChars(endpoint.chars);
  }

  lemma OffersAreProper(c: Config, nn: NamespacedName, infos: map<Text, SliceInfo>, spn: ServicePortName)
    requires ProperInfos(infos) && !c.v6
    ensures forall o :: o in AllOffers(c, nn, infos, spn) ==> IsHostPort(o.key.chars)
  {
    hide IsHostPort, IsLocal, IsIPv4;
    forall o | o in AllOffers(c, nn, infos, spn) ensures IsHostPort(o.key.chars) {
      var n :| n in infos && o in OffersOf(c, nn, infos[n], spn);
      var p :| p in infos[n].ports && GoodPort(p) && PortName(nn, p) == spn
               && o in OffersOn(c, p.port.value, infos[n].endpoints);
      var e :| e in infos[n].endpoints && GoodEndpoint(c, e)
               && o == Offer(EndpointString(e, p.port.value), IsLocal(c, e));
      assert ProperInfo(infos[n]);
      JoinIsHostPort(e.addresses[0].ip, p.port.value);
    }
  }

  /** The service map shows the live services, each port as its last definition says. */
  ghost predicate ShowsServices(sm: ServiceMap, ops: seq<ChangeTrackers.Op<ProxyService>>) {
    && (forall spn :: spn in sm <==> ChangeTrackers.EntryOf(SERVICE_SCHEME, ChangeTrackers.LiveAfter(ops), spn))
    && (forall spn | spn in sm ::
          var svc := ChangeTrackers.LatestOf(ChangeTrackers.LiveAfter(ops), spn.nn);
          svc.Some? && svc.value.network.Some? && spn in PortsMap(svc.value, |svc.value.ports|)
          && sm[spn] == PortsMap(svc.value, |svc.value.ports|)[spn])
  }

  lemma {:induction false} LiveFrom(ops: seq<ChangeTrackers.Op<ProxyService>>, nn: NamespacedName)
    requires nn in ChangeTrackers.LiveAfter(ops)
    ensures exists i :: 0 <= i < |ops| && ops[i].Event? && ops[i].current == Some(ChangeTrackers.LiveAfter(ops)[nn])
  {
    var front := ops[..|ops| - 1];
    assert forall i :: 0 <= i < |front| ==> front[i] == ops[i];
    if nn in ChangeTrackers.LiveAfter(front) {
      LiveFrom(front, nn);
    }
  }

  lemma NamesAreSpaceless(sm: ServiceMap)
    requires forall spn :: spn in sm ==> WellNamed(spn) && FromService(sm, spn)
    ensures Spaceless(sm)
  {
    hide NameOf, ToLower, IsName;
    forall spn | spn in sm ensures RuleText.Plain(sm[spn].name.chars) && RuleText.Plain(sm[spn].protocol.chars) {
      NameIsPlain(spn);
      LowerTells(spn.protocol, spn.protocol);
    }
  }

  lemma NameIsPlain(spn: ServicePortName)
    requires IsName(spn.nn.namespace.chars) && IsName(spn.nn.name.chars) && IsName(spn.port.chars)
    ensures RuleText.Plain(NameOf(spn).chars)
  {
  }

  lemma ServicesAreProper(sm: ServiceMap, ops: seq<ChangeTrackers.Op<ProxyService>>)
    requires ShowsServices(sm, ops) && ProperServices(ops)
    ensures forall spn :: spn in sm ==> WellNamed(spn) && FromService(sm, spn)
  {
    hide WellNamed, PortsMap, InfoOf, ChangeTrackers.LiveAfter;
    forall spn | spn in sm ensures WellNamed(spn) && FromService(sm, spn) {
      var svc := ChangeTrackers.LatestOf(ChangeTrackers.LiveAfter(ops), spn.nn).value;
      PortsMapMeans(svc, |svc.ports|, spn);
      LiveFrom(ops, spn.nn);
      var j :| 0 <= j < |svc.ports| && PortKeyOf(svc, svc.ports[j]) == spn && sm[spn] == InfoOf(svc, svc.ports[j]);
      assert svc.ports[j] in svc.ports;
      var i :| 0 <= i < |ops| && ops[i].Event? && ops[i].current == Some(svc);
    }
  }

  /** Every service port whose rules are written has an IPv4 cluster IP. */
  ghost predicate ClusterIPsOk(t: Table, links: set<Text>, ifaces: seq<Interface>, sm: ServiceMap) {
    forall i: nat, spn | Programs(t, links, ifaces, sm, i, spn) :: IsIPv4(sm[spn].clusterIP.chars)
  }

  lemma OnlyClusterIPs(t: Table, links: set<Text>, ifaces: seq<Interface>, sm: ServiceMap, em: EMap)
    requires HostPorts(em)
    ensures AllIPv4(t, links, ifaces, sm, em) <==> ClusterIPsOk(t, links, ifaces, sm)
  {
    hide Wanted, IsIPv4, IsHostPort;
    forall i: nat, spn | Programs(t, links, ifaces, sm, i, spn)
      ensures spn in sm && (HasIPv4(sm, em, spn) <==> IsIPv4(sm[spn].clusterIP.chars))
    {
      WantedIn(ifaces, sm, i, spn);
    }
  }

  /** The whole proxy: after any slice and service events, with syncs anywhere between them, a sync of a network
      namespace leaves a table that forwards exactly the service ports of the live services to exactly the endpoints
      of the latest slices, if and only if every wanted service port has its rules written for exactly one interface
      and has an IPv4 cluster IP; and the next sync can start from that table. */
  method SyncServiceForwarding(c: Config, slices: seq<ProxyCache.Op>, services: seq<ChangeTrackers.Op<ProxyService>>,
                               probabilities: Probabilities, ifaces: seq<Interface>, links: set<Text>, t: Table)
    returns (panicked: bool, sm: ServiceMap, em: EMap, t': Table)
    requires probabilities.Valid() && Own(t) && slices != [] && slices[|slices| - 1].Sync? && !c.v6
    requires forall i :: 0 <= i < |services| && services[i].Event? && services[i].current.Some? ==>
               ServiceKeyOf(services[i].current.value) == services[i].nn
    requires ProperServices(services) && ProperSlices(slices)
    modifies probabilities
    ensures probabilities.Valid() && ShowsLive(sm, services) && ProxyCache.ShowsWatched(c, em, slices)
    ensures panicked <==> RuleText.HasShortLine(t) || SomePanic(t, links, ifaces, sm)
    ensures !panicked ==> Own(t') && (Echoed(t) || ClusterIPsOk(t, links, ifaces, sm) ==> Echoed(t'))
    ensures !panicked ==> (Specified(t, t', ifaces, sm, em) <==>
                             OnceEach(t, links, ifaces, sm) && ClusterIPsOk(t, links, ifaces, sm))
  {
    hide ProperServices, ProperSlices, Own, SomePanic, Specified, OnceEach, PartIs, WellNamed, PortsMap,
         ProxyCache.Latest, ProxyCache.ShowsWatched, ShowsLive, ChangeTrackers.LiveAfter, AllIPv4, ClusterIPsOk, Echoed,
         RuleText.HasShortLine, GivenUp, Spaceless;
    var cache, endpoints := ProxyCache.Replay(c, slices);
    var serviceMap := ReplayServices(services);
    sm, em := serviceMap.m, endpoints.em;
    MapIsProper(c, em, slices);
    ServicesAreProper(sm, services);
    NamesAreSpaceless(sm);
    MapChainsApart(sm, em);
    OnlyClusterIPs(t, links, ifaces, sm, em);
    var oldClusterIPs;
    panicked, t', oldClusterIPs := SyncTable(probabilities, ifaces, sm, em, links, t);
  }
}
