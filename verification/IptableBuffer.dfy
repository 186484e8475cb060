/** iptableBuffer of pkg/proxy/server/iptables.go and the rule loop of pkg/proxy/server/server.go: buffers filled call
    by call, put together at the end into the script for iptables-restore. */
module IptableBuffers {
  import opened Wrappers
  import opened ProxyEndpoints
  import opened EndpointLists
  import opened ServicePorts
  import opened Iptables
  import opened LoadBalancing
  import opened ProxyRules
  import RuleText

  function Strings(list: seq<BaseEndpointInfo>): seq<Text> {
    seq(|list|, i requires 0 <= i < |list| => list[i].endpoint)
  }

  /** A service port without an entry has no endpoints; the error of the lookup is ignored. */
  function EndpointsOf(em: EMap, spn: ServicePortName): seq<Text> {
    if spn in em then Strings(em[spn]) else []
  }

  function JobOf(t: Table, links: set<Text>, em: EMap, spn: ServicePortName, info: ServicePortInfo,
                 iface: Interface): Job {
    Job(spn, info, EndpointsOf(em, spn), info.chain in t || iface.interfaceName in links)
  }

  /** The route of a new chain takes the first address of the interface, whether there is one or not. */
  predicate Panics(t: Table, links: set<Text>, info: ServicePortInfo, iface: Interface) {
    info.chain !in t && iface.interfaceName in links && iface.ips == []
  }

  /** The nat table as SaveInto gives it: parsed, and line by line. */
  datatype Saved = Saved(table: Table, lines: seq<string>)

  /** The cluster IPs remembered for chains that go, in their order. */
  function OldClusterIPs(clusterIPs: map<string, string>, stale: seq<Chain>): seq<string> {
    if stale == [] then []
    else
      var name := RuleText.ChainName(stale[|stale| - 1]);
      OldClusterIPs(clusterIPs, stale[..|stale| - 1]) + if name in clusterIPs then [clusterIPs[name]] else []
  }

  class IptableBuffer {
    var currentNAT: set<Chain>
    var currentChain: set<Chain>
    var activeChain: set<Chain>
    var natRules: seq<Line>
    var natChains: seq<Line>
    var sepRules: seq<Line>
    var svcRules: seq<Line>
    var topRules: seq<Line>
    var clusterIPs: map<string, string>
    var oldClusterIPs: seq<string>

    constructor ()
      ensures oldClusterIPs == []
    {
      clusterIPs, oldClusterIPs := map[], [];
      currentNAT, currentChain, activeChain := {}, {}, {};
      natRules, natChains, sepRules, svcRules, topRules := [], [], [], [], [];
    }

    /** The buffers hold the lines of these jobs for table t. */
    ghost predicate Holds(t: Table, jobs: seq<Job>)
      reads this
    {
      && currentNAT == t.Keys && currentChain == MultusOf(t.Keys)
      && activeChain == Active(jobs) && natRules == [Declare(Services)]
      && natChains == All(jobs, ChainLines) && sepRules == All(jobs, SepLines)
      && svcRules == All(jobs, SvcLines) && topRules == All(jobs, TopLines)
    }

    /** Takes in the saved table and reads the cluster IPs of its dispatch rules, which panics on a line that is too
        short; when saving failed nothing happens. */
    method Init(saved: Option<Saved>) returns (panicked: bool)
      modifies this
      ensures oldClusterIPs == old(oldClusterIPs)
      ensures saved.None? ==> !panicked && unchanged(this)
      ensures saved.Some? ==> (panicked <==> exists l :: l in saved.value.lines && RuleText.IsShort(l))
      ensures saved.Some? && !panicked ==>
                Holds(saved.value.table, []) && RuleText.ReadFrom(saved.value.lines, clusterIPs)
    {
      hide MultusOf, RuleText.ReadFrom, RuleText.IsShort, Active, All;
      if saved.None? {
        return false;
      }
      currentNAT := saved.value.table.Keys;
      currentChain := MultusChains(currentNAT);
      var read := RuleText.ReadClusterIPs(saved.value.lines);
      if read.None? {
        return true;
      }
      clusterIPs := read.value;
      panicked := false;
      topRules, natChains, sepRules, svcRules := [], [], [], [];
      natRules := [Declare(Services)];
      activeChain := {Services};
      NoJobs();
      NoLinesYet();
    }

    /** The chains of the proxy among those of the table. */
    static method MultusChains(chains: set<Chain>) returns (found: set<Chain>)
      ensures found == MultusOf(chains)
    {
      hide MultusOf;
      found := {};
      var todo := chains;
      NoMultus();
      assert {} + MultusOf(todo) == MultusOf(todo);
      while todo != {}
        invariant found + MultusOf(todo) == MultusOf(chains)
        decreases |todo|
      {
        var k :| k in todo;
        MultusStep(found, todo, k);
        todo := todo - {k};
        if !k.Foreign? {
          found := found + {k};
        }
      }
      assert found + {} == found;
    }

    /** Puts the chain in use and declares it; true if the table does not have it yet. */
    method CreateNATChain(chainName: Chain) returns (isNew: bool)
      modifies this`activeChain, this`natChains
      ensures activeChain == old(activeChain) + {chainName} && natChains == old(natChains) + [Declare(chainName)]
      ensures isNew <==> chainName !in currentNAT
    {
      activeChain := activeChain + {chainName};
      natChains := natChains + [Declare(chainName)];
      isNew := chainName !in currentNAT;
    }

    /** One jump and one DNAT rule per endpoint, in the order of the list. */
    method GenerateServiceEndpointSliceForwardingRules(probabilities: Probabilities, em: EMap, spn: ServicePortName,
                                                       info: ServicePortInfo)
      requires probabilities.Valid()
      modifies this`activeChain, this`natChains, this`svcRules, this`sepRules, probabilities
      ensures probabilities.Valid()
      ensures var eps := EndpointsOf(em, spn);
              && natChains == old(natChains) + EndpointDeclares(info, eps)
              && svcRules == old(svcRules) + SpreadLines(info, eps)
              && sepRules == old(sepRules) + DnatLines(info, eps)
              && activeChain == old(activeChain) + Chains(EndpointDeclares(info, eps))
    {
      hide ComputeProbability, JumpRule, DnatRule, Chains, EndpointChain, EndpointDeclares, SpreadLines, DnatLines;
      if spn !in em {
        NoEndpoints(info, activeChain);
        return;
      }
      var endpoints := em[spn];
      ghost var eps := Strings(endpoints);
      var totalEndpointSlices := |endpoints|;
      FirstLines(info, eps, activeChain);
      for i := 0 to |endpoints|
        invariant totalEndpointSlices == |endpoints| - i && probabilities.Valid()
        invariant natChains == old(natChains) + EndpointDeclares(info, eps)[..i]
        invariant svcRules == old(svcRules) + SpreadLines(info, eps)[..i]
        invariant sepRules == old(sepRules) + DnatLines(info, eps)[..i]
        invariant activeChain == old(activeChain) + Chains(EndpointDeclares(info, eps)[..i])
      {
        var endpoint := endpoints[i].endpoint;
        var endpointChainName := EndpointChain(info, endpoint);
        var isNew := CreateNATChain(endpointChainName);
        var probability := probabilities.Probability(totalEndpointSlices);
        svcRules := svcRules + [Append(info.chain, JumpRule(info, probability, endpoint))];
        sepRules := sepRules + [Append(endpointChainName, DnatRule(info, endpoint))];
        totalEndpointSlices := totalEndpointSlices - 1;
        NextLines(info, eps, i);
      }
      WholeLines(info, eps);
    }

    /** The lines of one job: the chain is declared in any case; the rules are written if the table has the chain
        already or the link of the interface is found. A new chain for an interface without addresses panics. */
    method GenerateServicePortForwardingRules(probabilities: Probabilities, em: EMap, spn: ServicePortName,
                                              info: ServicePortInfo, iface: Interface, links: set<Text>,
                                              ghost t: Table, ghost jobs: seq<Job>)
      returns (panicked: bool)
      requires Holds(t, jobs) && probabilities.Valid()
      modifies this`activeChain, this`natChains, this`svcRules, this`sepRules, this`topRules, probabilities
      ensures panicked <==> Panics(t, links, info, iface)
      ensures probabilities.Valid() && (!panicked ==> Holds(t, jobs + [JobOf(t, links, em, spn, info, iface)]))
    {
      hide Active, All, DispatchRule, SpreadLines, DnatLines, EndpointDeclares;
      ghost var job := JobOf(t, links, em, spn, info, iface);
      AllPush(jobs, job, ChainLines);
      AllPush(jobs, job, SepLines);
      AllPush(jobs, job, SvcLines);
      AllPush(jobs, job, TopLines);
      ActivePush(jobs, job);
      var isNew := CreateNATChain(info.chain);
      if isNew {
        if iface.interfaceName !in links {
          return false;
        }
        if iface.ips == [] {
          return true;
        }
      }
      panicked := false;
      topRules := topRules + [Append(Services, DispatchRule(info))];
      GenerateServiceEndpointSliceForwardingRules(probabilities, em, spn, info);
    }

    /** Puts the script together; false if there is no rule to write and no chain to delete. */
    method FinalizeRules(ghost t: Table, ghost jobs: seq<Job>) returns (changed: bool, ghost stale: seq<Chain>)
      requires Holds(t, jobs)
      modifies this`currentChain, this`natChains, this`topRules, this`natRules, this`oldClusterIPs
      ensures oldClusterIPs == old(oldClusterIPs) + OldClusterIPs(clusterIPs, stale)
      ensures StaleOf(t, jobs, stale)
      ensures changed <==> stale != [] || exists j :: j in jobs && j.programmed
      ensures changed ==> natRules == Script(jobs, stale)
    {
      hide Active, All, Declaring, Dropping, MultusOf, OldClusterIPs, StaleOf, Script;
      currentChain := currentChain - activeChain;
      ghost var chains, tops := natChains, topRules;
      MultusInside(currentNAT);
      stale := DropStale();
      AllListed(t, jobs, stale, currentChain);
      EmptyBuffers(jobs, stale);
      if |sepRules| == 0 && |svcRules| == 0 && |topRules| == 0 {
        return false, stale;
      }
      natRules := natRules + natChains;
      natRules := natRules + sepRules;
      natRules := natRules + svcRules;
      natRules := natRules + topRules;
      Together(jobs, stale);
      changed := true;
    }

    /** The loop over the chains that are not in use any more. */
    method DropStale() returns (ghost stale: seq<Chain>)
      requires currentChain <= currentNAT
      modifies this`natChains, this`topRules, this`oldClusterIPs
      ensures Listed(stale, currentChain, {})
      ensures natChains == old(natChains) + Declaring(stale) && topRules == old(topRules) + Dropping(stale)
      ensures oldClusterIPs == old(oldClusterIPs) + OldClusterIPs(clusterIPs, stale)
    {
      hide Declaring, Dropping, RuleText.ChainName, OldClusterIPs, Listed;
      stale := [];
      var todo := currentChain;
      NoneStale(old(natChains), old(topRules));
      NoneListed(clusterIPs, old(oldClusterIPs), currentChain);
      while todo != {}
        invariant todo <= currentChain && Listed(stale, currentChain, todo)
        invariant natChains == old(natChains) + Declaring(stale) && topRules == old(topRules) + Dropping(stale)
        invariant oldClusterIPs == old(oldClusterIPs) + OldClusterIPs(clusterIPs, stale)
        decreases |todo|
      {
        var chainName :| chainName in todo;
        if chainName in currentNAT {
          natChains := natChains + [Declare(chainName)];
        }
        topRules := topRules + [DeleteChain(chainName)];
        OldNext(clusterIPs, stale, chainName);
        var name := RuleText.ChainName(chainName);
        if name in clusterIPs {
          oldClusterIPs := oldClusterIPs + [clusterIPs[name]];
        }
        StalePush(stale, currentChain, todo, chainName, old(natChains), old(topRules));
        stale := stale + [chainName];
        todo := todo - {chainName};
      }
    }
  }

  // ---------- lemmas about the buffers ----------

  lemma NoneListed(clusterIPs: map<string, string>, before: seq<string>, all: set<Chain>)
    ensures Listed([], all, all) && before + OldClusterIPs(clusterIPs, []) == before
  {
  }

  lemma NoLinesYet()
    ensures All([], ChainLines) == [] && All([], SepLines) == [] && All([], SvcLines) == [] && All([], TopLines) == []
  {
  }

  lemma OldNext(clusterIPs: map<string, string>, stale: seq<Chain>, c: Chain)
    ensures OldClusterIPs(clusterIPs, stale + [c])
         == OldClusterIPs(clusterIPs, stale)
            + if RuleText.ChainName(c) in clusterIPs then [clusterIPs[RuleText.ChainName(c)]] else []
  {
    assert (stale + [c])[..|stale|] == stale;
  }

  /** A cluster IP is among the old ones exactly if it is remembered for a chain that goes. */
  lemma {:induction false} OldFrom(clusterIPs: map<string, string>, stale: seq<Chain>, ip: string)
    ensures ip in OldClusterIPs(clusterIPs, stale) <==>
              exists c :: c in stale && RuleText.ChainName(c) in clusterIPs && clusterIPs[RuleText.ChainName(c)] == ip
  {
    hide RuleText.ChainName;
    if stale != [] {
      var front, last := stale[..|stale| - 1], stale[|stale| - 1];
      OldFrom(clusterIPs, front, ip);
      assert stale == front + [last];
    }
  }

  lemma NoEndpoints(info: ServicePortInfo, active: set<Chain>)
    ensures EndpointDeclares(info, []) == [] && SpreadLines(info, []) == [] && DnatLines(info, []) == []
    ensures active + Chains(EndpointDeclares(info, [])) == active
  {
    assert Chains([]) == {};
  }

  lemma FirstLines(info: ServicePortInfo, eps: seq<Text>, active: set<Chain>)
    ensures EndpointDeclares(info, eps)[..0] == [] && SpreadLines(info, eps)[..0] == []
    ensures DnatLines(info, eps)[..0] == []
    ensures active + Chains(EndpointDeclares(info, eps)[..0]) == active
    ensures |EndpointDeclares(info, eps)| == |eps| && |SpreadLines(info, eps)| == |eps|
    ensures |DnatLines(info, eps)| == |eps|
  {
    assert Chains([]) == {};
  }

  lemma NoMultus()
    ensures MultusOf({}) == {}
  {
  }

  lemma MultusStep(found: set<Chain>, todo: set<Chain>, k: Chain)
    requires k in todo
    ensures found + MultusOf(todo) == (if IsMultus(k) then found + {k} else found) + MultusOf(todo - {k})
    ensures |todo - {k}| < |todo|
  {
  }

  lemma NoJobs()
    ensures Active([]) == {Services}
  {
    assert Chains([]) == {};
  }

  lemma NextLines(info: ServicePortInfo, eps: seq<Text>, i: nat)
    requires i < |eps|
    ensures |EndpointDeclares(info, eps)| == |eps| && |SpreadLines(info, eps)| == |eps|
    ensures |DnatLines(info, eps)| == |eps|
    ensures EndpointDeclares(info, eps)[..i + 1]
         == EndpointDeclares(info, eps)[..i] + [Declare(EndpointChain(info, eps[i]))]
    ensures SpreadLines(info, eps)[..i + 1]
         == SpreadLines(info, eps)[..i] + [Append(info.chain, SpreadRule(info, |eps| - i, eps[i]))]
    ensures DnatLines(info, eps)[..i + 1]
         == DnatLines(info, eps)[..i] + [Append(EndpointChain(info, eps[i]), DnatRule(info, eps[i]))]
    ensures Chains(EndpointDeclares(info, eps)[..i + 1])
         == Chains(EndpointDeclares(info, eps)[..i]) + {EndpointChain(info, eps[i])}
  {
    hide SpreadRule, DnatRule;
    assert EndpointDeclares(info, eps)[..i + 1]
        == EndpointDeclares(info, eps)[..i] + [Declare(EndpointChain(info, eps[i]))];
  }

  lemma WholeLines(info: ServicePortInfo, eps: seq<Text>)
    ensures |EndpointDeclares(info, eps)| == |eps| && |SpreadLines(info, eps)| == |eps|
    ensures |DnatLines(info, eps)| == |eps|
    ensures EndpointDeclares(info, eps)[..|eps|] == EndpointDeclares(info, eps)
    ensures SpreadLines(info, eps)[..|eps|] == SpreadLines(info, eps)
    ensures DnatLines(info, eps)[..|eps|] == DnatLines(info, eps)
  {
  }

  lemma ActivePush(jobs: seq<Job>, j: Job)
    ensures Active(jobs + [j]) == Active(jobs) + {j.info.chain}
                                  + if j.programmed then Chains(EndpointDeclares(j.info, j.endpoints)) else {}
  {
    AllPush(jobs, j, ChainLines);
    ChainsConcat(All(jobs, ChainLines), ChainLines(j));
    ChainsConcat([Declare(j.info.chain)], if j.programmed then EndpointDeclares(j.info, j.endpoints) else []);
    assert Chains([]) == {} && Chains([Declare(j.info.chain)]) == {j.info.chain};
  }

  lemma ChainsConcat(a: seq<Line>, b: seq<Line>)
    ensures Chains(a + b) == Chains(a) + Chains(b)
  {
  }

  /** The stale chains looked at so far, once each. */
  ghost predicate Listed(stale: seq<Chain>, all: set<Chain>, todo: set<Chain>) {
    && (forall c :: c in stale <==> c in all && c !in todo)
    && (forall i, j :: 0 <= i < j < |stale| ==> stale[i] != stale[j])
  }

  lemma NoneStale(chains: seq<Line>, tops: seq<Line>)
    ensures chains + Declaring([]) == chains && tops + Dropping([]) == tops
  {
  }

  lemma MultusInside(cs: set<Chain>)
    ensures MultusOf(cs) <= cs
  {
  }

  lemma AllListed(t: Table, jobs: seq<Job>, stale: seq<Chain>, all: set<Chain>)
    requires Listed(stale, all, {}) && all == MultusOf(t.Keys) - Active(jobs)
    ensures StaleOf(t, jobs, stale)
  {
    hide Active;
  }

  lemma StalePush(stale: seq<Chain>, all: set<Chain>, todo: set<Chain>, c: Chain, chains: seq<Line>, tops: seq<Line>)
    requires Listed(stale, all, todo) && c in todo && todo <= all
    ensures Listed(stale + [c], all, todo - {c}) && |todo - {c}| < |todo|
    ensures chains + Declaring(stale + [c]) == chains + Declaring(stale) + [Declare(c)]
    ensures tops + Dropping(stale + [c]) == tops + Dropping(stale) + [DeleteChain(c)]
  {
    assert forall d :: d in stale + [c] <==> d in stale || d == c;
    assert Declaring(stale + [c]) == Declaring(stale) + [Declare(c)];
    assert Dropping(stale + [c]) == Dropping(stale) + [DeleteChain(c)];
  }

  lemma EmptyBuffers(jobs: seq<Job>, stale: seq<Chain>)
    ensures |All(jobs, SepLines)| == 0 && |All(jobs, SvcLines)| == 0 && |All(jobs, TopLines) + Dropping(stale)| == 0
            <==> stale == [] && forall j :: j in jobs ==> !j.programmed
  {
    hide SpreadRule, DnatRule, DispatchRule;
    NoTops(jobs);
    if forall j :: j in jobs ==> !j.programmed {
      NoLines(jobs, SepLines);
      NoLines(jobs, SvcLines);
    }
  }

  lemma {:induction false} NoTops(jobs: seq<Job>)
    ensures |All(jobs, TopLines)| == 0 <==> forall j :: j in jobs ==> !j.programmed
  {
    hide DispatchRule;
    if jobs != [] {
      var front, last := jobs[..|jobs| - 1], jobs[|jobs| - 1];
      NoTops(front);
      assert jobs == front + [last];
    }
  }

  lemma {:induction false} NoLines(jobs: seq<Job>, lines: Job -> seq<Line>)
    requires forall j :: j in jobs ==> lines(j) == []
    ensures All(jobs, lines) == []
  {
    if jobs != [] {
      assert jobs[|jobs| - 1] in jobs;
      NoLines(jobs[..|jobs| - 1], lines);
    }
  }

  lemma Together(jobs: seq<Job>, stale: seq<Chain>)
    ensures [Declare(Services)] + (All(jobs, ChainLines) + Declaring(stale)) + All(jobs, SepLines) + All(jobs, SvcLines)
            + (All(jobs, TopLines) + Dropping(stale)) == Script(jobs, stale)
  {
    hide All, Declaring, Dropping;
    Regroup([Declare(Services)], All(jobs, ChainLines), Declaring(stale), All(jobs, SepLines), All(jobs, SvcLines),
            All(jobs, TopLines), Dropping(stale));
  }

  lemma Regroup(a: seq<Line>, b: seq<Line>, c: seq<Line>, d: seq<Line>, e: seq<Line>, f: seq<Line>, g: seq<Line>)
    ensures a + (b + c) + d + e + (f + g) == (a + b + c) + (d + e + f) + g
  {
  }
}
