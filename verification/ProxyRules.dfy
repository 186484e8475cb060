/** What the rules of pkg/proxy/server/iptables.go are, service port by service port, and what the emitted script does
    to the nat table. */
module ProxyRules {
  import opened Wrappers
  import opened EndpointStrings
  import opened ProxyEndpoints
  import opened ServicePorts
  import opened Iptables
  import opened LoadBalancing

  /** An interface of the pod or host: its own name, that of its network attachment, and its addresses. */
  datatype Interface = Interface(netattachName: Text, interfaceName: Text, ips: seq<Text>)

  /** One call of generateServicePortForwardingRules: the service port, the strings of its endpoints, and whether the
      rules are written or the call gives up because the link of a new chain is not found. */
  datatype Job = Job(spn: ServicePortName, info: ServicePortInfo, endpoints: seq<Text>, programmed: bool)

  predicate IsMultus(c: Chain) {
    !c.Foreign?
  }

  function MultusOf(cs: set<Chain>): set<Chain> {
    set c | c in cs && IsMultus(c)
  }

  // ---------- rules ----------

  function Quoted(s: string): Text {
    Text("\"" + s + "\"")
  }

  function ClusterIPOf(info: ServicePortInfo): Text {
    Text(info.clusterIP.chars + "/32")
  }

  function PortText(port: int): Text {
    Text(if port < 0 then "-" + Itoa(-port) else Itoa(port))
  }

  function EndpointChain(info: ServicePortInfo, endpoint: Text): Chain {
    ServiceEndpointChain(info.name, info.protocol, endpoint)
  }

  /** The rule that sends a cluster IP to the chain of its service port. */
  function DispatchRule(info: ServicePortInfo): Rule {
    Rule(Some(ClusterIPOf(info)),
         [Text("-p"), info.protocol,
          Text("-m"), Text("comment"), Text("--comment"), Quoted(info.name.chars + " cluster IP"),
          Text("-m"), info.protocol, Text("--dport"), PortText(info.port)],
         None, Some(info.chain))
  }

  /** The rule that takes some of the packets to an endpoint. */
  function JumpRule(info: ServicePortInfo, probability: Text, endpoint: Text): Rule {
    Rule(None,
         [Text("-m"), Text("comment"), Text("--comment"), Quoted(info.name.chars),
          Text("-m"), Text("statistic"), Text("--mode"), Text("random"), Text("--probability"), probability],
         None, Some(EndpointChain(info, endpoint)))
  }

  /** The rule that takes one of n packets to an endpoint. */
  function SpreadRule(info: ServicePortInfo, n: nat, endpoint: Text): Rule
    requires n >= 1
  {
    JumpRule(info, ComputeProbability(n), endpoint)
  }

  function DnatRule(info: ServicePortInfo, endpoint: Text): Rule {
    var comment := [Text("-m"), Text("comment"), Text("--comment"), Quoted(info.name.chars)];
    Rule(None,
         if info.protocol != EMPTY then [Text("-p"), info.protocol] + comment + [Text("-m"), info.protocol]
         else comment + [Text("-m"), Text("tcp")],
         Some(endpoint), None)
  }

  // ---------- the lines of one job ----------

  function EndpointDeclares(info: ServicePortInfo, endpoints: seq<Text>): seq<Line> {
    seq(|endpoints|, i requires 0 <= i < |endpoints| => Declare(EndpointChain(info, endpoints[i])))
  }

  /** The i-th of n endpoints gets one of the n - i packets that reach it. */
  function SpreadLines(info: ServicePortInfo, endpoints: seq<Text>): seq<Line> {
    seq(|endpoints|, i requires 0 <= i < |endpoints| =>
          Append(info.chain, SpreadRule(info, |endpoints| - i, endpoints[i])))
  }

  function DnatLines(info: ServicePortInfo, endpoints: seq<Text>): seq<Line> {
    seq(|endpoints|, i requires 0 <= i < |endpoints| =>
          Append(EndpointChain(info, endpoints[i]), DnatRule(info, endpoints[i])))
  }

  function ChainLines(j: Job): seq<Line> {
    [Declare(j.info.chain)] + if j.programmed then EndpointDeclares(j.info, j.endpoints) else []
  }

  function SvcLines(j: Job): seq<Line> {
    if j.programmed then SpreadLines(j.info, j.endpoints) else []
  }

  function SepLines(j: Job): seq<Line> {
    if j.programmed then DnatLines(j.info, j.endpoints) else []
  }

  function TopLines(j: Job): seq<Line> {
    if j.programmed then [Append(Services, DispatchRule(j.info))] else []
  }

  /** The lines of all jobs, one after the other. */
  function All(jobs: seq<Job>, lines: Job -> seq<Line>): seq<Line> {
    if jobs == [] then [] else All(jobs[..|jobs| - 1], lines) + lines(jobs[|jobs| - 1])
  }

  lemma AllPush(jobs: seq<Job>, j: Job, lines: Job -> seq<Line>)
    ensures All(jobs + [j], lines) == All(jobs, lines) + lines(j)
  {
    assert (jobs + [j])[..|jobs|] == jobs;
  }

  lemma {:induction false} AllFrom(jobs: seq<Job>, lines: Job -> seq<Line>)
    ensures forall l :: l in All(jobs, lines) <==> exists j :: j in jobs && l in lines(j)
  {
    if jobs != [] {
      var front, last := jobs[..|jobs| - 1], jobs[|jobs| - 1];
      AllFrom(front, lines);
      assert jobs == front + [last];
    }
  }

  // ---------- the script ----------

  /** The chains that are in use: the dispatch chain and what the jobs declare. */
  function Active(jobs: seq<Job>): set<Chain> {
    {Services} + Chains(All(jobs, ChainLines))
  }

  function Declaring(stale: seq<Chain>): seq<Line> {
    seq(|stale|, i requires 0 <= i < |stale| => Declare(stale[i]))
  }

  function Dropping(stale: seq<Chain>): seq<Line> {
    seq(|stale|, i requires 0 <= i < |stale| => DeleteChain(stale[i]))
  }

  function Declares(jobs: seq<Job>, stale: seq<Chain>): seq<Line> {
    [Declare(Services)] + All(jobs, ChainLines) + Declaring(stale)
  }

  function Appends(jobs: seq<Job>): seq<Line> {
    All(jobs, SepLines) + All(jobs, SvcLines) + All(jobs, TopLines)
  }

  function Script(jobs: seq<Job>, stale: seq<Chain>): seq<Line> {
    Declares(jobs, stale) + Appends(jobs) + Dropping(stale)
  }

  /** Every jump has a target, and from outside only the dispatch chain is jumped to. */
  ghost predicate WellFormed(t: Table) {
    && Services in t
    && (forall c, i :: c in t && 0 <= i < |t[c]| && t[c][i].target.Some? ==>
          var d := t[c][i].target.value;
          d in t && (c.Foreign? ==> d.Foreign? || d == Services))
  }

  /** Each of the proxy's chains that is not in use, once. */
  ghost predicate StaleOf(t: Table, jobs: seq<Job>, stale: seq<Chain>) {
    && (forall c :: c in stale <==> c in t && IsMultus(c) && c !in Active(jobs))
    && (forall i, j :: 0 <= i < j < |stale| ==> stale[i] != stale[j])
  }

  /** Jobs are about service ports with chains of their own. */
  ghost predicate JobsOk(jobs: seq<Job>) {
    forall j :: j in jobs ==> j.info.chain == ServiceChain(j.info.name, j.info.protocol)
  }

  /** The table after a sync: foreign chains as they were, exactly the chains in use, each with exactly its rules. */
  ghost predicate Meets(t: Table, t': Table, jobs: seq<Job>) {
    && (forall c :: c in t' <==> (c in t && c.Foreign?) || c in Active(jobs))
    && (forall c :: c in t && c.Foreign? ==> c in t' && t'[c] == t[c])
    && (forall c :: c in Active(jobs) ==> c in t' && t'[c] == RulesFor(Appends(jobs), c))
  }

  lemma DeclaredChains(jobs: seq<Job>, stale: seq<Chain>)
    ensures forall l :: l in Declares(jobs, stale) ==> l.Declare?
    ensures forall c :: c in Chains(Declares(jobs, stale)) <==> c in Active(jobs) || c in stale
  {
    AllFrom(jobs, ChainLines);
    forall c | c in stale ensures c in Chains(Declares(jobs, stale)) {
      var i :| 0 <= i < |stale| && stale[i] == c;
      assert Declaring(stale)[i] == Declare(c);
      assert Declare(c) in Declares(jobs, stale);
    }
    forall c | c in Active(jobs) ensures c in Chains(Declares(jobs, stale)) {
      if c == Services {
        assert Declare(Services) in Declares(jobs, stale);
      } else {
        var l :| l in All(jobs, ChainLines) && l.chain == c;
        assert l in Declares(jobs, stale);
      }
    }
  }

  /** Rules are only written to chains in use, and only jump to chains in use. */
  lemma AppendsInside(jobs: seq<Job>, l: Line)
    requires JobsOk(jobs) && l in Appends(jobs)
    ensures l.Append? && l.chain in Active(jobs) && IsMultus(l.chain)
    ensures l.rule.target.Some? ==> l.rule.target.value in Active(jobs) && IsMultus(l.rule.target.value)
  {
    hide DispatchRule, SpreadRule, DnatRule, Active;
    AllFrom(jobs, SepLines);
    AllFrom(jobs, SvcLines);
    AllFrom(jobs, TopLines);
    var j :| j in jobs && (l in SepLines(j) || l in SvcLines(j) || l in TopLines(j));
    OwnChains(jobs, j);
    JobAppends(j, l);
  }

  lemma OwnChains(jobs: seq<Job>, j: Job)
    requires j in jobs
    ensures Services in Active(jobs) && j.info.chain in Active(jobs)
    ensures j.programmed ==> forall e :: e in j.endpoints ==> EndpointChain(j.info, e) in Active(jobs)
  {
    AllFrom(jobs, ChainLines);
    assert ChainLines(j)[0] == Declare(j.info.chain);
    assert Declare(j.info.chain) in All(jobs, ChainLines);
    if j.programmed {
      forall e | e in j.endpoints ensures EndpointChain(j.info, e) in Active(jobs) {
        var i :| 0 <= i < |j.endpoints| && j.endpoints[i] == e;
        assert ChainLines(j)[1 + i] == Declare(EndpointChain(j.info, e));
        assert Declare(EndpointChain(j.info, e)) in All(jobs, ChainLines);
      }
    }
  }

  lemma JobAppends(j: Job, l: Line)
    requires l in SepLines(j) || l in SvcLines(j) || l in TopLines(j)
    ensures j.programmed && l.Append?
    ensures l.chain == Services || l.chain == j.info.chain
            || (l.chain.SepChain? && exists e :: e in j.endpoints && l.chain == EndpointChain(j.info, e))
    ensures l.rule.target.Some? ==>
              l.rule.target.value == j.info.chain
              || exists e :: e in j.endpoints && l.rule.target.value == EndpointChain(j.info, e)
  {
    hide ComputeProbability;
    if l in SepLines(j) {
      var i :| 0 <= i < |j.endpoints|
               && l == Append(EndpointChain(j.info, j.endpoints[i]), DnatRule(j.info, j.endpoints[i]));
    } else if l in SvcLines(j) {
      var i :| 0 <= i < |j.endpoints|
               && l == Append(j.info.chain, SpreadRule(j.info, |j.endpoints| - i, j.endpoints[i]));
    }
  }

  lemma ActiveMultus(jobs: seq<Job>, c: Chain)
    requires JobsOk(jobs) && c in Active(jobs)
    ensures IsMultus(c)
  {
    hide ChainLines;
    AllFrom(jobs, ChainLines);
    if c != Services {
      var l :| l in All(jobs, ChainLines) && l.chain == c;
      var j :| j in jobs && l in ChainLines(j);
      OwnMultus(j, l);
    }
  }

  lemma OwnMultus(j: Job, l: Line)
    requires j.info.chain.SvcChain? && l in ChainLines(j)
    ensures IsMultus(l.chain)
  {
  }

  /** After declaring and appending, a stale chain is empty and nothing jumps to it. */
  lemma StaleIsFree(t: Table, jobs: seq<Job>, stale: seq<Chain>, c: Chain)
    requires WellFormed(t) && JobsOk(jobs) && StaleOf(t, jobs, stale) && c in stale
    ensures var t2 := Filled(Emptied(t, Chains(Declares(jobs, stale))), Appends(jobs));
            c in t2 && t2[c] == [] && !Refers(t2, c)
  {
    hide Active, Appends, Declares, RulesFor;
    var declared := Chains(Declares(jobs, stale));
    DeclaredChains(jobs, stale);
    var t1: Table := Emptied(t, declared);
    var t2: Table := Filled(t1, Appends(jobs));
    NotAppended(jobs, c);
    forall d: Chain, i: nat | d in t2 && i < |t2[d]| ensures t2[d][i].target != Some(c) {
      RuleOrigin(t, declared, jobs, d, i);
      if i >= |t1[d]| {
        AppendsInside(jobs, Append(d, t2[d][i]));
      } else {
        assert d in t && d !in declared && t[d][i] == t2[d][i];
        OutsideStays(t, jobs, stale, d, i, c);
      }
    }
  }

  lemma OutsideStays(t: Table, jobs: seq<Job>, stale: seq<Chain>, d: Chain, i: nat, c: Chain)
    requires WellFormed(t) && StaleOf(t, jobs, stale) && c in stale
    requires d in t && d !in Active(jobs) && d !in stale && i < |t[d]|
    ensures t[d][i].target != Some(c)
  {
    assert Services in Active(jobs);
  }

  lemma NotAppended(jobs: seq<Job>, c: Chain)
    requires JobsOk(jobs) && c !in Active(jobs)
    ensures RulesFor(Appends(jobs), c) == []
  {
    hide Active, Appends;
    forall l | l in Appends(jobs) && l.Append? ensures l.chain != c {
      AppendsInside(jobs, l);
    }
    RulesForElsewhere(Appends(jobs), c);
  }

  /** A rule of the filled table was there before in a chain that is not declared, or is appended. */
  lemma RuleOrigin(t: Table, declared: set<Chain>, jobs: seq<Job>, d: Chain, i: nat)
    requires var t2 := Filled(Emptied(t, declared), Appends(jobs)); d in t2 && i < |t2[d]|
    ensures var t1 := Emptied(t, declared);
            d in t1 && (i < |t1[d]| ==> d in t && d !in declared && i < |t[d]| && t1[d][i] == t[d][i])
    ensures var t1, t2 := Emptied(t, declared), Filled(Emptied(t, declared), Appends(jobs));
            i >= |t1[d]| ==> Append(d, t2[d][i]) in Appends(jobs)
  {
    hide Appends, RulesFor;
    var t1, t2 := Emptied(t, declared), Filled(Emptied(t, declared), Appends(jobs));
    if i >= |t1[d]| {
      var rules := RulesFor(Appends(jobs), d);
      assert t2[d][i] == rules[i - |t1[d]|];
      assert rules[i - |t1[d]|] in rules;
      RuleFrom(Appends(jobs), d, t2[d][i]);
    }
  }

  /** The job's rules have IPv4 addresses. */
  predicate Addressed(j: Job) {
    IsIPv4(j.info.clusterIP.chars) && forall e :: e in j.endpoints ==> IsHostPort(e.chars)
  }

  ghost predicate AllAddressed(jobs: seq<Job>) {
    forall j :: j in jobs && j.programmed ==> Addressed(j)
  }

  lemma AddressedJob(j: Job)
    requires j.programmed
    ensures Addressed(j) ==>
              forall l :: l in SepLines(j) || l in SvcLines(j) || l in TopLines(j) ==> l.Append? && Accepted(l.rule)
    ensures !Addressed(j) ==> exists l :: (l in SepLines(j) || l in TopLines(j)) && l.Append? && !Accepted(l.rule)
  {
    hide IsIPv4, IsHostPort, ComputeProbability, IsDestination;
    DestinationIs(j.info.clusterIP.chars);
    if !IsIPv4(j.info.clusterIP.chars) {
      var l := Append(Services, DispatchRule(j.info));
      assert l in TopLines(j) && !Accepted(l.rule);
    } else if !Addressed(j) {
      var e :| e in j.endpoints && !IsHostPort(e.chars);
      var i :| 0 <= i < |j.endpoints| && j.endpoints[i] == e;
      var l := SepLines(j)[i];
      assert l in SepLines(j) && !Accepted(l.rule);
    }
  }

  /** All rules are accepted if and only if all programmed jobs have IPv4 addresses. */
  lemma AppendsAccepted(jobs: seq<Job>)
    ensures AllAddressed(jobs) ==> forall l :: l in Appends(jobs) ==> l.Append? && Accepted(l.rule)
    ensures !AllAddressed(jobs) ==> exists l :: l in Appends(jobs) && l.Append? && !Accepted(l.rule)
  {
    hide Addressed, Accepted, SepLines, SvcLines, TopLines;
    AllFrom(jobs, SepLines);
    AllFrom(jobs, SvcLines);
    AllFrom(jobs, TopLines);
    if AllAddressed(jobs) {
      forall l | l in Appends(jobs) ensures l.Append? && Accepted(l.rule) {
        var j :| j in jobs && (l in SepLines(j) || l in SvcLines(j) || l in TopLines(j));
        JobAppends(j, l);
        AddressedJob(j);
      }
    } else {
      var j :| j in jobs && j.programmed && !Addressed(j);
      AddressedJob(j);
      var l :| (l in SepLines(j) || l in TopLines(j)) && l.Append? && !Accepted(l.rule);
      assert l in Appends(jobs);
    }
  }

  /** The emitted script goes through if and only if its addresses are IPv4 addresses, and then it leaves exactly what
      is specified. */
  lemma ScriptMeets(t: Table, jobs: seq<Job>, stale: seq<Chain>)
    requires WellFormed(t) && JobsOk(jobs) && StaleOf(t, jobs, stale)
    ensures Run(t, Script(jobs, stale)).Some? <==> AllAddressed(jobs)
    ensures AllAddressed(jobs) ==> Meets(t, Run(t, Script(jobs, stale)).value, jobs)
  {
    hide Active, Appends, Declares, RulesFor, Refers, WellFormed, Accepted, AllAddressed;
    AppendsAccepted(jobs);
    if AllAddressed(jobs) {
      ScriptRuns(t, jobs, stale);
    } else {
      var l :| l in Appends(jobs) && l.Append? && !Accepted(l.rule);
      assert l in Script(jobs, stale);
      RunRefused(t, Script(jobs, stale), l);
    }
  }

  lemma ScriptRuns(t: Table, jobs: seq<Job>, stale: seq<Chain>)
    requires WellFormed(t) && JobsOk(jobs) && StaleOf(t, jobs, stale)
    requires forall l :: l in Appends(jobs) ==> l.Append? && Accepted(l.rule)
    ensures Run(t, Script(jobs, stale)).Some? && Meets(t, Run(t, Script(jobs, stale)).value, jobs)
  {
    hide Active, Appends, Declares, RulesFor, Refers, WellFormed, Accepted;
    var declares, appends, drops := Declares(jobs, stale), Appends(jobs), Dropping(stale);
    DeclaredChains(jobs, stale);
    RunDeclares(t, declares);
    var t1 := Emptied(t, Chains(declares));
    forall l | l in appends
      ensures l.Append? && l.chain in t1 && (l.rule.target.Some? ==> l.rule.target.value in t1) && Accepted(l.rule)
    {
      AppendsInside(jobs, l);
    }
    RunAppends(t1, appends);
    var t2 := Filled(t1, appends);
    forall l | l in drops ensures l.DeleteChain? && l.chain in t2 && t2[l.chain] == [] && !Refers(t2, l.chain) {
      StaleIsFree(t, jobs, stale, l.chain);
    }
    RunDeletes(t2, drops);
    RunConcat(t, declares, appends);
    RunConcat(t, declares + appends, drops);
    DroppedChains(stale);
    MeetsInTheEnd(t, jobs, stale, t2 - Chains(drops));
  }

  lemma DroppedChains(stale: seq<Chain>)
    ensures forall c :: c in Chains(Dropping(stale)) <==> c in stale
  {
    forall c | c in stale ensures c in Chains(Dropping(stale)) {
      var i :| 0 <= i < |stale| && stale[i] == c;
      assert Dropping(stale)[i] in Dropping(stale);
    }
  }

  lemma MeetsInTheEnd(t: Table, jobs: seq<Job>, stale: seq<Chain>, t': Table)
    requires JobsOk(jobs) && StaleOf(t, jobs, stale)
    requires var t2 := Filled(Emptied(t, Chains(Declares(jobs, stale))), Appends(jobs));
             t' == t2 - Chains(Dropping(stale))
    ensures Meets(t, t', jobs)
  {
    hide Active, Appends, Declares, RulesFor, Dropping, Filled, Emptied, Chains, JobsOk;
    forall c
      ensures c in t' <==> (c in t && c.Foreign?) || c in Active(jobs)
      ensures c in t && c.Foreign? ==> c in t' && t'[c] == t[c]
      ensures c in Active(jobs) ==> c in t' && t'[c] == RulesFor(Appends(jobs), c)
    {
      EndAt(t, jobs, stale, t', c);
      if c in Active(jobs) {
        ActiveMultus(jobs, c);
      } else {
        NotAppended(jobs, c);
      }
    }
  }

  /** What has become of one chain. */
  lemma EndAt(t: Table, jobs: seq<Job>, stale: seq<Chain>, t': Table, c: Chain)
    requires t' == Filled(Emptied(t, Chains(Declares(jobs, stale))), Appends(jobs)) - Chains(Dropping(stale))
    ensures c in t' <==> (c in t || c in Active(jobs)) && c !in stale
    ensures c in t' ==>
              t'[c] == (if c in Active(jobs) then [] else t[c]) + RulesFor(Appends(jobs), c)
  {
    hide Active, Appends, Declares, RulesFor, Dropping, Chains;
    DeclaredChains(jobs, stale);
    DroppedChains(stale);
  }

  // ---------- the rules of each chain ----------

  /** No two programmed jobs share a chain, nor do their endpoints, and no job has an endpoint twice. */
  ghost predicate JobsApart(jobs: seq<Job>) {
    && JobsOk(jobs)
    && (forall i, j | 0 <= i < |jobs| && 0 <= j < |jobs| && i != j && jobs[i].programmed && jobs[j].programmed ::
          Apart(jobs[i], jobs[j]))
    && (forall j, h, i :: j in jobs && 0 <= h < i < |j.endpoints| ==> j.endpoints[h] != j.endpoints[i])
  }

  /** The jobs have different chains, and so have their endpoints. */
  ghost predicate Apart(j: Job, k: Job) {
    && j.info.chain != k.info.chain
    && forall e, f :: e in j.endpoints && f in k.endpoints ==> EndpointChain(j.info, e) != EndpointChain(k.info, f)
  }

  function Dispatches(jobs: seq<Job>): seq<Rule> {
    if jobs == [] then []
    else
      var last := jobs[|jobs| - 1];
      Dispatches(jobs[..|jobs| - 1]) + if last.programmed then [DispatchRule(last.info)] else []
  }

  function SpreadRules(info: ServicePortInfo, endpoints: seq<Text>): seq<Rule> {
    seq(|endpoints|, i requires 0 <= i < |endpoints| => SpreadRule(info, |endpoints| - i, endpoints[i]))
  }

  lemma {:induction false} RulesForAll(lines: seq<Line>, c: Chain)
    requires forall l :: l in lines ==> l.Append? && l.chain == c
    ensures |RulesFor(lines, c)| == |lines| && forall i :: 0 <= i < |lines| ==> RulesFor(lines, c)[i] == lines[i].rule
  {
    if lines != [] {
      assert lines[|lines| - 1] in lines;
      RulesForAll(lines[..|lines| - 1], c);
    }
  }

  lemma {:induction false} RulesForOnce(lines: seq<Line>, i: nat)
    requires i < |lines| && forall l :: l in lines ==> l.Append?
    requires forall h :: 0 <= h < |lines| && h != i ==> lines[h].chain != lines[i].chain
    ensures RulesFor(lines, lines[i].chain) == [lines[i].rule]
  {
    var front, last := lines[..|lines| - 1], lines[|lines| - 1];
    assert last in lines;
    if i < |front| {
      RulesForOnce(front, i);
    } else {
      RulesForElsewhere(front, last.chain);
    }
  }

  lemma {:induction false} AllOnce(jobs: seq<Job>, lines: Job -> seq<Line>, i: nat, c: Chain)
    requires i < |jobs| && forall h :: 0 <= h < |jobs| && h != i ==> RulesFor(lines(jobs[h]), c) == []
    ensures RulesFor(All(jobs, lines), c) == RulesFor(lines(jobs[i]), c)
  {
    hide RulesFor;
    var front, last := jobs[..|jobs| - 1], jobs[|jobs| - 1];
    RulesForConcat(All(front, lines), lines(last), c);
    if i < |front| {
      AllOnce(front, lines, i, c);
    } else {
      AllNone(front, lines, c);
    }
  }

  lemma {:induction false} AllNone(jobs: seq<Job>, lines: Job -> seq<Line>, c: Chain)
    requires forall j :: j in jobs ==> RulesFor(lines(j), c) == []
    ensures RulesFor(All(jobs, lines), c) == []
  {
    if jobs == [] {
    } else {
      var front, last := jobs[..|jobs| - 1], jobs[|jobs| - 1];
      assert last in jobs;
      AllNone(front, lines, c);
      RulesForConcat(All(front, lines), lines(last), c);
    }
  }

  lemma ThreeParts(jobs: seq<Job>, c: Chain)
    ensures RulesFor(Appends(jobs), c)
         == RulesFor(All(jobs, SepLines), c) + RulesFor(All(jobs, SvcLines), c) + RulesFor(All(jobs, TopLines), c)
  {
    hide RulesFor, All;
    RulesForConcat(All(jobs, SepLines) + All(jobs, SvcLines), All(jobs, TopLines), c);
    RulesForConcat(All(jobs, SepLines), All(jobs, SvcLines), c);
  }

  /** What one job does not write to. */
  lemma NotWritten(j: Job, c: Chain)
    requires j.info.chain.SvcChain?
    ensures c == Services || c.SvcChain? ==> RulesFor(SepLines(j), c) == []
    ensures c != j.info.chain || !j.programmed ==> RulesFor(SvcLines(j), c) == []
    ensures c != Services ==> RulesFor(TopLines(j), c) == []
    ensures !j.programmed || (forall e :: e in j.endpoints ==> c != EndpointChain(j.info, e)) ==>
              RulesFor(SepLines(j), c) == []
  {
    hide DnatRule, SpreadRule, DispatchRule, RulesFor;
    if !j.programmed || forall e :: e in j.endpoints ==> c != EndpointChain(j.info, e) {
      RulesForElsewhere(SepLines(j), c);
    }
    if c != j.info.chain || !j.programmed {
      RulesForElsewhere(SvcLines(j), c);
    }
    if c != Services {
      RulesForElsewhere(TopLines(j), c);
    }
  }

  lemma {:induction false} TopRules(jobs: seq<Job>)
    ensures RulesFor(All(jobs, TopLines), Services) == Dispatches(jobs)
  {
    hide DispatchRule;
    if jobs != [] {
      var front, last := jobs[..|jobs| - 1], jobs[|jobs| - 1];
      TopRules(front);
      RulesForConcat(All(front, TopLines), TopLines(last), Services);
      if last.programmed {
        RulesForOnce(TopLines(last), 0);
      }
    }
  }

  /** The dispatch chain holds one rule per programmed job. */
  lemma DispatchChain(jobs: seq<Job>)
    requires JobsOk(jobs)
    ensures RulesFor(Appends(jobs), Services) == Dispatches(jobs)
  {
    hide RulesFor, All, Dispatches, SepLines, SvcLines, TopLines;
    ThreeParts(jobs, Services);
    forall j | j in jobs ensures RulesFor(SepLines(j), Services) == [] && RulesFor(SvcLines(j), Services) == [] {
      NotWritten(j, Services);
    }
    AllNone(jobs, SepLines, Services);
    AllNone(jobs, SvcLines, Services);
    TopRules(jobs);
  }

  /** The chain of a programmed service port holds one jump per endpoint, with one of n, n - 1, ..., 1 packets. */
  lemma ServicePortChain(jobs: seq<Job>, i: nat)
    requires JobsApart(jobs) && i < |jobs| && jobs[i].programmed
    ensures RulesFor(Appends(jobs), jobs[i].info.chain) == SpreadRules(jobs[i].info, jobs[i].endpoints)
  {
    hide RulesFor, All, SepLines, TopLines, SpreadRule;
    var c := jobs[i].info.chain;
    ThreeParts(jobs, c);
    forall j | j in jobs ensures RulesFor(SepLines(j), c) == [] && RulesFor(TopLines(j), c) == [] {
      NotWritten(j, c);
    }
    AllNone(jobs, SepLines, c);
    AllNone(jobs, TopLines, c);
    forall h | 0 <= h < |jobs| && h != i ensures RulesFor(SvcLines(jobs[h]), c) == [] {
      assert jobs[h].programmed ==> Apart(jobs[i], jobs[h]);
      NotWritten(jobs[h], c);
    }
    AllOnce(jobs, SvcLines, i, c);
    RulesForAll(SvcLines(jobs[i]), c);
  }

  /** The chain of a service port that no job programs is empty. */
  lemma IdleChain(jobs: seq<Job>, c: Chain)
    requires JobsOk(jobs) && c.SvcChain? && forall j :: j in jobs && j.programmed ==> j.info.chain != c
    ensures RulesFor(Appends(jobs), c) == []
  {
    hide RulesFor, All, SepLines, SvcLines, TopLines;
    ThreeParts(jobs, c);
    forall j | j in jobs
      ensures RulesFor(SepLines(j), c) == [] && RulesFor(SvcLines(j), c) == [] && RulesFor(TopLines(j), c) == []
    {
      NotWritten(j, c);
    }
    AllNone(jobs, SepLines, c);
    AllNone(jobs, SvcLines, c);
    AllNone(jobs, TopLines, c);
  }

  lemma SameJob(info: ServicePortInfo, e: Text, f: Text)
    ensures EndpointChain(info, e) == EndpointChain(info, f) ==> e == f
  {
    var prefix := info.name.chars + info.protocol.chars;
    assert (prefix + e.chars)[|prefix|..] == e.chars && (prefix + f.chars)[|prefix|..] == f.chars;
  }

  /** The chain of an endpoint holds its one DNAT rule. */
  lemma EndpointRule(jobs: seq<Job>, i: nat, h: nat)
    requires JobsApart(jobs) && i < |jobs| && jobs[i].programmed && h < |jobs[i].endpoints|
    ensures var j := jobs[i];
            RulesFor(Appends(jobs), EndpointChain(j.info, j.endpoints[h])) == [DnatRule(j.info, j.endpoints[h])]
  {
    hide RulesFor, All, SvcLines, TopLines, DnatRule;
    var j := jobs[i];
    var c := EndpointChain(j.info, j.endpoints[h]);
    ThreeParts(jobs, c);
    forall k | k in jobs ensures RulesFor(SvcLines(k), c) == [] && RulesFor(TopLines(k), c) == [] {
      NotWritten(k, c);
    }
    AllNone(jobs, SvcLines, c);
    AllNone(jobs, TopLines, c);
    forall k | 0 <= k < |jobs| && k != i ensures RulesFor(SepLines(jobs[k]), c) == [] {
      assert j.endpoints[h] in j.endpoints && (jobs[k].programmed ==> Apart(jobs[k], j));
      NotWritten(jobs[k], c);
    }
    AllOnce(jobs, SepLines, i, c);
    assert j in jobs;
    forall l | 0 <= l < |j.endpoints| && l != h ensures EndpointChain(j.info, j.endpoints[l]) != c {
      SameJob(j.info, j.endpoints[l], j.endpoints[h]);
    }
    RulesForOnce(DnatLines(j.info, j.endpoints), h);
  }
}
