/** What a sync reads back from the table that an earlier one has left (pkg/proxy/server/iptables.go): its dispatch
    rules, with the cluster IP of every chain. */
module SavedRules {
  import opened Wrappers
  import opened ServicePorts
  import opened Iptables
  import opened ProxyRules
  import opened RuleText
  import IptableBuffers

  const MULTUS := "MULTUS-"

  predicate HasPrefix(s: string) {
    |s| >= |MULTUS| && s[..|MULTUS|] == MULTUS
  }

  /** Foreign chains are named differently from the proxy's. */
  ghost predicate Named(t: Table) {
    forall c :: c in t && c.Foreign? ==> !HasPrefix(c.name.chars)
  }

  /** A dispatch rule as the proxy writes it. */
  ghost predicate IsEcho(r: Rule) {
    exists info :: EchoFor(r, info)
  }

  predicate EchoFor(r: Rule, info: ServicePortInfo) {
    r == DispatchRule(info) && info.chain.SvcChain? && PlainInfo(info, ChainName(info.chain))
  }

  /** The proxy's chains are its own, and the dispatch rules are as it writes them, one cluster IP to a chain. */
  ghost predicate Echoed(t: Table) {
    && Services in t && (forall c :: c in t ==> !c.OtherMultus?)
    && (forall r :: r in t[Services] ==> IsEcho(r))
    && (forall r, q :: r in t[Services] && q in t[Services] && r.target == q.target ==> r.destination == q.destination)
  }

  // ---------- which lines are read ----------

  /** A line is "-A", a space, the name of the chain, and what follows after another space. */
  lemma LineStart(c: Chain, r: Rule)
    ensures var l := RuleLine(c, r);
            var n := |ChainName(c)|;
            |l| >= 3 + n && l[3..3 + n] == ChainName(c) && (|l| > 3 + n ==> l[3 + n] == ' ')
  {
    hide ChainName, RuleWords;
    var name, rest := ChainName(c), RuleWords(r);
    assert ["-A", name] + rest == ["-A"] + ([name] + rest);
    JoinConcat(["-A"], [name] + rest);
    JoinConcat([name], rest);
    var tail := if rest == [] then "" else " " + Join(rest);
    assert RuleLine(c, r) == "-A " + name + tail;
  }

  const DISPATCH := "MULTUS-SERVICES"

  /** A line that is read back is of a chain whose name begins like the dispatch chain's. */
  lemma DispatchName(c: Chain, r: Rule)
    requires IsDispatch(RuleLine(c, r))
    ensures |ChainName(c)| >= |DISPATCH| && ChainName(c)[..|DISPATCH|] == DISPATCH
  {
    hide RuleLine, ChainName;
    LineStart(c, r);
    var l, n, name := RuleLine(c, r), |ChainName(c)|, ChainName(c);
    assert forall i :: 0 <= i < 18 ==> l[i] == PREFIX[i];
    assert forall i :: 3 <= i < 18 ==> PREFIX[i] != ' ';
    assert forall i :: 0 <= i < n ==> l[3 + i] == name[i];
    assert forall i :: 0 <= i < |DISPATCH| ==> PREFIX[3 + i] == DISPATCH[i];
  }

  /** The names of the proxy's own chains differ in these letters. */
  lemma OwnNames(c: Chain)
    ensures c.SvcChain? ==> |ChainName(c)| >= 11 && ChainName(c)[8] == 'V'
    ensures c.SepChain? ==> |ChainName(c)| >= 11 && ChainName(c)[8] == 'E' && ChainName(c)[9] == 'P'
    ensures c == Services ==> |ChainName(c)| >= 11 && ChainName(c)[8] == 'E' && ChainName(c)[9] == 'R'
  {
  }

  /** Only rules of the dispatch chain, or of other chains whose names begin like its name, are read back. */
  lemma DispatchIsServices(c: Chain, r: Rule)
    requires IsDispatch(RuleLine(c, r)) && (c.Foreign? ==> !HasPrefix(c.name.chars))
    ensures c == Services || c.OtherMultus?
  {
    hide RuleLine;
    DispatchName(c, r);
    OwnNames(c);
    var name := ChainName(c);
    assert name[..|MULTUS|] == DISPATCH[..|MULTUS|] == MULTUS;
    assert name[8] == DISPATCH[8] && name[9] == DISPATCH[9];
  }

  // ---------- an echo ----------

  lemma {:induction false} InfosOf(rules: seq<Rule>) returns (infos: seq<ServicePortInfo>)
    requires forall r :: r in rules ==> IsEcho(r)
    ensures |infos| == |rules| && forall k :: 0 <= k < |rules| ==> EchoFor(rules[k], infos[k])
  {
    hide EchoFor;
    if rules == [] {
      infos := [];
    } else {
      var front, last := rules[..|rules| - 1], rules[|rules| - 1];
      assert rules == front + [last];
      assert last in rules;
      infos := InfosOf(front);
      var info :| EchoFor(last, info);
      infos := infos + [info];
    }
  }

  function NamesOf(infos: seq<ServicePortInfo>): seq<string> {
    seq(|infos|, i requires 0 <= i < |infos| => ChainName(infos[i].chain))
  }

  lemma EchoLine(r: Rule, info: ServicePortInfo)
    requires EchoFor(r, info)
    ensures RuleLine(Services, r) == Join(DispatchWords(info, ChainName(info.chain)))
    ensures r.destination == Some(ClusterIPOf(info)) && r.target == Some(info.chain)
  {
    hide Join, Chars, ClusterIPOf, PlainInfo;
    assert ["-A", "MULTUS-SERVICES"] + RuleWords(r) == DispatchWords(info, ChainName(info.chain));
  }

  /** The dispatch rules a sync leaves, as they are saved, are an echo. */
  lemma EchoOf(t: Table, lines: seq<string>) returns (infos: seq<ServicePortInfo>)
    requires Named(t) && Echoed(t) && SavedAs(t, lines)
    ensures Echoes(lines, infos, NamesOf(infos)) && |infos| == |t[Services]|
    ensures forall k :: 0 <= k < |infos| ==> EchoFor(t[Services][k], infos[k])
  {
    hide EchoFor, IsEcho, RuleLine, Join, DispatchWords, PlainInfo, IsDispatch, ChainName, ClusterIPOf;
    var rules := t[Services];
    infos := InfosOf(rules);
    var names := NamesOf(infos);
    forall k | 0 <= k < |infos|
      ensures PlainInfo(infos[k], names[k]) && Join(DispatchWords(infos[k], names[k])) in lines
    {
      EchoParts(rules[k], infos[k]);
      EchoLine(rules[k], infos[k]);
      assert RuleAt(t, Services, k);
    }
    forall l | l in lines && IsDispatch(l)
      ensures exists k :: 0 <= k < |infos| && l == Join(DispatchWords(infos[k], names[k]))
    {
      var c, i: nat :| RuleAt(t, c, i) && l == RuleLine(c, t[c][i]);
      DispatchIsServices(c, t[c][i]);
      EchoLine(rules[i], infos[i]);
    }
    forall k, h | 0 <= k < h < |names| && names[k] == names[h] ensures infos[k].clusterIP == infos[h].clusterIP {
      EchoParts(rules[k], infos[k]);
      EchoParts(rules[h], infos[h]);
      EchoLine(rules[k], infos[k]);
      EchoLine(rules[h], infos[h]);
      SvcNames(infos[k].chain, infos[h].chain);
      assert rules[k] in rules && rules[h] in rules;
      SameDestination(infos[k], infos[h]);
    }
  }

  lemma EchoParts(r: Rule, info: ServicePortInfo)
    requires EchoFor(r, info)
    ensures info.chain.SvcChain? && PlainInfo(info, ChainName(info.chain))
  {
    hide PlainInfo;
  }

  lemma SameDestination(a: ServicePortInfo, b: ServicePortInfo)
    requires ClusterIPOf(a) == ClusterIPOf(b)
    ensures a.clusterIP == b.clusterIP
  {
    var x, y := a.clusterIP.chars + "/32", b.clusterIP.chars + "/32";
    assert x[..|x| - 3] == a.clusterIP.chars && y[..|y| - 3] == b.clusterIP.chars;
  }

  lemma SvcNames(c: Chain, d: Chain)
    requires c.SvcChain? && (d.SvcChain? || d.SepChain? || d == Services) && ChainName(c) == ChainName(d)
    ensures c == d
  {
    OwnNames(c);
    OwnNames(d);
    if d.SvcChain? {
      assert ChainName(c)[11..] == c.hashed.chars && ChainName(d)[11..] == d.hashed.chars;
    }
  }

  // ---------- what the next sync makes of it ----------

  /** Nothing in a table that an earlier sync has left makes Init fail. */
  lemma NoShortLine(t: Table)
    requires Named(t) && Echoed(t)
    ensures !HasShortLine(t)
  {
    hide EchoFor, RuleLine, Join, DispatchWords, PlainInfo, IsDispatch, ChainName, Split, Tells;
    forall l | IsRuleLine(t, l) ensures !IsShort(l) {
      if IsDispatch(l) {
        var c, i: nat :| RuleAt(t, c, i) && l == RuleLine(c, t[c][i]);
        DispatchIsServices(c, t[c][i]);
        assert t[Services][i] in t[Services];
        var info :| EchoFor(t[Services][i], info);
        EchoParts(t[Services][i], info);
        EchoLine(t[Services][i], info);
        LineReadsBack(info, ChainName(info.chain));
      }
    }
  }

  /** Init remembers exactly the chains that are dispatched to, each with its cluster IP. */
  lemma RemembersAll(t: Table, clusterIPs: map<string, string>)
    requires Named(t) && Echoed(t) && Remembered(t, clusterIPs)
    ensures forall r :: r in t[Services] ==>
              r.target.Some? && r.destination.Some? && ChainName(r.target.value) in clusterIPs
              && clusterIPs[ChainName(r.target.value)] == r.destination.value.chars
    ensures forall n :: n in clusterIPs ==>
              exists r :: r in t[Services] && r.target.Some? && ChainName(r.target.value) == n
  {
    hide EchoFor, IsEcho, Echoes, SavedAs, ReadFrom, ChainName, ClusterIPOf, Named;
    var lines :| SavedAs(t, lines) && ReadFrom(lines, clusterIPs);
    var infos := EchoOf(t, lines);
    var rules, names := t[Services], NamesOf(infos);
    forall r | r in rules
      ensures r.target.Some? && r.destination.Some? && ChainName(r.target.value) in clusterIPs
              && clusterIPs[ChainName(r.target.value)] == r.destination.value.chars
    {
      var k :| 0 <= k < |rules| && rules[k] == r;
      EchoLine(r, infos[k]);
      ClusterIPBack(lines, infos, names, clusterIPs, k);
    }
    forall n | n in clusterIPs ensures exists r :: r in rules && r.target.Some? && ChainName(r.target.value) == n {
      ChainsBack(lines, infos, names, clusterIPs, n);
      var k :| 0 <= k < |names| && names[k] == n;
      EchoLine(rules[k], infos[k]);
      assert rules[k] in rules;
    }
  }

  /** The cluster IPs given up are exactly those of the dispatched service ports whose chains go. */
  lemma OldExactly(t: Table, clusterIPs: map<string, string>, stale: seq<Chain>, ip: string)
    requires Named(t) && Echoed(t) && Remembered(t, clusterIPs) && forall c :: c in stale ==> c in t && IsMultus(c)
    ensures ip in IptableBuffers.OldClusterIPs(clusterIPs, stale) <==>
              exists r :: GivesUp(t, r, stale) && r.destination.value.chars == ip
  {
    hide Named, Remembered, ChainName, EchoFor;
    RemembersAll(t, clusterIPs);
    IptableBuffers.OldFrom(clusterIPs, stale, ip);
    if c :| c in stale && ChainName(c) in clusterIPs && clusterIPs[ChainName(c)] == ip {
      var r :| r in t[Services] && r.target.Some? && ChainName(r.target.value) == ChainName(c);
      var info :| EchoFor(r, info);
      EchoParts(r, info);
      EchoLine(r, info);
      SvcNames(r.target.value, c);
      assert GivesUp(t, r, stale);
    }
  }

  /** A dispatch rule to a chain that goes. */
  predicate GivesUp(t: Table, r: Rule, stale: seq<Chain>) {
    Services in t && r in t[Services] && r.destination.Some? && r.target.Some? && r.target.value in stale
  }
}
