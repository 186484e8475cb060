/** What a packet makes of the nat table that pkg/proxy/server/server.go and pkg/proxy/server/iptables.go leave: the
    words of the rules read as matches, the chains walked rule by rule, down to the new destination. */
module Packets {
  import opened Wrappers
  import opened EndpointStrings
  import opened ProxyEndpoints
  import opened EndpointLists
  import opened ServicePorts
  import opened Iptables
  import opened LoadBalancing
  import opened ProxyRules
  import opened IptableBuffers
  import opened RuleSync

  // ---------- matching ----------

  datatype Packet = Packet(destination: string, protocol: string, port: nat)

  predicate IsNumber(s: string, n: nat) {
    s != "" && (forall c :: c in s ==> '0' <= c <= '9') && ReadDigits(s) == n
  }

  /** One option with its argument; draw is the number between 0 and 1 that the statistic match draws. */
  ghost predicate OptionFits(option: string, argument: Text, p: Packet, draw: real) {
    if option == "-p" then argument.chars == p.protocol
    else if option == "--dport" then IsNumber(argument.chars, p.port)
    else if option == "--probability" then draw < Denoted(argument)
    else option == "-m" || option == "--comment" || option == "--mode"
  }

  /** The options of a rule, one after the other; an option it does not know matches nothing. */
  ghost predicate WordsFit(words: seq<Text>, p: Packet, draw: real) {
    words == []
    || (|words| >= 2 && OptionFits(words[0].chars, words[1], p, draw) && WordsFit(words[2..], p, draw))
  }

  ghost predicate Applies(r: Rule, p: Packet, draw: real) {
    (r.destination.Some? ==> r.destination.value.chars == p.destination + "/32") && WordsFit(r.words, p, draw)
  }

  // ---------- walking ----------

  /** What is drawn at rule i of chain c. */
  type Draws = (Chain, nat) -> real

  ghost predicate ProperDraws(draws: Draws) {
    forall c, i :: 0.0 <= draws(c, i) < 1.0
  }

  /** The new destination a packet gets from rule i of chain c on, if any: the first rule that applies decides, unless
      it jumps to a chain that lets the packet pass. The kernel has no loops; depth bounds the jumps. */
  ghost function Walk(t: Table, c: Chain, i: nat, p: Packet, draws: Draws, depth: nat): Option<Text>
    decreases depth, if c in t && i <= |t[c]| then |t[c]| - i else 0
  {
    if depth == 0 || c !in t || i >= |t[c]| then None
    else
      var r := t[c][i];
      var inner :=
        if !Applies(r, p, draws(c, i)) then None
        else if r.dnat.Some? then r.dnat
        else if r.target.Some? then Walk(t, r.target.value, 0, p, draws, depth - 1)
        else None;
      if inner.Some? then inner else Walk(t, c, i + 1, p, draws, depth)
  }

  // ---------- which packets the rules are for ----------

  lemma OneOption(option: Text, argument: Text, rest: seq<Text>, p: Packet, draw: real)
    ensures WordsFit([option, argument] + rest, p, draw)
            <==> OptionFits(option.chars, argument, p, draw) && WordsFit(rest, p, draw)
  {
    var words := [option, argument] + rest;
    assert words[2..] == rest;
  }

  lemma Options(p: Packet, draw: real, argument: Text)
    ensures OptionFits("-p", argument, p, draw) <==> argument.chars == p.protocol
    ensures OptionFits("--dport", argument, p, draw) <==> IsNumber(argument.chars, p.port)
    ensures OptionFits("--probability", argument, p, draw) <==> draw < Denoted(argument)
    ensures OptionFits("-m", argument, p, draw) && OptionFits("--comment", argument, p, draw)
    ensures OptionFits("--mode", argument, p, draw)
  {
    hide IsNumber, Denoted;
    assert |"-p"| == 2 && |"--dport"| == 7 && |"--probability"| == 13 && |"-m"| == 2 && |"--comment"| == 9;
    assert "-p"[1] == 'p' && "-m"[1] == 'm' && |"--mode"| == 6;
  }

  lemma PortIsNumber(port: int, n: nat)
    ensures IsNumber(PortText(port).chars, n) <==> port == n
  {
    if port < 0 {
      assert PortText(port).chars[0] == '-';
      assert '-' in PortText(port).chars;
    } else {
      ItoaReads(port);
      ItoaDigits(port);
    }
  }

  lemma SameIP(ip: string, other: string)
    ensures ip + "/32" == other + "/32" <==> ip == other
  {
    var a, b := ip + "/32", other + "/32";
    assert a[..|a| - 3] == ip && b[..|b| - 3] == other;
  }

  /** The packet is for this service port: its cluster IP, its protocol and its port. */
  predicate IsFor(p: Packet, info: ServicePortInfo) {
    p.destination == info.clusterIP.chars && p.protocol == info.protocol.chars && p.port == info.port
  }

  /** A dispatch rule applies exactly to the packets for its service port. */
  lemma DispatchApplies(info: ServicePortInfo, p: Packet, draw: real)
    ensures Applies(DispatchRule(info), p, draw) <==> IsFor(p, info)
  {
    hide WordsFit, OptionFits, Quoted, PortText, IsNumber;
    var comment := Quoted(info.name.chars + " cluster IP");
    var w5: seq<Text> := [];
    var w4 := [Text("--dport"), PortText(info.port)] + w5;
    var w3 := [Text("-m"), info.protocol] + w4;
    var w2 := [Text("--comment"), comment] + w3;
    var w1 := [Text("-m"), Text("comment")] + w2;
    assert DispatchRule(info).words == [Text("-p"), info.protocol] + w1;
    OneOption(Text("-p"), info.protocol, w1, p, draw);
    OneOption(Text("-m"), Text("comment"), w2, p, draw);
    OneOption(Text("--comment"), comment, w3, p, draw);
    OneOption(Text("-m"), info.protocol, w4, p, draw);
    OneOption(Text("--dport"), PortText(info.port), w5, p, draw);
    Options(p, draw, info.protocol);
    Options(p, draw, Text("comment"));
    Options(p, draw, comment);
    Options(p, draw, PortText(info.port));
    NoWords(p, draw);
    PortIsNumber(info.port, p.port);
    SameIP(info.clusterIP.chars, p.destination);
  }

  lemma NoWords(p: Packet, draw: real)
    ensures WordsFit([], p, draw)
  {
  }

  /** A spreading rule applies to a packet with its probability. */
  lemma JumpApplies(info: ServicePortInfo, n: nat, endpoint: Text, p: Packet, draw: real)
    requires n >= 1
    ensures Applies(SpreadRule(info, n, endpoint), p, draw) <==> draw < Denoted(ComputeProbability(n))
  {
    hide WordsFit, OptionFits, Quoted, ComputeProbability, Denoted;
    var comment, probability := Quoted(info.name.chars), ComputeProbability(n);
    var w5: seq<Text> := [];
    var w4 := [Text("--probability"), probability] + w5;
    var w3 := [Text("--mode"), Text("random")] + w4;
    var w2 := [Text("-m"), Text("statistic")] + w3;
    var w1 := [Text("--comment"), comment] + w2;
    assert SpreadRule(info, n, endpoint).words == [Text("-m"), Text("comment")] + w1;
    OneOption(Text("-m"), Text("comment"), w1, p, draw);
    OneOption(Text("--comment"), comment, w2, p, draw);
    OneOption(Text("-m"), Text("statistic"), w3, p, draw);
    OneOption(Text("--mode"), Text("random"), w4, p, draw);
    OneOption(Text("--probability"), probability, w5, p, draw);
    Options(p, draw, Text("comment"));
    Options(p, draw, comment);
    Options(p, draw, Text("statistic"));
    Options(p, draw, Text("random"));
    Options(p, draw, probability);
    NoWords(p, draw);
  }

  /** A DNAT rule applies to every packet of its protocol. */
  lemma DnatApplies(info: ServicePortInfo, endpoint: Text, p: Packet, draw: real)
    requires p.protocol == info.protocol.chars
    ensures Applies(DnatRule(info, endpoint), p, draw)
  {
    hide WordsFit, OptionFits, Quoted;
    var comment, loaded := Quoted(info.name.chars), if info.protocol != EMPTY then info.protocol else Text("tcp");
    var w4: seq<Text> := [];
    var w3 := [Text("-m"), loaded] + w4;
    var w2 := [Text("--comment"), comment] + w3;
    var w1 := [Text("-m"), Text("comment")] + w2;
    OneOption(Text("-p"), info.protocol, w1, p, draw);
    OneOption(Text("-m"), Text("comment"), w2, p, draw);
    OneOption(Text("--comment"), comment, w3, p, draw);
    OneOption(Text("-m"), loaded, w4, p, draw);
    Options(p, draw, info.protocol);
    Options(p, draw, Text("comment"));
    Options(p, draw, comment);
    Options(p, draw, loaded);
    NoWords(p, draw);
    assert DnatRule(info, endpoint).words == if info.protocol != EMPTY then [Text("-p"), info.protocol] + w1 else w1;
  }

  // ---------- one service port ----------

  /** The packet takes the k-th of the rules from i on: the draws of those before it are too high. */
  ghost predicate Drawn(draws: Draws, c: Chain, n: nat, i: nat, k: nat) {
    && i <= k < n && draws(c, k) < Denoted(ComputeProbability(n - k))
    && forall h :: i <= h < k ==> draws(c, h) >= Denoted(ComputeProbability(n - h))
  }

  lemma LastIsCertain()
    ensures Denoted(ComputeProbability(1)) == 1.0
  {
    hide ComputeProbability, Denoted, DigitsOf, Near;
    DigitsNear(1);
    assert DigitsOf(1)[0] == Denoted(ComputeProbability(1)) by { DigitsAt(1, 0); }
  }

  lemma AtEndpoint(t: Table, info: ServicePortInfo, endpoints: seq<Text>, k: nat, p: Packet, draws: Draws, depth: nat)
    requires Forwards(t, info, endpoints) && k < |endpoints| && depth >= 1 && p.protocol == info.protocol.chars
    ensures Walk(t, EndpointChain(info, endpoints[k]), 0, p, draws, depth) == Some(endpoints[k])
  {
    hide Applies, SpreadRules;
    var c := EndpointChain(info, endpoints[k]);
    assert t[c] == [DnatRule(info, endpoints[k])];
    DnatApplies(info, endpoints[k], p, draws(c, 0));
  }

  /** A packet that is sent to the chain of a service port goes to the endpoint that the draws choose. */
  lemma {:induction false} AtServicePort(t: Table, info: ServicePortInfo, endpoints: seq<Text>, i: nat, p: Packet,
                                         draws: Draws, depth: nat)
    requires Forwards(t, info, endpoints) && i <= |endpoints| && depth >= 2 && p.protocol == info.protocol.chars
    requires ProperDraws(draws)
    ensures i == |endpoints| ==> Walk(t, info.chain, i, p, draws, depth) == None
    ensures i < |endpoints| ==>
              exists k: nat :: Drawn(draws, info.chain, |endpoints|, i, k)
                               && Walk(t, info.chain, i, p, draws, depth) == Some(endpoints[k])
    decreases |endpoints| - i
  {
    hide Applies, ComputeProbability, Denoted, EndpointChain, Walk;
    var n, c := |endpoints|, info.chain;
    ChainSize(t, info, endpoints);
    if i == n {
      WalkedOff(t, c, i, p, draws, depth);
    } else {
      ServiceRule(t, info, endpoints, i, p, draws, depth);
      if draws(c, i) < Denoted(ComputeProbability(n - i)) {
        AtEndpoint(t, info, endpoints, i, p, draws, depth - 1);
        assert Drawn(draws, c, n, i, i);
      } else {
        if i == n - 1 {
          LastIsCertain();
        }
        AtServicePort(t, info, endpoints, i + 1, p, draws, depth);
        var k: nat :| Drawn(draws, c, n, i + 1, k) && Walk(t, c, i + 1, p, draws, depth) == Some(endpoints[k]);
        assert Drawn(draws, c, n, i, k);
      }
    }
  }

  lemma ChainSize(t: Table, info: ServicePortInfo, endpoints: seq<Text>)
    requires Forwards(t, info, endpoints)
    ensures info.chain in t && |t[info.chain]| == |endpoints|
  {
    hide EndpointChain, DnatRule;
  }

  lemma WalkedOff(t: Table, c: Chain, i: nat, p: Packet, draws: Draws, depth: nat)
    requires c !in t || i >= |t[c]|
    ensures Walk(t, c, i, p, draws, depth) == None
  {
  }

  /** What rule i of a service chain does to a packet. */
  lemma ServiceRule(t: Table, info: ServicePortInfo, endpoints: seq<Text>, i: nat, p: Packet, draws: Draws, depth: nat)
    requires Forwards(t, info, endpoints) && i < |endpoints| && depth >= 2
    ensures var n, c := |endpoints|, info.chain;
            var inner := Walk(t, EndpointChain(info, endpoints[i]), 0, p, draws, depth - 1);
            Walk(t, c, i, p, draws, depth)
            == if draws(c, i) < Denoted(ComputeProbability(n - i)) && inner.Some? then inner
               else Walk(t, c, i + 1, p, draws, depth)
  {
    hide Applies, EndpointChain, ComputeProbability, Denoted;
    JumpApplies(info, |endpoints| - i, endpoints[i], p, draws(info.chain, i));
    assert t[info.chain][i] == SpreadRule(info, |endpoints| - i, endpoints[i]);
  }

  // ---------- the whole table ----------

  /** Some wanted service port that the packet is for has this endpoint, and it is the one that the draws choose. */
  ghost predicate Chooses(ifaces: seq<Interface>, sm: ServiceMap, em: EMap, p: Packet, draws: Draws, endpoint: Text) {
    exists i: nat, spn, k: nat ::
      ChosenFor(ifaces, sm, em, p, draws, i, spn, k) && EndpointsOf(em, spn)[k] == endpoint
  }

  ghost predicate ChosenFor(ifaces: seq<Interface>, sm: ServiceMap, em: EMap, p: Packet, draws: Draws, i: nat,
                            spn: ServicePortName, k: nat) {
    && Wanted(ifaces, sm, i, spn) && IsFor(p, sm[spn])
    && Drawn(draws, sm[spn].chain, |EndpointsOf(em, spn)|, 0, k)
  }

  /** The packet is for a wanted service port with endpoints. */
  ghost predicate Addressed(ifaces: seq<Interface>, sm: ServiceMap, em: EMap, p: Packet) {
    exists i: nat, spn :: Wanted(ifaces, sm, i, spn) && IsFor(p, sm[spn]) && EndpointsOf(em, spn) != []
  }

  /** From rule h of the dispatch chain on. */
  lemma {:induction false} FromRule(t: Table, ifaces: seq<Interface>, sm: ServiceMap, em: EMap, h: nat, p: Packet,
                                    draws: Draws, depth: nat)
    requires Services in t && DispatchesFor(t[Services], ifaces, sm) && h <= |t[Services]| && depth >= 3
    requires forall i, spn :: Wanted(ifaces, sm, i, spn) ==> Forwards(t, sm[spn], EndpointsOf(em, spn))
    requires ProperDraws(draws)
    ensures var d := Walk(t, Services, h, p, draws, depth);
            && (d.Some? ==> Chooses(ifaces, sm, em, p, draws, d.value))
            && (d.None? ==> forall i: nat, spn | Wanted(ifaces, sm, i, spn) && IsFor(p, sm[spn])
                                                 && DispatchRule(sm[spn]) in t[Services][h..] ::
                              EndpointsOf(em, spn) == [])
    decreases |t[Services]| - h
  {
    hide Applies, Matches, Forwards, DispatchRule, EndpointsOf, IsFor, ProperDraws, Walk, ComputeProbability, Denoted;
    if h == |t[Services]| {
      WalkedOff(t, Services, h, p, draws, depth);
    } else {
      FromRule(t, ifaces, sm, em, h + 1, p, draws, depth);
      var r := t[Services][h];
      assert Dispatched(r, ifaces, sm);
      var i: nat, spn :| Wanted(ifaces, sm, i, spn) && r == DispatchRule(sm[spn]);
      WantedIn(ifaces, sm, i, spn);
      var info, endpoints := sm[spn], EndpointsOf(em, spn);
      DispatchStep(t, info, h, p, draws, depth);
      IsForProtocol(p, info);
      assert t[Services][h..] == [r] + t[Services][h + 1..];
      if IsFor(p, info) {
        AtServicePort(t, info, endpoints, 0, p, draws, depth - 1);
        if endpoints != [] {
          var k: nat :| Drawn(draws, info.chain, |endpoints|, 0, k)
                        && Walk(t, info.chain, 0, p, draws, depth - 1) == Some(endpoints[k]);
          assert ChosenFor(ifaces, sm, em, p, draws, i, spn, k);
        }
      }
      forall j: nat, other | Wanted(ifaces, sm, j, other) && IsFor(p, sm[other]) && DispatchRule(sm[other]) == r
                             && Walk(t, Services, h, p, draws, depth).None?
        ensures EndpointsOf(em, other) == []
      {
        SameRuleSameChain(sm[other], info);
        DispatchApplies(info, p, 0.0);
        DispatchApplies(sm[other], p, 0.0);
        WantedIn(ifaces, sm, j, other);
        ChainSize(t, sm[other], EndpointsOf(em, other));
        ChainSize(t, info, endpoints);
      }
    }
  }

  lemma IsForProtocol(p: Packet, info: ServicePortInfo)
    ensures IsFor(p, info) ==> p.protocol == info.protocol.chars
  {
  }

  lemma SameRuleSameChain(a: ServicePortInfo, b: ServicePortInfo)
    requires DispatchRule(a) == DispatchRule(b)
    ensures a.chain == b.chain
  {
    hide ClusterIPOf, Quoted, PortText;
    assert DispatchRule(a).target == DispatchRule(b).target;
  }

  lemma DispatchStep(t: Table, info: ServicePortInfo, h: nat, p: Packet, draws: Draws, depth: nat)
    requires Services in t && h < |t[Services]| && t[Services][h] == DispatchRule(info) && depth >= 2
    ensures Walk(t, Services, h, p, draws, depth)
         == var inner := Walk(t, info.chain, 0, p, draws, depth - 1);
            if IsFor(p, info) && inner.Some? then inner else Walk(t, Services, h + 1, p, draws, depth)
  {
    hide Applies, IsFor, ClusterIPOf, Quoted, PortText;
    DispatchApplies(info, p, draws(Services, h));
    assert DispatchRule(info).dnat == None && DispatchRule(info).target == Some(info.chain);
  }

  /** A table as specified gives a new destination exactly to the packets for a wanted service port with endpoints: that
      of one of its endpoints, which the draws choose. */
  lemma PacketsGo(t0: Table, t: Table, ifaces: seq<Interface>, sm: ServiceMap, em: EMap, p: Packet, draws: Draws,
                  depth: nat)
    requires Specified(t0, t, ifaces, sm, em) && ProperDraws(draws) && depth >= 3
    ensures var d := Walk(t, Services, 0, p, draws, depth);
            && (d.Some? <==> Addressed(ifaces, sm, em, p))
            && (d.Some? ==> Chooses(ifaces, sm, em, p, draws, d.value))
  {
    hide Matches, Forwards, DispatchRule, EndpointsOf, IsFor, ProperDraws, Walk, InUse, ComputeProbability, Denoted;
    FromRule(t, ifaces, sm, em, 0, p, draws, depth);
    var d := Walk(t, Services, 0, p, draws, depth);
    assert t[Services][0..] == t[Services];
    if d.Some? {
      var i: nat, spn, k: nat :|
        ChosenFor(ifaces, sm, em, p, draws, i, spn, k) && EndpointsOf(em, spn)[k] == d.value;
      assert EndpointsOf(em, spn) != [];
    }
  }
}
