/** The rules as text (pkg/proxy/server/iptables.go): how a line is written, and how the previous sync's cluster IPs are
    read back from saved lines. */
module RuleText {
  import opened Wrappers
  import opened ServicePorts
  import opened Iptables
  import opened ProxyRules

  // ---------- writing ----------

  /** The words with a space between them. */
  function Join(words: seq<string>): string {
    if words == [] then ""
    else if |words| == 1 then words[0]
    else words[0] + " " + Join(words[1..])
  }

  /** Writes the words as one line. */
  method WriteLine(buf: string, words: seq<string>) returns (r: string)
    ensures r == if words == [] then buf else buf + Join(words) + "\n"
  {
    r := buf;
    for i := 0 to |words|
      invariant i < |words| ==> r + Join(words[i..]) + "\n" == buf + Join(words) + "\n"
      invariant i == |words| ==> r == if words == [] then buf else buf + Join(words) + "\n"
    {
      JoinRest(words, i, r);
      r := r + words[i];
      if i < |words| - 1 {
        r := r + " ";
      } else {
        r := r + "\n";
      }
    }
  }

  lemma JoinRest(words: seq<string>, i: nat, r: string)
    requires i < |words|
    ensures i < |words| - 1 ==> r + Join(words[i..]) == r + words[i] + " " + Join(words[i + 1..])
    ensures i == |words| - 1 ==> Join(words[i..]) == words[i]
  {
    if i < |words| - 1 {
      assert words[i..][1..] == words[i + 1..];
      assert r + (words[i] + " " + Join(words[i + 1..])) == r + words[i] + " " + Join(words[i + 1..]);
    }
  }

  // ---------- splitting ----------

  /** strings.Split on a space. */
  function Split(s: string): (tokens: seq<string>)
    ensures tokens != []
  {
    if s == "" then [""]
    else
      var rest := Split(s[1..]);
      if s[0] == ' ' then [""] + rest else [[s[0]] + rest[0]] + rest[1..]
  }

  predicate Plain(s: string) {
    ' ' !in s
  }

  lemma {:induction false} SplitWord(w: string, rest: string)
    requires Plain(w)
    ensures Split(w) == [w]
    ensures Split(w + " " + rest) == [w] + Split(rest)
  {
    var all := w + " " + rest;
    if w == "" {
      assert all == " " + rest;
      assert all[1..] == rest;
    } else {
      SplitWord(w[1..], rest);
      assert w == [w[0]] + w[1..];
      assert all[1..] == w[1..] + " " + rest;
    }
  }

  /** Splitting undoes joining, for words without spaces. */
  lemma {:induction false} SplitJoin(words: seq<string>)
    requires words != [] && forall w :: w in words ==> Plain(w)
    ensures Split(Join(words)) == words
  {
    if |words| == 1 {
      SplitWord(words[0], "");
    } else {
      SplitJoin(words[1..]);
      SplitWord(words[0], Join(words[1..]));
      assert words == [words[0]] + words[1..];
    }
  }

  /** A word with spaces in it joins like the words it is made of. */
  lemma {:induction false} JoinInside(before: seq<string>, inner: seq<string>, after: seq<string>)
    requires inner != []
    ensures Join(before + [Join(inner)] + after) == Join(before + inner + after)
    decreases |before| + |inner|
  {
    if before != [] {
      JoinInside(before[1..], inner, after);
      assert (before + [Join(inner)] + after)[1..] == before[1..] + [Join(inner)] + after;
      assert (before + inner + after)[1..] == before[1..] + inner + after;
    } else {
      JoinConcat(inner, after);
      assert [] + [Join(inner)] + after == [Join(inner)] + after;
      assert [] + inner + after == inner + after;
      assert ([Join(inner)] + after)[1..] == after;
    }
  }

  lemma {:induction false} JoinConcat(a: seq<string>, b: seq<string>)
    requires a != []
    ensures Join(a + b) == if b == [] then Join(a) else Join(a) + " " + Join(b)
  {
    if b == [] {
      assert a + b == a;
    } else if |a| == 1 {
      assert (a + b)[1..] == b;
    } else {
      JoinConcat(a[1..], b);
      assert (a + b)[1..] == a[1..] + b;
      assert a[0] + " " + (Join(a[1..]) + " " + Join(b)) == (a[0] + " " + Join(a[1..])) + " " + Join(b);
    }
  }

  // ---------- the rules of the dispatch chain ----------

  function Chars(words: seq<Text>): seq<string> {
    seq(|words|, i requires 0 <= i < |words| => words[i].chars)
  }

  const PREFIX := "-A MULTUS-SERVICES"

  predicate IsDispatch(line: string) {
    |line| >= |PREFIX| && line[..|PREFIX|] == PREFIX
  }

  /** The words of the rule that sends a cluster IP to the chain with this name. */
  function DispatchWords(info: ServicePortInfo, chain: string): seq<string> {
    ["-A", "MULTUS-SERVICES", "-d", ClusterIPOf(info).chars] + Chars(DispatchRule(info).words) + ["-j", chain]
  }

  /** None of the parts of the rule has a space. */
  predicate PlainInfo(info: ServicePortInfo, chain: string) {
    && Plain(info.name.chars) && Plain(info.clusterIP.chars) && Plain(info.protocol.chars)
    && Plain(PortText(info.port).chars) && Plain(chain)
  }

  /** The same words with the comment taken apart. */
  function Tokens(info: ServicePortInfo, chain: string): seq<string> {
    ["-A", "MULTUS-SERVICES", "-d", ClusterIPOf(info).chars, "-p", info.protocol.chars, "-m", "comment", "--comment"]
    + ["\"" + info.name.chars, "cluster", "IP\""]
    + ["-m", info.protocol.chars, "--dport", PortText(info.port).chars, "-j", chain]
  }

  lemma CommentJoins(name: string)
    ensures Join(["\"" + name, "cluster", "IP\""]) == Quoted(name + " cluster IP").chars
  {
    var words := ["\"" + name, "cluster", "IP\""];
    assert words[1..] == ["cluster", "IP\""] && words[1..][1..] == ["IP\""];
    assert Join(words[1..]) == "cluster IP\"";
    assert "\"" + name + " " + "cluster IP\"" == "\"" + (name + " cluster IP") + "\"";
  }

  /** Splitting a written rule gives its cluster IP and its chain back, at the places where Init looks for them. */
  lemma RuleReadsBack(info: ServicePortInfo, chain: string)
    requires PlainInfo(info, chain)
    ensures var tokens := Split(Join(DispatchWords(info, chain)));
            tokens == Tokens(info, chain) && |tokens| == 18
            && tokens[3] == ClusterIPOf(info).chars && tokens[17] == chain
    ensures IsDispatch(Join(DispatchWords(info, chain)))
  {
    hide Join, Split, Quoted, IsDispatch;
    var before := ["-A", "MULTUS-SERVICES", "-d", ClusterIPOf(info).chars, "-p", info.protocol.chars,
                   "-m", "comment", "--comment"];
    var inner := ["\"" + info.name.chars, "cluster", "IP\""];
    var after := ["-m", info.protocol.chars, "--dport", PortText(info.port).chars, "-j", chain];
    CommentJoins(info.name.chars);
    WordsAre(info, chain);
    JoinInside(before, inner, after);
    PlainTokens(info, chain);
    SplitJoin(before + inner + after);
    Starts(before + inner + after);
  }

  lemma WordsAre(info: ServicePortInfo, chain: string)
    ensures DispatchWords(info, chain)
         == ["-A", "MULTUS-SERVICES", "-d", ClusterIPOf(info).chars,
             "-p", info.protocol.chars, "-m", "comment", "--comment"]
            + [Quoted(info.name.chars + " cluster IP").chars]
            + ["-m", info.protocol.chars, "--dport", PortText(info.port).chars, "-j", chain]
  {
    hide Quoted, ClusterIPOf, PortText;
    var words := DispatchRule(info).words;
    assert |words| == 10;
    assert Chars(words) == [words[0].chars, words[1].chars, words[2].chars, words[3].chars, words[4].chars,
                            words[5].chars, words[6].chars, words[7].chars, words[8].chars, words[9].chars];
  }

  lemma PlainTokens(info: ServicePortInfo, chain: string)
    requires PlainInfo(info, chain)
    ensures forall w :: w in Tokens(info, chain) ==> Plain(w)
  {
    hide PortText;
  }

  lemma Starts(words: seq<string>)
    requires |words| > 2 && words[0] == "-A" && words[1] == "MULTUS-SERVICES"
    ensures IsDispatch(Join(words))
  {
    hide IsDispatch, Join;
    TwoFirst(words);
    PrefixIs();
    Prefixed(PREFIX, " " + Join(words[2..]));
  }

  lemma TwoFirst(words: seq<string>)
    requires |words| > 2
    ensures Join(words) == (words[0] + " " + words[1]) + (" " + Join(words[2..]))
  {
    assert words[1..][1..] == words[2..];
    Regroup(words[0], words[1], Join(words[2..]));
  }

  lemma PrefixIs()
    ensures "-A" + " " + "MULTUS-SERVICES" == PREFIX
  {
  }

  lemma Regroup(a: string, b: string, rest: string)
    ensures a + " " + (b + " " + rest) == (a + " " + b) + (" " + rest)
  {
  }

  lemma Prefixed(prefix: string, rest: string)
    requires prefix == PREFIX
    ensures IsDispatch(prefix + rest)
  {
    assert (prefix + rest)[..|prefix|] == prefix;
  }

  // ---------- the saved table ----------

  /** The name of a chain; what is hashed stands for the hash. */
  function ChainName(c: Chain): string {
    match c
    case Services => "MULTUS-SERVICES"
    case SvcChain(hashed) => "MULTUS-SVC-" + hashed.chars
    case SepChain(hashed) => "MULTUS-SEP-" + hashed.chars
    case OtherMultus(name) => name.chars
    case Foreign(name) => name.chars
  }

  function RuleWords(r: Rule): seq<string> {
    (if r.destination.Some? then ["-d", r.destination.value.chars] else [])
    + Chars(r.words)
    + (if r.dnat.Some? then ["-j", "DNAT", "--to-destination", r.dnat.value.chars] else [])
    + (if r.target.Some? then ["-j", ChainName(r.target.value)] else [])
  }

  /** The line of a rule as it is saved. */
  function RuleLine(c: Chain, r: Rule): string {
    Join(["-A", ChainName(c)] + RuleWords(r))
  }

  predicate RuleAt(t: Table, c: Chain, i: nat) {
    c in t && i < |t[c]|
  }

  /** The line is one of a rule of the table. */
  ghost predicate IsRuleLine(t: Table, l: string) {
    exists c, i: nat :: RuleAt(t, c, i) && l == RuleLine(c, t[c][i])
  }

  /** What iptables-save prints for the table: its rules, and lines that are no rules. */
  ghost predicate SavedAs(t: Table, lines: seq<string>) {
    && (forall c, i: nat | RuleAt(t, c, i) :: RuleLine(c, t[c][i]) in lines)
    && (forall l :: l in lines && IsDispatch(l) ==> IsRuleLine(t, l))
  }

  predicate IsShort(l: string) {
    IsDispatch(l) && |Split(l)| < 18
  }

  /** Some rule that looks like one of the dispatch chain has fewer tokens than Init looks at. */
  ghost predicate HasShortLine(t: Table) {
    exists l :: IsRuleLine(t, l) && IsShort(l)
  }

  lemma ShortLineSaved(t: Table, lines: seq<string>)
    requires SavedAs(t, lines)
    ensures HasShortLine(t) <==> exists l :: l in lines && IsShort(l)
  {
    hide RuleLine, Split, IsDispatch, RuleAt;
    if l :| IsRuleLine(t, l) && IsShort(l) {
      LineSaved(t, lines, l);
    }
    if l :| l in lines && IsShort(l) {
      assert IsRuleLine(t, l);
    }
  }

  lemma LineSaved(t: Table, lines: seq<string>, l: string)
    requires SavedAs(t, lines) && IsRuleLine(t, l)
    ensures l in lines
  {
    hide RuleLine, IsDispatch;
  }

  /** SaveInto, chain by chain in whatever order. */
  method SaveInto(t: Table) returns (lines: seq<string>)
    ensures SavedAs(t, lines)
  {
    hide RuleLine, IsDispatch, IsRuleLine;
    lines := ["*nat"];
    NoDispatch();
    var todo := t.Keys;
    while todo != {}
      invariant todo <= t.Keys && SavedSome(t, t.Keys - todo, lines)
      decreases |todo|
    {
      var c :| c in todo;
      ghost var done := t.Keys - todo;
      ghost var before := lines;
      for i := 0 to |t[c]|
        invariant forall l :: l in before ==> l in lines
        invariant forall h :: 0 <= h < i ==> RuleLine(c, t[c][h]) in lines
        invariant forall l :: l in lines ==> l in before || IsRuleLine(t, l)
      {
        RuleLineAt(t, c, i);
        lines := lines + [RuleLine(c, t[c][i])];
      }
      SavedNext(t, done, c, before, lines);
      todo := todo - {c};
      assert t.Keys - todo == done + {c};
    }
    lines := lines + ["COMMIT"];
  }

  ghost predicate SavedSome(t: Table, done: set<Chain>, lines: seq<string>) {
    && (forall c, i: nat | RuleAt(t, c, i) && c in done :: RuleLine(c, t[c][i]) in lines)
    && (forall l :: l in lines && IsDispatch(l) ==> IsRuleLine(t, l))
  }

  lemma RuleLineAt(t: Table, c: Chain, i: nat)
    requires c in t && i < |t[c]|
    ensures IsRuleLine(t, RuleLine(c, t[c][i]))
  {
    hide RuleLine;
    assert RuleAt(t, c, i);
  }

  lemma SavedNext(t: Table, done: set<Chain>, c: Chain, before: seq<string>, lines: seq<string>)
    requires SavedSome(t, done, before) && c in t
    requires forall l :: l in before ==> l in lines
    requires forall h :: 0 <= h < |t[c]| ==> RuleLine(c, t[c][h]) in lines
    requires forall l :: l in lines ==> l in before || IsRuleLine(t, l)
    ensures SavedSome(t, done + {c}, lines)
  {
    hide RuleLine, IsDispatch, IsRuleLine;
  }

  lemma NoDispatch()
    ensures !IsDispatch("*nat") && !IsDispatch("COMMIT")
  {
  }

  // ---------- reading the saved rules ----------

  /** The line is a rule that sends this cluster IP to this chain. */
  predicate Tells(l: string, chain: string, clusterIP: string) {
    IsDispatch(l) && |Split(l)| >= 18 && Split(l)[17] == chain && Split(l)[3] == clusterIP
  }

  /** The last line that tells of the chain is line i. */
  ghost predicate TellsLast(lines: seq<string>, i: nat, chain: string, clusterIP: string) {
    i < |lines| && Tells(lines[i], chain, clusterIP) && forall j, ip :: i < j < |lines| ==> !Tells(lines[j], chain, ip)
  }

  /** The map holds the chains of the dispatch lines, each with the cluster IP of its last line. */
  ghost predicate ReadFrom(lines: seq<string>, clusterIPs: map<string, string>) {
    && (forall l, c, ip :: l in lines && Tells(l, c, ip) ==> c in clusterIPs)
    && (forall c :: c in clusterIPs ==> exists i: nat :: TellsLast(lines, i, c, clusterIPs[c]))
  }

  /** The cluster IPs by chain name that Init reads from the lines of a saved table; None where it would index past the
      end of a line. */
  method ReadClusterIPs(lines: seq<string>) returns (r: Option<map<string, string>>)
    ensures r.None? <==> exists l :: l in lines && IsShort(l)
    ensures r.Some? ==> ReadFrom(lines, r.value)
  {
    hide Split, IsDispatch;
    var clusterIPs: map<string, string> := map[];
    for i := 0 to |lines|
      invariant forall j :: 0 <= j < i && IsDispatch(lines[j]) ==> |Split(lines[j])| >= 18
      invariant ReadFrom(lines[..i], clusterIPs)
    {
      var line := lines[i];
      assert lines[..i + 1] == lines[..i] + [line];
      if IsDispatch(line) {
        var chainStrings := Split(line);
        if |chainStrings| < 18 {
          assert line in lines && IsShort(line);
          return None;
        }
        var chainName := chainStrings[17];
        var clusterIP := chainStrings[3];
        ReadOne(lines, i, clusterIPs, chainName, clusterIP);
        clusterIPs := clusterIPs[chainName := clusterIP];
      } else {
        SkipOne(lines, i, clusterIPs);
      }
    }
    assert lines[..|lines|] == lines;
    r := Some(clusterIPs);
  }

  lemma ReadOne(lines: seq<string>, i: nat, clusterIPs: map<string, string>, chain: string, clusterIP: string)
    requires i < |lines| && ReadFrom(lines[..i], clusterIPs) && Tells(lines[i], chain, clusterIP)
    ensures ReadFrom(lines[..i + 1], clusterIPs[chain := clusterIP])
  {
    hide Split, IsDispatch;
    var next := clusterIPs[chain := clusterIP];
    var longer := lines[..i + 1];
    assert longer == lines[..i] + [lines[i]];
    forall c | c in next ensures exists k: nat :: TellsLast(longer, k, c, next[c]) {
      if c == chain {
        assert TellsLast(longer, i, c, next[c]);
      } else {
        var k: nat :| TellsLast(lines[..i], k, c, clusterIPs[c]);
        assert TellsLast(longer, k, c, clusterIPs[c]);
      }
    }
  }

  lemma SkipOne(lines: seq<string>, i: nat, clusterIPs: map<string, string>)
    requires i < |lines| && ReadFrom(lines[..i], clusterIPs) && !IsDispatch(lines[i])
    ensures ReadFrom(lines[..i + 1], clusterIPs)
  {
    hide Split, IsDispatch;
    var longer := lines[..i + 1];
    assert longer == lines[..i] + [lines[i]];
    forall c | c in clusterIPs ensures exists k: nat :: TellsLast(longer, k, c, clusterIPs[c]) {
      var k: nat :| TellsLast(lines[..i], k, c, clusterIPs[c]);
      assert TellsLast(longer, k, c, clusterIPs[c]);
    }
  }

  /** The map is what Init reads from the saved table. */
  ghost predicate Remembered(t: Table, clusterIPs: map<string, string>) {
    exists lines :: SavedAs(t, lines) && ReadFrom(lines, clusterIPs)
  }

  /** The lines hold exactly these rules of the dispatch chain, besides others. */
  ghost predicate Echoes(lines: seq<string>, infos: seq<ServicePortInfo>, names: seq<string>) {
    && |infos| == |names|
    && (forall k :: 0 <= k < |infos| ==>
          PlainInfo(infos[k], names[k]) && Join(DispatchWords(infos[k], names[k])) in lines)
    && (forall l :: l in lines && IsDispatch(l) ==>
          exists k :: 0 <= k < |infos| && l == Join(DispatchWords(infos[k], names[k])))
    && (forall k, h :: 0 <= k < h < |names| && names[k] == names[h] ==> infos[k].clusterIP == infos[h].clusterIP)
  }

  /** From an echo of its own rules Init recovers exactly the cluster IP of every chain. */
  method RebuildClusterIPs(lines: seq<string>, ghost infos: seq<ServicePortInfo>, ghost names: seq<string>)
    returns (clusterIPs: map<string, string>)
    requires Echoes(lines, infos, names)
    ensures forall c :: c in clusterIPs <==> c in names
    ensures forall k :: 0 <= k < |names| ==> clusterIPs[names[k]] == ClusterIPOf(infos[k]).chars
  {
    hide Split, Join, DispatchWords, PlainInfo, IsDispatch, ClusterIPOf, Tells, ReadFrom;
    forall l | l in lines && IsDispatch(l) ensures |Split(l)| >= 18 {
      var k :| 0 <= k < |infos| && l == Join(DispatchWords(infos[k], names[k]));
      LineReadsBack(infos[k], names[k]);
    }
    var r := ReadClusterIPs(lines);
    clusterIPs := r.value;
    forall c ensures c in clusterIPs <==> c in names {
      ChainsBack(lines, infos, names, clusterIPs, c);
    }
    forall k | 0 <= k < |names| ensures names[k] in clusterIPs && clusterIPs[names[k]] == ClusterIPOf(infos[k]).chars {
      ClusterIPBack(lines, infos, names, clusterIPs, k);
    }
  }

  lemma LineReadsBack(info: ServicePortInfo, name: string)
    requires PlainInfo(info, name)
    ensures var l := Join(DispatchWords(info, name));
            |Split(l)| == 18 && Tells(l, name, ClusterIPOf(info).chars)
  {
    hide Split, Join, DispatchWords, Tokens, IsDispatch;
    RuleReadsBack(info, name);
  }

  lemma TellsOne(l: string, c: string, ip: string, c': string, ip': string)
    requires Tells(l, c, ip) && Tells(l, c', ip')
    ensures c == c' && ip == ip'
  {
    hide Split, IsDispatch;
  }

  /** A line of the echo that names a chain is the line of that chain. */
  lemma LineOf(lines: seq<string>, infos: seq<ServicePortInfo>, names: seq<string>, l: string, c: string, ip: string)
    returns (k: nat)
    requires Echoes(lines, infos, names) && l in lines && Tells(l, c, ip)
    ensures k < |names| && k < |infos| && names[k] == c && ip == ClusterIPOf(infos[k]).chars
  {
    hide Split, Join, DispatchWords, PlainInfo, IsDispatch, ClusterIPOf, Tells;
    TellsDispatch(l, c, ip);
    k :| 0 <= k < |infos| && l == Join(DispatchWords(infos[k], names[k]));
    LineReadsBack(infos[k], names[k]);
    TellsOne(l, c, ip, names[k], ClusterIPOf(infos[k]).chars);
  }

  lemma TellsDispatch(l: string, c: string, ip: string)
    requires Tells(l, c, ip)
    ensures IsDispatch(l)
  {
    hide Split, IsDispatch;
  }

  lemma ChainsBack(lines: seq<string>, infos: seq<ServicePortInfo>, names: seq<string>, clusterIPs: map<string, string>,
                   c: string)
    requires Echoes(lines, infos, names) && ReadFrom(lines, clusterIPs)
    ensures c in clusterIPs <==> c in names
  {
    hide Split, Join, DispatchWords, PlainInfo, IsDispatch, ClusterIPOf, Tells;
    if c in clusterIPs {
      var i: nat :| TellsLast(lines, i, c, clusterIPs[c]);
      var k := LineOf(lines, infos, names, lines[i], c, clusterIPs[c]);
    }
    if c in names {
      var k :| 0 <= k < |names| && names[k] == c;
      LineReadsBack(infos[k], names[k]);
    }
  }

  lemma ClusterIPBack(lines: seq<string>, infos: seq<ServicePortInfo>, names: seq<string>,
                      clusterIPs: map<string, string>, k: nat)
    requires Echoes(lines, infos, names) && ReadFrom(lines, clusterIPs) && k < |names|
    ensures k < |infos| && names[k] in clusterIPs && clusterIPs[names[k]] == ClusterIPOf(infos[k]).chars
  {
    hide Split, Join, DispatchWords, PlainInfo, IsDispatch, ClusterIPOf, Tells;
    ChainsBack(lines, infos, names, clusterIPs, names[k]);
    var i: nat :| TellsLast(lines, i, names[k], clusterIPs[names[k]]);
    var h := LineOf(lines, infos, names, lines[i], names[k], clusterIPs[names[k]]);
    SameClusterIP(lines, infos, names, k, h);
  }

  lemma SameClusterIP(lines: seq<string>, infos: seq<ServicePortInfo>, names: seq<string>, k: nat, h: nat)
    requires Echoes(lines, infos, names) && k < |names| && h < |names| && names[k] == names[h]
    ensures k < |infos| && h < |infos| && ClusterIPOf(infos[k]) == ClusterIPOf(infos[h])
  {
    hide Join, DispatchWords, PlainInfo, IsDispatch;
    assert k <= h || h <= k;
  }
}
