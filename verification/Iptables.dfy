/** The nat table and what iptables-restore --noflush does to it: the target language of
    pkg/proxy/server/iptables.go. */
module Iptables {
  import opened Wrappers
  import opened EndpointStrings
  import opened ServicePorts

  /** A destination to match, the words of the other matches, the new destination of a DNAT rule, and the chain to jump
      to. */
  datatype Rule = Rule(destination: Option<Text>, words: seq<Text>, dnat: Option<Text>, target: Option<Chain>)

  /** The IPv4 tables take IPv4 addresses only. */
  predicate Accepted(r: Rule) {
    && (r.destination.Some? ==> IsDestination(r.destination.value.chars))
    && (r.dnat.Some? ==> IsHostPort(r.dnat.value.chars))
  }

  type Table = map<Chain, seq<Rule>>

  datatype Line = Declare(chain: Chain) | Append(chain: Chain, rule: Rule) | DeleteChain(chain: Chain)

  predicate Refers(t: Table, c: Chain) {
    exists d, i :: d in t && 0 <= i < |t[d]| && t[d][i].target == Some(c)
  }

  /** Declaring creates a chain or empties it; a rule needs its chain, its target and addresses of the right family;
      only an empty chain that no rule jumps to can be deleted. */
  function Exec(t: Table, l: Line): Option<Table> {
    match l
    case Declare(c) => Some(t[c := []])
    case Append(c, r) =>
      if c in t && (r.target.Some? ==> r.target.value in t) && Accepted(r) then Some(t[c := t[c] + [r]]) else None
    case DeleteChain(c) =>
      if c in t && t[c] == [] && !Refers(t, c) then Some(t - {c}) else None
  }

  function Run(t: Table, lines: seq<Line>): Option<Table> {
    if lines == [] then Some(t)
    else
      var before := Run(t, lines[..|lines| - 1]);
      if before.None? then None else Exec(before.value, lines[|lines| - 1])
  }

  lemma RunPush(t: Table, lines: seq<Line>, l: Line)
    ensures Run(t, lines + [l]) == if Run(t, lines).None? then None else Exec(Run(t, lines).value, l)
  {
    assert (lines + [l])[..|lines|] == lines;
  }

  lemma {:induction false} RunConcat(t: Table, a: seq<Line>, b: seq<Line>)
    ensures Run(t, a + b) == if Run(t, a).None? then None else Run(Run(t, a).value, b)
  {
    if b == [] {
      assert a + b == a;
    } else {
      var front, last := b[..|b| - 1], b[|b| - 1];
      RunConcat(t, a, front);
      assert a + b == (a + front) + [last];
      RunPush(t, a + front, last);
    }
  }

  // ---------- declaring ----------

  function Chains(lines: seq<Line>): set<Chain> {
    set l | l in lines :: l.chain
  }

  function Emptied(t: Table, cs: set<Chain>): Table {
    map c | c in t.Keys + cs :: if c in cs then [] else t[c]
  }

  lemma EmptyOne(t: Table, cs: set<Chain>, c: Chain)
    ensures Emptied(t, cs)[c := []] == Emptied(t, cs + {c})
  {
    SameMap(Emptied(t, cs)[c := []], Emptied(t, cs + {c}));
  }

  lemma EmptyNone(t: Table)
    ensures Emptied(t, {}) == t
  {
    SameMap(Emptied(t, {}), t);
  }

  lemma {:induction false} RunDeclares(t: Table, lines: seq<Line>)
    requires forall l :: l in lines ==> l.Declare?
    ensures Run(t, lines) == Some(Emptied(t, Chains(lines)))
  {
    hide Emptied;
    if lines == [] {
      EmptyNone(t);
      assert Chains(lines) == {};
    } else {
      var front, last := lines[..|lines| - 1], lines[|lines| - 1];
      RunDeclares(t, front);
      assert lines == front + [last];
      assert Chains(lines) == Chains(front) + {last.chain};
      EmptyOne(t, Chains(front), last.chain);
    }
  }

  // ---------- appending ----------

  /** The rules the lines append to chain c, in order. */
  function RulesFor(lines: seq<Line>, c: Chain): seq<Rule> {
    if lines == [] then []
    else
      var last := lines[|lines| - 1];
      RulesFor(lines[..|lines| - 1], c) + if last.Append? && last.chain == c then [last.rule] else []
  }

  lemma RulesForPush(lines: seq<Line>, l: Line, c: Chain)
    ensures RulesFor(lines + [l], c) == RulesFor(lines, c) + if l.Append? && l.chain == c then [l.rule] else []
  {
    assert (lines + [l])[..|lines|] == lines;
  }

  lemma {:induction false} RulesForConcat(a: seq<Line>, b: seq<Line>, c: Chain)
    ensures RulesFor(a + b, c) == RulesFor(a, c) + RulesFor(b, c)
  {
    if b == [] {
      assert a + b == a;
    } else {
      var front, last := b[..|b| - 1], b[|b| - 1];
      RulesForConcat(a, front, c);
      assert a + b == (a + front) + [last];
      RulesForPush(a + front, last, c);
    }
  }

  lemma {:induction false} RulesForElsewhere(lines: seq<Line>, c: Chain)
    requires forall l :: l in lines && l.Append? ==> l.chain != c
    ensures RulesFor(lines, c) == []
  {
    if lines != [] {
      assert lines[|lines| - 1] in lines;
      RulesForElsewhere(lines[..|lines| - 1], c);
    }
  }

  lemma {:induction false} RuleFrom(lines: seq<Line>, c: Chain, r: Rule)
    requires r in RulesFor(lines, c)
    ensures Append(c, r) in lines
  {
    if lines != [] {
      var front, last := lines[..|lines| - 1], lines[|lines| - 1];
      if r in RulesFor(front, c) {
        RuleFrom(front, c, r);
      } else {
        assert last == Append(c, r);
      }
    }
  }

  function Filled(t: Table, lines: seq<Line>): Table {
    map c | c in t :: t[c] + RulesFor(lines, c)
  }

  lemma {:induction false} RunAppends(t: Table, lines: seq<Line>)
    requires forall l :: l in lines ==>
               l.Append? && l.chain in t && (l.rule.target.Some? ==> l.rule.target.value in t) && Accepted(l.rule)
    ensures Run(t, lines) == Some(Filled(t, lines))
  {
    hide Filled, Accepted;
    if lines == [] {
      FillNone(t);
    } else {
      var front, last := lines[..|lines| - 1], lines[|lines| - 1];
      assert last in lines;
      RunAppends(t, front);
      FilledKeys(t, front);
      AppendOne(t, front, last);
      assert front + [last] == lines;
    }
  }

  /** One rule that is not accepted, and the whole script is refused. */
  lemma {:induction false} RunRefused(t: Table, lines: seq<Line>, l: Line)
    requires l in lines && l.Append? && !Accepted(l.rule)
    ensures Run(t, lines).None?
  {
    hide Accepted;
    var front, last := lines[..|lines| - 1], lines[|lines| - 1];
    if l in front {
      RunRefused(t, front, l);
    } else {
      assert lines == front + [last];
    }
  }

  lemma AppendOne(t: Table, lines: seq<Line>, l: Line)
    requires l.Append? && l.chain in t
    ensures Filled(t, lines)[l.chain := Filled(t, lines)[l.chain] + [l.rule]] == Filled(t, lines + [l])
  {
    hide RulesFor;
    var filled := Filled(t, lines);
    var next := filled[l.chain := filled[l.chain] + [l.rule]];
    forall c | c in t ensures Filled(t, lines + [l])[c] == next[c] {
      RulesForPush(lines, l, c);
      PushLast(t[c], RulesFor(lines, c), l.rule);
    }
    assert next.Keys == t.Keys;
    SameMap(next, Filled(t, lines + [l]));
  }

  lemma PushLast(a: seq<Rule>, b: seq<Rule>, r: Rule)
    ensures (a + b) + [r] == a + (b + [r]) && b + [] == b
  {
  }

  lemma FillNone(t: Table)
    ensures Filled(t, []) == t
  {
    forall c | c in t ensures t[c] + RulesFor([], c) == t[c] {
      assert RulesFor([], c) == [];
    }
    SameMap(Filled(t, []), t);
  }

  lemma FilledKeys(t: Table, lines: seq<Line>)
    ensures Filled(t, lines).Keys == t.Keys
  {
  }

  // ---------- deleting ----------

  lemma {:induction false} RunDeletes(t: Table, lines: seq<Line>)
    requires forall l :: l in lines ==> l.DeleteChain? && l.chain in t && t[l.chain] == [] && !Refers(t, l.chain)
    requires forall i, j :: 0 <= i < j < |lines| ==> lines[i].chain != lines[j].chain
    ensures Run(t, lines) == Some(t - Chains(lines))
  {
    if lines == [] {
      assert Chains(lines) == {};
      SameMap(t - {}, t);
    } else {
      var front, last := lines[..|lines| - 1], lines[|lines| - 1];
      assert last in lines;
      RunDeletes(t, front);
      assert lines == front + [last];
      assert Chains(lines) == Chains(front) + {last.chain};
      forall l | l in front ensures l.chain != last.chain {
        var i :| 0 <= i < |front| && front[i] == l;
        assert lines[i].chain != lines[|lines| - 1].chain;
      }
      RefersBefore(t, Chains(front), last.chain);
      MinusOne(t, Chains(front), last.chain);
    }
  }

  lemma MinusOne(t: Table, gone: set<Chain>, c: Chain)
    ensures t - gone - {c} == t - (gone + {c})
  {
    SameMap(t - gone - {c}, t - (gone + {c}));
  }

  lemma RefersBefore(t: Table, gone: set<Chain>, c: Chain)
    ensures Refers(t - gone, c) ==> Refers(t, c)
  {
    if Refers(t - gone, c) {
      var d, i :| d in t - gone && 0 <= i < |(t - gone)[d]| && (t - gone)[d][i].target == Some(c);
      assert t[d][i].target == Some(c);
    }
  }
}
