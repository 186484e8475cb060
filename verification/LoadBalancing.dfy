/** The random rules of a service chain (pkg/proxy/server/server.go, pkg/proxy/server/iptables.go): probabilities with
    ten digits, and what a packet makes of a list of them. */
module LoadBalancing {
  import opened Wrappers
  import opened EndpointStrings

  const DIGITS := 1_0000_000_000

  /** computeProbability: 1/n to ten digits, in units of the last digit. */
  function Rounded(n: nat): nat
    requires n >= 1
  {
    (2 * DIGITS + n) / (2 * n)
  }

  /** %0.10f of that number. */
  function Printed(v: nat): Text {
    Text(Itoa(v / DIGITS) + "." + Padded(v % DIGITS, 10))
  }

  function Padded(v: nat, width: nat): string {
    if width == 0 then "" else Padded(v / 10, width - 1) + [Digit(v % 10)]
  }

  function ComputeProbability(n: nat): Text
    requires n >= 1
  {
    Printed(Rounded(n))
  }

  // ---------- reading a probability ----------

  function DigitValue(c: char): nat {
    if '0' <= c <= '9' then (c as int) - ('0' as int) else 0
  }

  /** The number that digits stand for. */
  function ReadDigits(s: string): nat {
    if s == "" then 0 else 10 * ReadDigits(s[..|s| - 1]) + DigitValue(s[|s| - 1])
  }

  /** What a number with ten digits behind the point stands for, in units of the last digit. */
  function ReadUnits(s: string): nat {
    if |s| < 11 || s[|s| - 11] != '.' then 0
    else ReadDigits(s[..|s| - 11]) * DIGITS + ReadDigits(s[|s| - 10..])
  }

  function TenTo(n: nat): nat {
    if n == 0 then 1 else 10 * TenTo(n - 1)
  }

  lemma DigitReads(n: nat)
    requires n < 10
    ensures DigitValue(Digit(n)) == n
  {
  }

  lemma ReadPush(s: string, n: nat)
    requires n < 10
    ensures ReadDigits(s + [Digit(n)]) == 10 * ReadDigits(s) + n
  {
    DigitReads(n);
    assert (s + [Digit(n)])[..|s|] == s;
  }

  lemma {:induction false} ItoaReads(n: nat)
    ensures ReadDigits(Itoa(n)) == n
  {
    if n < 10 {
      ReadPush("", n);
      assert "" + [Digit(n)] == Itoa(n);
    } else {
      ItoaReads(n / 10);
      ReadPush(Itoa(n / 10), n % 10);
    }
  }

  lemma {:induction false} PaddedReads(v: nat, width: nat)
    requires v < TenTo(width)
    ensures |Padded(v, width)| == width && ReadDigits(Padded(v, width)) == v
  {
    if width > 0 {
      PaddedReads(v / 10, width - 1);
      ReadPush(Padded(v / 10, width - 1), v % 10);
    }
  }

  /** Reading undoes printing. */
  lemma PrintedReads(v: nat)
    ensures ReadUnits(Printed(v).chars) == v
  {
    var a, b := Itoa(v / DIGITS), Padded(v % DIGITS, 10);
    ItoaReads(v / DIGITS);
    TenDigits();
    PaddedReads(v % DIGITS, 10);
    var s := a + "." + b;
    assert s[..|s| - 11] == a && s[|s| - 11] == '.' && s[|s| - 10..] == b;
  }

  lemma TenDigits()
    ensures TenTo(10) == DIGITS
  {
    assert TenTo(5) == 100000;
    assert TenTo(6) == 1000000;
    assert TenTo(8) == 100000000;
  }

  lemma RoundedIsNear(n: nat)
    requires n >= 1
    ensures -(n as int) <= 2 * (Rounded(n) * n - DIGITS) <= n
    ensures Rounded(1) == DIGITS && Rounded(n) <= DIGITS
  {
    var q := (2 * DIGITS + n) / (2 * n);
    assert q * (2 * n) <= 2 * DIGITS + n < (q + 1) * (2 * n);
    assert q * (2 * n) == 2 * (q * n) && (q + 1) * (2 * n) == 2 * (q * n) + 2 * n;
    Product(q, DIGITS + 1, n);
    assert (DIGITS + 1) * n == DIGITS * n + n;
  }

  lemma Product(a: nat, b: nat, n: nat)
    ensures a >= b ==> a * n >= b * n
  {
  }

  // ---------- the probability table ----------

  class Probabilities {
    /** Index 0 holds a placeholder. */
    var precomputed: seq<Text>

    ghost predicate Valid()
      reads this
    {
      forall i :: 1 <= i < |precomputed| ==> precomputed[i] == ComputeProbability(i)
    }

    constructor ()
      ensures Valid()
    {
      precomputed := [];
    }

    method PrecomputeProbabilities(numberOfPrecomputed: nat)
      requires Valid()
      modifies this
      ensures Valid() && old(precomputed) <= precomputed && |precomputed| > numberOfPrecomputed
      ensures old(precomputed) == [] ==> precomputed[0] == BAD_VALUE
    {
      hide ComputeProbability;
      if |precomputed| == 0 {
        precomputed := precomputed + [BAD_VALUE];
      }
      var first := |precomputed|;
      for i := first to if first <= numberOfPrecomputed then numberOfPrecomputed + 1 else first
        invariant |precomputed| == i && Valid() && old(precomputed) <= precomputed
        invariant old(precomputed) == [] ==> precomputed[0] == BAD_VALUE
      {
        precomputed := precomputed + [ComputeProbability(i)];
      }
    }

    /** However far the table has grown, it answers with the computed probability. */
    method Probability(n: nat) returns (p: Text)
      requires Valid()
      modifies this
      ensures Valid() && old(precomputed) <= precomputed
      ensures n >= 1 ==> p == ComputeProbability(n)
    {
      hide ComputeProbability;
      if n >= |precomputed| {
        PrecomputeProbabilities(n);
      }
      p := precomputed[n];
    }
  }

  const BAD_VALUE := Text("<bad value>")

  // ---------- what a packet makes of the rules ----------

  function Taken(reach: real, p: real): real {
    reach * p
  }

  function Passed(reach: real, p: real): real {
    reach * (1.0 - p)
  }

  /** The probability that a packet gets past the first i rules. */
  ghost function Reach(ps: seq<real>, i: nat): real
    requires i <= |ps|
  {
    if i == 0 then 1.0 else Passed(Reach(ps, i - 1), ps[i - 1])
  }

  /** The probability that rule i takes it. */
  ghost function Chosen(ps: seq<real>, i: nat): real
    requires i < |ps|
  {
    Taken(Reach(ps, i), ps[i])
  }

  ghost function ChosenUpTo(ps: seq<real>, i: nat): real
    requires i <= |ps|
  {
    if i == 0 then 0.0 else ChosenUpTo(ps, i - 1) + Chosen(ps, i - 1)
  }

  function Share(n: nat): real
    requires n >= 1
  {
    1.0 / (n as real)
  }

  predicate Within(x: real, y: real, e: real) {
    -e <= x - y <= e
  }

  lemma {:induction false} PastOrChosen(ps: seq<real>, i: nat)
    requires i <= |ps|
    ensures ChosenUpTo(ps, i) + Reach(ps, i) == 1.0
  {
    if i > 0 {
      PastOrChosen(ps, i - 1);
      var r, p := Reach(ps, i - 1), ps[i - 1];
      assert r * (1.0 - p) == r - r * p;
    }
  }

  /** With a certain last rule every packet is taken by some rule. */
  lemma SumsToOne(ps: seq<real>)
    requires ps != [] && ps[|ps| - 1] == 1.0
    ensures ChosenUpTo(ps, |ps|) == 1.0
  {
    PastOrChosen(ps, |ps|);
  }

  /** The rules' probabilities are within e of 1/n, 1/(n-1), ..., 1. */
  ghost predicate Near(ps: seq<real>, e: real) {
    && e >= 0.0
    && forall j :: 0 <= j < |ps| ==> 0.0 <= ps[j] <= 1.0 && Within(ps[j], Share(|ps| - j), e)
  }

  function Left(n: nat, i: nat): real
    requires n >= 1 && i <= n
  {
    ((n - i) as real) / (n as real)
  }

  lemma LeftNext(n: nat, i: nat)
    requires i < n
    ensures Taken(Left(n, i), Share(n - i)) == Share(n) && Left(n, i + 1) == Left(n, i) - Share(n)
    ensures 0.0 <= Left(n, i) <= 1.0
  {
    var a, b := n as real, (n - i) as real;
    assert (b / a) * (1.0 / b) == 1.0 / a;
    assert ((n - (i + 1)) as real) == b - 1.0;
  }

  /** A factor between 0 and 1 does not leave a range around 0. */
  lemma Scale(x: real, e: real, c: real)
    requires -e <= x <= e && 0.0 <= c <= 1.0
    ensures -e <= x * c <= e
  {
    Bounded(x, c, e);
    Bounded(-x, c, e);
    var y := -x;
    assert y * c == -(x * c);
  }

  lemma Bounded(x: real, c: real, e: real)
    requires x <= e && 0.0 <= e && 0.0 <= c <= 1.0
    ensures x * c <= e
  {
    if x >= 0.0 {
      Shrink(x, c);
    } else {
      Positive(-x, c);
    }
  }

  lemma Shrink(x: real, c: real)
    requires x >= 0.0 && 0.0 <= c <= 1.0
    ensures 0.0 <= x * c <= x
  {
    Positive(x, 1.0 - c);
    assert x * (1.0 - c) == x - x * c;
  }

  /** One more rule: the way past it is off by no more than before plus e. */
  lemma PastNear(r: real, l: real, p: real, q: real, e1: real, e: real)
    requires Within(r, l, e1) && Within(p, q, e) && 0.0 <= p <= 1.0 && 0.0 <= l <= 1.0
    ensures Within(Passed(r, p), l - Taken(l, q), e1 + e)
  {
    Scale(r - l, e1, 1.0 - p);
    Scale(p - q, e, l);
    Expand(r, l, p, q);
  }

  lemma Expand(r: real, l: real, p: real, q: real)
    ensures r * (1.0 - p) - (l - l * q) == (r - l) * (1.0 - p) - (p - q) * l
    ensures r * p - l * q == (r - l) * p + (p - q) * l
  {
  }

  lemma TakenNear(r: real, l: real, p: real, q: real, e1: real, e: real)
    requires Within(r, l, e1) && Within(p, q, e) && 0.0 <= p <= 1.0 && 0.0 <= l <= 1.0
    ensures Within(Taken(r, p), Taken(l, q), e1 + e)
  {
    Scale(r - l, e1, p);
    Scale(p - q, e, l);
    Expand(r, l, p, q);
  }

  lemma LeftAll(n: nat, e: real)
    requires n >= 1
    ensures Left(n, 0) == 1.0 && Times(0, e) == 0.0
  {
  }

  function Times(i: nat, e: real): real {
    (i as real) * e
  }

  lemma OneMore(i: nat, e: real)
    ensures Times(i + 1, e) == Times(i, e) + e
  {
  }

  lemma PassedBounds(r: real, p: real)
    requires 0.0 <= r <= 1.0 && 0.0 <= p <= 1.0
    ensures 0.0 <= Passed(r, p) <= 1.0
  {
    Shrink(r, 1.0 - p);
  }

  lemma {:induction false} ReachNear(ps: seq<real>, e: real, i: nat)
    requires Near(ps, e) && i <= |ps| && ps != []
    ensures Within(Reach(ps, i), Left(|ps|, i), Times(i, e))
    ensures 0.0 <= Reach(ps, i) <= 1.0
  {
    hide Share, Left, Taken, Passed, Times;
    var n := |ps|;
    if i == 0 {
      LeftAll(n, e);
    } else {
      ReachNear(ps, e, i - 1);
      LeftNext(n, i - 1);
      PastNear(Reach(ps, i - 1), Left(n, i - 1), ps[i - 1], Share(n - (i - 1)), Times(i - 1, e), e);
      OneMore(i - 1, e);
      PassedBounds(Reach(ps, i - 1), ps[i - 1]);
    }
  }

  lemma Positive(a: real, b: real)
    requires a >= 0.0 && b >= 0.0
    ensures a * b >= 0.0
  {
  }

  /** With every probability within e of its share, every rule is within n * e of 1/n. */
  lemma ChosenNear(ps: seq<real>, e: real, i: nat)
    requires Near(ps, e) && i < |ps|
    ensures Within(Chosen(ps, i), Share(|ps|), Times(|ps|, e))
  {
    hide Share, Left, Reach, Taken, Times;
    var n := |ps|;
    ReachNear(ps, e, i);
    LeftNext(n, i);
    TakenNear(Reach(ps, i), Left(n, i), ps[i], Share(n - i), Times(i, e), e);
    OneMore(i, e);
    Widen(i + 1, n, e);
  }

  lemma Widen(i: nat, n: nat, e: real)
    requires i <= n && e >= 0.0
    ensures Times(i, e) <= Times(n, e)
  {
    Positive((n - i) as real, e);
    assert (n as real) * e == (i as real) * e + ((n - i) as real) * e;
  }

  /** With the exact probabilities 1/n, 1/(n-1), ..., 1 every rule takes its packet with probability exactly 1/n. */
  lemma ChosenExactly(ps: seq<real>, i: nat)
    requires i < |ps| && forall j :: 0 <= j < |ps| ==> ps[j] == Share(|ps| - j)
    ensures Chosen(ps, i) == Share(|ps|)
  {
    forall j | 0 <= j < |ps| ensures 0.0 <= ps[j] <= 1.0 {
      ShareBounds(|ps| - j);
    }
    ChosenNear(ps, 0.0, i);
  }

  lemma ShareBounds(n: nat)
    requires n >= 1
    ensures 0.0 < Share(n) <= 1.0
  {
  }

  /** The probability a text stands for. */
  ghost function Denoted(probability: Text): real {
    (ReadUnits(probability.chars) as real) / (DIGITS as real)
  }

  /** The probabilities the texts of n rules stand for. */
  ghost function DigitsOf(n: nat): (ps: seq<real>)
    ensures |ps| == n
  {
    seq(n, j requires 0 <= j < n => Denoted(ComputeProbability(n - j)))
  }

  lemma DigitsAt(n: nat, j: nat)
    requires j < n
    ensures DigitsOf(n)[j] == Denoted(ComputeProbability(n - j))
    ensures DigitsOf(n)[j] == (Rounded(n - j) as real) / (DIGITS as real)
  {
    hide Rounded, Printed, ReadUnits;
    PrintedReads(Rounded(n - j));
  }

  lemma DigitsNear(n: nat)
    requires n >= 1
    ensures Near(DigitsOf(n), 0.5 / (DIGITS as real)) && DigitsOf(n)[n - 1] == 1.0
  {
    hide Rounded, DigitsOf;
    forall j | 0 <= j < n
      ensures 0.0 <= DigitsOf(n)[j] <= 1.0 && Within(DigitsOf(n)[j], Share(n - j), 0.5 / (DIGITS as real))
    {
      RoundedIsNear(n - j);
      DigitsAt(n, j);
      Quotient(Rounded(n - j), n - j);
    }
    RoundedIsNear(1);
    DigitsAt(n, n - 1);
  }

  lemma Quotient(r: nat, m: nat)
    requires m >= 1 && -(m as int) <= 2 * (r * m - DIGITS) <= m && r <= DIGITS
    ensures 0.0 <= (r as real) / (DIGITS as real) <= 1.0
    ensures Within((r as real) / (DIGITS as real), Share(m), 0.5 / (DIGITS as real))
  {
    var x, d, k := r as real, DIGITS as real, m as real;
    assert (r * m) as real == x * k;
    assert x / d - 1.0 / k == (x * k - d) / (d * k);
    assert -0.5 * k <= x * k - d <= 0.5 * k;
    DivideBy(x * k - d, d, k);
  }

  lemma DivideBy(y: real, d: real, k: real)
    requires d > 0.0 && k > 0.0 && -0.5 * k <= y <= 0.5 * k
    ensures -0.5 / d <= y / (d * k) <= 0.5 / d
  {
    var z := y / k;
    assert -0.5 <= z <= 0.5 by { Ratio(y, k); }
    var w := z / d;
    assert w * d == z && z * k == y;
    assert w * (d * k) == y;
    Positive(d, k);
    Quotients(y, d * k, w);
    Ratio2(z, d);
  }

  lemma Quotients(y: real, m: real, w: real)
    requires m != 0.0 && w * m == y
    ensures y / m == w
  {
  }

  lemma Ratio(y: real, k: real)
    requires k > 0.0 && -0.5 * k <= y <= 0.5 * k
    ensures -0.5 <= y / k <= 0.5
  {
    var z := y / k;
    assert z * k == y;
    if z > 0.5 { Positive(z - 0.5, k); }
    if z < -0.5 { Positive(-0.5 - z, k); }
  }

  lemma Ratio2(z: real, d: real)
    requires d > 0.0 && -0.5 <= z <= 0.5
    ensures -0.5 / d <= z / d <= 0.5 / d
  {
    DivideMore(-0.5, z, d);
    DivideMore(z, 0.5, d);
  }

  lemma DivideMore(a: real, b: real, d: real)
    requires d > 0.0 && a <= b
    ensures a / d <= b / d
  {
    var p, q := a / d, (b - a) / d;
    assert p * d == a && q * d == b - a;
    Sum(p, q, d);
    Quotients(b, d, p + q);
    NotNegative(q, d);
  }

  lemma Sum(p: real, q: real, d: real)
    ensures (p + q) * d == p * d + q * d
  {
  }

  lemma NotNegative(q: real, d: real)
    requires d > 0.0 && q * d >= 0.0
    ensures q >= 0.0
  {
  }

  /** n rules as written spread packets evenly up to n / 2 units of the last digit, and lose none. */
  lemma SpreadEvenly(n: nat, i: nat)
    requires i < n
    ensures Within(Chosen(DigitsOf(n), i), Share(n), Times(n, 0.5 / (DIGITS as real)))
    ensures ChosenUpTo(DigitsOf(n), n) == 1.0
  {
    hide Rounded, Times, Chosen;
    DigitsNear(n);
    ChosenNear(DigitsOf(n), 0.5 / (DIGITS as real), i);
    SumsToOne(DigitsOf(n));
  }
}
