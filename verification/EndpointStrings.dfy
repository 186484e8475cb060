/** Endpoint strings of the proxy and their order. */
module EndpointStrings {

  /** Go's order on strings. */
  predicate Before(a: string, b: string) {
    b != [] && (a == [] || a[0] < b[0] || (a[0] == b[0] && Before(a[1..], b[1..])))
  }

  /** The order of Go's strings: at the first place where they differ the smaller character comes first, and a proper
      prefix comes before the whole. */
  lemma {:induction false} BeforeMeans(a: string, b: string)
    ensures Before(a, b) <==>
              exists i :: 0 <= i <= |a| && i < |b| && a[..i] == b[..i] && (i < |a| ==> a[i] < b[i])
  {
    if a != [] && b != [] && a[0] == b[0] {
      BeforeMeans(a[1..], b[1..]);
      var s, t := a[1..], b[1..];
      if i :| 0 <= i <= |s| && i < |t| && s[..i] == t[..i] && (i < |s| ==> s[i] < t[i]) {
        assert a[..i + 1] == [a[0]] + a[1..][..i] && b[..i + 1] == [b[0]] + b[1..][..i];
      }
      if i :| 0 <= i <= |a| && i < |b| && a[..i] == b[..i] && (i < |a| ==> a[i] < b[i]) {
        assert i > 0;
        assert a[1..][..i - 1] == a[..i][1..] && b[1..][..i - 1] == b[..i][1..];
      }
    } else if a == [] && b != [] {
      assert a[..0] == b[..0];
    } else if a != [] && b != [] {
      assert a[..0] == b[..0];
      forall i | 0 < i <= |a| && i < |b| ensures a[..i] == b[..i] ==> a[0] == b[0] {
        assert a[..i][0] == a[0] && b[..i][0] == b[0];
      }
    }
  }

  lemma {:induction false} Irreflexive(a: string)
    ensures !Before(a, a)
  {
    if a != [] {
      Irreflexive(a[1..]);
    }
  }

  lemma {:induction false} Transitive(a: string, b: string, c: string)
    requires Before(a, b) && Before(b, c)
    ensures Before(a, c)
  {
    if a != [] && a[0] == b[0] && b[0] == c[0] {
      Transitive(a[1..], b[1..], c[1..]);
    }
  }

  lemma {:induction false} Total(a: string, b: string)
    ensures Before(a, b) || a == b || Before(b, a)
  {
    if a != [] && b != [] && a[0] == b[0] {
      Total(a[1..], b[1..]);
      assert a == [a[0]] + a[1..] && b == [b[0]] + b[1..];
    }
  }

  function Digit(n: nat): char
    requires n < 10
  {
    "0123456789"[n]
  }

  /** strconv.Itoa of a port number. */
  function Itoa(n: nat): string {
    if n < 10 then [Digit(n)] else Itoa(n / 10) + [Digit(n % 10)]
  }

  /** net.JoinHostPort. */
  function JoinHostPort(host: string, port: string): string {
    if ':' in host then "[" + host + "]:" + port else host + ":" + port
  }

  // ---------- IPv4 ----------

  function Dotted(a: nat, b: nat, c: nat, d: nat): string {
    Itoa(a) + "." + Itoa(b) + "." + Itoa(c) + "." + Itoa(d)
  }

  predicate IsIPv4(s: string) {
    exists a: nat, b: nat, c: nat, d: nat :: a < 256 && b < 256 && c < 256 && d < 256 && s == Dotted(a, b, c, d)
  }

  predicate IsPort(s: string) {
    exists p: nat :: p < 65536 && s == Itoa(p)
  }

  /** An IPv4 address and a port. */
  predicate IsHostPort(s: string) {
    exists i :: 0 <= i < |s| && s[i] == ':' && IsIPv4(s[..i]) && IsPort(s[i + 1..])
  }

  /** An IPv4 address as a network of its own. */
  predicate IsDestination(s: string) {
    |s| >= 3 && s[|s| - 3..] == "/32" && IsIPv4(s[..|s| - 3])
  }

  predicate IsDigitOrDot(c: char) {
    '0' <= c <= '9' || c == '.'
  }

  /** Digits and dots, at least one dot: neither the empty text nor an IPv6 address is an IPv4 address. */
  lemma IPv4Chars(s: string)
    requires IsIPv4(s)
    ensures '.' in s && forall c :: c in s ==> IsDigitOrDot(c)
  {
    hide Itoa;
    var a: nat, b: nat, c: nat, d: nat :| a < 256 && b < 256 && c < 256 && d < 256 && s == Dotted(a, b, c, d);
    ItoaDigits(a);
    ItoaDigits(b);
    ItoaDigits(c);
    ItoaDigits(d);
    assert s[|Itoa(a)|] == '.';
  }

  lemma HostPortChars(s: string)
    requires IsHostPort(s)
    ensures forall c :: c in s ==> IsDigitOrDot(c) || c == ':'
  {
    hide IsIPv4, IsPort;
    var i :| 0 <= i < |s| && s[i] == ':' && IsIPv4(s[..i]) && IsPort(s[i + 1..]);
    IPv4Chars(s[..i]);
    PortChars(s[i + 1..]);
    forall c | c in s ensures IsDigitOrDot(c) || c == ':' {
      var k :| 0 <= k < |s| && s[k] == c;
      assert k < i ==> s[..i][k] == c;
      assert k > i ==> s[i + 1..][k - i - 1] == c;
    }
  }

  lemma PortChars(s: string)
    requires IsPort(s)
    ensures forall c :: c in s ==> IsDigitOrDot(c)
  {
    var p: nat :| p < 65536 && s == Itoa(p);
    ItoaDigits(p);
  }

  lemma JoinIsHostPort(host: string, p: nat)
    requires IsIPv4(host) && p < 65536
    ensures IsHostPort(JoinHostPort(host, Itoa(p)))
  {
    hide IsIPv4;
    IPv4Chars(host);
    var s := host + ":" + Itoa(p);
    assert s[|host|] == ':' && s[..|host|] == host && s[|host| + 1..] == Itoa(p);
    assert JoinHostPort(host, Itoa(p)) == s;
  }

  lemma DestinationIs(ip: string)
    ensures IsDestination(ip + "/32") <==> IsIPv4(ip)
  {
    hide IsIPv4;
    var s := ip + "/32";
    assert s[..|s| - 3] == ip && s[|s| - 3..] == "/32";
  }

  lemma {:induction false} ItoaDigits(n: nat)
    ensures forall c :: c in Itoa(n) ==> '0' <= c <= '9'
  {
    if n >= 10 {
      ItoaDigits(n / 10);
    }
  }
}
