/** Strings as the tunnel controller builds and takes them apart: decimal integers
    (fmt's %d and strconv.Atoi), host:port pairs (net.SplitHostPort, net.JoinHostPort)
    and the keys under which forwardings and gateways are stored. */
module Text {

  datatype Option<+T> = None | Some(value: T)

  const INT64_LIMIT: int := 0x8000_0000_0000_0000

  predicate HasPrefix(s: string, prefix: string) {
    prefix <= s
  }

  predicate Contains(s: string, sub: string) {
    exists i | 0 <= i <= |s| :: sub <= s[i..]
  }

  /** Position of the last occurrence of c, or -1. */
  function LastIndex(s: string, c: char): (i: int)
    ensures -1 <= i < |s|
    ensures i >= 0 ==> s[i] == c
    ensures forall j | i < j < |s| :: s[j] != c
  {
    if s == [] then -1
    else if s[|s| - 1] == c then |s| - 1
    else LastIndex(s[..|s| - 1], c)
  }

  /** Position of the first occurrence of c, or -1. */
  function Index(s: string, c: char): (i: int)
    ensures -1 <= i < |s|
    ensures i >= 0 ==> s[i] == c && c !in s[..i]
    ensures i < 0 ==> c !in s
  {
    if s == [] then -1
    else if s[0] == c then 0
    else
      var i := Index(s[1..], c);
      if i < 0 then -1 else i + 1
  }

  // ---------------------------------------------------------------- decimals

  predicate IsDigit(c: char) {
    '0' <= c <= '9'
  }

  function DecimalNat(n: nat): (s: string)
    ensures |s| > 0
    ensures forall i | 0 <= i < |s| :: IsDigit(s[i])
  {
    var last := ('0' as int + n % 10) as char;
    if n < 10 then [last] else DecimalNat(n / 10) + [last]
  }

  /** fmt's %d. */
  function Decimal(n: int): (s: string)
    ensures |s| > 0
    ensures forall i | 0 <= i < |s| :: s[i] == '-' || IsDigit(s[i])
  {
    if n < 0 then "-" + DecimalNat(-n) else DecimalNat(n)
  }

  /** The value of a non-empty string of digits. */
  function ParseNat(s: string): (r: Option<nat>)
    ensures s == [] ==> r == None
  {
    if s == [] then None
    else
      var c := s[|s| - 1];
      if !IsDigit(c) then None
      else if |s| == 1 then Some(c as int - '0' as int)
      else
        match ParseNat(s[..|s| - 1])
        case None => None
        case Some(v) => Some(10 * v + (c as int - '0' as int))
  }

  /** strconv.Atoi on a 64-bit platform. */
  function Atoi(s: string): Option<int> {
    var negative := s != [] && s[0] == '-';
    var digits := if s != [] && (s[0] == '-' || s[0] == '+') then s[1..] else s;
    match ParseNat(digits)
    case None => None
    case Some(v) =>
      var n: int := if negative then -(v as int) else v;
      if -INT64_LIMIT <= n < INT64_LIMIT then Some(n) else None
  }

  lemma {:induction false} ParseNatDecimalNat(n: nat)
    ensures ParseNat(DecimalNat(n)) == Some(n)
  {
    if n >= 10 {
      ParseNatDecimalNat(n / 10);
      var s := DecimalNat(n);
      assert s[..|s| - 1] == DecimalNat(n / 10);
    }
  }

  /** Printing a 64-bit integer and reading it back gives the same integer. */
  lemma AtoiDecimal(n: int)
    requires -INT64_LIMIT <= n < INT64_LIMIT
    ensures Atoi(Decimal(n)) == Some(n)
  {
    if n < 0 {
      ParseNatDecimalNat(-n);
      assert Decimal(n)[1..] == DecimalNat(-n);
    } else {
      ParseNatDecimalNat(n);
      assert IsDigit(Decimal(n)[0]);
    }
  }

  lemma DecimalInjective(m: int, n: int)
    requires Decimal(m) == Decimal(n)
    ensures m == n
  {
    assert m >= 0 ==> IsDigit(Decimal(m)[0]);
    assert n >= 0 ==> IsDigit(Decimal(n)[0]);
    if m < 0 {
      assert Decimal(m)[1..] == DecimalNat(-m) && Decimal(n)[1..] == DecimalNat(-n);
      ParseNatDecimalNat(-m);
      ParseNatDecimalNat(-n);
    } else {
      ParseNatDecimalNat(m);
      ParseNatDecimalNat(n);
    }
  }

  predicate Digits(s: string) {
    s != [] && forall i | 0 <= i < |s| :: IsDigit(s[i])
  }

  /** Without leading zeros. */
  function Stripped(s: string): string {
    if |s| > 1 && s[0] == '0' then Stripped(s[1..]) else s
  }

  lemma {:induction false} StrippedAppend(s: string, c: char)
    requires Digits(s)
    ensures Stripped(s + [c]) == if Stripped(s) == "0" then Stripped([c]) else Stripped(s) + [c]
  {
    if s[0] == '0' {
      assert (s + [c])[1..] == s[1..] + [c];
      if |s| > 1 {
        assert Digits(s[1..]);
        StrippedAppend(s[1..], c);
      } else {
        assert s[1..] + [c] == [c];
      }
    }
  }

  /** Exactly the strings of digits are numbers, and they print as themselves without their
      leading zeros. */
  lemma {:induction false} ParseNatIsExact(s: string)
    ensures ParseNat(s).Some? <==> Digits(s)
    ensures Digits(s) ==> DecimalNat(ParseNat(s).value) == Stripped(s)
  {
    if |s| > 1 {
      var n := |s| - 1;
      ParseNatIsExact(s[..n]);
      assert s == s[..n] + [s[n]];
      assert Digits(s) <==> Digits(s[..n]) && IsDigit(s[n]);
      if Digits(s) {
        ParseNatStep(s[..n], s[n]);
      }
    }
  }

  lemma ParseNatStep(s: string, c: char)
    requires Digits(s) && IsDigit(c)
    requires ParseNat(s).Some? && DecimalNat(ParseNat(s).value) == Stripped(s)
    ensures ParseNat(s + [c]).Some?
    ensures DecimalNat(ParseNat(s + [c]).value) == Stripped(s + [c])
  {
    var v, d := ParseNat(s).value, c as int - '0' as int;
    assert (s + [c])[..|s|] == s;
    assert ParseNat(s + [c]) == Some(10 * v + d);
    StrippedAppend(s, c);
    if v != 0 {
      ParseNatDecimalNat(v);
      assert ParseNat("0") == Some(0);
      assert (10 * v + d) / 10 == v;
    }
  }

  /** What is read as the integer n: an optional sign and digits that, without leading zeros, are
      n as printed, for an n of 64 bits. Nothing else is read. */
  lemma AtoiIsExact(s: string, n: int)
    ensures Atoi(s) == Some(n)
            <==> var negative := s != [] && s[0] == '-';
                 var digits := if s != [] && (s[0] == '-' || s[0] == '+') then s[1..] else s;
                 && -INT64_LIMIT <= n < INT64_LIMIT
                 && (if negative then n <= 0 else n >= 0)
                 && Digits(digits)
                 && Stripped(digits) == DecimalNat(if negative then -n else n)
  {
    var negative := s != [] && s[0] == '-';
    var digits := if s != [] && (s[0] == '-' || s[0] == '+') then s[1..] else s;
    ParseNatIsExact(digits);
    if Digits(digits) && (if negative then n <= 0 else n >= 0) {
      ParseNatDecimalNat(if negative then -n else n);
      ParseNatDecimalNat(ParseNat(digits).value);
    }
  }

  // --------------------------------------------------------------- host:port

  function HostPort(host: string, port: int): string {
    host + ":" + Decimal(port)
  }

  /** The key of a forwarding in the manager's maps. */
  function ForwardingKey(host: string, port: int): string {
    HostPort(host, port)
  }

  /** Two forwardings share a key only if they are the same (host, port) pair, for every
      host, colons included, and every integer port. */
  lemma ForwardingKeyInjective(h1: string, p1: int, h2: string, p2: int)
    ensures ForwardingKey(h1, p1) == ForwardingKey(h2, p2) <==> h1 == h2 && p1 == p2
  {
    var k1, k2 := ForwardingKey(h1, p1), ForwardingKey(h2, p2);
    if k1 == k2 {
      LastIndexAt(k1, ':', |h1|);
      LastIndexAt(k2, ':', |h2|);
      assert k1[|h1| + 1..] == Decimal(p1) && k2[|h2| + 1..] == Decimal(p2);
      assert h1 == k1[..|h1|] && h2 == k2[..|h2|];
      DecimalInjective(p1, p2);
    }
  }

  /** net.JoinHostPort: hosts holding a colon are bracketed. */
  function JoinHostPort(host: string, port: string): string {
    if ':' in host then "[" + host + "]:" + port else host + ":" + port
  }

  /** net.SplitHostPort, with every error as None. */
  function SplitHostPort(hp: string): Option<(string, string)> {
    var i := LastIndex(hp, ':');
    if i < 0 then None
    else if hp[0] == '[' then
      var end := Index(hp, ']');
      if end < 0 || end + 1 != i then None
      else if '[' in hp[1..] || ']' in hp[end + 1..] then None
      else Some((hp[1..end], hp[i + 1..]))
    else if ':' in hp[..i] || '[' in hp || ']' in hp then None
    else Some((hp[..i], hp[i + 1..]))
  }

  predicate PlainHost(host: string) {
    ':' !in host && '[' !in host && ']' !in host
  }

  lemma LastIndexAt(s: string, c: char, i: int)
    requires 0 <= i < |s| && s[i] == c
    requires forall j | i < j < |s| :: s[j] != c
    ensures LastIndex(s, c) == i
  {
  }

  /** A printed host:port pair splits into the pair it was printed from. */
  lemma SplitHostPortRoundTrip(host: string, port: int)
    requires PlainHost(host)
    ensures SplitHostPort(HostPort(host, port)) == Some((host, Decimal(port)))
  {
    var hp := HostPort(host, port);
    LastIndexAt(hp, ':', |host|);
    assert hp[..|host|] == host && hp[|host| + 1..] == Decimal(port);
    assert '[' !in hp && ']' !in hp;
  }

  /** Joining a host, bracketed or not, and a port, and splitting again, gives both back. */
  lemma JoinHostPortRoundTrip(host: string, port: int)
    requires '[' !in host && ']' !in host
    ensures SplitHostPort(JoinHostPort(host, Decimal(port))) == Some((host, Decimal(port)))
  {
    if ':' in host {
      BracketedRoundTrip(host, Decimal(port));
    } else {
      SplitHostPortRoundTrip(host, port);
    }
  }

  lemma BracketedRoundTrip(host: string, port: string)
    requires '[' !in host && ']' !in host
    requires ':' !in port && '[' !in port && ']' !in port
    ensures SplitHostPort("[" + host + "]:" + port) == Some((host, port))
  {
    var hp := "[" + host + "]:" + port;
    var end := |host| + 1;
    assert hp[end] == ']' && hp[end + 1] == ':' && hp[..end] == "[" + host && hp[end + 1..] == ":" + port;
    LastIndexAt(hp, ':', end + 1);
    IndexAt(hp, ']', end);
    assert hp[1..end] == host && hp[end + 2..] == port;
    assert hp[1..] == host + "]:" + port;
  }

  lemma {:induction false} IndexAt(s: string, c: char, i: int)
    requires 0 <= i < |s| && s[i] == c && c !in s[..i]
    ensures Index(s, c) == i
  {
    var found := Index(s, c);
    assert found <= i by {
      assert s[found] == c;
      assert s[i] !in s[..found] || found <= i;
    }
  }

  /** Exactly what splits: a plain host, a colon and a port, or a bracketed host with any
      colons, a colon and a port. */
  lemma SplitHostPortIsExact(hp: string, host: string, port: string)
    ensures SplitHostPort(hp) == Some((host, port))
            <==> && PlainHost(port) && '[' !in host && ']' !in host
                 && ((':' !in host && hp == host + ":" + port) || hp == "[" + host + "]:" + port)
  {
    if PlainHost(port) && '[' !in host && ']' !in host {
      if ':' !in host && hp == host + ":" + port {
        PlainRoundTrip(host, port);
      }
      if hp == "[" + host + "]:" + port {
        BracketedRoundTrip(host, port);
      }
    }
    if SplitHostPort(hp) == Some((host, port)) {
      SplitShape(hp, host, port);
    }
  }

  lemma PlainRoundTrip(host: string, port: string)
    requires PlainHost(host) && PlainHost(port)
    ensures SplitHostPort(host + ":" + port) == Some((host, port))
  {
    var hp := host + ":" + port;
    LastIndexAt(hp, ':', |host|);
    assert hp[..|host|] == host && hp[|host| + 1..] == port;
    assert '[' !in hp && ']' !in hp;
  }

  lemma SplitShape(hp: string, host: string, port: string)
    requires SplitHostPort(hp) == Some((host, port))
    ensures PlainHost(port) && '[' !in host && ']' !in host
    ensures (':' !in host && hp == host + ":" + port) || hp == "[" + host + "]:" + port
  {
    var i := LastIndex(hp, ':');
    assert ':' !in port by {
      assert forall j | 0 <= j < |port| :: port[j] == hp[i + 1 + j];
    }
    if hp[0] == '[' {
      var end := Index(hp, ']');
      assert host == hp[1..end] && port == hp[end + 2..];
      assert forall j | 0 <= j < |host| :: host[j] == hp[1..][j];
      assert forall j | 0 <= j < |port| :: port[j] == hp[1..][end + 1 + j] == hp[end + 1..][1 + j];
      assert forall j | 0 <= j < |host| :: host[j] == hp[..end][1 + j];
      assert hp == [hp[0]] + host + [hp[end], hp[end + 1]] + port;
    } else {
      assert forall j | 0 <= j < |port| :: port[j] == hp[i + 1 + j];
      assert forall j | 0 <= j < |host| :: host[j] == hp[j];
      assert hp == host + [hp[i]] + port;
    }
  }
}
