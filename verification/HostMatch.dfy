/** Which server-reported URIs satisfy a forwarding request: the decision the manager
    takes before it keeps a forwarding, and the controller takes before it trusts one. */
module HostMatch {
  import opened Text

  const HTTP := "http://"
  const HTTPS := "https://"
  const TCP := "tcp://"

  /** Hostnames that accept any assigned name. */
  predicate WildcardHost(host: string) {
    host == "" || host == "0.0.0.0" || host == "localhost"
  }

  predicate IsHTTP(uri: string) {
    HasPrefix(uri, HTTP) || HasPrefix(uri, HTTPS)
  }

  /** The only URIs the address extractor produces. */
  predicate Schemed(uri: string) {
    IsHTTP(uri) || HasPrefix(uri, TCP)
  }

  function AfterHTTPScheme(uri: string): string
    requires IsHTTP(uri)
  {
    if HasPrefix(uri, HTTP) then uri[|HTTP|..] else uri[|HTTPS|..]
  }

  predicate HTTPURIHasHost(uri: string, host: string) {
    IsHTTP(uri) &&
    var rest := AfterHTTPScheme(uri);
    HasPrefix(rest, host) && (|rest| == |host| || rest[|host|] == '/' || rest[|host|] == ':')
  }

  function TCPURIPort(uri: string): Option<int> {
    var hostPort := if HasPrefix(uri, TCP) then uri[|TCP|..] else uri;
    match SplitHostPort(hostPort)
    case None => None
    case Some((_, port)) => Atoi(port)
  }

  /** One turn of the loop over the reported URIs. */
  predicate AcceptableURI(uri: string, host: string, port: int, enforcePort: bool) {
    if IsHTTP(uri) then
      WildcardHost(host) || HTTPURIHasHost(uri, host)
    else
      HasPrefix(uri, TCP) &&
      if !WildcardHost(host) then Contains(uri, HostPort(host, port))
      else !enforcePort || TCPURIPort(uri) == Some(port)
  }

  predicate MatchesRequestedHost(uris: seq<string>, host: string, port: int, enforcePort: bool) {
    uris != [] &&
    (AcceptableURI(uris[0], host, port, enforcePort) || MatchesRequestedHost(uris[1..], host, port, enforcePort))
  }

  // -------------------------------------------------------------- HTTP hosts

  /** The longest prefix free of '/' and ':': the host component of what follows a scheme. */
  function HostComponent(rest: string): (host: string)
    ensures host <= rest && BoundaryFree(host)
    ensures |host| < |rest| ==> rest[|host|] == '/' || rest[|host|] == ':'
  {
    if rest == [] || rest[0] == '/' || rest[0] == ':' then []
    else [rest[0]] + HostComponent(rest[1..])
  }

  predicate BoundaryFree(host: string) {
    '/' !in host && ':' !in host
  }

  /** Host matching is equality of host components: a name matches neither as a suffix of
      a longer label nor inside a path. */
  lemma HTTPHostMatchIsExact(uri: string, host: string)
    requires BoundaryFree(host)
    ensures HTTPURIHasHost(uri, host) <==> IsHTTP(uri) && HostComponent(AfterHTTPScheme(uri)) == host
  {
    if IsHTTP(uri) {
      var rest := AfterHTTPScheme(uri);
      var component := HostComponent(rest);
      if HTTPURIHasHost(uri, host) {
        assert forall i | 0 <= i < |host| :: rest[i] == host[i] && rest[i] != '/' && rest[i] != ':';
        assert forall i | 0 <= i < |component| :: rest[i] == component[i] && rest[i] != '/' && rest[i] != ':';
        assert |host| == |component|;
      }
    }
  }

  // --------------------------------------------------------------- TCP ports

  /** The port read back from a tcp:// URI is the port it was printed with. */
  lemma TCPURIPortRoundTrip(host: string, port: int)
    requires PlainHost(host)
    requires -INT64_LIMIT <= port < INT64_LIMIT
    ensures TCPURIPort(TCP + HostPort(host, port)) == Some(port)
  {
    var uri := TCP + HostPort(host, port);
    assert uri[|TCP|..] == HostPort(host, port);
    SplitHostPortRoundTrip(host, port);
    AtoiDecimal(port);
  }

  lemma TCPIsNotHTTP(uri: string)
    requires HasPrefix(uri, TCP)
    ensures !IsHTTP(uri)
  {
    assert uri[0] == 't';
  }

  /** A pinned port on a wildcard host accepts exactly the URIs assigned that port. */
  lemma PinnedPortIsExact(host: string, port: int, assignedHost: string, assignedPort: int)
    requires WildcardHost(host) && PlainHost(assignedHost)
    requires -INT64_LIMIT <= assignedPort < INT64_LIMIT
    ensures MatchesRequestedHost([TCP + HostPort(assignedHost, assignedPort)], host, port, true)
            <==> assignedPort == port
  {
    hide TCPURIPort, Contains, HTTPURIHasHost;
    var uri := TCP + HostPort(assignedHost, assignedPort);
    TCPIsNotHTTP(uri);
    TCPURIPortRoundTrip(assignedHost, assignedPort);
    assert !MatchesRequestedHost([], host, port, true);
  }

  /** A named host accepts the URI that carries exactly the requested pair. */
  lemma ExactTCPURIAccepted(host: string, port: int, enforcePort: bool)
    requires !WildcardHost(host)
    ensures MatchesRequestedHost([TCP + HostPort(host, port)], host, port, enforcePort)
  {
    var uri := TCP + HostPort(host, port);
    TCPIsNotHTTP(uri);
    assert uri[|TCP|..] == HostPort(host, port);
  }

  /** The characters of a tcp:// URI, piece by piece. */
  lemma TCPPieces(host: string, port: string)
    ensures var uri, colon := TCP + host + ":" + port, |TCP| + |host|;
            && (forall k | 0 <= k < |TCP| :: uri[k] == TCP[k])
            && (forall k | |TCP| <= k < colon :: uri[k] == host[k - |TCP|])
            && uri[colon] == ':'
            && (forall k | colon < k < |uri| :: uri[k] == port[k - colon - 1])
  {
  }

  lemma CoveredCharacter(s: string, part: string, i: nat, k: nat)
    requires i + |part| <= |s| && s[i..i + |part|] == part
    ensures i <= k < i + |part| ==> s[k] in part
  {
    if i <= k < i + |part| {
      assert s[k] == part[k - i];
    }
  }

  /** Where "host:port" can occur in a tcp:// URI: only just before the port. */
  lemma OccurrenceEndsAtPort(host: string, port: string, assignedHost: string, assignedPort: string, i: nat)
    requires BoundaryFree(host) && ':' !in assignedHost && ':' !in assignedPort
    requires port != [] && port[0] != '/'
    requires var uri := TCP + assignedHost + ":" + assignedPort; i <= |uri| && host + ":" + port <= uri[i..]
    ensures i == |TCP| + |assignedHost| - |host| && i >= |TCP|
  {
    var uri, wanted := TCP + assignedHost + ":" + assignedPort, host + ":" + port;
    TCPPieces(assignedHost, assignedPort);
    assert uri[i..i + |wanted|] == wanted;
    assert uri[i..i + |host|] == wanted[..|host|] == host;
    assert uri[i + |host|] == wanted[|host|] == ':';
    assert uri[i + |host| + 1] == wanted[|host| + 1] == port[0];
    CoveredCharacter(uri, host, i, 5);
  }

  lemma OccursIffSuffixAndPrefix(host: string, port: string, assignedHost: string, assignedPort: string)
    requires BoundaryFree(host) && ':' !in assignedHost && ':' !in assignedPort
    requires port != [] && port[0] != '/'
    ensures Contains(TCP + assignedHost + ":" + assignedPort, host + ":" + port)
            <==> && |host| <= |assignedHost| && assignedHost[|assignedHost| - |host|..] == host
                 && HasPrefix(assignedPort, port)
  {
    var uri, wanted := TCP + assignedHost + ":" + assignedPort, host + ":" + port;
    if Contains(uri, wanted) {
      var i :| 0 <= i <= |uri| && wanted <= uri[i..];
      OccurrenceEndsAtPort(host, port, assignedHost, assignedPort, i);
    }
    if |host| <= |assignedHost| {
      PrefixBeforePort(host, port, assignedHost, assignedPort);
    }
  }

  lemma PrefixBeforePort(host: string, port: string, assignedHost: string, assignedPort: string)
    requires |host| <= |assignedHost|
    ensures host + ":" + port <= (TCP + assignedHost + ":" + assignedPort)[|TCP| + |assignedHost| - |host|..]
            <==> assignedHost[|assignedHost| - |host|..] == host && port <= assignedPort
  {
    var tail := assignedHost[|assignedHost| - |host|..];
    assert (TCP + assignedHost + ":" + assignedPort)[|TCP| + |assignedHost| - |host|..] == tail + ":" + assignedPort;
    SamePieces(host, port, tail, assignedPort);
  }

  lemma SamePieces(a: string, b: string, c: string, d: string)
    requires |a| == |c|
    ensures a + ":" + b <= c + ":" + d <==> a == c && b <= d
  {
    var ab, cd := a + ":" + b, c + ":" + d;
    if ab <= cd {
      assert a == ab[..|a|] == cd[..|a|] == c;
      assert b == ab[|a| + 1..];
    }
  }

  /** Exactly which assigned pairs satisfy a request for a named host: the requested name is
      a suffix of the assigned one, and the requested port a prefix of the assigned one. */
  lemma NamedTCPMatchIsExact(host: string, port: int, assignedHost: string, assignedPort: int, enforcePort: bool)
    requires !WildcardHost(host) && BoundaryFree(host) && ':' !in assignedHost
    ensures MatchesRequestedHost([TCP + HostPort(assignedHost, assignedPort)], host, port, enforcePort)
            <==> && |host| <= |assignedHost| && assignedHost[|assignedHost| - |host|..] == host
                 && HasPrefix(Decimal(assignedPort), Decimal(port))
  {
    hide Contains;
    var uri := TCP + HostPort(assignedHost, assignedPort);
    TCPIsNotHTTP(uri);
    assert !MatchesRequestedHost([], host, port, enforcePort);
    assert uri == TCP + assignedHost + ":" + Decimal(assignedPort);
    OccursIffSuffixAndPrefix(host, Decimal(port), assignedHost, Decimal(assignedPort));
  }

  lemma Decimals8080And80()
    ensures Decimal(8080) == "8080" && Decimal(80) == "80"
  {
  }

  /** So a request for port 80 is satisfied by an assignment of port 8080, and one for a name
      by a longer name that ends in it. */
  lemma NamedTCPMatchOverreaches(enforcePort: bool)
    ensures MatchesRequestedHost(["tcp://my-example.com:8080"], "example.com", 80, enforcePort)
  {
    hide MatchesRequestedHost, Decimal;
    Decimals8080And80();
    assert TCP + HostPort("my-example.com", 8080) == "tcp://my-example.com:8080";
    assert "my-example.com"[3..] == "example.com";
    NamedTCPMatchIsExact("example.com", 80, "my-example.com", 8080, enforcePort);
  }

  // ---------------------------------------------------------------- the list

  /** The loop accepts a list exactly when some URI in it is acceptable. */
  lemma {:induction false} MatchesIffSome(uris: seq<string>, host: string, port: int, enforcePort: bool)
    ensures MatchesRequestedHost(uris, host, port, enforcePort)
            <==> exists uri | uri in uris :: AcceptableURI(uri, host, port, enforcePort)
  {
    if uris != [] {
      MatchesIffSome(uris[1..], host, port, enforcePort);
      assert forall uri :: uri in uris <==> uri == uris[0] || uri in uris[1..];
    }
  }

  /** So the list is accepted exactly when some URI would be accepted alone. */
  lemma MatchesIffSomeAlone(uris: seq<string>, host: string, port: int, enforcePort: bool)
    ensures MatchesRequestedHost(uris, host, port, enforcePort)
            <==> exists uri | uri in uris :: MatchesRequestedHost([uri], host, port, enforcePort)
  {
    hide AcceptableURI;
    MatchesIffSome(uris, host, port, enforcePort);
    forall uri
      ensures MatchesRequestedHost([uri], host, port, enforcePort) <==> AcceptableURI(uri, host, port, enforcePort)
    {
      MatchesIffSome([uri], host, port, enforcePort);
    }
  }

  /** For a named host, HTTP URIs are accepted by their host component alone: one of them must
      be exactly the host. */
  lemma NamedHTTPListIsExact(uris: seq<string>, host: string, port: int, enforcePort: bool)
    requires !WildcardHost(host) && BoundaryFree(host)
    requires forall uri | uri in uris :: IsHTTP(uri)
    ensures MatchesRequestedHost(uris, host, port, enforcePort)
            <==> exists uri | uri in uris :: HostComponent(AfterHTTPScheme(uri)) == host
  {
    hide HTTPURIHasHost, HostComponent, AfterHTTPScheme;
    MatchesIffSome(uris, host, port, enforcePort);
    forall uri | uri in uris
      ensures AcceptableURI(uri, host, port, enforcePort) <==> HostComponent(AfterHTTPScheme(uri)) == host
    {
      HTTPHostMatchIsExact(uri, host);
    }
  }

  predicate Boundary(tail: string) {
    tail == "" || tail[0] == '/' || tail[0] == ':'
  }

  lemma {:induction false} HostComponentOf(host: string, tail: string)
    requires BoundaryFree(host) && Boundary(tail)
    ensures HostComponent(host + tail) == host
  {
    if host == [] {
      assert host + tail == tail;
    } else {
      assert host[0] in host;
      assert (host + tail)[1..] == host[1..] + tail;
      HostComponentOf(host[1..], tail);
    }
  }

  /** What the server assigned, spelled out: scheme, host, and a path or a port. */
  lemma AssignedHTTPHostIsExact(
    scheme: string, given: string, tail: string, host: string, port: int, enforcePort: bool)
    requires scheme == "http://" || scheme == "https://"
    requires BoundaryFree(given) && Boundary(tail)
    requires !WildcardHost(host) && BoundaryFree(host)
    ensures MatchesRequestedHost([scheme + given + tail], host, port, enforcePort) <==> given == host
  {
    hide MatchesRequestedHost, HostComponent;
    var uri := scheme + given + tail;
    assert uri[|scheme|..] == given + tail;
    assert scheme == "https://" ==> uri[4] == 's';
    assert AfterHTTPScheme(uri) == given + tail;
    HostComponentOf(given, tail);
    NamedHTTPListIsExact([uri], host, port, enforcePort);
  }

  /** No HTTP URI is accepted for two different named hosts. */
  lemma HTTPURIMatchesOneHost(uri: string, h1: string, p1: int, e1: bool, h2: string, p2: int, e2: bool)
    requires IsHTTP(uri)
    requires !WildcardHost(h1) && BoundaryFree(h1) && !WildcardHost(h2) && BoundaryFree(h2)
    requires MatchesRequestedHost([uri], h1, p1, e1) && MatchesRequestedHost([uri], h2, p2, e2)
    ensures h1 == h2
  {
    NamedHTTPListIsExact([uri], h1, p1, e1);
    NamedHTTPListIsExact([uri], h2, p2, e2);
  }

  /** A wildcard host accepts every HTTP URI, also with its port pinned, and without a pinned
      port every TCP URI. */
  lemma WildcardAccepts(uri: string, host: string, port: int, enforcePort: bool)
    requires host in {"", "0.0.0.0", "localhost"}
    ensures HasPrefix(uri, "http://") || HasPrefix(uri, "https://") ==>
              MatchesRequestedHost([uri], host, port, enforcePort)
    ensures HasPrefix(uri, "tcp://") ==> MatchesRequestedHost([uri], host, port, false)
  {
    if HasPrefix(uri, "tcp://") {
      TCPIsNotHTTP(uri);
    }
  }

  /** URIs of other schemes are never accepted, for any host. */
  lemma ForeignNeverAccepted(uris: seq<string>, host: string, port: int, enforcePort: bool)
    requires forall uri | uri in uris ::
               !HasPrefix(uri, "http://") && !HasPrefix(uri, "https://") && !HasPrefix(uri, "tcp://")
    ensures !MatchesRequestedHost(uris, host, port, enforcePort)
  {
    MatchesIffSome(uris, host, port, enforcePort);
  }

  /** Reporting more URIs never turns an accepted list into a rejected one. */
  lemma MatchesMonotone(fewer: seq<string>, more: seq<string>, host: string, port: int, enforcePort: bool)
    requires forall uri | uri in fewer :: uri in more
    requires MatchesRequestedHost(fewer, host, port, enforcePort)
    ensures MatchesRequestedHost(more, host, port, enforcePort)
  {
    MatchesIffSome(fewer, host, port, enforcePort);
    MatchesIffSome(more, host, port, enforcePort);
  }

  // ------------------------------------------------- accepting and validating

  /** Must the manager check the reported URIs of this request? */
  predicate NeedsVerification(host: string, enforcePort: bool) {
    !WildcardHost(host) || enforcePort
  }

  /** The manager's decision to keep the reported URIs. */
  predicate Accepts(uris: seq<string>, host: string, port: int, enforcePort: bool) {
    NeedsVerification(host, enforcePort) ==> MatchesRequestedHost(uris, host, port, enforcePort)
  }

  /** The controller's decision that stored URIs still serve a listener. The empty
      hostname is not among the wildcards here, unlike in the manager. */
  predicate Validates(uris: seq<string>, host: string, port: int, enforcePort: bool) {
    uris != [] &&
    (((host == "0.0.0.0" || host == "localhost") && !enforcePort) ||
     MatchesRequestedHost(uris, host, port, enforcePort))
  }

  /** Every list of extractor URIs that the manager keeps, the controller validates, and
      conversely: the two decisions differ only on the empty list. */
  lemma AcceptValidateAgree(uris: seq<string>, host: string, port: int, enforcePort: bool)
    requires forall uri | uri in uris :: Schemed(uri)
    ensures Validates(uris, host, port, enforcePort) <==> uris != [] && Accepts(uris, host, port, enforcePort)
  {
    MatchesIffSome(uris, host, port, enforcePort);
    if uris != [] && host == "" && !enforcePort {
      assert uris[0] in uris && AcceptableURI(uris[0], host, port, enforcePort);
    }
  }

  /** Without the scheme guarantee they disagree, and only for the empty hostname. */
  lemma DisagreementNeedsForeignScheme(uris: seq<string>, host: string, port: int, enforcePort: bool)
    requires uris != []
    ensures Accepts(uris, host, port, enforcePort) && !Validates(uris, host, port, enforcePort)
            <==> host == "" && !enforcePort && forall uri | uri in uris :: !Schemed(uri)
  {
    MatchesIffSome(uris, host, port, enforcePort);
    if host == "" && !enforcePort {
      assert forall uri | uri in uris :: Schemed(uri) <==> AcceptableURI(uri, host, port, enforcePort);
    }
  }
}
