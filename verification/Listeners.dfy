/** Listeners of a Gateway: how a Kubernetes listener becomes one, and which tunnel session
    and forwarding it stands for. */
module Listeners {
  import opened Text
  import opened HostMatch
  import opened Tunnel
  import opened Sessions

  datatype Route = Route(name: string, namespace: string, host: string, port: int)

  datatype Listener = Listener(
    route: Option<Route>,
    protocol: string,
    hostname: string,
    port: int,
    kind: SessionKind,
    rejected: bool,
    reason: string)
  {
    function Key(): string {
      ForwardingKey(hostname, port)
    }
    /** TCP listeners pin their port; the comparison is case-sensitive. */
    predicate EnforcePort() {
      protocol == "TCP" && port > 0
    }
    predicate NeedsCheck() {
      NeedsVerification(hostname, EnforcePort())
    }
    /** The forwarding requested for a route on this listener. */
    function Config(r: Route): ForwardingConfig {
      ForwardingConfig(hostname, port, r.host, r.port, EnforcePort())
    }
    predicate SameSpec(other: Listener) {
      port == other.port && hostname == other.hostname && kind == other.kind
    }
  }

  datatype K8sListener = K8sListener(
    name: string,
    hostname: Option<string>,
    port: int,
    protocol: string,
    tlsMode: Option<string>)

  const UNSUPPORTED_TLS_MODE := "UnsupportedTLSMode"
  const UNSUPPORTED_PROTOCOL := "UnsupportedListenerProtocol"
  const PROXY_PROTOCOL_PREFIX := "ssh-gateway.io/listener-proxy-protocol."

  /** Upper case, for every character whose upper case is a basic Latin letter of the
      protocol names. */
  function UpperChar(c: char): char {
    if 'a' <= c <= 'z' then (c as int - 32) as char
    else if c == '\U{017F}' then 'S'
    else c
  }

  function ToUpper(s: string): (u: string)
    ensures |u| == |s| && forall i | 0 <= i < |s| :: u[i] == UpperChar(s[i])
  {
    if s == [] then [] else [UpperChar(s[0])] + ToUpper(s[1..])
  }

  predicate ListenerProxyProtocol(annotations: map<string, string>, listener: string) {
    var key := PROXY_PROTOCOL_PREFIX + listener;
    key in annotations && ToUpper(annotations[key]) == "TRUE"
  }

  function CreateListener(k8s: K8sListener, annotations: map<string, string>): Listener {
    var hostname := if k8s.hostname.Some? then k8s.hostname.value else "localhost";
    var protocol := ToUpper(k8s.protocol);
    var plain := Listener(None, k8s.protocol, hostname, k8s.port, SessionPlain, false, "");
    if protocol == "HTTP" then plain
    else if protocol == "TCP" then
      if ListenerProxyProtocol(annotations, k8s.name) then plain.(kind := SessionProxyProto) else plain
    else if protocol == "TLS" then
      if k8s.tlsMode == Some("Passthrough") then plain.(kind := SessionSNIProxy)
      else plain.(rejected := true, reason := UNSUPPORTED_TLS_MODE)
    else plain.(rejected := true, reason := UNSUPPORTED_PROTOCOL)
  }

  /** Does the stored forwarding of a listener still serve it? */
  predicate ForwardingValid(p: Pool, l: Listener) {
    Validates(Sessions.GetAssignedAddresses(p, l.kind, l.Key()), l.hostname, l.port, l.EnforcePort())
  }

  // ------------------------------------------------- what a listener comes out as

  /** The word in any case, letter by letter. The long s counts as an s. */
  predicate AnyCase(s: string, word: string)
    requires forall i | 0 <= i < |word| :: 'A' <= word[i] <= 'Z'
  {
    |s| == |word| && forall i | 0 <= i < |s| ::
      s[i] == word[i] || s[i] == (word[i] as int + 32) as char || (word[i] == 'S' && s[i] == '\U{017F}')
  }

  lemma ToUpperIs(s: string, word: string)
    requires forall i | 0 <= i < |word| :: 'A' <= word[i] <= 'Z'
    ensures ToUpper(s) == word <==> AnyCase(s, word)
  {
    var u := ToUpper(s);
    if |s| == |word| {
      forall i | 0 <= i < |s|
        ensures u[i] == word[i] <==>
                s[i] == word[i] || s[i] == (word[i] as int + 32) as char || (word[i] == 'S' && s[i] == '\U{017F}')
      {
      }
    }
  }

  lemma WordsIs(s: string)
    ensures ToUpper(s) == "HTTP" <==> AnyCase(s, "HTTP")
    ensures ToUpper(s) == "TCP" <==> AnyCase(s, "TCP")
    ensures ToUpper(s) == "TLS" <==> AnyCase(s, "TLS")
    ensures ToUpper(s) == "TRUE" <==> AnyCase(s, "TRUE")
  {
    hide ToUpper, AnyCase;
    ToUpperIs(s, "HTTP");
    ToUpperIs(s, "TCP");
    ToUpperIs(s, "TLS");
    ToUpperIs(s, "TRUE");
  }

  /** The annotation that asks for the proxy protocol on this listener. */
  predicate AsksForProxyProtocol(k8s: K8sListener, annotations: map<string, string>) {
    var key := "ssh-gateway.io/listener-proxy-protocol." + k8s.name;
    key in annotations && AnyCase(annotations[key], "TRUE")
  }

  lemma AsksIsExact(k8s: K8sListener, annotations: map<string, string>)
    ensures ListenerProxyProtocol(annotations, k8s.name) <==> AsksForProxyProtocol(k8s, annotations)
  {
    hide ToUpper, AnyCase;
    var key := "ssh-gateway.io/listener-proxy-protocol." + k8s.name;
    if key in annotations {
      WordsIs(annotations[key]);
    }
  }

  /** Which session every listener spec gets. */
  lemma SessionIsExact(k8s: K8sListener, annotations: map<string, string>)
    ensures var l := CreateListener(k8s, annotations);
            && (l.kind == SessionProxyProto
                <==> AnyCase(k8s.protocol, "TCP") && AsksForProxyProtocol(k8s, annotations))
            && (l.kind == SessionSNIProxy
                <==> AnyCase(k8s.protocol, "TLS") && k8s.tlsMode == Some("Passthrough"))
  {
    hide ToUpper, AnyCase, ListenerProxyProtocol, AsksForProxyProtocol;
    WordsIs(k8s.protocol);
    AsksIsExact(k8s, annotations);
  }

  /** Which listeners are rejected, and why. */
  lemma RejectionIsExact(k8s: K8sListener, annotations: map<string, string>)
    ensures var l := CreateListener(k8s, annotations);
            var http, tcp := AnyCase(k8s.protocol, "HTTP"), AnyCase(k8s.protocol, "TCP");
            var tls := AnyCase(k8s.protocol, "TLS");
            && (l.rejected <==> (tls && k8s.tlsMode != Some("Passthrough")) || (!http && !tcp && !tls))
            && (l.rejected && tls ==> l.reason == "UnsupportedTLSMode")
            && (l.rejected && !tls ==> l.reason == "UnsupportedListenerProtocol")
            && (!l.rejected ==> l.reason == "")
  {
    hide ToUpper, AnyCase, ListenerProxyProtocol;
    WordsIs(k8s.protocol);
  }

  /** What is taken over as it stands. */
  lemma SpecTakenOver(k8s: K8sListener, annotations: map<string, string>)
    ensures var l := CreateListener(k8s, annotations);
            && l.protocol == k8s.protocol && l.port == k8s.port && l.route == None
            && (k8s.hostname.Some? ==> l.hostname == k8s.hostname.value)
            && (k8s.hostname.None? ==> l.hostname == "localhost")
  {
    hide ToUpper, ListenerProxyProtocol;
  }

  /** The forwarding asked for: the listener's own pair, the route's backend, and the port
      pinned exactly for protocol TCP, in capitals, with a positive port. */
  lemma ConfigIsExact(l: Listener, route: Route)
    ensures var fwd := l.Config(route);
            && fwd.remoteHost == l.hostname && fwd.remotePort == l.port
            && fwd.internalHost == route.host && fwd.internalPort == route.port
            && (fwd.enforcePort <==> l.protocol == "TCP" && l.port > 0)
  {
  }

  /** When stored addresses serve the listener: there are some, and they pass the manager's own
      check unless the listener is a wildcard without a pinned port. */
  lemma ForwardingValidIsExact(p: Pool, l: Listener)
    ensures var uris := Sessions.GetAssignedAddresses(p, l.kind, ForwardingKey(l.hostname, l.port));
            var pinned := l.protocol == "TCP" && l.port > 0;
            ForwardingValid(p, l) <==>
              && uris != []
              && ((l.hostname in {"0.0.0.0", "localhost"} && !pinned)
                  || MatchesRequestedHost(uris, l.hostname, l.port, pinned))
  {
    hide MatchesRequestedHost;
  }
}
