/** Every exit of SetRoute: when each answer is given, in terms of what is registered and
    connected and what the server replies, and what the listener shows afterwards. */
module Exits {
  import opened Text
  import opened HostMatch
  import opened Tunnel
  import opened Sessions
  import opened Listeners
  import opened Registry
  import opened Coherence
  import opened Attachment
  import opened GatewayUpdate

  /** The answers that come before any forwarding is looked at; nothing changes then. */
  lemma EarlyExits(s: System, gw: string, name: string, route: Route, io: SetIO)
    ensures var (t, result) := SetRoute(s, gw, name, route, io);
            && (result.GatewayNotFound? <==> gw !in s.gateways)
            && (result.ListenerNotFound? <==> gw in s.gateways && name !in s.gateways[gw])
            && (result.NotProgrammed? <==>
                  gw in s.gateways && name in s.gateways[gw] && s.gateways[gw][name].rejected)
            && (result.NotProgrammed? ==> result.reason == s.gateways[gw][name].reason)
            && (result.GatewayNotFound? || result.ListenerNotFound? || result.NotProgrammed? ==> t == s)
  {
    hide Interfere, StopExisting, EnsureConnected, ForwardingValid, Sessions.StartForwarding, Registered;
  }

  // ---------------------------------------------- the pools a call passes through

  /** Where the call looks for the addresses of a route already shown. */
  function AtCheck(p: Pool, l: Listener, route: Route, io: SetIO): Pool {
    if l.route == Some(route) then Interfere(p, io.beforeCheck) else p
  }

  predicate ShowsOther(l: Listener, route: Route) {
    l.route.Some? && l.route.value != route
  }

  /** Where it stops the forwarding of another route, and what it leaves. */
  function AtStop(p: Pool, l: Listener, route: Route, io: SetIO): Pool {
    Interfere(AtCheck(p, l, route, io), io.beforeStop)
  }

  function AfterStop(p: Pool, l: Listener, route: Route, io: SetIO): Pool {
    if ShowsOther(l, route) then
      StopForwarding(AtStop(p, l, route, io), l.kind, ForwardingKey(l.hostname, l.port), io.stopReply).0
    else AtCheck(p, l, route, io)
  }

  /** Where it asks, for the last time, whether the session is connected. */
  function AtConnected(p: Pool, l: Listener, route: Route, io: SetIO): Pool {
    var q := Interfere(AfterStop(p, l, route, io), io.beforeConnected);
    if IsConnected(q, l.kind) then q
    else Interfere(Sessions.Connect(Interfere(q, io.beforeConnect), io.dials), io.afterConnect)
  }

  /** Where it starts the forwarding. */
  function AtStart(p: Pool, l: Listener, route: Route, io: SetIO): Pool {
    Interfere(AtConnected(p, l, route, io), io.beforeStart)
  }

  /** Does a start on a connected session, with nothing registered, succeed? */
  predicate StartSucceeds(io: StartIO, l: Listener, route: Route, capturing: bool) {
    && io.captureReady && 0 <= l.port <= 65535 && io.start == Accepted
    && (capturing && NeedsVerification(l.hostname, l.protocol == "TCP" && l.port > 0) ==>
          && !io.verifyTimeout && io.emitted != []
          && MatchesRequestedHost(io.emitted[0], l.hostname, l.port, l.protocol == "TCP" && l.port > 0))
  }

  /** Is the route shown and served by stored addresses? */
  predicate Settled(p: Pool, l: Listener, route: Route, io: SetIO) {
    l.route == Some(route) && ForwardingValid(AtCheck(p, l, route, io), l)
  }

  /** Does the call get past the forwarding of another route? */
  predicate Released(p: Pool, l: Listener, route: Route, io: SetIO) {
    ShowsOther(l, route) ==>
      Registered(AtStop(p, l, route, io), l.kind, ForwardingKey(l.hostname, l.port)) && io.stopReply == Accepted
  }

  lemma PrepareOutcome(s: System, l: Listener, cleared: Listener, route: Route, io: SetIO)
    requires Sessions.Inv(s.pool)
    requires cleared == (if l.route == Some(route) then l.(route := None) else l)
    ensures var (q, failure) := Prepare(AtCheck(s.pool, l, route, io), cleared, io);
            && (failure.Some? && failure.value.StopFailed? <==> !Released(s.pool, l, route, io))
            && (failure.Some? && failure.value.GatewayNotReady? <==>
                  Released(s.pool, l, route, io) && !IsConnected(AtConnected(s.pool, l, route, io), l.kind))
            && (failure.Some? ==> failure.value.StopFailed? || failure.value.GatewayNotReady?)
            && (failure.None? ==> q == AtStart(s.pool, l, route, io))
            && Sessions.Inv(q)
            && (ShowsOther(l, route) ==> !Registered(q, l.kind, ForwardingKey(l.hostname, l.port)))
  {
    hide Sessions.Inv, Interfere, StopForwarding, Sessions.Connect, IsConnected, Registered, ForwardingKey, Shrinks;
    InterfereShrinks(s.pool, io.beforeCheck);
    var p := AtCheck(s.pool, l, route, io);
    InterfereShrinks(p, io.beforeStop);
    StopOutcome(AtStop(s.pool, l, route, io), l.kind, ForwardingKey(l.hostname, l.port), io.stopReply);
    PrepareShrinks(p, cleared, io);
  }

  lemma StopOutcome(p: Pool, kind: SessionKind, key: string, reply: Reply)
    requires Sessions.Inv(p)
    ensures StopForwarding(p, kind, key, reply).1 == Success <==> Registered(p, kind, key) && reply == Accepted
  {
    if kind in p.managers {
      ManagerInv(p, kind);
    }
  }

  lemma StartOutcome(p: Pool, l: Listener, route: Route, io: StartIO)
    requires Sessions.Inv(p)
    ensures var outcome := Sessions.StartForwarding(p, l.kind, l.Config(route), io).1;
            var key := ForwardingKey(l.hostname, l.port);
            && (outcome == SessionNotEnabled <==> l.kind !in p.managers)
            && (outcome == ClientNotReady <==> l.kind in p.managers && !IsConnected(p, l.kind))
            && (outcome == ForwardingExists <==> IsConnected(p, l.kind) && Registered(p, l.kind, key))
            && (outcome == Success <==>
                  && IsConnected(p, l.kind) && !Registered(p, l.kind, key)
                  && StartSucceeds(io, l, route, p.capturing))
  {
    hide MatchesRequestedHost, NeedsVerification, ForwardingKey;
    if l.kind in p.managers {
      ManagerInv(p, l.kind);
      StartCases(p.managers[l.kind], l.Config(route), io);
      StartOutcomes(p.managers[l.kind], l.Config(route), io);
    }
    hide Tunnel.Start;
  }

  /** Every other answer, for every environment. A failed stop leaves the listener as it is.
      After a later failure it shows no route if it showed this one, and still the other one if
      it showed another, although that one's forwarding has been stopped. */
  lemma LateExits(s: System, gw: string, name: string, route: Route, io: SetIO)
    requires Coherence.Inv(s) && gw in s.gateways && name in s.gateways[gw] && !s.gateways[gw][name].rejected
    ensures var (t, result) := SetRoute(s, gw, name, route, io);
            var l, key := s.gateways[gw][name], ForwardingKey(s.gateways[gw][name].hostname, s.gateways[gw][name].port);
            var settled, released := Settled(s.pool, l, route, io), Released(s.pool, l, route, io);
            var connected, q := IsConnected(AtConnected(s.pool, l, route, io), l.kind), AtStart(s.pool, l, route, io);
            var tries := !settled && released && connected;
            && (result.AlreadyAttached? <==> settled)
            && (result.StopFailed? <==> !settled && !released)
            && (result.GatewayNotReady? <==>
                  || (!settled && released && !connected)
                  || (tries && l.kind in q.managers && !IsConnected(q, l.kind)))
            && (result.Adopted? <==> tries && IsConnected(q, l.kind) && Registered(q, l.kind, key))
            && (result.Started? <==>
                  && tries && IsConnected(q, l.kind) && !Registered(q, l.kind, key)
                  && StartSucceeds(io.start, l, route, q.capturing))
            && (result.StartFailed? <==>
                  && tries
                  && (l.kind !in q.managers
                      || (IsConnected(q, l.kind) && !Registered(q, l.kind, key)
                          && !StartSucceeds(io.start, l, route, q.capturing))))
            && gw in t.gateways && name in t.gateways[gw]
            && t.gateways[gw][name] ==
               l.(route := if result.Nil() then Some(route)
                           else if l.route == Some(route) then None else l.route)
            && (result.AlreadyAttached? || result.StopFailed? ==> t.gateways == s.gateways)
            && t.abandoned <= s.abandoned
  {
    hide Sessions.Inv, Coherent, AbandonedLive, RejectedAreBare, Shrinks, Interfere, Prepare, ForwardingValid,
         Sessions.StartForwarding, AtStop, AtConnected, AtStart, StartSucceeds, Registered, IsConnected,
         ForwardingKey;
    var l := s.gateways[gw][name];
    var cleared := if l.route == Some(route) then l.(route := None) else l;
    PrepareOutcome(s, l, cleared, route, io);
    var (q, failure) := Prepare(AtCheck(s.pool, l, route, io), cleared, io);
    StartOutcome(q, l, route, io.start);
    assert s.gateways[gw][name := l] == s.gateways[gw] && s.gateways[gw := s.gateways[gw]] == s.gateways;
  }

  // ------------------------------------------------- a call left to itself

  lemma QuietPools(s: System, l: Listener, route: Route, io: SetIO)
    requires io.Quiet()
    ensures AtCheck(s.pool, l, route, io) == AtStop(s.pool, l, route, io) == s.pool
    ensures AtStart(s.pool, l, route, io) == AtConnected(s.pool, l, route, io)
    ensures AtConnected(s.pool, l, route, io) ==
            var q := AfterStop(s.pool, l, route, io);
            if IsConnected(q, l.kind) then q else Sessions.Connect(q, io.dials)
  {
    hide StopForwarding, Sessions.Connect, IsConnected;
    assert forall q: Pool {:trigger Interfere(q, [])} :: Interfere(q, []) == q;
  }

  /** After stopping another route, in a quiet call. */
  lemma QuietStart(s: System, l: Listener, route: Route, io: SetIO)
    requires Sessions.Inv(s.pool) && io.Quiet() && Released(s.pool, l, route, io)
    ensures var q, key := AtStart(s.pool, l, route, io), ForwardingKey(l.hostname, l.port);
            && (IsConnected(q, l.kind) <==>
                  IsConnected(s.pool, l.kind) || (l.kind in s.pool.managers && l.kind in io.dials && io.dials[l.kind]))
            && (Registered(q, l.kind, key) <==> Registered(s.pool, l.kind, key) && !ShowsOther(l, route))
            && q.capturing == s.pool.capturing
  {
    QuietPools(s, l, route, io);
    var key := ForwardingKey(l.hostname, l.port);
    StopForwardingKeepsInv(s.pool, l.kind, key, io.stopReply);
    if l.kind in s.pool.managers {
      ManagerInv(s.pool, l.kind);
      StopIsExact(s.pool.managers[l.kind], key, io.stopReply);
    }
    DisconnectedIsEmpty(s.pool, l.kind);
    hide Tunnel.Stop, Sessions.Inv, ForwardingKey;
  }

  /** All answers of a call left to itself, told from the state before it. */
  lemma QuietExits(s: System, gw: string, name: string, route: Route, io: SetIO)
    requires Coherence.Inv(s) && gw in s.gateways && name in s.gateways[gw] && !s.gateways[gw][name].rejected
    requires io.Quiet()
    ensures var result := SetRoute(s, gw, name, route, io).1;
            var l := s.gateways[gw][name];
            var registered := Registered(s.pool, l.kind, ForwardingKey(l.hostname, l.port));
            var connects := IsConnected(s.pool, l.kind) ||
                            (l.kind in s.pool.managers && l.kind in io.dials && io.dials[l.kind]);
            var settled := l.route == Some(route) && ForwardingValid(s.pool, l);
            var released := ShowsOther(l, route) ==> registered && io.stopReply == Accepted;
            var succeeds := StartSucceeds(io.start, l, route, s.pool.capturing);
            && (result.AlreadyAttached? <==> settled)
            && (result.StopFailed? <==> !settled && !released)
            && (result.GatewayNotReady? <==> !settled && released && !connects)
            && (result.Adopted? <==> !settled && connects && registered && !ShowsOther(l, route))
            && (result.Started? <==>
                  !settled && released && connects && (registered ==> ShowsOther(l, route)) && succeeds)
            && (result.StartFailed? <==>
                  !settled && released && connects && (registered ==> ShowsOther(l, route)) && !succeeds)
  {
    hide Sessions.Inv, Coherent, AbandonedLive, RejectedAreBare, SetRoute, ForwardingValid, AtConnected, AtStart,
         AtStop, StartSucceeds, Sessions.Connect, Registered, ForwardingKey;
    var l := s.gateways[gw][name];
    LateExits(s, gw, name, route, io);
    QuietPools(s, l, route, io);
    if Released(s.pool, l, route, io) {
      QuietStart(s, l, route, io);
    }
  }

  /** The way into a blocked listener without any lost connection: another route is replaced,
      its forwarding is stopped, and the start of the new one fails. The listener goes on
      showing the old route, without forwarding, and refuses the new one from then on. */
  lemma FailedReplacementBlocks(s: System, gw: string, name: string, route: Route, io: SetIO)
    requires Coherence.Inv(s) && gw in s.gateways && name in s.gateways[gw]
    requires ShowsOther(s.gateways[gw][name], route) && SetRoute(s, gw, name, route, io).1.StartFailed?
    ensures BlockedByOther(SetRoute(s, gw, name, route, io).0, gw, name, route)
  {
    hide Sessions.Inv, Coherent, AbandonedLive, RejectedAreBare, Prepare, Sessions.StartForwarding, ForwardingKey,
         ForwardingValid, Interfere, Registered, AtStart, AtConnected, AtStop, Released;
    var l := s.gateways[gw][name];
    PrepareOutcome(s, l, l, route, io);
    StartForwardingEffect(Prepare(s.pool, l, io).0, l.kind, l.Config(route), io.start);
  }

  /** A quiet call touches no forwarding but the listener's own. */
  lemma SetRouteIsLocal(
    s: System, gw: string, name: string, route: Route, io: SetIO, kind: SessionKind, key: string)
    requires Coherence.Inv(s) && io.Quiet()
    requires gw in s.gateways && name in s.gateways[gw] ==>
               var l := s.gateways[gw][name]; (kind, key) != (l.kind, ForwardingKey(l.hostname, l.port))
    ensures Untouched(s.pool, SetRoute(s, gw, name, route, io).0.pool, kind, key)
  {
    hide Sessions.Inv, Coherent, AbandonedLive, RejectedAreBare, StopForwarding, Sessions.Connect, ForwardingValid,
         Sessions.StartForwarding, ForwardingKey, Registered, Sessions.GetAssignedAddresses;
    assert forall q: Pool {:trigger Interfere(q, [])} :: Interfere(q, []) == q;
    if gw in s.gateways && name in s.gateways[gw] && !s.gateways[gw][name].rejected {
      var l := s.gateways[gw][name];
      var cleared := if l.route == Some(route) then l.(route := None) else l;
      PrepareIsLocal(s.pool, cleared, io, kind, key);
      PrepareShrinks(s.pool, cleared, io);
      StartIsLocal(Prepare(s.pool, cleared, io).0, l.kind, l.Config(route), io.start, kind, key);
    }
  }

  lemma PrepareIsLocal(p: Pool, l: Listener, io: SetIO, kind: SessionKind, key: string)
    requires Sessions.Inv(p) && io.Quiet() && (kind, key) != (l.kind, ForwardingKey(l.hostname, l.port))
    ensures Untouched(p, Prepare(p, l, io).0, kind, key)
  {
    hide Sessions.Inv, StopForwarding, Sessions.Connect, ForwardingKey, Registered, Sessions.GetAssignedAddresses;
    assert forall q: Pool {:trigger Interfere(q, [])} :: Interfere(q, []) == q;
    StopForwardingIsLocal(p, l.kind, ForwardingKey(l.hostname, l.port), io.stopReply);
    var q := StopExisting(p, l, io).0;
    ConnectTouchesNothing(q, io.dials, kind, key);
  }

  lemma ConnectTouchesNothing(p: Pool, dials: map<SessionKind, bool>, kind: SessionKind, key: string)
    ensures Untouched(p, Sessions.Connect(p, dials), kind, key)
  {
  }

  lemma StartIsLocal(
    p: Pool, started: SessionKind, fwd: ForwardingConfig, io: StartIO, kind: SessionKind, key: string)
    requires (kind, key) != (started, fwd.Key())
    ensures Untouched(p, Sessions.StartForwarding(p, started, fwd, io).0, kind, key)
  {
    if started in p.managers {
      StartSparesOthers(p.managers[started], fwd, io, key);
    }
    hide Tunnel.Start;
  }

  lemma StartSparesOthers(s: State, fwd: ForwardingConfig, io: StartIO, key: string)
    ensures var t := Tunnel.Start(s, fwd, io).0;
            key != fwd.Key() ==>
              && (key in t.forwardings <==> key in s.forwardings)
              && (key in s.forwardings ==> t.forwardings[key] == s.forwardings[key])
              && (key in t.assignedAddrs <==> key in s.assignedAddrs)
              && (key in s.assignedAddrs ==> t.assignedAddrs[key] == s.assignedAddrs[key])
  {
    StartCases(s, fwd, io);
    hide Tunnel.Start, ForwardingKey;
  }

  // ------------------------------------------------------------ pinned ports

  /** A TCP listener on a wildcard host whose forwarding is its own has, among its addresses,
      one with exactly its port, or a web address. */
  lemma PinnedListenerGetsItsPort(s: System, gw: string, name: string)
    requires Coherence.Inv(s) && s.pool.capturing && gw in s.gateways && name in s.gateways[gw]
    requires var l := s.gateways[gw][name];
             && l.protocol == "TCP" && l.port > 0 && l.hostname in {"", "0.0.0.0", "localhost"}
             && Owns'(s, gw, name, l)
    ensures var l := s.gateways[gw][name];
            exists uri :: uri in Sessions.GetAssignedAddresses(s.pool, l.kind, l.Key()) &&
              (IsHTTP(uri) || (HasPrefix(uri, TCP) && TCPURIPort(uri) == Some(l.port)))
  {
    var l := s.gateways[gw][name];
    ManagerInv(s.pool, l.kind);
    var uris := Sessions.GetAssignedAddresses(s.pool, l.kind, l.Key());
    MatchesIffSome(uris, l.hostname, l.port, true);
    hide MatchesRequestedHost, TCPURIPort;
  }
}
