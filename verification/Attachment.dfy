/** What one SetRoute achieves: verified listeners are never adopted, one call suffices on a
    good server, repeated calls change nothing, and which calls can never settle. */
module Attachment {
  import opened Text
  import opened HostMatch
  import opened Tunnel
  import opened Sessions
  import opened Listeners
  import opened Registry
  import opened Coherence

  /** Distinct listeners stand for distinct forwardings, the rejected ones aside. */
  ghost predicate DistinctKeys(s: System) {
    forall g1, n1, g2, n2 |
      g1 in s.gateways && n1 in s.gateways[g1] && g2 in s.gateways && n2 in s.gateways[g2]
      && !s.gateways[g1][n1].rejected && !s.gateways[g2][n2].rejected
      && s.gateways[g1][n1].kind == s.gateways[g2][n2].kind
      && s.gateways[g1][n1].Key() == s.gateways[g2][n2].Key() :: g1 == g2 && n1 == n2
  }

  /** With distinct keys the owner is unique: whatever listener has the key of a registered
      forwarding that was not abandoned has a route, and the forwarding is that route's. */
  lemma OwnerIsUnique(s: System, gw: string, name: string)
    requires Coherence.Inv(s) && DistinctKeys(s)
    requires gw in s.gateways && name in s.gateways[gw] && !s.gateways[gw][name].rejected
    ensures var l := s.gateways[gw][name];
            Registered(s.pool, l.kind, l.Key()) && (l.kind, l.Key()) !in s.abandoned ==>
              Owns(s, gw, name, l.kind, l.Key())
  {
    var l := s.gateways[gw][name];
    if Registered(s.pool, l.kind, l.Key()) && (l.kind, l.Key()) !in s.abandoned {
      assert Owned(s, l.kind, l.Key());
    }
  }

  /** A registered forwarding that needs checking has stored addresses which the controller
      accepts as well. */
  lemma RegisteredIsValid(p: Pool, l: Listener, route: Route)
    requires Sessions.Inv(p) && p.capturing && l.NeedsCheck()
    requires Registered(p, l.kind, l.Key()) && p.managers[l.kind].forwardings[l.Key()] == l.Config(route)
    ensures ForwardingValid(p, l)
  {
    hide MatchesRequestedHost;
    var m := p.managers[l.kind];
    assert ManagerOK(p, m);
    assert Accepts(m.assignedAddrs[l.Key()], l.hostname, l.port, l.EnforcePort());
    EmptyNeverMatches(l.hostname, l.port, l.EnforcePort());
  }

  lemma EmptyNeverMatches(host: string, port: int, enforcePort: bool)
    ensures !MatchesRequestedHost([], host, port, enforcePort)
  {
  }

  // ------------------------------------------------------- no false adoption

  /** For a listener that needs checking, SetRoute never ends by adopting an existing
      forwarding, whatever happens between its steps: a stale route leads to a fresh,
      verified request. The one exception is a forwarding abandoned by a dropped listener. */
  lemma VerifiedListenerNeverAdopts(s: System, gw: string, name: string, route: Route, io: SetIO)
    requires Coherence.Inv(s) && DistinctKeys(s) && s.pool.capturing
    requires gw in s.gateways && name in s.gateways[gw]
    requires var l := s.gateways[gw][name]; l.NeedsCheck() && (l.kind, l.Key()) !in s.abandoned
    ensures SetRoute(s, gw, name, route, io).1 != Adopted
  {
    hide Sessions.Inv, Coherent, AbandonedLive, Shrinks, Interfere, Prepare, ForwardingValid,
         Sessions.StartForwarding, DistinctKeys;
    var l := s.gateways[gw][name];
    if !l.rejected {
      OwnerIsUnique(s, gw, name);
      if l.route == Some(route) {
        var p := Interfere(s.pool, io.beforeCheck);
        InterfereShrinks(s.pool, io.beforeCheck);
        InterfereCapturing(s.pool, io.beforeCheck);
        if Registered(p, l.kind, l.Key()) {
          ShrinksAt(s.pool, p, l.kind, l.Key());
          RegisteredIsValid(p, l, route);
        } else {
          SetupAdoptsOnlyRegistered(WithPool(s, p), gw, name, l.(route := None), route, io);
        }
      } else {
        SetupAdoptsOnlyRegistered(s, gw, name, l, route, io);
      }
    }
  }

  lemma SetupAdoptsOnlyRegistered(s: System, gw: string, name: string, l: Listener, route: Route, io: SetIO)
    requires Sessions.Inv(s.pool)
    requires l.route.Some? || !Registered(s.pool, l.kind, l.Key())
    ensures SetupRouteForwarding(s, gw, name, l, route, io).1 != Adopted
  {
    hide Sessions.Inv, Shrinks, Prepare, Sessions.StartForwarding;
    PrepareShrinks(s.pool, l, io);
    var p := Prepare(s.pool, l, io).0;
    ShrinkUnregisters(s.pool, p, l.kind, l.Key());
    StartForwardingEffect(p, l.kind, l.Config(route), io.start);
  }

  lemma {:induction false} InterfereCapturing(p: Pool, events: seq<PoolEvent>)
    ensures Interfere(p, events).capturing == p.capturing
  {
    if events != [] {
      InterfereCapturing(p, events[..|events| - 1]);
    }
  }

  // ---------------------------------------------------- one-call convergence

  /** The server brings up the capture session, accepts the request, and reports in time
      addresses that suit the request. */
  predicate GoodServer(io: StartIO, l: Listener) {
    && io.captureReady && io.start.Accepted? && !io.verifyTimeout && io.emitted != []
    && ValidPort(l.port)
    && MatchesRequestedHost(io.emitted[0], l.hostname, l.port, l.EnforcePort())
  }

  /** The listener ends up with the route, the forwarding is registered for it, and valid. */
  ghost predicate Attached(t: System, gw: string, name: string, before: Listener, route: Route) {
    && gw in t.gateways && name in t.gateways[gw]
    && var l := t.gateways[gw][name];
       l == before.(route := Some(route)) && Owns'(t, gw, name, l) && ForwardingValid(t.pool, l)
  }

  /** From every reachable state with the session connected and a good server, one SetRoute
      returns nil if and only if the listener has no route, has this one already, or has
      another one whose forwarding is still registered and is released. If the listener needs
      checking, nil means attached. */
  lemma OneCallConverges(s: System, gw: string, name: string, route: Route, io: SetIO)
    requires Coherence.Inv(s) && gw in s.gateways && name in s.gateways[gw]
    requires var l := s.gateways[gw][name];
             !l.rejected && IsConnected(s.pool, l.kind) && GoodServer(io.start, l)
    requires io.Quiet()
    ensures var (t, result) := SetRoute(s, gw, name, route, io);
            var l := s.gateways[gw][name];
            && (result.Nil() <==>
                  || l.route == None || l.route == Some(route)
                  || (Registered(s.pool, l.kind, l.Key()) && io.stopReply.Accepted?))
            && (s.pool.capturing && l.NeedsCheck() && DistinctKeys(s) && (l.kind, l.Key()) !in s.abandoned ==>
                  result.Nil() ==> result != Adopted && Attached(t, gw, name, l, route))
  {
    hide Sessions.Inv, Coherent, AbandonedLive, DistinctKeys, ForwardingValid, MatchesRequestedHost,
         SetupRouteForwarding;
    var l := s.gateways[gw][name];
    assert Interfere(s.pool, []) == s.pool;
    var checked := WithPool(s, s.pool);
    if l.route == Some(route) {
      if !ForwardingValid(s.pool, l) {
        SetupNil(checked, gw, name, l.(route := None), route, io);
      }
    } else {
      SetupNil(s, gw, name, l, route, io);
    }
    if s.pool.capturing && l.NeedsCheck() && DistinctKeys(s) && (l.kind, l.Key()) !in s.abandoned {
      OwnerIsUnique(s, gw, name);
      if l.route == Some(route) {
        if ForwardingValid(s.pool, l) {
          ValidIsRegistered(s.pool, l);
          assert Owns'(checked, gw, name, l);
        } else {
          if Registered(s.pool, l.kind, l.Key()) {
            RegisteredIsValid(s.pool, l, route);
          }
          SetupConverges(checked, gw, name, l.(route := None), route, io);
          assert l.(route := None).(route := Some(route)) == l;
        }
      } else {
        SetupConverges(s, gw, name, l, route, io);
      }
    }
  }

  /** On a good server only an existing route that cannot be stopped keeps setup from nil. */
  lemma SetupNil(s: System, gw: string, name: string, l: Listener, route: Route, io: SetIO)
    requires Sessions.Inv(s.pool) && IsConnected(s.pool, l.kind) && GoodServer(io.start, l) && io.Quiet()
    ensures SetupRouteForwarding(s, gw, name, l, route, io).1.Nil()
            <==> l.route.None? || (Registered(s.pool, l.kind, l.Key()) && io.stopReply.Accepted?)
  {
    hide Sessions.Inv, MatchesRequestedHost, Tunnel.Start, Tunnel.Stop, Sessions.Connect, Tunnel.Inv;
    assert forall q: Pool {:trigger Interfere(q, [])} :: Interfere(q, []) == q;
    ManagerInv(s.pool, l.kind);
    StopOnGoodServer(s.pool.managers[l.kind], l, io.stopReply);
    var p := Prepare(s.pool, l, io).0;
    if Prepare(s.pool, l, io).1.None? {
      GoodStartOutcome(p.managers[l.kind], l, route, io.start);
    }
  }

  lemma GoodStartOutcome(m: Tunnel.State, l: Listener, route: Route, io: StartIO)
    requires m.connected && GoodServer(io, l)
    ensures var outcome := Tunnel.Start(m, l.Config(route), io).1;
            outcome == Success || outcome == ForwardingExists
  {
    hide MatchesRequestedHost;
  }

  ghost predicate Owns'(s: System, gw: string, name: string, l: Listener) {
    Registered(s.pool, l.kind, l.Key()) && Owns(s, gw, name, l.kind, l.Key())
  }

  lemma ValidIsRegistered(p: Pool, l: Listener)
    requires Sessions.Inv(p)
    ensures ForwardingValid(p, l) ==> Registered(p, l.kind, l.Key())
  {
    if l.kind in p.managers {
      assert ManagerOK(p, p.managers[l.kind]);
    }
  }

  lemma ManagerInv(p: Pool, kind: SessionKind)
    requires Sessions.Inv(p) && kind in p.managers
    ensures Tunnel.Inv(p.managers[kind]) && p.managers[kind].capturing == p.capturing
  {
    assert ManagerOK(p, p.managers[kind]);
  }

  /** Setting up on a good server: nothing is in the way of a listener without a route; one
      with a route must be stopped first, and that can fail. */
  lemma SetupConverges(s: System, gw: string, name: string, l: Listener, route: Route, io: SetIO)
    requires Sessions.Inv(s.pool) && s.pool.capturing
    requires gw in s.gateways && name in s.gateways[gw]
    requires l.route.None? ==> !Registered(s.pool, l.kind, l.Key())
    requires IsConnected(s.pool, l.kind) || (l.route.None? && Redialed(s.pool, l.kind, io))
    requires GoodServer(io.start, l) && io.Quiet()
    ensures var (t, result) := SetupRouteForwarding(s, gw, name, l, route, io);
            && (result.Nil() <==> l.route.None? || (Registered(s.pool, l.kind, l.Key()) && io.stopReply.Accepted?))
            && (result.Nil() ==> result == Started && Attached(t, gw, name, l, route))
  {
    hide Sessions.Inv, MatchesRequestedHost, StartRoute, Attached, Tunnel.Start, Tunnel.Stop, Tunnel.Connect;
    PrepareOnGoodServer(s.pool, l, io);
    var (p, failure) := Prepare(s.pool, l, io);
    if failure.None? {
      GoodStartRoute(WithPool(s, p), gw, name, l, route, io.start);
    }
  }

  ghost predicate Redialed(p: Pool, kind: SessionKind, io: SetIO) {
    kind in p.managers && kind in io.dials && io.dials[kind]
  }

  lemma PrepareOnGoodServer(p: Pool, l: Listener, io: SetIO)
    requires Sessions.Inv(p) && io.Quiet() && ValidPort(l.port)
    requires l.route.None? ==> !Registered(p, l.kind, l.Key())
    requires IsConnected(p, l.kind) || (l.route.None? && Redialed(p, l.kind, io))
    ensures var (q, failure) := Prepare(p, l, io);
            && (failure.None? <==> l.route.None? || (Registered(p, l.kind, l.Key()) && io.stopReply.Accepted?))
            && (failure.Some? ==> failure.value.StopFailed?)
            && (failure.None? ==>
                  && Sessions.Inv(q) && q.capturing == p.capturing && IsConnected(q, l.kind)
                  && !Registered(q, l.kind, l.Key()))
  {
    assert forall q: Pool {:trigger Interfere(q, [])} :: Interfere(q, []) == q;
    PrepareShrinks(p, l, io);
    ManagerInv(p, l.kind);
    if IsConnected(p, l.kind) {
      StopOnGoodServer(p.managers[l.kind], l, io.stopReply);
    }
    hide Sessions.Inv, Shrinks, Tunnel.Inv, Tunnel.Stop;
  }

  lemma StopOnGoodServer(m: Tunnel.State, l: Listener, reply: Reply)
    requires Tunnel.Inv(m) && m.connected
    ensures var (n, outcome) := Tunnel.Stop(m, l.Key(), reply);
            && n.connected && n.capturing == m.capturing
            && (outcome == Success <==> l.Key() in m.forwardings && reply.Accepted?)
  {
  }

  lemma GoodStartRoute(s: System, gw: string, name: string, l: Listener, route: Route, io: StartIO)
    requires Sessions.Inv(s.pool) && s.pool.capturing
    requires gw in s.gateways && name in s.gateways[gw]
    requires IsConnected(s.pool, l.kind) && !Registered(s.pool, l.kind, l.Key()) && GoodServer(io, l)
    ensures var (t, result) := StartRoute(s, gw, name, l, route, io);
            result == Started && Attached(t, gw, name, l, route)
  {
    hide Sessions.Inv, MatchesRequestedHost;
    ManagerInv(s.pool, l.kind);
    GoodStart(s.pool.managers[l.kind], l, route, io);
    EmptyNeverMatches(l.hostname, l.port, l.EnforcePort());
    hide Tunnel.Start, Tunnel.Inv;
  }

  /** The same after a lost connection: SetRoute dials again by itself, and finds nothing of
      the old forwardings in its way, unless the listener still shows another route. */
  lemma OneCallReconnects(s: System, gw: string, name: string, route: Route, io: SetIO)
    requires Coherence.Inv(s) && s.pool.capturing
    requires gw in s.gateways && name in s.gateways[gw]
    requires var l := s.gateways[gw][name];
             && !l.rejected && !IsConnected(s.pool, l.kind) && Redialed(s.pool, l.kind, io)
             && GoodServer(io.start, l)
    requires io.Quiet()
    ensures var (t, result) := SetRoute(s, gw, name, route, io);
            var l := s.gateways[gw][name];
            && (result.Nil() <==> l.route == None || l.route == Some(route))
            && (result.Nil() ==> result == Started && Attached(t, gw, name, l, route))
  {
    hide Sessions.Inv, Coherent, AbandonedLive, MatchesRequestedHost, SetupRouteForwarding;
    var l := s.gateways[gw][name];
    DisconnectedIsEmpty(s.pool, l.kind);
    assert Interfere(s.pool, []) == s.pool;
    if l.route == Some(route) {
      if ForwardingValid(s.pool, l) {
        ValidIsRegistered(s.pool, l);
      }
      hide ForwardingValid;
      SetupConverges(WithPool(s, s.pool), gw, name, l.(route := None), route, io);
      assert l.(route := None).(route := Some(route)) == l;
      AttachedIgnoresRoute(SetRoute(s, gw, name, route, io).0, gw, name, l, route);
    } else if l.route == None {
      SetupConverges(s, gw, name, l, route, io);
    } else {
      OtherRouteBlocks(s, gw, name, route, io);
    }
  }

  lemma AttachedIgnoresRoute(t: System, gw: string, name: string, l: Listener, route: Route)
    ensures Attached(t, gw, name, l.(route := None), route) == Attached(t, gw, name, l, route)
  {
    assert l.(route := None).(route := Some(route)) == l.(route := Some(route));
  }

  /** The listener shows another route, whose forwarding is gone. */
  ghost predicate BlockedByOther(s: System, gw: string, name: string, route: Route) {
    && gw in s.gateways && name in s.gateways[gw]
    && var l := s.gateways[gw][name];
       !l.rejected && l.route.Some? && l.route.value != route && !Registered(s.pool, l.kind, l.Key())
  }

  /** The calls that can never succeed: such a listener refuses every new route, in every
      environment, and stays as it is. */
  lemma OtherRouteBlocks(s: System, gw: string, name: string, route: Route, io: SetIO)
    requires Sessions.Inv(s.pool) && BlockedByOther(s, gw, name, route)
    ensures var (t, result) := SetRoute(s, gw, name, route, io);
            && result.StopFailed? && t.gateways == s.gateways
            && Sessions.Inv(t.pool) && BlockedByOther(t, gw, name, route)
  {
    hide Sessions.Inv, Shrinks, Interfere, Tunnel.Stop, EnsureConnected;
    var l := s.gateways[gw][name];
    var p := Interfere(s.pool, io.beforeStop);
    InterfereShrinks(s.pool, io.beforeStop);
    ShrinkUnregisters(s.pool, p, l.kind, l.Key());
    StopExistingShrinks(s.pool, l, io);
    UnregisteredStopFails(p, l.kind, l.Key(), io.stopReply);
    assert s.gateways[gw][name := l] == s.gateways[gw];
    assert s.gateways[gw := s.gateways[gw]] == s.gateways;
  }

  lemma UnregisteredStopFails(p: Pool, kind: SessionKind, key: string, reply: Reply)
    requires !Registered(p, kind, key)
    ensures StopForwarding(p, kind, key, reply).1 != Success
  {
  }

  lemma {:induction false} OtherRouteBlocksForever(
    s: System, gw: string, name: string, route: Route, ios: seq<SetIO>, io: SetIO)
    requires Sessions.Inv(s.pool) && BlockedByOther(s, gw, name, route)
    ensures var t := Repeat(s, gw, name, route, ios);
            && t.gateways == s.gateways && Sessions.Inv(t.pool) && BlockedByOther(t, gw, name, route)
            && SetRoute(t, gw, name, route, io).1.StopFailed?
  {
    hide Sessions.Inv, SetRoute, BlockedByOther;
    if ios != [] {
      var n := |ios| - 1;
      OtherRouteBlocksForever(s, gw, name, route, ios[..n], ios[n]);
      OtherRouteBlocks(Repeat(s, gw, name, route, ios[..n]), gw, name, route, ios[n]);
    }
    OtherRouteBlocks(Repeat(s, gw, name, route, ios), gw, name, route, io);
  }

  lemma GoodStart(m: Tunnel.State, l: Listener, route: Route, io: StartIO)
    requires m.connected && m.capturing && l.Key() !in m.forwardings && GoodServer(io, l)
    ensures var (n, outcome) := Tunnel.Start(m, l.Config(route), io);
            && outcome == Success
            && n.forwardings == m.forwardings[l.Key() := l.Config(route)]
            && n.assignedAddrs == m.assignedAddrs[l.Key() := io.emitted[0]]
  {
    hide MatchesRequestedHost;
  }

  lemma StartFindsExisting(p: Pool, kind: SessionKind, fwd: ForwardingConfig, io: StartIO)
    requires IsConnected(p, kind) && Registered(p, kind, fwd.Key())
    ensures Sessions.StartForwarding(p, kind, fwd, io) == (p, ForwardingExists)
  {
    assert p.managers[kind := p.managers[kind]] == p.managers;
  }

  // -------------------------------------------------------------- idempotence

  /** The stored addresses of a pool come from the extractor. */
  ghost predicate StoredSchemed(p: Pool, l: Listener) {
    forall uri | uri in Sessions.GetAssignedAddresses(p, l.kind, l.Key()) :: Schemed(uri)
  }

  /** A listener whose route is attached and whose addresses are stored is settled: an
      identical SetRoute, on an unchanged connection and configuration, changes nothing and
      sends nothing, and this holds if and only if some address is stored. */
  lemma SettledIffAddressesStored(s: System, gw: string, name: string, route: Route, io: SetIO)
    requires Coherence.Inv(s) && gw in s.gateways && name in s.gateways[gw]
    requires var l := s.gateways[gw][name];
             && !l.rejected && l.route == Some(route)
             && Owns'(s, gw, name, l) && StoredSchemed(s.pool, l)
    requires io.beforeCheck == []
    ensures var l := s.gateways[gw][name];
            SetRoute(s, gw, name, route, io) == (s, AlreadyAttached)
            <==> Sessions.GetAssignedAddresses(s.pool, l.kind, l.Key()) != []
  {
    hide MatchesRequestedHost, Coherent, SetupRouteForwarding;
    var l := s.gateways[gw][name];
    var uris := Sessions.GetAssignedAddresses(s.pool, l.kind, l.Key());
    assert Interfere(s.pool, []) == s.pool;
    assert WithPool(s, s.pool) == s;
    assert ManagerOK(s.pool, s.pool.managers[l.kind]);
    AcceptValidateAgree(uris, l.hostname, l.port, l.EnforcePort());
    SetupNeverAlreadyAttached(WithPool(s, s.pool), gw, name, l.(route := None), route, io);
  }

  lemma SetupNeverAlreadyAttached(s: System, gw: string, name: string, l: Listener, route: Route, io: SetIO)
    ensures SetupRouteForwarding(s, gw, name, l, route, io).1 != AlreadyAttached
  {
  }

  /** A whole series of identical calls. */
  function Repeat(s: System, gw: string, name: string, route: Route, ios: seq<SetIO>): System {
    if ios == [] then s else SetRoute(Repeat(s, gw, name, route, ios[..|ios| - 1]), gw, name, route, ios[|ios| - 1]).0
  }

  /** After a fresh start that stored addresses, every later identical SetRoute leaves the
      whole system as it is. */
  lemma {:induction false} FreshStartSettles(
    s: System, gw: string, name: string, route: Route, io: SetIO, later: seq<SetIO>)
    requires Coherence.Inv(s)
    requires forall batch, uri | batch in io.start.emitted && uri in batch :: Schemed(uri)
    requires forall i | 0 <= i < |later| :: later[i].beforeCheck == []
    ensures var (t, result) := SetRoute(s, gw, name, route, io);
            result == Started ==>
              && gw in t.gateways && name in t.gateways[gw]
              && var l := t.gateways[gw][name];
                 Sessions.GetAssignedAddresses(t.pool, l.kind, l.Key()) != [] ==> Repeat(t, gw, name, route, later) == t
  {
    hide Coherence.Inv, Owns', StoredSchemed, Sessions.GetAssignedAddresses;
    var (t, result) := SetRoute(s, gw, name, route, io);
    if result == Started {
      SetRouteKeepsInv(s, gw, name, route, io);
      StartedOwns(s, gw, name, route, io);
      StartedStoresReport(s, gw, name, route, io);
      hide SetRoute;
      if later != [] {
        FreshStartSettles(s, gw, name, route, io, later[..|later| - 1]);
        var l := t.gateways[gw][name];
        if Sessions.GetAssignedAddresses(t.pool, l.kind, l.Key()) != [] {
          SettledIffAddressesStored(t, gw, name, route, later[|later| - 1]);
        }
      }
    }
  }

  /** What a fresh start stores was printed while it waited. */
  lemma StartedStoresReport(s: System, gw: string, name: string, route: Route, io: SetIO)
    requires Coherence.Inv(s) && SetRoute(s, gw, name, route, io).1 == Started
    requires forall batch, uri | batch in io.start.emitted && uri in batch :: Schemed(uri)
    ensures var t := SetRoute(s, gw, name, route, io).0;
            gw in t.gateways && name in t.gateways[gw] && StoredSchemed(t.pool, t.gateways[gw][name])
  {
    hide Sessions.Inv, Coherent, AbandonedLive, RejectedAreBare, Prepare, Shrinks, Interfere, ForwardingValid,
         Sessions.StartForwarding, Schemed;
    var l := s.gateways[gw][name];
    var s0 := if l.route == Some(route) then WithPool(s, Interfere(s.pool, io.beforeCheck)) else s;
    var l0 := if l.route == Some(route) then l.(route := None) else l;
    InterfereShrinks(s.pool, io.beforeCheck);
    PrepareShrinks(s0.pool, l0, io);
    StartStoresReport(Prepare(s0.pool, l0, io).0, l, route, io.start);
  }

  lemma StartStoresReport(p: Pool, l: Listener, route: Route, io: StartIO)
    requires Sessions.Inv(p) && Sessions.StartForwarding(p, l.kind, l.Config(route), io).1 == Success
    requires forall batch, uri | batch in io.emitted && uri in batch :: Schemed(uri)
    ensures StoredSchemed(Sessions.StartForwarding(p, l.kind, l.Config(route), io).0, l)
  {
    hide Tunnel.Start, MatchesRequestedHost, Schemed;
    ManagerInv(p, l.kind);
    StartCases(p.managers[l.kind], l.Config(route), io);
  }

  lemma StartedOwns(s: System, gw: string, name: string, route: Route, io: SetIO)
    requires Coherence.Inv(s) && SetRoute(s, gw, name, route, io).1 == Started
    ensures var t := SetRoute(s, gw, name, route, io).0;
            && gw in t.gateways && name in t.gateways[gw]
            && var l := t.gateways[gw][name];
               !l.rejected && l.route == Some(route) && Owns'(t, gw, name, l)
  {
    hide Sessions.Inv, Coherent, AbandonedLive, Prepare, Shrinks, Interfere, ForwardingValid, Sessions.StartForwarding;
    var l := s.gateways[gw][name];
    var s0 := if l.route == Some(route) then WithPool(s, Interfere(s.pool, io.beforeCheck)) else s;
    var l0 := if l.route == Some(route) then l.(route := None) else l;
    InterfereShrinks(s.pool, io.beforeCheck);
    var p := Prepare(s0.pool, l0, io).0;
    PrepareShrinks(s0.pool, l0, io);
    StartForwardingEffect(p, l.kind, l.Config(route), io.start);
  }

  /** The route is attached to a registered forwarding without addresses. */
  ghost predicate WithoutAddresses(s: System, gw: string, name: string, route: Route) {
    && gw in s.gateways && name in s.gateways[gw]
    && var l := s.gateways[gw][name];
       && !l.rejected && l.route == Some(route) && Owns'(s, gw, name, l)
       && Sessions.GetAssignedAddresses(s.pool, l.kind, l.Key()) == []
  }

  /** The calls that never settle: an unverified forwarding that was kept without addresses,
      because the report did not come in time, is adopted again by every identical SetRoute
      and stays without addresses. */
  lemma WithoutAddressesAdoptsForever(s: System, gw: string, name: string, route: Route, io: SetIO)
    requires Coherence.Inv(s) && WithoutAddresses(s, gw, name, route) && io.Quiet()
    ensures SetRoute(s, gw, name, route, io) == (s, Adopted)
  {
    hide MatchesRequestedHost, Coherent;
    var l := s.gateways[gw][name];
    assert Interfere(s.pool, []) == s.pool;
    assert WithPool(s, s.pool) == s;
    assert ManagerOK(s.pool, s.pool.managers[l.kind]);
    var cleared := l.(route := None);
    assert Prepare(s.pool, cleared, io) == (s.pool, None);
    StartFindsExisting(s.pool, l.kind, l.Config(route), io.start);
    assert s.gateways[gw][name := l] == s.gateways[gw];
    assert s.gateways[gw := s.gateways[gw]] == s.gateways;
    assert cleared.(route := Some(route)) == l;
    assert Put(s, gw, name, l) == s;
  }

  // ------------------------------------------------------------ nil and served

  /** The backend that channels for the listener's pair are handed to. */
  function BackendOf(p: Pool, l: Listener): Option<(string, int)> {
    if l.kind in p.managers && l.port >= 0 then Dispatch(p.managers[l.kind], l.hostname, l.port) else None
  }

  /** Channels go where the registered forwarding says. */
  lemma RegisteredReachesBackend(p: Pool, l: Listener)
    requires Sessions.Inv(p) && Registered(p, l.kind, l.Key())
    ensures var fwd := p.managers[l.kind].forwardings[l.Key()];
            BackendOf(p, l) == Some((fwd.internalHost, fwd.internalPort))
  {
    ManagerInv(p, l.kind);
    var fwd := p.managers[l.kind].forwardings[l.Key()];
    ForwardingKeyInjective(fwd.remoteHost, fwd.remotePort, l.hostname, l.port);
  }

  /** The forwarding under the listener's key is as it was. */
  ghost predicate SameForwarding(p: Pool, q: Pool, l: Listener) {
    && Registered(p, l.kind, l.Key()) && Registered(q, l.kind, l.Key())
    && q.managers[l.kind].forwardings[l.Key()] == p.managers[l.kind].forwardings[l.Key()]
  }

  /** Does the listener stand on somebody else's forwarding: is one registered under its key
      that is not what the route asks for, and no other route of its own to stop first? */
  ghost predicate TakesOver(s: System, l: Listener, route: Route) {
    && Registered(s.pool, l.kind, l.Key())
    && s.pool.managers[l.kind].forwardings[l.Key()] != l.Config(route)
    && (l.route == None || l.route == Some(route))
  }

  /** What a SetRoute that returns nil leaves: the route shown, every other listener as it was,
      and a forwarding under the key that is new or the one that was there. */
  ghost predicate Outline(s: System, t: System, gw: string, name: string, l: Listener, route: Route)
    requires gw in s.gateways
  {
    && t.gateways == s.gateways[gw := s.gateways[gw][name := l.(route := Some(route))]]
    && Registered(t.pool, l.kind, l.Key())
    && ((l.kind, l.Key()) in t.abandoned ==> (l.kind, l.Key()) in s.abandoned && SameForwarding(s.pool, t.pool, l))
    && (t.pool.managers[l.kind].forwardings[l.Key()] == l.Config(route)
        || (SameForwarding(s.pool, t.pool, l) && TakesOver(s, l, route)))
  }

  lemma SetupOutline(s: System, gw: string, name: string, l: Listener, route: Route, io: SetIO)
    requires Sessions.Inv(s.pool) && gw in s.gateways && name in s.gateways[gw]
    requires SetupRouteForwarding(s, gw, name, l, route, io).1.Nil()
    ensures Outline(s, SetupRouteForwarding(s, gw, name, l, route, io).0, gw, name, l, route)
  {
    hide Sessions.Inv, Shrinks, Prepare, Sessions.StartForwarding;
    var p := Prepare(s.pool, l, io).0;
    PrepareShrinks(s.pool, l, io);
    StartForwardingEffect(p, l.kind, l.Config(route), io.start);
    if Registered(p, l.kind, l.Key()) {
      ShrinksAt(s.pool, p, l.kind, l.Key());
    }
  }

  lemma SetRouteOutline(s: System, gw: string, name: string, route: Route, io: SetIO)
    requires Coherence.Inv(s) && SetRoute(s, gw, name, route, io).1.Nil()
    ensures gw in s.gateways && name in s.gateways[gw] && !s.gateways[gw][name].rejected
    ensures Outline(s, SetRoute(s, gw, name, route, io).0, gw, name, s.gateways[gw][name], route)
  {
    hide Sessions.Inv, Coherent, AbandonedLive, Shrinks, Interfere, ForwardingValid, SetupRouteForwarding;
    var l := s.gateways[gw][name];
    if l.route == Some(route) {
      var checked := WithPool(s, Interfere(s.pool, io.beforeCheck));
      InterfereShrinks(s.pool, io.beforeCheck);
      if ForwardingValid(checked.pool, l) {
        ValidIsRegistered(checked.pool, l);
        ShrinksAt(s.pool, checked.pool, l.kind, l.Key());
        assert s.gateways[gw][name := l] == s.gateways[gw];
      } else {
        SetupOutline(checked, gw, name, l.(route := None), route, io);
        if Registered(checked.pool, l.kind, l.Key()) {
          ShrinksAt(s.pool, checked.pool, l.kind, l.Key());
        }
      }
    } else {
      SetupOutline(s, gw, name, l, route, io);
    }
  }

  /** In every call that returns nil, whatever happens between its steps, the listener shows
      the route and a forwarding is registered under its key. It is the listener's own, with
      channels reaching the route's backend, if and only if the call did not take over
      somebody else's that is still there. With distinct keys only an abandoned forwarding
      can be somebody else's. */
  lemma NilMeansServed(s: System, gw: string, name: string, route: Route, io: SetIO)
    requires Coherence.Inv(s) && SetRoute(s, gw, name, route, io).1.Nil()
    ensures gw in s.gateways && name in s.gateways[gw]
    ensures var t, l := SetRoute(s, gw, name, route, io).0, s.gateways[gw][name];
            && gw in t.gateways && name in t.gateways[gw]
            && t.gateways[gw][name] == l.(route := Some(route))
            && Registered(t.pool, l.kind, l.Key())
            && (Owns'(t, gw, name, t.gateways[gw][name])
                <==> !(TakesOver(s, l, route) && SameForwarding(s.pool, t.pool, l)))
            && (Owns'(t, gw, name, t.gateways[gw][name]) ==> BackendOf(t.pool, l) == Some((route.host, route.port)))
            && (DistinctKeys(s) && (l.kind, l.Key()) !in t.abandoned ==> Owns'(t, gw, name, t.gateways[gw][name]))
            && ((l.kind, l.Key()) in t.abandoned ==>
                  (l.kind, l.Key()) in s.abandoned && SameForwarding(s.pool, t.pool, l))
  {
    hide Sessions.Inv, Coherent, AbandonedLive, RejectedAreBare, SetRoute, DistinctKeys;
    var t := SetRoute(s, gw, name, route, io).0;
    SetRouteOutline(s, gw, name, route, io);
    SetRouteKeepsInv(s, gw, name, route, io);
    var l := s.gateways[gw][name];
    RegisteredReachesBackend(t.pool, l);
    if DistinctKeys(s) {
      RouteKeepsKeysDistinct(s, t, gw, name, l, route);
      OwnerIsUnique(t, gw, name);
    }
  }

  lemma RouteKeepsKeysDistinct(s: System, t: System, gw: string, name: string, l: Listener, route: Route)
    requires DistinctKeys(s) && gw in s.gateways && name in s.gateways[gw] && l == s.gateways[gw][name]
    requires t.gateways == s.gateways[gw := s.gateways[gw][name := l.(route := Some(route))]]
    ensures DistinctKeys(t)
  {
  }

  /** Left to itself, a SetRoute that returns nil leaves the listener served by its own
      forwarding if and only if it did not take over somebody else's. */
  lemma NilServesUnlessTakenOver(s: System, gw: string, name: string, route: Route, io: SetIO)
    requires Coherence.Inv(s) && io.Quiet()
    ensures var (t, result) := SetRoute(s, gw, name, route, io);
            result.Nil() ==>
              && gw in s.gateways && name in s.gateways[gw]
              && gw in t.gateways && name in t.gateways[gw]
              && (Owns'(t, gw, name, t.gateways[gw][name]) <==> !TakesOver(s, s.gateways[gw][name], route))
  {
    hide Sessions.Inv, Coherent, AbandonedLive, RejectedAreBare, SetRoute, DistinctKeys;
    if SetRoute(s, gw, name, route, io).1.Nil() {
      NilMeansServed(s, gw, name, route, io);
      if TakesOver(s, s.gateways[gw][name], route) {
        TakenOverStays(s, gw, name, route, io);
      }
    }
  }

  /** Without another route to stop, a quiet call leaves a registered forwarding as it is. */
  lemma TakenOverStays(s: System, gw: string, name: string, route: Route, io: SetIO)
    requires Coherence.Inv(s) && io.Quiet() && SetRoute(s, gw, name, route, io).1.Nil()
    requires gw in s.gateways && name in s.gateways[gw] && TakesOver(s, s.gateways[gw][name], route)
    ensures SetRoute(s, gw, name, route, io).0.pool == s.pool
  {
    hide MatchesRequestedHost, Coherent, Sessions.Inv, Shrinks;
    var l := s.gateways[gw][name];
    assert Interfere(s.pool, []) == s.pool;
    assert WithPool(s, s.pool) == s;
    ManagerInv(s.pool, l.kind);
    assert Prepare(s.pool, l.(route := None), io) == (s.pool, None);
    StartFindsExisting(s.pool, l.kind, l.Config(route), io.start);
  }

  /** With distinct keys, somebody else can only be a listener dropped from its spec. */
  lemma OnlyAbandonedTakenOver(s: System, gw: string, name: string, route: Route)
    requires Coherence.Inv(s) && DistinctKeys(s) && gw in s.gateways && name in s.gateways[gw]
    requires !s.gateways[gw][name].rejected && TakesOver(s, s.gateways[gw][name], route)
    ensures (s.gateways[gw][name].kind, s.gateways[gw][name].Key()) in s.abandoned
  {
    hide Coherent;
    OwnerIsUnique(s, gw, name);
  }

  /** The listener has no route yet, and its key is that of an abandoned forwarding. */
  ghost predicate Inherits(s: System, gw: string, name: string) {
    && gw in s.gateways && name in s.gateways[gw]
    && var l := s.gateways[gw][name];
       !l.rejected && l.route == None && (l.kind, l.Key()) in s.abandoned
  }

  /** Where the guarantee ends: a listener that takes the key of a forwarding abandoned by a
      dropped listener is told its route is set, while channels still go to the backend of
      the old forwarding; the route is served if and only if the two ask for the same. */
  lemma AbandonedIsAdopted(s: System, gw: string, name: string, route: Route, io: SetIO)
    requires Coherence.Inv(s) && Inherits(s, gw, name) && io.Quiet()
    ensures var ((t, result), l) := (SetRoute(s, gw, name, route, io), s.gateways[gw][name]);
            && result == Adopted
            && t.pool == s.pool && t.abandoned == s.abandoned
            && t.gateways == s.gateways[gw := s.gateways[gw][name := l.(route := Some(route))]]
            && Registered(s.pool, l.kind, l.Key())
            && var stored := s.pool.managers[l.kind].forwardings[l.Key()];
               && BackendOf(t.pool, l) == Some((stored.internalHost, stored.internalPort))
               && (Owns'(t, gw, name, t.gateways[gw][name]) <==> stored == l.Config(route))
  {
    hide MatchesRequestedHost, Coherent;
    var l := s.gateways[gw][name];
    assert Registered(s.pool, l.kind, l.Key());
    assert Interfere(s.pool, []) == s.pool;
    assert WithPool(s, s.pool) == s;
    ManagerInv(s.pool, l.kind);
    assert Prepare(s.pool, l, io) == (s.pool, None);
    StartFindsExisting(s.pool, l.kind, l.Config(route), io.start);
    RegisteredReachesBackend(s.pool, l);
  }
}
