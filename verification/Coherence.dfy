/** Ownership: in every run, each forwarding of a live manager belongs to a listener that
    has a route to its backend, unless the listener was dropped from its Gateway's spec. */
module Coherence {
  import opened Text
  import opened Tunnel
  import opened Sessions
  import opened Listeners
  import opened Registry

  ghost predicate Owns(s: System, gw: string, name: string, kind: SessionKind, key: string)
    requires Registered(s.pool, kind, key)
  {
    && gw in s.gateways && name in s.gateways[gw]
    && var l := s.gateways[gw][name];
       && l.kind == kind && l.Key() == key && l.route.Some?
       && s.pool.managers[kind].forwardings[key] == l.Config(l.route.value)
  }

  ghost predicate Owned(s: System, kind: SessionKind, key: string)
    requires Registered(s.pool, kind, key)
  {
    exists gw, name :: Owns(s, gw, name, kind, key)
  }

  ghost predicate Coherent(s: System) {
    forall kind, key | Registered(s.pool, kind, key) :: (kind, key) in s.abandoned || Owned(s, kind, key)
  }

  ghost predicate AbandonedLive(s: System) {
    forall a | a in s.abandoned :: Registered(s.pool, a.0, a.1)
  }

  /** A listener that the controller rejected carries no route. */
  ghost predicate RejectedAreBare(s: System) {
    forall gw, name | gw in s.gateways && name in s.gateways[gw] && s.gateways[gw][name].rejected ::
      s.gateways[gw][name].route.None?
  }

  ghost predicate Inv(s: System) {
    Sessions.Inv(s.pool) && Coherent(s) && AbandonedLive(s) && RejectedAreBare(s)
  }

  // ------------------------------------------------------- shrinking the pool

  /** The forwardings of q are among those of p. */
  ghost predicate Shrinks(p: Pool, q: Pool) {
    forall kind, key | Registered(q, kind, key) ::
      Registered(p, kind, key) && q.managers[kind].forwardings[key] == p.managers[kind].forwardings[key]
  }

  lemma KeepsOrClearsShrinks(p: Pool, q: Pool)
    requires KeepsOrClears(p, q)
    ensures Shrinks(p, q)
  {
  }

  lemma InterfereShrinks(p: Pool, events: seq<PoolEvent>)
    requires Sessions.Inv(p)
    ensures Sessions.Inv(Interfere(p, events)) && Shrinks(p, Interfere(p, events))
  {
    hide *;
    InterfereKeepsInv(p, events);
    KeepsOrClearsShrinks(p, Interfere(p, events));
  }

  lemma ConnectShrinks(p: Pool, dials: map<SessionKind, bool>)
    requires Sessions.Inv(p)
    ensures Sessions.Inv(Sessions.Connect(p, dials)) && Shrinks(p, Sessions.Connect(p, dials))
  {
    hide *;
    ConnectKeepsInv(p, dials);
    KeepsOrClearsShrinks(p, Sessions.Connect(p, dials));
  }

  /** What StopForwarding leaves: everything else as it was, the key itself gone. */
  lemma StopForwardingShrinks(p: Pool, kind: SessionKind, key: string, reply: Reply)
    requires Sessions.Inv(p)
    ensures var q := StopForwarding(p, kind, key, reply).0;
            && Sessions.Inv(q) && Shrinks(p, q) && !Registered(q, kind, key)
  {
    StopForwardingKeepsInv(p, kind, key, reply);
  }

  lemma ShrinksTransitive(p: Pool, q: Pool, r: Pool)
    requires Shrinks(p, q) && Shrinks(q, r)
    ensures Shrinks(p, r)
  {
  }

  lemma ShrinkKeepsInv(s: System, q: Pool)
    requires Inv(s) && Sessions.Inv(q) && Shrinks(s.pool, q)
    ensures Inv(WithPool(s, q))
  {
    hide Sessions.Inv;
    var t := WithPool(s, q);
    forall kind, key | Registered(t.pool, kind, key)
      ensures (kind, key) in t.abandoned || Owned(t, kind, key)
    {
      if (kind, key) !in s.abandoned {
        var gw, name :| Owns(s, gw, name, kind, key);
        assert Owns(t, gw, name, kind, key);
      }
    }
  }

  // ------------------------------------------------- changing one listener

  /** A listener may be replaced freely when nothing registered can depend on it. */
  lemma PutKeepsInv(s: System, gw: string, name: string, l: Listener)
    requires Inv(s) && gw in s.gateways && name in s.gateways[gw]
    requires var old_l := s.gateways[gw][name];
             old_l.route.None? || !Registered(s.pool, old_l.kind, old_l.Key()) || l == old_l
    requires l.rejected ==> l.route.None?
    ensures Inv(Put(s, gw, name, l))
  {
    hide Sessions.Inv;
    var t := Put(s, gw, name, l);
    forall kind, key | Registered(t.pool, kind, key)
      ensures (kind, key) in t.abandoned || Owned(t, kind, key)
    {
      if (kind, key) !in s.abandoned {
        var g, n :| Owns(s, g, n, kind, key);
        assert Owns(t, g, n, kind, key);
      }
    }
  }

  /** A fresh forwarding for the route its listener already shows. */
  lemma StartKeepsInv(s: System, gw: string, name: string, route: Route, io: StartIO)
    requires Inv(s) && gw in s.gateways && name in s.gateways[gw]
    requires s.gateways[gw][name].route == Some(route)
    ensures var l := s.gateways[gw][name];
            Inv(WithPool(s, Sessions.StartForwarding(s.pool, l.kind, l.Config(route), io).0))
  {
    hide Sessions.Inv;
    var l := s.gateways[gw][name];
    var (q, outcome) := Sessions.StartForwarding(s.pool, l.kind, l.Config(route), io);
    StartForwardingKeepsInv(s.pool, l.kind, l.Config(route), io);
    StartForwardingEffect(s.pool, l.kind, l.Config(route), io);
    var t := WithPool(s, q);
    forall kind, key | Registered(t.pool, kind, key)
      ensures (kind, key) in t.abandoned || Owned(t, kind, key)
    {
      hide Sessions.StartForwarding;
      if outcome == Success && kind == l.kind && key == l.Key() {
        assert Owns(t, gw, name, kind, key);
      } else if (kind, key) !in s.abandoned {
        var g, n :| Owns(s, g, n, kind, key);
        assert Owns(t, g, n, kind, key);
      }
    }
  }

  /** StartForwarding registers its own key or nothing, and says which. */
  lemma StartForwardingEffect(p: Pool, kind: SessionKind, fwd: ForwardingConfig, io: StartIO)
    requires Sessions.Inv(p)
    ensures var (q, outcome) := Sessions.StartForwarding(p, kind, fwd, io);
            && (outcome == Success ==> Registered(q, kind, fwd.Key()) && q.managers[kind].forwardings[fwd.Key()] == fwd)
            && (outcome == Success ==> !Registered(p, kind, fwd.Key()))
            && (outcome == ForwardingExists <==> IsConnected(p, kind) && Registered(p, kind, fwd.Key()))
            && (outcome != Success && outcome != ForwardingExists ==> !Registered(q, kind, fwd.Key()))
            && (forall k, key | (k, key) != (kind, fwd.Key()) || outcome != Success ::
                  && (Registered(q, k, key) <==> Registered(p, k, key))
                  && (Registered(q, k, key) ==> q.managers[k].forwardings[key] == p.managers[k].forwardings[key]))
  {
    hide Tunnel.Start, Tunnel.Inv;
    if kind in p.managers {
      assert ManagerOK(p, p.managers[kind]);
      StartEffect(p.managers[kind], fwd, io);
    }
  }

  lemma StartEffect(m: Tunnel.State, fwd: ForwardingConfig, io: StartIO)
    requires Tunnel.Inv(m)
    ensures var (n, outcome) := Tunnel.Start(m, fwd, io);
            && (outcome == Success ==> fwd.Key() !in m.forwardings && n.forwardings == m.forwardings[fwd.Key() := fwd])
            && (outcome != Success ==> n.forwardings == m.forwardings)
            && (outcome == ForwardingExists <==> m.connected && fwd.Key() in m.forwardings)
            && (fwd.Key() in m.forwardings ==> outcome == ForwardingExists)
  {
  }

  // ----------------------------------------------------------------- SetRoute

  lemma StopExistingShrinks(p: Pool, l: Listener, io: SetIO)
    requires Sessions.Inv(p)
    ensures var (q, outcome) := StopExisting(p, l, io);
            && Sessions.Inv(q) && Shrinks(p, q)
            && (l.route.Some? ==> !Registered(q, l.kind, l.Key()))
            && (l.route.None? ==> q == p && outcome == Success)
  {
    hide Sessions.Inv, Shrinks, StopForwarding, Interfere, Registered;
    if l.route.Some? {
      var p0 := Interfere(p, io.beforeStop);
      InterfereShrinks(p, io.beforeStop);
      StopForwardingShrinks(p0, l.kind, l.Key(), io.stopReply);
      ShrinksTransitive(p, p0, StopExisting(p, l, io).0);
    } else {
      ShrinksReflexive(p);
    }
  }

  lemma ShrinksReflexive(p: Pool)
    ensures Shrinks(p, p)
  {
  }

  lemma EnsureConnectedShrinks(p: Pool, kind: SessionKind, io: SetIO)
    requires Sessions.Inv(p)
    ensures var (q, ready) := EnsureConnected(p, kind, io);
            && Sessions.Inv(q) && Shrinks(p, q)
            && (!ready ==> forall key :: !Registered(q, kind, key))
  {
    hide Sessions.Inv, Shrinks, Sessions.Connect, Interfere, Registered, IsConnected;
    var p0 := Interfere(p, io.beforeConnected);
    InterfereShrinks(p, io.beforeConnected);
    var p1 := Interfere(p0, io.beforeConnect);
    InterfereShrinks(p0, io.beforeConnect);
    var p2 := Sessions.Connect(p1, io.dials);
    ConnectShrinks(p1, io.dials);
    var p3 := Interfere(p2, io.afterConnect);
    InterfereShrinks(p2, io.afterConnect);
    ShrinksTransitive(p, p0, p1);
    ShrinksTransitive(p, p1, p2);
    ShrinksTransitive(p, p2, p3);
    DisconnectedIsEmpty(p3, kind);
  }

  lemma DisconnectedIsEmpty(p: Pool, kind: SessionKind)
    requires Sessions.Inv(p)
    ensures !IsConnected(p, kind) ==> forall key :: !Registered(p, kind, key)
  {
    if kind in p.managers {
      assert ManagerOK(p, p.managers[kind]);
    }
  }

  lemma PrepareShrinks(p: Pool, l: Listener, io: SetIO)
    requires Sessions.Inv(p)
    ensures var (q, failure) := Prepare(p, l, io);
            && Sessions.Inv(q) && Shrinks(p, q)
            && (l.route.Some? ==> !Registered(q, l.kind, l.Key()))
            && (failure.Some? ==>
                  !Registered(q, l.kind, l.Key()) && (failure.value.StopFailed? || failure.value.GatewayNotReady?))
  {
    hide Sessions.Inv, Shrinks, StopExisting, EnsureConnected, Interfere;
    var (p1, stopped) := StopExisting(p, l, io);
    StopExistingShrinks(p, l, io);
    var (p2, ready) := EnsureConnected(p1, l.kind, io);
    EnsureConnectedShrinks(p1, l.kind, io);
    var p3 := Interfere(p2, io.beforeStart);
    InterfereShrinks(p2, io.beforeStart);
    ShrinksTransitive(p, p1, p2);
    ShrinksTransitive(p, p2, p3);
    ShrinkUnregisters(p1, p2, l.kind, l.Key());
    ShrinkUnregisters(p2, p3, l.kind, l.Key());
  }

  lemma ShrinkUnregisters(p: Pool, q: Pool, kind: SessionKind, key: string)
    requires Shrinks(p, q)
    ensures !Registered(p, kind, key) ==> !Registered(q, kind, key)
  {
  }

  /** `shown` is the listener as the registry shows it, `l` as the call goes on with it:
      with its route cleared when the call found its forwarding invalid. */
  lemma SetupKeepsInv(s: System, gw: string, name: string, l: Listener, route: Route, io: SetIO)
    requires Inv(s) && gw in s.gateways && name in s.gateways[gw] && !l.rejected
    requires var shown := s.gateways[gw][name];
             shown == l || (shown.route == Some(route) && l == shown.(route := None))
    ensures Inv(SetupRouteForwarding(s, gw, name, l, route, io).0)
  {
    hide Sessions.Inv, Shrinks, Prepare, Sessions.StartForwarding, Coherent, AbandonedLive;
    var shown := s.gateways[gw][name];
    var (p, failure) := Prepare(s.pool, l, io);
    PrepareShrinks(s.pool, l, io);
    var before := WithPool(s, p);
    ShrinkKeepsInv(s, p);
    if failure.Some? {
      PutKeepsInv(before, gw, name, l);
    } else {
      var attached := l.(route := Some(route));
      var (q, outcome) := Sessions.StartForwarding(p, l.kind, l.Config(route), io.start);
      StartForwardingEffect(p, l.kind, l.Config(route), io.start);
      if outcome == Success {
        PutKeepsInv(before, gw, name, attached);
        StartKeepsInv(Put(before, gw, name, attached), gw, name, route, io.start);
      } else {
        FailedStartShrinks(p, l.kind, l.Config(route), io.start);
        StartForwardingKeepsInv(p, l.kind, l.Config(route), io.start);
        ShrinkKeepsInv(before, q);
        PutKeepsInv(WithPool(before, q), gw, name, if outcome == ForwardingExists then attached else l);
      }
    }
  }

  lemma FailedStartShrinks(p: Pool, kind: SessionKind, fwd: ForwardingConfig, io: StartIO)
    requires Sessions.Inv(p) && Sessions.StartForwarding(p, kind, fwd, io).1 != Success
    ensures Shrinks(p, Sessions.StartForwarding(p, kind, fwd, io).0)
  {
    hide Sessions.Inv, Sessions.StartForwarding;
    StartForwardingEffect(p, kind, fwd, io);
  }

  lemma SetRouteKeepsInv(s: System, gw: string, name: string, route: Route, io: SetIO)
    requires Inv(s)
    ensures Inv(SetRoute(s, gw, name, route, io).0)
  {
    hide Inv, SetupRouteForwarding, ForwardingValid, Interfere;
    if gw in s.gateways && name in s.gateways[gw] && !s.gateways[gw][name].rejected {
      var l := s.gateways[gw][name];
      if l.route == Some(route) {
        var checked := WithPool(s, Interfere(s.pool, io.beforeCheck));
        InterferenceKeepsInv(s, io.beforeCheck);
        if !ForwardingValid(checked.pool, l) {
          SetupKeepsInv(checked, gw, name, l.(route := None), route, io);
        }
      } else {
        SetupKeepsInv(s, gw, name, l, route, io);
      }
    }
  }

  lemma InterferenceKeepsInv(s: System, events: seq<PoolEvent>)
    requires Inv(s)
    ensures Inv(WithPool(s, Interfere(s.pool, events)))
  {
    hide Sessions.Inv, Shrinks, Interfere, Coherent, AbandonedLive;
    InterfereShrinks(s.pool, events);
    ShrinkKeepsInv(s, Interfere(s.pool, events));
  }

  // -------------------------------------------------------------- RemoveRoute

  lemma StopListenerShrinks(p: Pool, l: Listener, io: StopIO)
    requires Sessions.Inv(p)
    ensures var q := StopListener(p, l, io).0;
            Sessions.Inv(q) && Shrinks(p, q) && !Registered(q, l.kind, l.Key())
  {
    hide Sessions.Inv, Shrinks, StopForwarding, Interfere, Registered;
    InterfereShrinks(p, io.before);
    StopForwardingShrinks(Interfere(p, io.before), l.kind, l.Key(), io.reply);
    ShrinksTransitive(p, Interfere(p, io.before), StopListener(p, l, io).0);
  }

  lemma RemoveRouteKeepsInv(s: System, gw: string, name: string, routeName: string, routeNamespace: string, io: StopIO)
    requires Inv(s)
    ensures Inv(RemoveRoute(s, gw, name, routeName, routeNamespace, io).0)
  {
    hide Sessions.Inv, Shrinks, StopListener, Coherent, AbandonedLive;
    if gw in s.gateways && name in s.gateways[gw] {
      var l := s.gateways[gw][name];
      StopListenerShrinks(s.pool, l, io);
      var p := StopListener(s.pool, l, io).0;
      ShrinkKeepsInv(s, p);
      PutKeepsInv(WithPool(s, p), gw, name, l.(route := None));
    }
  }

  // ---------------------------------------------------------- gateway update

  /** After the loop over a prefix of the spec: what survives of a listener that had a
      route is either the listener itself, or nothing registered under its key. */
  lemma {:induction false} UpdateLoopShrinks(
    p: Pool, existing: ListenerMap, spec: seq<K8sListener>, annotations: map<string, string>, io: seq<StopIO>)
    requires Sessions.Inv(p)
    ensures var (q, updated) := UpdateLoop(p, existing, spec, annotations, io);
            && Sessions.Inv(q) && Shrinks(p, q)
            && (forall name | name in updated && name in existing && existing[name].route.Some? ::
                  updated[name] == existing[name] || !Registered(q, existing[name].kind, existing[name].Key()))
  {
    hide Sessions.Inv, Shrinks, StopListener, CreateListener;
    if spec == [] {
      ShrinksReflexive(p);
    } else {
      var n := |spec| - 1;
      var (p1, updated1) := UpdateLoop(p, existing, spec[..n], annotations, io);
      UpdateLoopShrinks(p, existing, spec[..n], annotations, io);
      UpdateOneShrinks(p, p1, updated1, existing, spec[n].name, CreateListener(spec[n], annotations), IOAt(io, n));
    }
  }

  lemma UpdateOneShrinks(
    p: Pool, p1: Pool, updated1: ListenerMap, existing: ListenerMap, name: string, wanted: Listener, io: StopIO)
    requires Sessions.Inv(p1) && Shrinks(p, p1)
    requires forall n | n in updated1 && n in existing && existing[n].route.Some? ::
               updated1[n] == existing[n] || !Registered(p1, existing[n].kind, existing[n].Key())
    ensures var (q, updated) := UpdateOne(p1, updated1, existing, name, wanted, io);
            && Sessions.Inv(q) && Shrinks(p, q)
            && (forall n | n in updated && n in existing && existing[n].route.Some? ::
                  updated[n] == existing[n] || !Registered(q, existing[n].kind, existing[n].Key()))
  {
    hide Sessions.Inv, Shrinks, StopListener, Registered;
    if name in existing {
      StopListenerShrinks(p1, existing[name], io);
      var q := StopListener(p1, existing[name], io).0;
      ShrinksTransitive(p, p1, q);
      forall n | n in existing
        ensures !Registered(p1, existing[n].kind, existing[n].Key()) ==>
                !Registered(q, existing[n].kind, existing[n].Key())
      {
        ShrinkUnregisters(p1, q, existing[n].kind, existing[n].Key());
      }
    }
  }

  lemma CreatedHasNoRoute(k8s: K8sListener, annotations: map<string, string>)
    ensures CreateListener(k8s, annotations).route.None?
  {
    hide ToUpper;
  }

  lemma {:induction false} CreateAllRoutes(spec: seq<K8sListener>, annotations: map<string, string>)
    ensures var created := CreateAll(spec, annotations);
            forall n | n in created :: created[n].route.None?
  {
    hide CreateListener;
    if spec != [] {
      var n := |spec| - 1;
      CreatedHasNoRoute(spec[n], annotations);
      CreateAllRoutes(spec[..n], annotations);
      assert CreateAll(spec, annotations)
          == CreateAll(spec[..n], annotations)[spec[n].name := CreateListener(spec[n], annotations)];
    }
  }

  lemma {:induction false} UpdateLoopRoutes(
    p: Pool, existing: ListenerMap, spec: seq<K8sListener>, annotations: map<string, string>, io: seq<StopIO>)
    ensures var updated := UpdateLoop(p, existing, spec, annotations, io).1;
            forall n | n in updated :: updated[n].route.None? || (n in existing && updated[n] == existing[n])
  {
    hide StopListener, CreateListener;
    if spec != [] {
      CreatedHasNoRoute(spec[|spec| - 1], annotations);
      UpdateLoopRoutes(p, existing, spec[..|spec| - 1], annotations, io);
    }
  }

  lemma UpdateKeepsInv(
    s: System, gw: string, spec: seq<K8sListener>, annotations: map<string, string>, io: seq<StopIO>)
    requires Inv(s)
    ensures Inv(AddOrUpdateGateway(s, gw, spec, annotations, io))
  {
    hide Sessions.Inv, Shrinks, UpdateLoop, CreateAll, RejectedAreBare;
    var t := AddOrUpdateGateway(s, gw, spec, annotations, io);
    UpdateKeepsBare(s, gw, spec, annotations, io);
    if gw !in s.gateways {
      forall kind, key | Registered(t.pool, kind, key) && (kind, key) !in t.abandoned ensures Owned(t, kind, key) {
        var g, n :| Owns(s, g, n, kind, key);
        assert Owns(t, g, n, kind, key);
      }
    } else {
      var existing := s.gateways[gw];
      var (q, updated) := UpdateLoop(s.pool, existing, spec, annotations, io);
      UpdateLoopShrinks(s.pool, existing, spec, annotations, io);
      assert forall n | n in existing && n !in updated && existing[n].route.Some? ::
          (existing[n].kind, existing[n].Key()) in Dropped(existing, updated);
      forall kind, key | Registered(t.pool, kind, key) && (kind, key) !in t.abandoned
        ensures Owned(t, kind, key)
      {
        ShrinksAt(s.pool, q, kind, key);
        assert (kind, key) !in s.abandoned;
        var g, n :| Owns(s, g, n, kind, key);
        assert Owns(t, g, n, kind, key);
      }
    }
  }

  lemma UpdateKeepsBare(
    s: System, gw: string, spec: seq<K8sListener>, annotations: map<string, string>, io: seq<StopIO>)
    requires RejectedAreBare(s)
    ensures RejectedAreBare(AddOrUpdateGateway(s, gw, spec, annotations, io))
  {
    hide UpdateLoop, CreateAll, Registered, Dropped;
    var t := AddOrUpdateGateway(s, gw, spec, annotations, io);
    if gw in s.gateways {
      UpdateLoopRoutes(s.pool, s.gateways[gw], spec, annotations, io);
      assert t.gateways == s.gateways[gw := UpdateLoop(s.pool, s.gateways[gw], spec, annotations, io).1];
    } else {
      CreateAllRoutes(spec, annotations);
      assert t.gateways == s.gateways[gw := CreateAll(spec, annotations)];
    }
  }

  lemma ShrinksAt(p: Pool, q: Pool, kind: SessionKind, key: string)
    requires Shrinks(p, q) && Registered(q, kind, key)
    ensures Registered(p, kind, key) && q.managers[kind].forwardings[key] == p.managers[kind].forwardings[key]
  {
  }

  // ---------------------------------------------------------- gateway delete

  lemma {:induction false} StopEachShrinks(p: Pool, listeners: ListenerMap, order: seq<string>, io: seq<StopIO>)
    requires Sessions.Inv(p)
    ensures var q := StopEach(p, listeners, order, io);
            && Sessions.Inv(q) && Shrinks(p, q)
            && (forall name | name in order && name in listeners && listeners[name].route.Some? ::
                  !Registered(q, listeners[name].kind, listeners[name].Key()))
  {
    hide Sessions.Inv, Shrinks, StopListener, Registered;
    if order == [] {
      ShrinksReflexive(p);
    } else {
      var n := |order| - 1;
      var p1 := StopEach(p, listeners, order[..n], io);
      StopEachShrinks(p, listeners, order[..n], io);
      var q := StopEach(p, listeners, order, io);
      if order[n] in listeners && listeners[order[n]].route.Some? {
        StopListenerShrinks(p1, listeners[order[n]], IOAt(io, n));
        ShrinksTransitive(p, p1, q);
      } else {
        ShrinksReflexive(p1);
      }
      forall name | name in order && name in listeners && listeners[name].route.Some?
        ensures !Registered(q, listeners[name].kind, listeners[name].Key())
      {
        if name in order[..n] {
          ShrinkUnregisters(p1, q, listeners[name].kind, listeners[name].Key());
        } else {
          assert name == order[n];
        }
      }
    }
  }

  lemma DeleteKeepsInv(s: System, gw: string, order: seq<string>, io: seq<StopIO>)
    requires Inv(s)
    requires gw in s.gateways ==> Enumerates(order, s.gateways[gw])
    ensures Inv(DeleteGateway(s, gw, order, io))
  {
    hide Sessions.Inv, Shrinks, StopEach;
    if gw in s.gateways {
      var listeners := s.gateways[gw];
      var q := StopEach(s.pool, listeners, order, io);
      StopEachShrinks(s.pool, listeners, order, io);
      ShrinkKeepsInv(s, q);
      var before, t := WithPool(s, q), DeleteGateway(s, gw, order, io);
      forall kind, key | Registered(t.pool, kind, key) && (kind, key) !in t.abandoned
        ensures Owned(t, kind, key)
      {
        var g, n :| Owns(before, g, n, kind, key);
        assert g != gw;
        assert Owns(t, g, n, kind, key);
      }
    }
  }

  // -------------------------------------------------------------------- runs

  datatype Op =
    | SetOp(gw: string, name: string, route: Route, setIO: SetIO)
    | RemoveOp(gw: string, name: string, routeName: string, routeNamespace: string, stopIO: StopIO)
    | UpdateOp(gw: string, spec: seq<K8sListener>, annotations: map<string, string>, io: seq<StopIO>)
    | DeleteOp(gw: string, order: seq<string>, io: seq<StopIO>)
    | PoolOp(event: PoolEvent)

  ghost function Step(s: System, op: Op): System {
    match op
    case SetOp(gw, name, route, io) => SetRoute(s, gw, name, route, io).0
    case RemoveOp(gw, name, routeName, routeNamespace, io) => RemoveRoute(s, gw, name, routeName, routeNamespace, io).0
    case UpdateOp(gw, spec, annotations, io) => AddOrUpdateGateway(s, gw, spec, annotations, io)
    case DeleteOp(gw, order, io) =>
      if gw in s.gateways && Enumerates(order, s.gateways[gw]) then DeleteGateway(s, gw, order, io) else s
    case PoolOp(event) => WithPool(s, Interfere(s.pool, [event]))
  }

  /** The controller as it starts: no gateways, and a pool with nothing open yet but the
      plain session. */
  function Start(capturing: bool, io: OpenIO): System {
    System(map[], OpenLocked(Pool(capturing, map[], map[]), SessionPlain, NO_FLAGS, io).0, {})
  }

  ghost function Run(start: System, ops: seq<Op>): System {
    if ops == [] then start else Step(Run(start, ops[..|ops| - 1]), ops[|ops| - 1])
  }

  lemma StepKeepsInv(s: System, op: Op)
    requires Inv(s)
    ensures Inv(Step(s, op))
  {
    hide Inv, SetRoute, RemoveRoute, AddOrUpdateGateway, DeleteGateway, Interfere, WithPool;
    match op
    case SetOp(gw, name, route, io) => SetRouteKeepsInv(s, gw, name, route, io);
    case RemoveOp(gw, name, routeName, routeNamespace, io) =>
      RemoveRouteKeepsInv(s, gw, name, routeName, routeNamespace, io);
    case UpdateOp(gw, spec, annotations, io) => UpdateKeepsInv(s, gw, spec, annotations, io);
    case DeleteOp(gw, order, io) =>
      if gw in s.gateways && Enumerates(order, s.gateways[gw]) {
        DeleteKeepsInv(s, gw, order, io);
      }
    case PoolOp(event) => InterferenceKeepsInv(s, [event]);
  }

  lemma StartInv(capturing: bool, io: OpenIO)
    ensures Inv(Start(capturing, io))
  {
    NewManagerOK(Pool(capturing, map[], map[]), io.dialSucceeds);
    hide Tunnel.Inv;
  }

  /** Whenever the registry is unlocked, in every run, each registered forwarding that was
      not abandoned is the one its listener's route asks for. No assumption that listeners
      have distinct keys is needed for this direction. */
  lemma {:induction false} RunsKeepCoherence(capturing: bool, io: OpenIO, ops: seq<Op>)
    ensures Inv(Run(Start(capturing, io), ops))
  {
    hide Inv, Start, Step;
    if ops == [] {
      StartInv(capturing, io);
    } else {
      RunsKeepCoherence(capturing, io, ops[..|ops| - 1]);
      StepKeepsInv(Run(Start(capturing, io), ops[..|ops| - 1]), ops[|ops| - 1]);
    }
  }
}
