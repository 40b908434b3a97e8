/** The gateway reconciler's registry as objects: listeners whose routes are set in place, on
    top of the session pool. Every method is one section under gatewaysMu, and implements
    the function of the same name in module Registry. */
module GatewayController {
  import opened Text
  import opened HostMatch
  import opened Tunnel
  import opened Sessions
  import opened Listeners
  import opened Registry
  import opened SessionPool
  import Coherence

  class ListenerObject {
    var route: Option<Route>
    const protocol: string
    const hostname: string
    const port: int
    var kind: SessionKind
    var rejected: bool
    var reason: string

    ghost function View(): Listener
      reads this
    {
      Listener(route, protocol, hostname, port, kind, rejected, reason)
    }

    /** createListener. */
    constructor (k8s: K8sListener, annotations: map<string, string>)
      ensures View() == CreateListener(k8s, annotations)
    {
      protocol := k8s.protocol;
      hostname := if k8s.hostname.Some? then k8s.hostname.value else "localhost";
      port := k8s.port;
      route, kind, rejected, reason := None, SessionPlain, false, "";
      new;
      DeriveSession(k8s, annotations);
    }

    method SetRoute(route: Option<Route>)
      modifies this`route
      ensures View() == old(View()).(route := route)
    {
      this.route := route;
    }

    /** Sets the session kind, or marks the listener as rejected. */
    method DeriveSession(k8s: K8sListener, annotations: map<string, string>)
      requires protocol == k8s.protocol && kind == SessionPlain && !rejected && reason == ""
      modifies this`kind, this`rejected, this`reason
      ensures var derived := CreateListener(k8s, annotations);
              kind == derived.kind && rejected == derived.rejected && reason == derived.reason
    {
      var upper := ToUpper(protocol);
      if upper == "HTTP" {
        kind := SessionPlain;
      } else if upper == "TCP" {
        if ListenerProxyProtocol(annotations, k8s.name) {
          kind := SessionProxyProto;
        } else {
          kind := SessionPlain;
        }
      } else if upper == "TLS" {
        if k8s.tlsMode == Some("Passthrough") {
          kind := SessionSNIProxy;
        } else {
          rejected, reason := true, UNSUPPORTED_TLS_MODE;
        }
      } else {
        rejected, reason := true, UNSUPPORTED_PROTOCOL;
      }
    }
  }

  type ListenerObjects = map<string, ListenerObject>

  ghost function Views(listeners: ListenerObjects): ListenerMap
    reads listeners.Values
  {
    map n | n in listeners :: listeners[n].View()
  }

  class GatewayReconciler {
    const pool: SSHSessionPool
    var gateways: map<string, ListenerObjects>
    ghost var objects: set<ListenerObject>
    ghost var abandoned: set<(SessionKind, string)>

    /** No listener object is shared between two entries of the registry. */
    static ghost predicate Unshared(gateways: map<string, ListenerObjects>, objects: set<ListenerObject>) {
      && (forall g, n | g in gateways && n in gateways[g] :: gateways[g][n] in objects)
      && (forall g1, n1, g2, n2 | g1 in gateways && n1 in gateways[g1] && g2 in gateways && n2 in gateways[g2]
            && gateways[g1][n1] == gateways[g2][n2] :: g1 == g2 && n1 == n2)
    }

    ghost predicate Shape()
      reads this`gateways, this`objects
    {
      Unshared(gateways, objects)
    }

    ghost function Gateways(): map<string, ListenerMap>
      requires Shape()
      reads this`gateways, this`objects, objects
    {
      map g | g in gateways :: Views(gateways[g])
    }

    ghost predicate WellFormed()
      reads this, objects, pool, pool.created
    {
      Shape() && pool.Valid()
    }

    ghost function View(): System
      requires WellFormed()
      reads this, objects, pool, pool.created
    {
      System(Gateways(), pool.View(), abandoned)
    }

    ghost predicate Valid()
      reads this, objects, pool, pool.created
    {
      WellFormed() && Coherence.Inv(View())
    }

    constructor (pool: SSHSessionPool)
      requires pool.Valid()
      requires forall kind, key :: !Registered(pool.View(), kind, key)
      ensures Valid() && this.pool == pool
      ensures View() == System(map[], pool.View(), {})
    {
      this.pool := pool;
      gateways, objects, abandoned := map[], {}, {};
      new;
      pool.ViewInv();
      hide Sessions.Inv;
    }

    /** After pool calls: forgets the abandoned forwardings that are gone by now. */
    ghost method Scrub(before: System)
      requires WellFormed()
      requires before.gateways == Gateways() && before.abandoned == abandoned
      modifies this`abandoned
      ensures WellFormed() && View() == WithPool(before, pool.View())
    {
      abandoned := WithPool(before, pool.View()).abandoned;
    }

    method SetListenerRoute(gw: string, name: string, route: Option<Route>)
      requires Shape() && gw in gateways && name in gateways[gw]
      modifies gateways[gw][name]
      ensures Shape()
      ensures gateways[gw][name].View() == old(gateways[gw][name].View()).(route := route)
      ensures Gateways() == old(Gateways())[gw := old(Gateways())[gw][name := gateways[gw][name].View()]]
    {
      hide ListenerObject.View;
      ghost var before := Gateways();
      var l := gateways[gw][name];
      l.SetRoute(route);
      forall g, n | g in gateways && n in gateways[g] && (g, n) != (gw, name)
        ensures gateways[g][n].View() == before[g][n]
      {
        assert gateways[g][n] != l;
      }
      assert Views(gateways[gw]) == before[gw][name := l.View()];
      forall g | g in gateways && g != gw ensures Views(gateways[g]) == before[g] {
      }
    }

    method IsForwardingValid(l: ListenerObject) returns (valid: bool)
      requires pool.Valid()
      ensures valid == ForwardingValid(pool.View(), l.View())
    {
      var addrs := pool.GetAssignedAddresses(l.kind, l.hostname, l.port);
      if addrs == [] {
        return false;
      }
      var enforcePort := l.protocol == "TCP" && l.port > 0;
      var hostnameWildcard := l.hostname == "0.0.0.0" || l.hostname == "localhost";
      if hostnameWildcard && !enforcePort {
        return true;
      }
      return MatchesRequestedHost(addrs, l.hostname, l.port, enforcePort);
    }

    /** The part of setupRouteForwarding before StartForwarding. */
    method Prepare(l: ListenerObject, io: SetIO) returns (failure: Option<SetResult>)
      requires pool.Valid()
      modifies pool, pool.created
      ensures pool.Valid() && fresh(pool.created - old(pool.created)) && old(pool.created) <= pool.created
      ensures (pool.View(), failure) == Registry.Prepare(old(pool.View()), l.View(), io)
    {
      hide SSHSessionPool.Valid, SSHSessionPool.View, Interfere, Sessions.StopForwarding, Sessions.Connect,
           Sessions.IsConnected;
      if l.route.Some? {
        pool.HappenAll(io.beforeStop);
        pool.ManagersAreCreated();
        var stopped := pool.StopForwarding(l.kind, l.hostname, l.port, io.stopReply);
        if stopped != Success {
          return Some(StopFailed(stopped));
        }
      }
      pool.HappenAll(io.beforeConnected);
      var connected := pool.IsConnected(l.kind);
      if !connected {
        pool.HappenAll(io.beforeConnect);
        pool.ManagersAreCreated();
        pool.Connect(io.dials);
        pool.HappenAll(io.afterConnect);
        connected := pool.IsConnected(l.kind);
        if !connected {
          return Some(GatewayNotReady);
        }
      }
      pool.HappenAll(io.beforeStart);
      return None;
    }

    lemma Shown(gw: string, name: string)
      requires Shape() && gw in gateways && name in gateways[gw]
      ensures gw in Gateways() && name in Gateways()[gw] && Gateways()[gw][name] == gateways[gw][name].View()
      ensures gateways[gw][name] in objects
    {
    }

    lemma SameNames()
      requires Shape()
      ensures forall g :: g in gateways <==> g in Gateways()
      ensures forall g, n | g in gateways :: n in gateways[g] <==> n in Gateways()[g]
    {
    }

    /** StartForwarding for a route, and what its answer means for the listener. For TCP
        listeners that pin a port the server must honour it. */
    method StartRoute(gw: string, name: string, route: Route, io: StartIO) returns (result: SetResult)
      requires WellFormed() && gw in gateways && name in gateways[gw]
      modifies this`abandoned, gateways[gw][name], pool, pool.created
      ensures WellFormed() && pool.created == old(pool.created)
      ensures (View(), result) == Registry.StartRoute(old(View()), gw, name, old(gateways[gw][name].View()), route, io)
    {
      hide SSHSessionPool.Valid, SSHSessionPool.View, Sessions.StartForwarding, Registered, Gateways, Shape;
      var l := gateways[gw][name];
      Shown(gw, name);
      pool.ManagersAreCreated();
      var enforcePort := l.protocol == "TCP" && l.port > 0;
      var outcome := pool.StartForwarding(
        l.kind, ForwardingConfig(l.hostname, l.port, route.host, route.port, enforcePort), io);
      Scrub(old(View()));
      PutSame(View(), gw, name);
      match outcome {
        case Success =>
          SetListenerRoute(gw, name, Some(route));
          return Started;
        case ForwardingExists =>
          SetListenerRoute(gw, name, Some(route));
          return Adopted;
        case ClientNotReady => return GatewayNotReady;
        case _ => return StartFailed(outcome);
      }
    }

    method SetupRouteForwarding(gw: string, name: string, route: Route, io: SetIO) returns (result: SetResult)
      requires WellFormed() && gw in gateways && name in gateways[gw]
      modifies this`abandoned, gateways[gw][name], pool, pool.created
      ensures WellFormed() && fresh(pool.created - old(pool.created)) && old(pool.created) <= pool.created
      ensures (View(), result) ==
              Registry.SetupRouteForwarding(old(View()), gw, name, old(gateways[gw][name].View()), route, io)
    {
      hide SSHSessionPool.Valid, SSHSessionPool.View, Registry.Prepare, Registry.StartRoute, Registered, Gateways,
           Shape;
      Shown(gw, name);
      var failure := Prepare(gateways[gw][name], io);
      Scrub(old(View()));
      PutSame(View(), gw, name);
      if failure.Some? {
        return failure.value;
      }
      result := StartRoute(gw, name, route, io.start);
    }

    static lemma PutSame(s: System, gw: string, name: string)
      requires gw in s.gateways && name in s.gateways[gw]
      ensures Put(s, gw, name, s.gateways[gw][name]) == s
    {
      assert s.gateways[gw][name := s.gateways[gw][name]] == s.gateways[gw];
    }

    static lemma PutTwice(s: System, gw: string, name: string, l1: Listener, l2: Listener)
      requires gw in s.gateways && name in s.gateways[gw]
      ensures Put(Put(s, gw, name, l1), gw, name, l2) == Put(s, gw, name, l2)
    {
      assert s.gateways[gw][name := l1][name := l2] == s.gateways[gw][name := l2];
    }

    /** Clearing the route in the registry first, as the code does, or only in the listener
        handed on, as the function does, comes to the same. */
    static lemma SetupIgnoresShownRoute(s: System, gw: string, name: string, l: Listener, route: Route, io: SetIO)
      requires gw in s.gateways && name in s.gateways[gw]
      ensures Registry.SetupRouteForwarding(Put(s, gw, name, l), gw, name, l, route, io)
              == Registry.SetupRouteForwarding(s, gw, name, l, route, io)
    {
      hide Registry.Prepare, Sessions.StartForwarding;
      PutTwice(s, gw, name, l, l);
      PutTwice(s, gw, name, l, l.(route := Some(route)));
    }

    /** The route is attached but its forwarding is not valid: clear it and start again. */
    method RetryInvalid(gw: string, name: string, route: Route, io: SetIO) returns (result: SetResult)
      requires WellFormed() && gw in gateways && name in gateways[gw]
      modifies this`abandoned, gateways[gw][name], pool, pool.created
      ensures WellFormed() && fresh(pool.created - old(pool.created)) && old(pool.created) <= pool.created
      ensures (View(), result) ==
              Registry.SetupRouteForwarding(
                old(View()), gw, name, old(gateways[gw][name].View()).(route := None), route, io)
    {
      hide SSHSessionPool.Valid, SSHSessionPool.View, Registry.SetupRouteForwarding, Registered;
      SetListenerRoute(gw, name, None);
      assert View() == Put(old(View()), gw, name, gateways[gw][name].View());
      SetupIgnoresShownRoute(old(View()), gw, name, gateways[gw][name].View(), route, io);
      result := SetupRouteForwarding(gw, name, route, io);
    }

    method SetRoute(gw: string, name: string, route: Route, io: SetIO) returns (result: SetResult)
      requires Valid()
      modifies this`abandoned, objects, pool, pool.created
      ensures Valid() && fresh(pool.created - old(pool.created)) && old(pool.created) <= pool.created
      ensures (View(), result) == Registry.SetRoute(old(View()), gw, name, route, io)
    {
      hide SSHSessionPool.Valid, SSHSessionPool.View, Registry.SetupRouteForwarding, Coherence.Inv, ForwardingValid,
           Shape, Gateways, WithPool;
      Coherence.SetRouteKeepsInv(View(), gw, name, route, io);
      SameNames();
      if gw !in gateways {
        return GatewayNotFound;
      }
      if name !in gateways[gw] {
        return ListenerNotFound;
      }
      Shown(gw, name);
      var l := gateways[gw][name];
      if l.rejected {
        return NotProgrammed(l.reason);
      }
      if l.route == Some(route) {
        result := CheckAttached(gw, name, route, io);
      } else {
        result := SetupRouteForwarding(gw, name, route, io);
      }
    }

    /** The route is already attached: keep it while its forwarding is valid. */
    method CheckAttached(gw: string, name: string, route: Route, io: SetIO) returns (result: SetResult)
      requires WellFormed() && gw in gateways && name in gateways[gw]
      modifies this`abandoned, gateways[gw][name], pool, pool.created
      ensures WellFormed() && fresh(pool.created - old(pool.created)) && old(pool.created) <= pool.created
      ensures var l := old(gateways[gw][name].View());
              var checked := WithPool(old(View()), Interfere(old(pool.View()), io.beforeCheck));
              (View(), result) ==
              if ForwardingValid(checked.pool, l) then (checked, AlreadyAttached)
              else Registry.SetupRouteForwarding(checked, gw, name, l.(route := None), route, io)
    {
      hide SSHSessionPool.Valid, SSHSessionPool.View, Registry.SetupRouteForwarding, ForwardingValid, Interfere,
           Registered, Shape, Gateways;
      pool.HappenAll(io.beforeCheck);
      Scrub(old(View()));
      var valid := IsForwardingValid(gateways[gw][name]);
      if valid {
        return AlreadyAttached;
      }
      result := RetryInvalid(gw, name, route, io);
    }

    method StopListener(l: ListenerObject, io: StopIO) returns (outcome: Outcome)
      requires pool.Valid()
      modifies pool, pool.created
      ensures pool.Valid() && fresh(pool.created - old(pool.created)) && old(pool.created) <= pool.created
      ensures (pool.View(), outcome) == Registry.StopListener(old(pool.View()), l.View(), io)
    {
      hide SSHSessionPool.Valid, SSHSessionPool.View, Interfere, Sessions.StopForwarding;
      pool.HappenAll(io.before);
      pool.ManagersAreCreated();
      outcome := pool.StopForwarding(l.kind, l.hostname, l.port, io.reply);
    }

    method RemoveRoute(gw: string, name: string, routeName: string, routeNamespace: string, io: StopIO)
      returns (result: RemoveResult)
      requires Valid()
      modifies this`abandoned, objects, pool, pool.created
      ensures Valid() && fresh(pool.created - old(pool.created)) && old(pool.created) <= pool.created
      ensures (View(), result) == Registry.RemoveRoute(old(View()), gw, name, routeName, routeNamespace, io)
    {
      hide SSHSessionPool.Valid, SSHSessionPool.View, Coherence.Inv, Registry.StopListener, Shape, Gateways, WithPool;
      Coherence.RemoveRouteKeepsInv(View(), gw, name, routeName, routeNamespace, io);
      SameNames();
      if gw !in gateways {
        return NoGateway;
      }
      if name in gateways[gw] {
        Shown(gw, name);
        var l := gateways[gw][name];
        if l.route.Some? && l.route.value.name == routeName && l.route.value.namespace == routeNamespace {
          result := Detach(gw, name, io);
          return;
        }
      }
      return RouteNotFound;
    }

    method Detach(gw: string, name: string, io: StopIO) returns (result: RemoveResult)
      requires WellFormed() && gw in gateways && name in gateways[gw]
      modifies this`abandoned, gateways[gw][name], pool, pool.created
      ensures WellFormed() && fresh(pool.created - old(pool.created)) && old(pool.created) <= pool.created
      ensures var l := old(gateways[gw][name].View());
              var (p, outcome) := Registry.StopListener(old(pool.View()), l, io);
              (View(), result) ==
              if outcome != Success then (WithPool(old(View()), p), NotStopped(outcome))
              else (Put(WithPool(old(View()), p), gw, name, l.(route := None)), Removed)
    {
      hide SSHSessionPool.Valid, SSHSessionPool.View, Registry.StopListener, Registered, Shape, Gateways;
      Shown(gw, name);
      var outcome := StopListener(gateways[gw][name], io);
      Scrub(old(View()));
      if outcome != Success {
        return NotStopped(outcome);
      }
      SetListenerRoute(gw, name, None);
      return Removed;
    }

    // ------------------------------------------------------ gateway add, update

    /** One turn of the update loop. The listener is built in any case; an unchanged one is
        kept as the same object. */
    method UpdateOne(
      updated: ListenerObjects, existing: ListenerObjects, k8s: K8sListener, annotations: map<string, string>,
      io: StopIO)
      returns (next: ListenerObjects)
      requires pool.Valid()
      modifies pool, pool.created
      ensures pool.Valid() && fresh(pool.created - old(pool.created)) && old(pool.created) <= pool.created
      ensures k8s.name in next && next == updated[k8s.name := next[k8s.name]]
      ensures if k8s.name in existing && existing[k8s.name].View().SameSpec(CreateListener(k8s, annotations))
              then next[k8s.name] == existing[k8s.name]
              else fresh(next[k8s.name]) && next[k8s.name].View() == CreateListener(k8s, annotations)
      ensures pool.View() ==
              Registry.UpdateOne(
                old(pool.View()), map[], Views(existing), k8s.name, CreateListener(k8s, annotations), io).0
    {
      hide SSHSessionPool.Valid, SSHSessionPool.View, Registry.StopListener, CreateListener;
      var l := new ListenerObject(k8s, annotations);
      if k8s.name in existing {
        var current := existing[k8s.name];
        if current.port != l.port || current.hostname != l.hostname || current.kind != l.kind {
          if current.route.Some? {
            var _ := StopListener(current, io);
          }
          return updated[k8s.name := l];
        }
        return updated[k8s.name := current];
      }
      return updated[k8s.name := l];
    }

    /** The listeners under construction: existing ones under their own names, new ones. */
    static ghost predicate Building(updated: ListenerObjects, existing: ListenerObjects, objects: set<ListenerObject>) {
      && (forall n | n in updated :: (n in existing && updated[n] == existing[n]) || updated[n] !in objects)
      && (forall n1, n2 | n1 in updated && n2 in updated && updated[n1] == updated[n2] :: n1 == n2)
    }

    /** A listener is a new object only where its port, hostname or session kind is new. */
    static ghost predicate Kept(updated: ListenerObjects, existing: ListenerObjects)
      reads updated.Values, existing.Values
    {
      forall n | n in updated && n in existing ::
        updated[n] == existing[n] || !existing[n].View().SameSpec(updated[n].View())
    }

    method UpdateListeners(gw: string, spec: seq<K8sListener>, annotations: map<string, string>, io: seq<StopIO>)
      returns (updated: ListenerObjects)
      requires WellFormed() && gw in gateways
      modifies pool, pool.created
      ensures pool.Valid() && fresh(pool.created - old(pool.created)) && old(pool.created) <= pool.created
      ensures Building(updated, gateways[gw], objects)
      ensures (pool.View(), Views(updated)) == UpdateLoop(old(pool.View()), Views(gateways[gw]), spec, annotations, io)
      ensures Kept(updated, gateways[gw])
    {
      hide SSHSessionPool.Valid, SSHSessionPool.View, Registry.UpdateOne, CreateListener, Gateways, Shape, Building,
           Views, Kept;
      StartBuilding(gateways[gw]);
      updated := map[];
      for i := 0 to |spec|
        invariant pool.Valid() && fresh(pool.created - old(pool.created)) && old(pool.created) <= pool.created
        invariant Building(updated, gateways[gw], objects) && Kept(updated, gateways[gw])
        invariant (pool.View(), Views(updated))
                  == UpdateLoop(old(pool.View()), Views(gateways[gw]), spec[..i], annotations, io)
      {
        assert spec[..i + 1][..i] == spec[..i] && spec[..i + 1][i] == spec[i];
        updated := UpdateTurn(gw, updated, spec[i], annotations, if i < |io| then io[i] else QUIET_STOP);
      }
      assert spec[..|spec|] == spec;
    }

    method UpdateTurn(
      gw: string, updated: ListenerObjects, k8s: K8sListener, annotations: map<string, string>, io: StopIO)
      returns (next: ListenerObjects)
      requires WellFormed() && gw in gateways
      requires Building(updated, gateways[gw], objects) && Kept(updated, gateways[gw])
      modifies pool, pool.created
      ensures pool.Valid() && fresh(pool.created - old(pool.created)) && old(pool.created) <= pool.created
      ensures Building(next, gateways[gw], objects) && Kept(next, gateways[gw])
      ensures (pool.View(), Views(next)) ==
              Registry.UpdateOne(
                old(pool.View()), old(Views(updated)), Views(gateways[gw]), k8s.name,
                CreateListener(k8s, annotations), io)
    {
      hide SSHSessionPool.Valid, SSHSessionPool.View, Registry.UpdateOne, CreateListener, Gateways, Shape, Building,
           Views, Kept;
      next := UpdateOne(updated, gateways[gw], k8s, annotations, io);
      UpdateOneResult(
        old(pool.View()), old(Views(updated)), Views(gateways[gw]), k8s.name, CreateListener(k8s, annotations), io);
      NamesShown(gateways[gw]);
      BuildingOn(updated, gateways[gw], k8s.name, next[k8s.name], gw);
      KeptOn(updated, gateways[gw], k8s.name, next[k8s.name]);
      ViewsInsert(updated, k8s.name, next[k8s.name]);
    }

    lemma StartBuilding(existing: ListenerObjects)
      ensures Building(map[], existing, objects) && Kept(map[], existing) && Views(map[]) == map[]
    {
    }

    lemma BuildingOn(updated: ListenerObjects, existing: ListenerObjects, name: string, l: ListenerObject, gw: string)
      requires Shape() && gw in gateways && existing == gateways[gw]
      requires Building(updated, existing, objects)
      requires (name in existing && l == existing[name]) || (l !in objects && l !in updated.Values)
      ensures Building(updated[name := l], existing, objects)
    {
    }

    static lemma KeptOn(updated: ListenerObjects, existing: ListenerObjects, name: string, l: ListenerObject)
      requires Kept(updated, existing)
      requires name in existing ==> l == existing[name] || !existing[name].View().SameSpec(l.View())
      ensures Kept(updated[name := l], existing)
    {
    }

    static lemma ViewsInsert(listeners: ListenerObjects, name: string, l: ListenerObject)
      ensures Views(listeners[name := l]) == Views(listeners)[name := l.View()]
    {
    }

    static lemma NamesShown(listeners: ListenerObjects)
      ensures forall n :: n in listeners <==> n in Views(listeners)
      ensures forall n | n in listeners :: Views(listeners)[n] == listeners[n].View()
    {
    }

    /** The two results of a turn do not depend on each other. */
    static lemma UpdateOneResult(
      p: Pool, updated: ListenerMap, existing: ListenerMap, name: string, wanted: Listener, io: StopIO)
      ensures Registry.UpdateOne(p, updated, existing, name, wanted, io).0
              == Registry.UpdateOne(p, map[], existing, name, wanted, io).0
      ensures Registry.UpdateOne(p, updated, existing, name, wanted, io).1
              == updated[name := if name in existing && existing[name].SameSpec(wanted) then existing[name] else wanted]
    {
    }

    /** After the call the registry follows the spec; an unchanged listener is still the same
        object. */
    method AddOrUpdateGateway(gw: string, spec: seq<K8sListener>, annotations: map<string, string>, io: seq<StopIO>)
      requires Valid()
      modifies this, pool, pool.created
      ensures Valid() && fresh(pool.created - old(pool.created)) && old(pool.created) <= pool.created
      ensures View() == Registry.AddOrUpdateGateway(old(View()), gw, spec, annotations, io)
      ensures gw in gateways && (gw in old(gateways) ==> Kept(gateways[gw], old(gateways)[gw]))
    {
      hide SSHSessionPool.Valid, SSHSessionPool.View, Coherence.Inv, UpdateLoop, CreateAll, WithPool, Gateways,
           Shape, Kept, Dropped;
      Coherence.UpdateKeepsInv(View(), gw, spec, annotations, io);
      SameNames();
      if gw !in gateways {
        var created := BuildListeners(spec, annotations);
        ReplaceListeners(gw, created);
      } else {
        UpdateExisting(gw, spec, annotations, io);
      }
    }

    method UpdateExisting(gw: string, spec: seq<K8sListener>, annotations: map<string, string>, io: seq<StopIO>)
      requires WellFormed() && gw in gateways
      modifies this, pool, pool.created
      ensures WellFormed() && fresh(pool.created - old(pool.created)) && old(pool.created) <= pool.created
      ensures gw in old(Gateways()) && View() == Registry.AddOrUpdateGateway(old(View()), gw, spec, annotations, io)
      ensures gw in gateways && Kept(gateways[gw], old(gateways)[gw])
    {
      hide SSHSessionPool.Valid, SSHSessionPool.View, UpdateLoop, WithPool, Gateways, Shape, Views, Dropped, Building;
      ViewsShown(gw);
      var updated := UpdateListeners(gw, spec, annotations, io);
      ghost var dropped := Dropped(Gateways()[gw], Views(updated));
      ReplaceListeners(gw, updated);
      abandoned := abandoned + dropped;
      Scrub(System(Gateways(), old(pool.View()), abandoned));
    }

    lemma ViewsShown(gw: string)
      requires Shape() && gw in gateways
      ensures gw in Gateways() && Gateways()[gw] == Views(gateways[gw])
    {
    }

    method BuildListeners(spec: seq<K8sListener>, annotations: map<string, string>) returns (created: ListenerObjects)
      ensures Building(created, map[], objects)
      ensures Views(created) == CreateAll(spec, annotations)
      ensures forall n | n in created :: fresh(created[n])
    {
      hide CreateListener;
      created := map[];
      for i := 0 to |spec|
        invariant Building(created, map[], objects)
        invariant Views(created) == CreateAll(spec[..i], annotations)
        invariant forall n | n in created :: fresh(created[n])
      {
        ghost var views := Views(created);
        var l := new ListenerObject(spec[i], annotations);
        ghost var before := created;
        created := created[spec[i].name := l];
        assert Views(created) == views[spec[i].name := l.View()];
        assert spec[..i + 1][..i] == spec[..i];
      }
      assert spec[..|spec|] == spec;
    }

    method ReplaceListeners(gw: string, listeners: ListenerObjects)
      requires Shape()
      requires Building(listeners, if gw in gateways then gateways[gw] else map[], objects)
      modifies this`gateways, this`objects
      ensures Shape()
      ensures gateways == old(gateways)[gw := listeners]
      ensures Gateways() == old(Gateways())[gw := Views(listeners)]
    {
      UnsharedReplace(gateways, objects, gw, listeners);
      hide Unshared, Building, Views;
      objects := objects + listeners.Values;
      gateways := gateways[gw := listeners];
    }

    static lemma UnsharedReplace(
      gateways: map<string, ListenerObjects>, objects: set<ListenerObject>, gw: string, listeners: ListenerObjects)
      requires Unshared(gateways, objects)
      requires Building(listeners, if gw in gateways then gateways[gw] else map[], objects)
      ensures Unshared(gateways[gw := listeners], objects + listeners.Values)
    {
    }

    // ----------------------------------------------------------- gateway delete

    /** `order` is the order in which the runtime visits the listeners. */
    method DeleteGateway(gw: string, order: seq<string>, io: seq<StopIO>)
      requires Valid()
      requires gw in gateways ==> Enumerates(order, Views(gateways[gw]))
      modifies this, pool, pool.created
      ensures Valid() && fresh(pool.created - old(pool.created)) && old(pool.created) <= pool.created
      ensures View() == Registry.DeleteGateway(old(View()), gw, order, io)
    {
      hide SSHSessionPool.Valid, SSHSessionPool.View, Coherence.Inv, StopEach, Registered, Gateways;
      SameNames();
      if gw in gateways {
        ViewsShown(gw);
        Coherence.DeleteKeepsInv(View(), gw, order, io);
        StopListeners(gw, order, io);
        Scrub(old(View()));
        ForgetGateway(gw);
      }
    }

    method ForgetGateway(gw: string)
      requires Shape()
      modifies this`gateways
      ensures Shape() && Gateways() == old(Gateways()) - {gw}
    {
      gateways := gateways - {gw};
    }

    method StopListeners(gw: string, order: seq<string>, io: seq<StopIO>)
      requires WellFormed() && gw in gateways && Enumerates(order, Views(gateways[gw]))
      modifies pool, pool.created
      ensures pool.Valid() && fresh(pool.created - old(pool.created)) && old(pool.created) <= pool.created
      ensures pool.View() == StopEach(old(pool.View()), Views(gateways[gw]), order, io)
    {
      hide SSHSessionPool.Valid, SSHSessionPool.View, Registry.StopListener, Views, Gateways, Shape, StopEach,
           ListenerObject.View;
      var listeners := gateways[gw];
      ghost var views := Views(listeners);
      StopEachNone(pool.View(), views, order, io);
      NamesShown(listeners);
      assert forall i | 0 <= i < |order| :: order[i] in listeners by {
        assert forall i | 0 <= i < |order| :: order[i] in order;
      }
      hide Enumerates;
      for i := 0 to |order|
        invariant pool.Valid() && fresh(pool.created - old(pool.created)) && old(pool.created) <= pool.created
        invariant pool.View() == StopEach(old(pool.View()), views, order[..i], io)
      {
        StopEachNext(old(pool.View()), views, order, io, i);
        StopTurn(listeners[order[i]], if i < |io| then io[i] else QUIET_STOP);
      }
      assert order[..|order|] == order;
    }

    static lemma StopEachNone(p: Pool, listeners: ListenerMap, order: seq<string>, io: seq<StopIO>)
      ensures StopEach(p, listeners, order[..0], io) == p
    {
    }

    static lemma StopEachNext(p: Pool, listeners: ListenerMap, order: seq<string>, io: seq<StopIO>, i: nat)
      requires i < |order| && order[i] in listeners
      ensures var before, l := StopEach(p, listeners, order[..i], io), listeners[order[i]];
              StopEach(p, listeners, order[..i + 1], io) ==
              if l.route.Some? then Registry.StopListener(before, l, IOAt(io, i)).0 else before
    {
      hide Registry.StopListener;
      assert order[..i + 1][..i] == order[..i] && order[..i + 1][i] == order[i];
    }

    method StopTurn(l: ListenerObject, io: StopIO)
      requires pool.Valid()
      modifies pool, pool.created
      ensures pool.Valid() && fresh(pool.created - old(pool.created)) && old(pool.created) <= pool.created
      ensures pool.View() ==
              if l.View().route.Some? then Registry.StopListener(old(pool.View()), l.View(), io).0
              else old(pool.View())
    {
      hide SSHSessionPool.Valid, SSHSessionPool.View, Registry.StopListener;
      if l.route.Some? {
        var _ := StopListener(l, io);
      }
    }
  }
}
