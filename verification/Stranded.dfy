/** A listener that shows a route whose forwarding is gone: what leaves it that way, and what
    gets it out. While it is that way no other route can be set on it, and its own cannot be
    removed. */
module Stranded {
  import opened Text
  import opened HostMatch
  import opened Sessions
  import opened Listeners
  import opened Registry
  import opened Coherence
  import opened Attachment
  import opened GatewayUpdate

  type GatewayMap = map<string, ListenerMap>

  /** No other listener that can have a forwarding has this one's key. */
  ghost predicate KeyAlone(s: Registry.System, gw: string, name: string)
    requires gw in s.gateways && name in s.gateways[gw]
  {
    forall g, n | g in s.gateways && n in s.gateways[g] && (g, n) != (gw, name) && !s.gateways[g][n].rejected ::
      (s.gateways[g][n].kind, s.gateways[g][n].Key()) != (s.gateways[gw][name].kind, s.gateways[gw][name].Key())
  }

  /** The listener shows a route, its forwarding is gone, and nobody else has its key. */
  ghost predicate Strands(s: System, gw: string, name: string) {
    && Coherence.Inv(s) && gw in s.gateways && name in s.gateways[gw]
    && var l := s.gateways[gw][name];
       l.route.Some? && !Registered(s.pool, l.kind, l.Key()) && KeyAlone(s, gw, name)
  }

  /** The spec names the listener and asks for what it is. */
  ghost predicate Keeps(l: Listener, name: string, spec: seq<K8sListener>, annotations: map<string, string>) {
    exists i :: 0 <= i < |spec| && spec[i].name == name && l.SameSpec(CreateListener(spec[i], annotations))
  }

  predicate OtherKey(l: Listener, other: Listener) {
    other.rejected || (other.kind, other.Key()) != (l.kind, l.Key())
  }

  /** Does the operation neither set the shown route again, nor change or drop the listener,
      nor ask for another listener with its key? */
  ghost predicate Spares(s: System, op: Op, gw: string, name: string) {
    && gw in s.gateways && name in s.gateways[gw]
    && var l := s.gateways[gw][name];
       match op
       case SetOp(g, n, route, _) => (g, n) != (gw, name) || l.route != Some(route)
       case RemoveOp(_, _, _, _, _) => true
       case UpdateOp(g, spec, annotations, _) =>
         && DistinctNames(spec) && (g == gw ==> Keeps(l, name, spec, annotations))
         && (forall i | 0 <= i < |spec| && (g, spec[i].name) != (gw, name) ::
               OtherKey(l, CreateListener(spec[i], annotations)))
       case DeleteOp(g, _, _) => g != gw
       case PoolOp(_) => true
  }

  /** The same listeners, routes aside. */
  ghost predicate SameListeners(before: GatewayMap, after: GatewayMap) {
    && after.Keys == before.Keys
    && (forall g | g in before :: after[g].Keys == before[g].Keys)
    && (forall g, n | g in before && n in before[g] ::
          after[g][n].(route := None) == before[g][n].(route := None))
  }

  lemma StrandsStays(s: System, t: System, gw: string, name: string)
    requires Strands(s, gw, name) && Coherence.Inv(t) && SameListeners(s.gateways, t.gateways)
    requires t.gateways[gw][name] == s.gateways[gw][name]
    requires var l := s.gateways[gw][name]; !Registered(t.pool, l.kind, l.Key())
    ensures Strands(t, gw, name)
  {
    hide Coherence.Inv;
    forall g, n | g in s.gateways && n in s.gateways[g]
      ensures && t.gateways[g][n].rejected == s.gateways[g][n].rejected
              && t.gateways[g][n].kind == s.gateways[g][n].kind && t.gateways[g][n].Key() == s.gateways[g][n].Key()
    {
      assert t.gateways[g][n].(route := None) == s.gateways[g][n].(route := None);
    }
  }

  function Rerouted(gateways: GatewayMap, gw: string, name: string, r: Option<Route>): GatewayMap
    requires gw in gateways && name in gateways[gw]
  {
    gateways[gw := gateways[gw][name := gateways[gw][name].(route := r)]]
  }

  ghost predicate OthersSame(before: GatewayMap, after: GatewayMap, gw: string, name: string) {
    forall g, n | g in before && n in before[g] && (g, n) != (gw, name) ::
      g in after && n in after[g] && after[g][n] == before[g][n]
  }

  lemma ReroutedSame(gateways: GatewayMap, gw: string, name: string, r: Option<Route>)
    requires gw in gateways && name in gateways[gw]
    ensures SameListeners(gateways, Rerouted(gateways, gw, name, r))
    ensures OthersSame(gateways, Rerouted(gateways, gw, name, r), gw, name)
  {
  }

  lemma SetupShape(s: System, gw: string, name: string, l: Listener, route: Route, io: SetIO)
    requires gw in s.gateways && name in s.gateways[gw]
    ensures var t := SetupRouteForwarding(s, gw, name, l, route, io).0;
            || t.gateways == s.gateways[gw := s.gateways[gw][name := l]]
            || t.gateways == s.gateways[gw := s.gateways[gw][name := l.(route := Some(route))]]
  {
    hide Prepare, Sessions.StartForwarding, Registered;
  }

  /** SetRoute changes at most the route of its listener. */
  lemma SetRouteShape(s: System, gw: string, name: string, route: Route, io: SetIO)
    ensures var t := SetRoute(s, gw, name, route, io).0;
            || t.gateways == s.gateways
            || (&& gw in s.gateways && name in s.gateways[gw] && !s.gateways[gw][name].rejected
                && (t.gateways == Rerouted(s.gateways, gw, name, None)
                    || t.gateways == Rerouted(s.gateways, gw, name, Some(route))))
  {
    hide Interfere, SetupRouteForwarding, ForwardingValid, Registered;
    if gw in s.gateways && name in s.gateways[gw] {
      var l := s.gateways[gw][name];
      SetupShape(s, gw, name, l, route, io);
      SetupShape(WithPool(s, Interfere(s.pool, io.beforeCheck)), gw, name, l.(route := None), route, io);
      assert s.gateways[gw][name := s.gateways[gw][name]] == s.gateways[gw];
      assert s.gateways[gw := s.gateways[gw]] == s.gateways;
    }
  }

  /** SetRoute sets at most the route of its listener, and registers at most its key. */
  lemma SetRouteTouches(
    s: System, gw: string, name: string, route: Route, io: SetIO, kind: SessionKind, key: string)
    requires Coherence.Inv(s) && !Registered(s.pool, kind, key)
    requires gw in s.gateways && name in s.gateways[gw] ==>
               var l := s.gateways[gw][name]; l.rejected || (l.kind, l.Key()) != (kind, key)
    ensures var t := SetRoute(s, gw, name, route, io).0;
            && SameListeners(s.gateways, t.gateways) && OthersSame(s.gateways, t.gateways, gw, name)
            && !Registered(t.pool, kind, key)
  {
    SetRouteShape(s, gw, name, route, io);
    SetRoutePool(s, gw, name, route, io, kind, key);
    hide SetRoute;
    if gw in s.gateways && name in s.gateways[gw] {
      ReroutedSame(s.gateways, gw, name, None);
      ReroutedSame(s.gateways, gw, name, Some(route));
    }
  }

  lemma SetRoutePool(
    s: System, gw: string, name: string, route: Route, io: SetIO, kind: SessionKind, key: string)
    requires Coherence.Inv(s) && !Registered(s.pool, kind, key)
    requires gw in s.gateways && name in s.gateways[gw] ==>
               var l := s.gateways[gw][name]; l.rejected || (l.kind, l.Key()) != (kind, key)
    ensures !Registered(SetRoute(s, gw, name, route, io).0.pool, kind, key)
  {
    hide Sessions.Inv, Coherent, AbandonedLive, RejectedAreBare, Shrinks, Interfere, Prepare, ForwardingValid,
         Sessions.StartForwarding, Registered;
    if gw in s.gateways && name in s.gateways[gw] && !s.gateways[gw][name].rejected {
      var l := s.gateways[gw][name];
      var p := Interfere(s.pool, io.beforeCheck);
      InterfereShrinks(s.pool, io.beforeCheck);
      ShrinkUnregisters(s.pool, p, kind, key);
      if l.route == Some(route) {
        SetupRegistersOwn(p, l.(route := None), route, io, kind, key);
      } else {
        SetupRegistersOwn(s.pool, l, route, io, kind, key);
      }
    }
  }

  lemma SetupRegistersOwn(p: Pool, l: Listener, route: Route, io: SetIO, kind: SessionKind, key: string)
    requires Sessions.Inv(p) && !Registered(p, kind, key) && (l.kind, l.Key()) != (kind, key)
    ensures var q := Prepare(p, l, io).0;
            && !Registered(q, kind, key)
            && !Registered(Sessions.StartForwarding(q, l.kind, l.Config(route), io.start).0, kind, key)
  {
    hide Sessions.Inv, Shrinks, Prepare, Sessions.StartForwarding, Registered;
    var q := Prepare(p, l, io).0;
    PrepareShrinks(p, l, io);
    ShrinkUnregisters(p, q, kind, key);
    StartForwardingEffect(q, l.kind, l.Config(route), io.start);
  }

  /** The operation leaves the listener as it is, and stranded. */
  ghost predicate Unmoved(s: System, t: System, gw: string, name: string) {
    && Strands(t, gw, name) && gw in s.gateways && name in s.gateways[gw]
    && t.gateways[gw][name] == s.gateways[gw][name]
  }

  lemma SetKeepsStranded(s: System, gw: string, name: string, g: string, n: string, route: Route, io: SetIO)
    requires Strands(s, gw, name) && ((g, n) != (gw, name) || s.gateways[gw][name].route != Some(route))
    ensures Unmoved(s, SetRoute(s, g, n, route, io).0, gw, name)
  {
    hide Sessions.Inv, Coherent, AbandonedLive, SetRoute, KeyAlone;
    var t, l := SetRoute(s, g, n, route, io).0, s.gateways[gw][name];
    SetRouteKeepsInv(s, g, n, route, io);
    if (g, n) == (gw, name) {
      OtherRouteBlocks(s, gw, name, route, io);
    } else {
      KeyAloneAt(s, gw, name, g, n);
      SetRouteTouches(s, g, n, route, io, l.kind, l.Key());
    }
    StrandsStays(s, t, gw, name);
  }

  lemma KeyAloneAt(s: System, gw: string, name: string, g: string, n: string)
    requires gw in s.gateways && name in s.gateways[gw] && KeyAlone(s, gw, name) && (g, n) != (gw, name)
    ensures g in s.gateways && n in s.gateways[g] ==> OtherKey(s.gateways[gw][name], s.gateways[g][n])
  {
  }

  lemma RemoveKeepsStranded(
    s: System, gw: string, name: string, g: string, n: string, routeName: string, routeNamespace: string, io: StopIO)
    requires Strands(s, gw, name)
    ensures Unmoved(s, RemoveRoute(s, g, n, routeName, routeNamespace, io).0, gw, name)
  {
    hide Sessions.Inv, Coherent, AbandonedLive, StopForwarding, Interfere, Shrinks, Registered, KeyAlone;
    var t, l := RemoveRoute(s, g, n, routeName, routeNamespace, io).0, s.gateways[gw][name];
    RemoveRouteKeepsInv(s, g, n, routeName, routeNamespace, io);
    if g in s.gateways && n in s.gateways[g] {
      var other := s.gateways[g][n];
      StopListenerShrinks(s.pool, other, io);
      ShrinkUnregisters(s.pool, StopListener(s.pool, other, io).0, l.kind, l.Key());
      InterfereShrinks(s.pool, io.before);
      ShrinkUnregisters(s.pool, Interfere(s.pool, io.before), l.kind, l.Key());
      if (g, n) == (gw, name) {
        UnregisteredStopFails(Interfere(s.pool, io.before), l.kind, l.Key(), io.reply);
      } else {
        ReroutedSame(s.gateways, g, n, None);
      }
    }
    StrandsStays(s, t, gw, name);
  }

  lemma PoolKeepsStranded(s: System, gw: string, name: string, event: PoolEvent)
    requires Strands(s, gw, name)
    ensures Unmoved(s, Coherence.Step(s, PoolOp(event)), gw, name)
  {
    hide Sessions.Inv, Coherent, AbandonedLive, Interfere, Shrinks, Registered, KeyAlone;
    var l := s.gateways[gw][name];
    InterferenceKeepsInv(s, [event]);
    InterfereShrinks(s.pool, [event]);
    ShrinkUnregisters(s.pool, Interfere(s.pool, [event]), l.kind, l.Key());
    StrandsStays(s, Coherence.Step(s, PoolOp(event)), gw, name);
  }

  lemma UpdateUnregistered(
    s: System, g: string, spec: seq<K8sListener>, annotations: map<string, string>, io: seq<StopIO>,
    kind: SessionKind, key: string)
    requires Sessions.Inv(s.pool) && !Registered(s.pool, kind, key)
    ensures !Registered(AddOrUpdateGateway(s, g, spec, annotations, io).pool, kind, key)
  {
    hide Sessions.Inv, UpdateLoop, CreateAll, Shrinks, Registered, Dropped;
    if g in s.gateways {
      UpdateLoopShrinks(s.pool, s.gateways[g], spec, annotations, io);
      ShrinkUnregisters(s.pool, UpdateLoop(s.pool, s.gateways[g], spec, annotations, io).0, kind, key);
    }
  }

  /** Where a listener of the updated registry comes from. */
  lemma UpdatedFrom(
    s: System, g: string, spec: seq<K8sListener>, annotations: map<string, string>, io: seq<StopIO>, n: string)
    returns (i: nat)
    requires DistinctNames(spec) && n in AddOrUpdateGateway(s, g, spec, annotations, io).gateways[g]
    ensures i < |spec| && spec[i].name == n
    ensures var t, wanted := AddOrUpdateGateway(s, g, spec, annotations, io), CreateListener(spec[i], annotations);
            && t.gateways[g][n].SameSpec(wanted)
            && (t.gateways[g][n] == wanted || (n in Existing(s, g) && t.gateways[g][n] == Existing(s, g)[n]))
  {
    hide AddOrUpdateGateway, CreateListener;
    UpdateFollowsSpec(s, g, spec, annotations, io);
    assert n in Names(spec);
    i :| 0 <= i < |spec| && spec[i].name == n;
  }

  lemma UpdateKeepsStranded(
    s: System, gw: string, name: string, g: string, spec: seq<K8sListener>, annotations: map<string, string>,
    io: seq<StopIO>)
    requires Strands(s, gw, name) && Spares(s, UpdateOp(g, spec, annotations, io), gw, name)
    ensures Unmoved(s, AddOrUpdateGateway(s, g, spec, annotations, io), gw, name)
  {
    hide Coherence.Inv, AddOrUpdateGateway, CreateListener, Registered, KeyAlone;
    var t, l := AddOrUpdateGateway(s, g, spec, annotations, io), s.gateways[gw][name];
    UpdateKeepsInv(s, g, spec, annotations, io);
    UpdateFollowsSpec(s, g, spec, annotations, io);
    PoolInv(s);
    UpdateUnregistered(s, g, spec, annotations, io, l.kind, l.Key());
    assert gw in t.gateways && name in t.gateways[gw] && t.gateways[gw][name] == l;
    forall n | n in t.gateways[g] && (g, n) != (gw, name) ensures OtherKey(l, t.gateways[g][n]) {
      var i := UpdatedFrom(s, g, spec, annotations, io, n);
      KeyAloneAt(s, gw, name, g, n);
    }
    forall h, n | h in t.gateways && n in t.gateways[h] && (h, n) != (gw, name) ensures OtherKey(l, t.gateways[h][n]) {
      if h != g {
        KeyAloneAt(s, gw, name, h, n);
      }
    }
    AloneIfOthersDiffer(t, gw, name);
  }

  lemma PoolInv(s: System)
    ensures Coherence.Inv(s) ==> Sessions.Inv(s.pool)
  {
  }

  lemma AloneIfOthersDiffer(t: System, gw: string, name: string)
    requires gw in t.gateways && name in t.gateways[gw]
    requires forall h, n | h in t.gateways && n in t.gateways[h] && (h, n) != (gw, name) ::
               OtherKey(t.gateways[gw][name], t.gateways[h][n])
    ensures KeyAlone(t, gw, name)
  {
  }

  lemma DeleteKeepsStranded(s: System, gw: string, name: string, g: string, order: seq<string>, io: seq<StopIO>)
    requires Strands(s, gw, name) && g != gw
    requires g in s.gateways ==> Enumerates(order, s.gateways[g])
    ensures Unmoved(s, Registry.DeleteGateway(s, g, order, io), gw, name)
  {
    hide Sessions.Inv, Coherent, AbandonedLive, StopEach, Shrinks, Registered;
    var l := s.gateways[gw][name];
    DeleteKeepsInv(s, g, order, io);
    if g in s.gateways {
      StopEachShrinks(s.pool, s.gateways[g], order, io);
      ShrinkUnregisters(s.pool, StopEach(s.pool, s.gateways[g], order, io), l.kind, l.Key());
    }
  }

  lemma OpKeepsStranded(s: System, op: Op, gw: string, name: string)
    requires Strands(s, gw, name) && Spares(s, op, gw, name)
    ensures Unmoved(s, Coherence.Step(s, op), gw, name)
  {
    hide SetRoute, RemoveRoute, AddOrUpdateGateway, Registry.DeleteGateway, Interfere, Coherence.Inv, KeyAlone,
         Registered;
    match op
    case SetOp(g, n, route, io) => SetKeepsStranded(s, gw, name, g, n, route, io);
    case RemoveOp(g, n, routeName, routeNamespace, io) =>
      RemoveKeepsStranded(s, gw, name, g, n, routeName, routeNamespace, io);
    case UpdateOp(g, spec, annotations, io) => UpdateKeepsStranded(s, gw, name, g, spec, annotations, io);
    case DeleteOp(g, order, io) =>
      if g in s.gateways && Enumerates(order, s.gateways[g]) {
        DeleteKeepsStranded(s, gw, name, g, order, io);
      }
    case PoolOp(event) => PoolKeepsStranded(s, gw, name, event);
  }

  /** A stranded listener stays as it is through every run that spares it. */
  lemma {:induction false} StaysStranded(s: System, ops: seq<Op>, gw: string, name: string)
    requires Strands(s, gw, name)
    requires forall i | 0 <= i < |ops| :: Spares(Coherence.Run(s, ops[..i]), ops[i], gw, name)
    ensures Unmoved(s, Coherence.Run(s, ops), gw, name)
  {
    hide Coherence.Step, Spares, Coherence.Inv, KeyAlone, Registered;
    if ops != [] {
      var n := |ops| - 1;
      forall i | 0 <= i < n ensures Spares(Coherence.Run(s, ops[..n][..i]), ops[..n][i], gw, name) {
        assert ops[..n][..i] == ops[..i] && ops[..n][i] == ops[i];
      }
      StaysStranded(s, ops[..n], gw, name);
      OpKeepsStranded(Coherence.Run(s, ops[..n]), ops[n], gw, name);
    }
  }

  /** At the end of every such run it still refuses every other route, in every environment,
      and does not let its own be removed. */
  lemma StrandedRefuses(
    s: System, ops: seq<Op>, gw: string, name: string, route: Route, setIO: SetIO, stopIO: StopIO)
    requires Strands(s, gw, name) && s.gateways[gw][name].route != Some(route)
    requires forall i | 0 <= i < |ops| :: Spares(Coherence.Run(s, ops[..i]), ops[i], gw, name)
    ensures var v, shown := Coherence.Run(s, ops), s.gateways[gw][name].route.value;
            && gw in v.gateways && name in v.gateways[gw] && v.gateways[gw][name].route == Some(shown)
            && SetRoute(v, gw, name, route, setIO).1.StopFailed?
            && RemoveRoute(v, gw, name, shown.name, shown.namespace, stopIO).1.NotStopped?
  {
    hide SetRoute, Sessions.Inv, Interfere, StopForwarding, Shrinks;
    StaysStranded(s, ops, gw, name);
    var v, l := Coherence.Run(s, ops), s.gateways[gw][name];
    OtherRouteBlocks(v, gw, name, route, setIO);
    InterfereShrinks(v.pool, stopIO.before);
    ShrinkUnregisters(v.pool, Interfere(v.pool, stopIO.before), l.kind, l.Key());
    UnregisteredStopFails(Interfere(v.pool, stopIO.before), l.kind, l.Key(), stopIO.reply);
  }

  /** The way out by the spec: an update of its Gateway leaves the route shown if and only if
      the spec keeps the listener. */
  lemma UpdateShowsIffKept(
    s: System, gw: string, name: string, spec: seq<K8sListener>, annotations: map<string, string>, io: seq<StopIO>)
    requires DistinctNames(spec) && gw in s.gateways && name in s.gateways[gw] && s.gateways[gw][name].route.Some?
    ensures var t := AddOrUpdateGateway(s, gw, spec, annotations, io);
            && gw in t.gateways
            && (name in t.gateways[gw] && t.gateways[gw][name].route.Some?
                <==> Keeps(s.gateways[gw][name], name, spec, annotations))
            && (Keeps(s.gateways[gw][name], name, spec, annotations) ==>
                  t.gateways[gw][name] == s.gateways[gw][name])
  {
    hide AddOrUpdateGateway, CreateListener;
    UpdateFollowsSpec(s, gw, spec, annotations, io);
    var t := AddOrUpdateGateway(s, gw, spec, annotations, io);
    if name in t.gateways[gw] {
      var i := UpdatedFrom(s, gw, spec, annotations, io, name);
      CreatedHasNoRoute(spec[i], annotations);
    }
  }

  /** The way out by the route: setting the shown route again on a good server attaches it. */
  lemma ShownRouteReattaches(s: System, gw: string, name: string, io: SetIO)
    requires Strands(s, gw, name)
    requires var l := s.gateways[gw][name];
             GoodServer(io.start, l) && io.Quiet() && s.pool.capturing
             && (IsConnected(s.pool, l.kind) || Redialed(s.pool, l.kind, io))
    ensures var l := s.gateways[gw][name];
            var (t, result) := SetRoute(s, gw, name, l.route.value, io);
            result == Started && Attached(t, gw, name, l, l.route.value)
  {
    hide Sessions.Inv, Coherent, AbandonedLive, MatchesRequestedHost, SetupRouteForwarding, Attached, KeyAlone,
         ForwardingValid;
    var l := s.gateways[gw][name];
    var route, cleared := l.route.value, l.(route := None);
    assert Interfere(s.pool, []) == s.pool;
    if ForwardingValid(s.pool, l) {
      ValidIsRegistered(s.pool, l);
    }
    SetupConverges(WithPool(s, s.pool), gw, name, cleared, route, io);
    AttachedIgnoresRoute(SetRoute(s, gw, name, route, io).0, gw, name, l, route);
  }
}
