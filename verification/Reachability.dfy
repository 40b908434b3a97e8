/** Runs of the controller that end in the states where a route cannot be set or deleted,
    never settles, or is served by somebody else's forwarding. Two routes and HTTP listeners
    without a hostname suffice, whatever the routes are. */
module Reachability {
  import opened Text
  import opened HostMatch
  import opened Tunnel
  import opened Sessions
  import opened Listeners
  import opened Registry
  import opened Coherence
  import opened Attachment
  import opened Exits
  import Deletion
  import Finalizers
  import Stranded

  const GW := "default/gateway"
  const GW2 := "default/other"
  const PORT := 80
  const UP := OpenIO(true, true)

  /** The controller as it starts, with a server that can be reached. */
  function Boot(): System {
    Coherence.Start(true, UP)
  }

  function HTTPListener(name: string): K8sListener {
    K8sListener(name, None, PORT, "HTTP", None)
  }

  function ListenerWith(route: Option<Route>): Listener {
    Listener(route, "HTTP", "localhost", PORT, SessionPlain, false, "")
  }

  /** Everything is accepted, and nothing happens in between; the address is reported in time
      or too late. */
  function Answers(inTime: bool): SetIO {
    SetIO([], [], Accepted, [], [], map[], [], [],
          StartIO(true, Accepted, Accepted, [["http://example.com"]], !inTime, Accepted))
  }

  lemma HTTPListenerIs(name: string)
    ensures CreateListener(HTTPListener(name), map[]) == ListenerWith(None)
  {
    assert ToUpper("HTTP") == "HTTP";
  }

  lemma Extend(ops: seq<Op>, last: Op) returns (longer: seq<Op>)
    ensures Coherence.Run(Boot(), longer) == Coherence.Step(Coherence.Run(Boot(), ops), last)
  {
    longer := ops + [last];
    assert longer[..|ops|] == ops;
  }

  /** The plain session is up and holds these forwardings. */
  ghost predicate PlainHolds(p: Pool, forwardings: map<string, ForwardingConfig>, addresses: map<string, seq<string>>) {
    && IsConnected(p, SessionPlain) && p.managers[SessionPlain].capturing
    && p.managers[SessionPlain].forwardings == forwardings
    && p.managers[SessionPlain].assignedAddrs == addresses
  }

  /** One listener, one route attached to it. */
  lemma AttachedRun(name: string, route: Route, inTime: bool) returns (ops: seq<Op>)
    ensures var s, l := Coherence.Run(Boot(), ops), ListenerWith(Some(route));
            && s.gateways == map[GW := map[name := l]]
            && s.abandoned == {}
            && PlainHolds(s.pool, map[l.Key() := l.Config(route)],
                          if inTime then map[l.Key() := ["http://example.com"]] else map[])
  {
    HTTPListenerIs(name);
    var spec := [HTTPListener(name)];
    ops := Extend([], UpdateOp(GW, spec, map[], []));
    CreateOne(spec, ListenerWith(None));
    var s := Coherence.Run(Boot(), ops);
    assert s.gateways == map[GW := map[name := ListenerWith(None)]] && s.pool == Boot().pool;
    assert PlainHolds(s.pool, map[], map[]);
    ops := Extend(ops, SetOp(GW, name, route, Answers(inTime)));
    SetOnFresh(s, name, route, inTime);
  }

  lemma CreateOne(spec: seq<K8sListener>, l: Listener)
    requires |spec| == 1 && CreateListener(spec[0], map[]) == l
    ensures CreateAll(spec, map[]) == map[spec[0].name := l]
  {
    hide CreateListener;
    assert CreateAll(spec[..0], map[]) == map[];
  }

  lemma SetOnFresh(s: System, name: string, route: Route, inTime: bool)
    requires s.gateways == map[GW := map[name := ListenerWith(None)]] && s.abandoned == {}
    requires PlainHolds(s.pool, map[], map[])
    ensures var t, l := SetRoute(s, GW, name, route, Answers(inTime)).0, ListenerWith(Some(route));
            && t.gateways == map[GW := map[name := l]] && t.abandoned == {}
            && PlainHolds(t.pool, map[l.Key() := l.Config(route)],
                          if inTime then map[l.Key() := ["http://example.com"]] else map[])
  {
    hide MatchesRequestedHost, ForwardingKey;
    var io, l := Answers(inTime), ListenerWith(None);
    assert Interfere(s.pool, []) == s.pool;
    assert Prepare(s.pool, l, io) == (s.pool, None);
    var m := s.pool.managers[SessionPlain];
    var (n, outcome) := Tunnel.Start(m, l.Config(route), io.start);
    assert outcome == Success && n.forwardings == map[l.Key() := l.Config(route)];
    assert s.gateways[GW][name := ListenerWith(Some(route))] == map[name := ListenerWith(Some(route))];
    assert map[GW := s.gateways[GW]][GW := map[name := ListenerWith(Some(route))]]
        == map[GW := map[name := ListenerWith(Some(route))]];
  }

  lemma UpdateToEmptySpec(s: System)
    requires GW in s.gateways
    ensures AddOrUpdateGateway(s, GW, [], map[], []) ==
            WithPool(s.(gateways := s.gateways[GW := map[]],
              abandoned := s.abandoned + Dropped(s.gateways[GW], map[])), s.pool)
  {
  }

  /** Attach, then lose the connection: the listener refuses every other route. */
  lemma BlockedIsReachable(name: string, first: Route, second: Route)
    requires first != second
    ensures exists ops :: BlockedByOther(Coherence.Run(Boot(), ops), GW, name, second)
  {
    var ops := AttachedRun(name, first, true);
    var s := Coherence.Run(Boot(), ops);
    var events := [PoolEvent.Drop(SessionPlain)];
    assert events[..0] == [] && Interfere(s.pool, []) == s.pool;
    var longer := Extend(ops, PoolOp(events[0]));
    assert BlockedByOther(Coherence.Run(Boot(), longer), GW, name, second);
  }

  /** The same without losing the connection: the second route replaces the first, and the
      server refuses its start. */
  lemma FailedReplacementIsReachable(name: string, first: Route, second: Route)
    requires first != second
    ensures exists ops :: BlockedByOther(Coherence.Run(Boot(), ops), GW, name, second)
                          && IsConnected(Coherence.Run(Boot(), ops).pool, SessionPlain)
  {
    var ops := AttachedRun(name, first, true);
    var s, io := Coherence.Run(Boot(), ops), Refuses();
    RunsKeepCoherence(true, UP, ops);
    QuietExits(s, GW, name, second, io);
    FailedReplacementBlocks(s, GW, name, second, io);
    RefusedStaysConnected(s, name, first, second);
    var longer := Extend(ops, SetOp(GW, name, second, io));
    assert BlockedByOther(Coherence.Run(Boot(), longer), GW, name, second);
  }

  /** As in Answers, but the start is denied. */
  function Refuses(): SetIO {
    SetIO([], [], Accepted, [], [], map[], [], [], StartIO(true, Accepted, Denied, [], false, Accepted))
  }

  lemma RefusedStaysConnected(s: System, name: string, first: Route, second: Route)
    requires s.gateways == map[GW := map[name := ListenerWith(Some(first))]] && first != second
    requires IsConnected(s.pool, SessionPlain)
    ensures IsConnected(SetRoute(s, GW, name, second, Refuses()).0.pool, SessionPlain)
  {
    hide ForwardingKey;
    assert forall q: Pool {:trigger Interfere(q, [])} :: Interfere(q, []) == q;
  }

  /** Attach, with the report of the address coming too late. */
  lemma WithoutAddressesIsReachable(name: string, route: Route)
    ensures exists ops :: WithoutAddresses(Coherence.Run(Boot(), ops), GW, name, route)
  {
    var ops := AttachedRun(name, route, false);
    assert WithoutAddresses(Coherence.Run(Boot(), ops), GW, name, route);
  }

  /** Attach, drop the listener from the spec, and add one like it, under any name: the new
      listener has no route yet, and channels still go to the first route's backend. */
  lemma InheritedIsReachable(name: string, other: string, route: Route)
    ensures exists ops ::
              var s := Coherence.Run(Boot(), ops);
              && Inherits(s, GW, other)
              && BackendOf(s.pool, s.gateways[GW][other]) == Some((route.host, route.port))
  {
    var ops := AttachedRun(name, route, true);
    var s := Coherence.Run(Boot(), ops);
    UpdateToEmptySpec(s);
    var dropped := Extend(ops, UpdateOp(GW, [], map[], []));
    var t := Coherence.Run(Boot(), dropped);
    var l := ListenerWith(None);
    assert name in s.gateways[GW] && s.gateways[GW][name] == ListenerWith(Some(route));
    assert (SessionPlain, l.Key()) in Dropped(s.gateways[GW], map[]);
    HTTPListenerIs(other);
    var spec := [HTTPListener(other)];
    var readded := Extend(dropped, UpdateOp(GW, spec, map[], []));
    var u := Coherence.Run(Boot(), readded);
    assert spec[..0] == [];
    assert UpdateLoop(t.pool, t.gateways[GW], spec, map[], []) == (t.pool, map[other := l]);
    RunsKeepCoherence(true, UP, readded);
    RegisteredReachesBackend(u.pool, l);
    assert Inherits(u, GW, other);
  }

  /** The second route is set with nil although its listener has the first one's forwarding,
      and nothing was abandoned. */
  ghost predicate ServedByFirst(s: System, name: string, first: Route, second: Route) {
    && GW2 in s.gateways && name in s.gateways[GW2] && s.abandoned == {}
    && var (t, result) := SetRoute(s, GW2, name, second, Answers(true));
       && result == Adopted
       && GW2 in t.gateways && name in t.gateways[GW2] && t.gateways[GW2][name].route == Some(second)
       && BackendOf(t.pool, t.gateways[GW2][name]) == Some((first.host, first.port))
  }

  /** Two Gateways, each with a listener of its own: both stand for the same forwarding. */
  lemma SharedKeyIsReachable(name: string, first: Route, second: Route)
    requires first != second
    ensures exists ops :: ServedByFirst(Coherence.Run(Boot(), ops), name, first, second)
  {
    var ops := AttachedRun(name, first, true);
    HTTPListenerIs(name);
    var spec := [HTTPListener(name)];
    CreateOne(spec, ListenerWith(None));
    var longer := Extend(ops, UpdateOp(GW2, spec, map[], []));
    var s := Coherence.Run(Boot(), longer);
    assert s.gateways[GW2] == map[name := ListenerWith(None)];
    RunsKeepCoherence(true, UP, longer);
    SecondIsAdopted(s, name, first, second);
  }

  lemma SecondIsAdopted(s: System, name: string, first: Route, second: Route)
    requires Coherence.Inv(s) && GW2 in s.gateways && s.gateways[GW2] == map[name := ListenerWith(None)]
    requires s.abandoned == {}
    requires var l := ListenerWith(Some(first));
             PlainHolds(s.pool, map[l.Key() := l.Config(first)], map[l.Key() := ["http://example.com"]])
    ensures ServedByFirst(s, name, first, second)
  {
    hide Coherent, AbandonedLive, RejectedAreBare, MatchesRequestedHost, ForwardingKey, Dispatch;
    var l, io := ListenerWith(None), Answers(true);
    assert Interfere(s.pool, []) == s.pool;
    assert Prepare(s.pool, l, io) == (s.pool, None);
    StartFindsExisting(s.pool, SessionPlain, l.Config(second), io.start);
    RegisteredReachesBackend(s.pool, l);
    hide Sessions.StartForwarding, Prepare, Sessions.Inv;
    assert WithPool(s, s.pool).pool == s.pool;
  }

  // ---------------------------------------------------------- a stuck deletion

  /** One route, not yet created, and the controller as it starts. */
  function World(id: Finalizers.RouteId): Finalizers.World {
    Finalizers.World(map[id := Finalizers.RouteState([Finalizers.Absent], 0, Finalizers.Idle)], Boot())
  }

  lemma ExtendWorld(
    id: Finalizers.RouteId, parents: Finalizers.Parents, actions: seq<Finalizers.Action>, last: Finalizers.Action)
    returns (longer: seq<Finalizers.Action>)
    ensures Finalizers.Run(World(id), longer, parents)
            == Finalizers.Step(Finalizers.Run(World(id), actions, parents), last, parents)
  {
    longer := actions + [last];
    assert longer[..|actions|] == actions;
  }

  /** The route as created, and with our finalizer. */
  function Created(host: string, port: int, pc: Finalizers.PC): Finalizers.RouteState {
    Finalizers.RouteState(
      [Finalizers.Absent,
       Finalizers.Present(false, false, false, host, port),
       Finalizers.Present(true, false, false, host, port)], 1, pc)
  }

  /** The route is created, fetched, and given our finalizer. */
  lemma CreatedWorld(id: Finalizers.RouteId, parents: Finalizers.Parents, name: string, host: string, port: int)
    returns (actions: seq<Finalizers.Action>)
    ensures var w := Finalizers.Run(World(id), actions, parents);
            && w.routes == map[id := Created(host, port, Finalizers.Owned(2))]
            && w.system == AddOrUpdateGateway(Boot(), GW, [HTTPListener(name)], map[], [])
  {
    hide AddOrUpdateGateway, HTTPListener, Boot;
    var obj := Finalizers.Present(false, false, false, host, port);
    actions := ExtendWorld(id, parents, [], Finalizers.Other(UpdateOp(GW, [HTTPListener(name)], map[], [])));
    var updated := Finalizers.Run(World(id), actions, parents);
    assert updated.routes == World(id).routes;
    actions := ExtendWorld(id, parents, actions, Finalizers.Create(id, obj));
    actions := ExtendWorld(id, parents, actions, Finalizers.Fetch(id, 1));
    actions := ExtendWorld(id, parents, actions, Finalizers.AddFinalizer(id, Finalizers.Done));
    var w := Finalizers.Run(World(id), actions, parents);
    assert w.routes[id].versions == [Finalizers.Absent, obj, obj.(finalizer := true)];
    assert w.routes.Keys == {id};
  }

  /** The route is attached. */
  lemma AttachedWorld(id: Finalizers.RouteId, parents: Finalizers.Parents, name: string, host: string, port: int)
    returns (actions: seq<Finalizers.Action>)
    requires parents(id) == (GW, name)
    ensures var w, l := Finalizers.Run(World(id), actions, parents), ListenerWith(Some(Route(id.1, id.0, host, port)));
            && w.routes == map[id := Created(host, port, Finalizers.Idle)]
            && w.system.gateways == map[GW := map[name := l]]
            && PlainHolds(w.system.pool, map[l.Key() := l.Config(l.route.value)],
                          map[l.Key() := ["http://example.com"]])
  {
    hide SetRoute, AddOrUpdateGateway, HTTPListener, Boot;
    actions := CreatedWorld(id, parents, name, host, port);
    var ready := Finalizers.Run(World(id), actions, parents);
    GatewayAdded(name);
    actions := ExtendWorld(id, parents, actions, Finalizers.Attach(id, Answers(true)));
    SetOnFresh(ready.system, name, Route(id.1, id.0, host, port), true);
    var w := Finalizers.Run(World(id), actions, parents);
    assert w.routes.Keys == {id};
  }

  lemma GatewayAdded(name: string)
    ensures var s := AddOrUpdateGateway(Boot(), GW, [HTTPListener(name)], map[], []);
            && s.gateways == map[GW := map[name := ListenerWith(None)]] && s.abandoned == {}
            && PlainHolds(s.pool, map[], map[])
  {
    HTTPListenerIs(name);
    CreateOne([HTTPListener(name)], ListenerWith(None));
  }

  /** Attach, lose the connection, delete the route: its finalizer stays. */
  lemma StuckDeletionIsReachable(
    id: Finalizers.RouteId, parents: Finalizers.Parents, name: string, host: string, port: int)
    requires parents(id) == (GW, name)
    ensures Finalizers.Initial(World(id))
    ensures exists actions :: Deletion.Stuck(Finalizers.Run(World(id), actions, parents), id, parents)
  {
    hide Coherence.Inv, Finalizers.RouteStep, Sessions.Occur, Registered, PlainHolds, Created;
    var actions := AttachedWorld(id, parents, name, host, port);
    var attached := Finalizers.Run(World(id), actions, parents);
    actions := ExtendWorld(id, parents, actions, Finalizers.Other(PoolOp(PoolEvent.Drop(SessionPlain))));
    var dropped := Finalizers.Run(World(id), actions, parents);
    DropUnregisters(attached.system, name, Route(id.1, id.0, host, port));
    actions := ExtendWorld(id, parents, actions, Finalizers.Delete(id));
    actions := ExtendWorld(id, parents, actions, Finalizers.Fetch(id, 3));
    DeletedIsFetched(dropped, id, parents, host, port);
    SystemsKeepInv(World(id), actions, parents);
    assert Deletion.Stuck(Finalizers.Run(World(id), actions, parents), id, parents);
  }

  lemma DropUnregisters(s: System, name: string, route: Route)
    requires s.gateways == map[GW := map[name := ListenerWith(Some(route))]]
    requires var l := ListenerWith(Some(route));
             PlainHolds(s.pool, map[l.Key() := l.Config(route)], map[l.Key() := ["http://example.com"]])
    ensures var t := Coherence.Step(s, PoolOp(PoolEvent.Drop(SessionPlain)));
            t.gateways == s.gateways && Deletion.Unremovable(t, GW, name, route.name, route.namespace)
            && Stranded.KeyAlone(t, GW, name)
  {
    assert [PoolEvent.Drop(SessionPlain)][..0] == [] && Interfere(s.pool, []) == s.pool;
  }

  lemma DeletedIsFetched(
    w: Finalizers.World, id: Finalizers.RouteId, parents: Finalizers.Parents, host: string, port: int)
    requires w.routes == map[id := Created(host, port, Finalizers.Idle)]
    ensures var deleted := Finalizers.Step(w, Finalizers.Delete(id), parents);
            var v := Finalizers.Step(deleted, Finalizers.Fetch(id, 3), parents);
            v.system == w.system && id in v.routes && Deletion.StuckObject(v.routes[id])
  {
  }

  /** Ownership holds along with the finalizer protocol. */
  lemma {:induction false} SystemsKeepInv(
    start: Finalizers.World, actions: seq<Finalizers.Action>, parents: Finalizers.Parents)
    requires start.system == Boot()
    ensures Coherence.Inv(Finalizers.Run(start, actions, parents).system)
  {
    hide Coherence.Inv, Finalizers.Step, Boot;
    if actions == [] {
      assert Coherence.Inv(Boot()) by { BootInv(); }
    } else {
      var n := |actions| - 1;
      SystemsKeepInv(start, actions[..n], parents);
      SystemKeepsInv(Finalizers.Run(start, actions[..n], parents), actions[n], parents);
    }
  }

  lemma BootInv()
    ensures Coherence.Inv(Boot())
  {
    StartInv(true, UP);
  }

  lemma SystemKeepsInv(w: Finalizers.World, a: Finalizers.Action, parents: Finalizers.Parents)
    requires Coherence.Inv(w.system)
    ensures Coherence.Inv(Finalizers.Step(w, a, parents).system)
  {
    hide Coherence.Inv, SetRoute, RemoveRoute, Coherence.Step;
    if a.Other? {
      Coherence.StepKeepsInv(w.system, a.op);
    } else if a.Attach? && a.id in w.routes {
      var r := w.routes[a.id];
      var (gw, name) := parents(a.id);
      if r.pc.Owned? && r.pc.at < |r.versions| && r.versions[r.pc.at].Present? {
        SetRouteKeepsInv(w.system, gw, name, Finalizers.RouteOf(a.id, r.versions[r.pc.at]), a.setIO);
      }
    } else if a.Detach? {
      var (gw, name) := parents(a.id);
      RemoveRouteKeepsInv(w.system, gw, name, a.id.1, a.id.0, a.stopIO);
    }
  }
}
