/** The gateway registry on top of the session pool. Every operation runs with the registry
    locked; what other goroutines, the network and the server do between its pool calls is
    a parameter. Class GatewayReconciler implements these functions. */
module Registry {
  import opened Text
  import opened Tunnel
  import opened Sessions
  import opened Listeners

  type ListenerMap = map<string, Listener>

  /** `abandoned` is history: the registered forwardings whose listener was dropped from its
      Gateway's spec without being stopped. */
  datatype System = System(
    gateways: map<string, ListenerMap>,
    pool: Pool,
    abandoned: set<(SessionKind, string)>)

  function WithPool(s: System, p: Pool): System {
    s.(pool := p, abandoned := set a | a in s.abandoned && Registered(p, a.0, a.1))
  }

  function Put(s: System, gw: string, name: string, l: Listener): System {
    var listeners := if gw in s.gateways then s.gateways[gw] else map[];
    s.(gateways := s.gateways[gw := listeners[name := l]])
  }

  // ----------------------------------------------------------------- SetRoute

  datatype SetResult =
    | AlreadyAttached
    | Started
    | Adopted
    | GatewayNotFound
    | ListenerNotFound
    | NotProgrammed(reason: string)
    | StopFailed(outcome: Outcome)
    | GatewayNotReady
    | StartFailed(outcome: Outcome)
  {
    /** Does the call return nil? */
    predicate Nil() {
      AlreadyAttached? || Started? || Adopted?
    }
  }

  datatype SetIO = SetIO(
    beforeCheck: seq<PoolEvent>,
    beforeStop: seq<PoolEvent>,
    stopReply: Reply,
    beforeConnected: seq<PoolEvent>,
    beforeConnect: seq<PoolEvent>,
    dials: map<SessionKind, bool>,
    afterConnect: seq<PoolEvent>,
    beforeStart: seq<PoolEvent>,
    start: StartIO)
  {
    predicate Quiet() {
      beforeCheck == beforeStop == beforeConnected == beforeConnect == afterConnect == beforeStart == []
    }
  }

  function StopExisting(p: Pool, l: Listener, io: SetIO): (Pool, Outcome) {
    if l.route.None? then (p, Success)
    else StopForwarding(Interfere(p, io.beforeStop), l.kind, l.Key(), io.stopReply)
  }

  function EnsureConnected(p: Pool, kind: SessionKind, io: SetIO): (Pool, bool) {
    var p0 := Interfere(p, io.beforeConnected);
    if IsConnected(p0, kind) then (p0, true)
    else
      var p1 := Interfere(Sessions.Connect(Interfere(p0, io.beforeConnect), io.dials), io.afterConnect);
      (p1, IsConnected(p1, kind))
  }

  /** The pool just before StartForwarding, the listener as it is by then, or the error that
      ended the call earlier. */
  function Prepare(p: Pool, l: Listener, io: SetIO): (Pool, Option<SetResult>) {
    var (p1, stopped) := StopExisting(p, l, io);
    if stopped != Success then (p1, Some(StopFailed(stopped)))
    else
      var (p2, ready) := EnsureConnected(p1, l.kind, io);
      if !ready then (p2, Some(GatewayNotReady)) else (Interfere(p2, io.beforeStart), None)
  }

  function StartRoute(s: System, gw: string, name: string, l: Listener, route: Route, io: StartIO)
    : (System, SetResult)
  {
    var (p, outcome) := Sessions.StartForwarding(s.pool, l.kind, l.Config(route), io);
    var after := WithPool(s, p);
    match outcome
    case Success => (Put(after, gw, name, l.(route := Some(route))), Started)
    case ForwardingExists => (Put(after, gw, name, l.(route := Some(route))), Adopted)
    case ClientNotReady => (Put(after, gw, name, l), GatewayNotReady)
    case _ => (Put(after, gw, name, l), StartFailed(outcome))
  }

  function SetupRouteForwarding(s: System, gw: string, name: string, l: Listener, route: Route, io: SetIO)
    : (System, SetResult)
  {
    var (p, failure) := Prepare(s.pool, l, io);
    if failure.Some? then (Put(WithPool(s, p), gw, name, l), failure.value)
    else StartRoute(WithPool(s, p), gw, name, l, route, io.start)
  }

  function SetRoute(s: System, gw: string, name: string, route: Route, io: SetIO): (System, SetResult) {
    if gw !in s.gateways then (s, GatewayNotFound)
    else if name !in s.gateways[gw] then (s, ListenerNotFound)
    else
      var l := s.gateways[gw][name];
      if l.rejected then (s, NotProgrammed(l.reason))
      else if l.route == Some(route) then
        var checked := WithPool(s, Interfere(s.pool, io.beforeCheck));
        if ForwardingValid(checked.pool, l) then (checked, AlreadyAttached)
        else SetupRouteForwarding(checked, gw, name, l.(route := None), route, io)
      else SetupRouteForwarding(s, gw, name, l, route, io)
  }

  // -------------------------------------------------------------- RemoveRoute

  datatype StopIO = StopIO(before: seq<PoolEvent>, reply: Reply)

  const QUIET_STOP := StopIO([], Accepted)

  function IOAt(io: seq<StopIO>, i: nat): StopIO {
    if i < |io| then io[i] else QUIET_STOP
  }

  datatype RemoveResult = Removed | NoGateway | RouteNotFound | NotStopped(outcome: Outcome)

  function StopListener(p: Pool, l: Listener, io: StopIO): (Pool, Outcome) {
    StopForwarding(Interfere(p, io.before), l.kind, l.Key(), io.reply)
  }

  function RemoveRoute(s: System, gw: string, name: string, routeName: string, routeNamespace: string, io: StopIO)
    : (System, RemoveResult)
  {
    if gw !in s.gateways then (s, NoGateway)
    else if name !in s.gateways[gw] then (s, RouteNotFound)
    else
      var l := s.gateways[gw][name];
      if l.route.None? || l.route.value.name != routeName || l.route.value.namespace != routeNamespace then
        (s, RouteNotFound)
      else
        var (p, outcome) := StopListener(s.pool, l, io);
        if outcome != Success then (WithPool(s, p), NotStopped(outcome))
        else (Put(WithPool(s, p), gw, name, l.(route := None)), Removed)
  }

  // -------------------------------------------------- gateway add and update

  function CreateAll(spec: seq<K8sListener>, annotations: map<string, string>): ListenerMap {
    if spec == [] then map[]
    else
      var k8s := spec[|spec| - 1];
      CreateAll(spec[..|spec| - 1], annotations)[k8s.name := CreateListener(k8s, annotations)]
  }

  /** One turn of the update loop: an unchanged listener is kept, a changed one is stopped
      and replaced. */
  function UpdateOne(p: Pool, updated: ListenerMap, existing: ListenerMap, name: string, wanted: Listener, io: StopIO)
    : (Pool, ListenerMap)
  {
    if name !in existing then (p, updated[name := wanted])
    else if existing[name].SameSpec(wanted) then (p, updated[name := existing[name]])
    else if existing[name].route.None? then (p, updated[name := wanted])
    else (StopListener(p, existing[name], io).0, updated[name := wanted])
  }

  function UpdateLoop(
    p: Pool, existing: ListenerMap, spec: seq<K8sListener>, annotations: map<string, string>, io: seq<StopIO>)
    : (Pool, ListenerMap)
  {
    if spec == [] then (p, map[])
    else
      var n := |spec| - 1;
      var (p1, updated) := UpdateLoop(p, existing, spec[..n], annotations, io);
      UpdateOne(p1, updated, existing, spec[n].name, CreateListener(spec[n], annotations), IOAt(io, n))
  }

  /** Listeners the new spec no longer names keep their forwardings, ownerless. */
  function Dropped(existing: ListenerMap, updated: ListenerMap): set<(SessionKind, string)> {
    set name | name in existing && name !in updated && existing[name].route.Some? ::
      (existing[name].kind, existing[name].Key())
  }

  function AddOrUpdateGateway(
    s: System, gw: string, spec: seq<K8sListener>, annotations: map<string, string>, io: seq<StopIO>): System
  {
    if gw !in s.gateways then s.(gateways := s.gateways[gw := CreateAll(spec, annotations)])
    else
      var (p, updated) := UpdateLoop(s.pool, s.gateways[gw], spec, annotations, io);
      var dropped := Dropped(s.gateways[gw], updated);
      WithPool(s.(gateways := s.gateways[gw := updated], abandoned := s.abandoned + dropped), p)
  }

  // ----------------------------------------------------------- gateway delete

  function StopEach(p: Pool, listeners: ListenerMap, order: seq<string>, io: seq<StopIO>): Pool {
    if order == [] then p
    else
      var n := |order| - 1;
      var p1 := StopEach(p, listeners, order[..n], io);
      if order[n] in listeners && listeners[order[n]].route.Some? then
        StopListener(p1, listeners[order[n]], IOAt(io, n)).0
      else p1
  }

  /** The runtime's iteration order over the listeners: each name once. */
  ghost predicate Enumerates(order: seq<string>, listeners: ListenerMap) {
    && (forall name :: name in order <==> name in listeners)
    && (forall i, j | 0 <= i < j < |order| :: order[i] != order[j])
  }

  function DeleteGateway(s: System, gw: string, order: seq<string>, io: seq<StopIO>): System {
    if gw !in s.gateways then s
    else
      WithPool(s, StopEach(s.pool, s.gateways[gw], order, io)).(gateways := s.gateways - {gw})
  }
}
