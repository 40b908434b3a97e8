/** The finalizer protocol of the route reconcilers, over a Kubernetes API that other clients
    write to, a cache that lags behind it, and updates that fail when the object has moved
    on. The HTTPRoute, TCPRoute and TLSRoute reconcilers are this same machine. */
module Finalizers {
  import opened Sessions
  import opened Listeners
  import opened Registry
  import opened Coherence

  /** (namespace, name), unique across route kinds. */
  type RouteId = (string, string)

  /** One version of a route object. `finalizer` is ours; `held` says that others hold the
      object back with finalizers of their own. */
  datatype Object =
    | Absent
    | Present(finalizer: bool, deleting: bool, held: bool, backendHost: string, backendPort: int)

  /** Where the reconcile of a route stands; `at` is the version it read or wrote. */
  datatype PC =
    | Idle
    | Fetched(at: nat)
    | Owned(at: nat)         // our finalizer is on the object; SetRoute comes next
    | Detached(at: nat)      // RemoveRoute is done; the finalizer comes off next

  /** The API's history of one route, the newest version the cache has shown, and the
      reconcile. Reconciles of one route do not overlap. */
  datatype RouteState = RouteState(versions: seq<Object>, seen: nat, pc: PC)
  {
    function Last(): Object
      requires versions != []
    {
      versions[|versions| - 1]
    }
  }

  /** What becomes of an update. One that got lost may have been carried out all the same; an
      update of an object that has moved on is refused in any case. */
  datatype Reply = Done | Refused | Lost(carriedOut: bool)
  {
    predicate Written() {
      Done? || (Lost? && carriedOut)
    }
  }

  datatype World = World(routes: map<RouteId, RouteState>, system: Registry.System)

  datatype Action =
    // other clients of the API
    | Create(id: RouteId, obj: Object)
    | Edit(id: RouteId, backendHost: string, backendPort: int)
    | Delete(id: RouteId)
    | Release(id: RouteId)                                // the other finalizers come off
    // the reconciler
    | Fetch(id: RouteId, at: nat)
    | AddFinalizer(id: RouteId, reply: Reply)
    | Attach(id: RouteId, setIO: SetIO)
    | Detach(id: RouteId, stopIO: StopIO)
    | RemoveFinalizer(id: RouteId, reply: Reply)
    | GiveUp(id: RouteId)             // not ours to manage, details missing, or any other error
    // gateways, connections and configuration
    | Other(op: Op)

  function Append(r: RouteState, obj: Object): RouteState {
    r.(versions := r.versions + [obj])
  }

  function With(w: World, id: RouteId, r: RouteState): World {
    w.(routes := w.routes[id := r])
  }

  /** The (gateway, listener) a route's first parentRef names; it never changes. */
  type Parents = RouteId -> (string, string)

  function RouteOf(id: RouteId, obj: Object): Route
    requires obj.Present?
  {
    Route(id.1, id.0, obj.backendHost, obj.backendPort)
  }

  /** The reconcile has a version of the object at hand. */
  predicate Reading(r: RouteState) {
    r.pc.Fetched? && r.pc.at < |r.versions| && r.versions[r.pc.at].Present?
  }

  /** One step; an action whose guard fails changes nothing. */
  ghost function Step(w: World, a: Action, parents: Parents): World {
    if a.Other? then
      if a.op.SetOp? || a.op.RemoveOp? then w else w.(system := Coherence.Step(w.system, a.op))
    else if a.id !in w.routes then w
    else RouteStep(w, a, w.routes[a.id], parents)
  }

  ghost function RouteStep(w: World, a: Action, r: RouteState, parents: Parents): World
    requires !a.Other?
  {
    if r.versions == [] then w
    else
      var (gw, listener) := parents(a.id);
      match a
      case Create(id, obj) =>
        if r.Last().Absent? && obj.Present? && !obj.deleting then With(w, id, Append(r, obj)) else w
      case Edit(id, host, port) =>
        if r.Last().Present? then With(w, id, Append(r, r.Last().(backendHost := host, backendPort := port))) else w
      case Delete(id) =>
        if !r.Last().Present? || r.Last().deleting then w
        else if r.Last().finalizer || r.Last().held then With(w, id, Append(r, r.Last().(deleting := true)))
        else With(w, id, Append(r, Absent))
      case Release(id) =>
        if !r.Last().Present? || !r.Last().held then w
        else if r.Last().deleting && !r.Last().finalizer then With(w, id, Append(r, Absent))
        else With(w, id, Append(r, r.Last().(held := false)))
      case Fetch(id, at) =>
        if r.pc.Idle? && r.seen <= at < |r.versions| then
          With(w, id, r.(seen := at, pc := if r.versions[at].Absent? then Idle else Fetched(at)))
        else w
      case AddFinalizer(id, reply) =>
        if !Reading(r) || r.versions[r.pc.at].deleting then w
        else
          var obj := r.versions[r.pc.at];
          if obj.finalizer then With(w, id, r.(pc := Owned(r.pc.at)))
          else if reply.Written() && r.pc.at == |r.versions| - 1 then
            With(w, id, Append(r, obj.(finalizer := true)).(pc := if reply.Done? then Owned(|r.versions|) else Idle))
          else With(w, id, r.(pc := Idle))
      case Attach(id, io) =>
        if !r.pc.Owned? || r.pc.at >= |r.versions| || !r.versions[r.pc.at].Present? then w
        else
          With(w, id, r.(pc := Idle)).(
            system := SetRoute(w.system, gw, listener, RouteOf(id, r.versions[r.pc.at]), io).0)
      case Detach(id, io) =>
        if !Reading(r) || !r.versions[r.pc.at].deleting then w
        else if !r.versions[r.pc.at].finalizer then With(w, id, r.(pc := Idle))
        else
          var (system, result) := RemoveRoute(w.system, gw, listener, id.1, id.0, io);
          With(w, id, r.(pc := if result.NotStopped? then Idle else Detached(r.pc.at))).(system := system)
      case RemoveFinalizer(id, reply) =>
        if !r.pc.Detached? || r.pc.at >= |r.versions| || !r.versions[r.pc.at].Present? then w
        else if !reply.Written() || r.pc.at != |r.versions| - 1 then With(w, id, r.(pc := Idle))
        else
          var obj := r.versions[r.pc.at];
          With(w, id, Append(r, if obj.held then obj.(finalizer := false) else Absent).(pc := Idle))
      case GiveUp(id) => With(w, id, r.(pc := Idle))
  }

  ghost function Run(start: World, actions: seq<Action>, parents: Parents): World {
    if actions == [] then start
    else Step(Run(start, actions[..|actions| - 1], parents), actions[|actions| - 1], parents)
  }

  // --------------------------------------------------------------- invariant

  ghost predicate AttachedAt(s: Registry.System, gw: string, listener: string, id: RouteId) {
    && gw in s.gateways && listener in s.gateways[gw] && s.gateways[gw][listener].route.Some?
    && (s.gateways[gw][listener].route.value.namespace, s.gateways[gw][listener].route.value.name) == id
  }

  ghost predicate Ours(o: Object) {
    o.Present? && o.finalizer
  }

  /** In the part of the history the cache may still show, our finalizer, once seen on an
      object that is not being deleted, has stayed. */
  ghost predicate FinalizerStays(r: RouteState) {
    forall j, k | r.seen <= j < k < |r.versions| && Ours(r.versions[j]) && !r.versions[j].deleting ::
      Ours(r.versions[k])
  }

  ghost predicate ReconcileOK(r: RouteState) {
    && r.versions != [] && r.seen < |r.versions| && FinalizerStays(r)
    && match r.pc
       case Idle => true
       case Fetched(at) => at == r.seen && r.versions[at].Present?
       case Owned(at) => r.seen <= at < |r.versions| && Ours(r.versions[at]) && !r.versions[at].deleting
       case Detached(at) => at == r.seen && Ours(r.versions[at]) && r.versions[at].deleting
  }

  /** A route attached to a listener is attached where its parentRef says, exists in the API
      with our finalizer, and is not about to lose it. */
  ghost predicate Protected(w: World, parents: Parents) {
    forall gw, listener, id | AttachedAt(w.system, gw, listener, id) ::
      && parents(id) == (gw, listener)
      && id in w.routes && w.routes[id].versions != [] && Ours(w.routes[id].Last())
      && !w.routes[id].pc.Detached?
  }

  ghost predicate Inv(w: World, parents: Parents) {
    (forall id | id in w.routes :: ReconcileOK(w.routes[id])) && Protected(w, parents)
  }

  // --------------------------------------- what the registry operations can do

  /** SetRoute sets or clears the route of the one listener it is called for, or leaves it. */
  lemma SetRouteIsLocal(s: Registry.System, gw: string, name: string, route: Route, io: SetIO)
    ensures var t := SetRoute(s, gw, name, route, io).0;
            forall g, n, id | AttachedAt(t, g, n, id) ::
              AttachedAt(s, g, n, id) || ((g, n) == (gw, name) && id == (route.namespace, route.name))
  {
    hide Prepare, Interfere, ForwardingValid, Sessions.StartForwarding;
  }

  /** RemoveRoute attaches nothing, and unless it reports a failed stop, the route is not on
      that listener afterwards. */
  lemma RemoveRouteDetaches(s: Registry.System, gw: string, name: string, id: RouteId, io: StopIO)
    ensures var (t, result) := RemoveRoute(s, gw, name, id.1, id.0, io);
            && (forall g, n, other | AttachedAt(t, g, n, other) :: AttachedAt(s, g, n, other))
            && (!result.NotStopped? ==> !AttachedAt(t, gw, name, id))
  {
    hide StopListener;
  }

  /** Gateway updates and deletions, and everything that happens to connections, attach
      nothing. */
  lemma OtherOpsAttachNothing(s: Registry.System, op: Op)
    requires !op.SetOp? && !op.RemoveOp?
    ensures forall g, n, id | AttachedAt(Coherence.Step(s, op), g, n, id) :: AttachedAt(s, g, n, id)
  {
    hide AddOrUpdateGateway, StopEach, Interfere, Registered;
    match op
    case UpdateOp(gw, spec, annotations, io) => UpdateAttachesNothing(s, gw, spec, annotations, io);
    case _ =>
  }

  lemma UpdateAttachesNothing(
    s: Registry.System, gw: string, spec: seq<K8sListener>, annotations: map<string, string>, io: seq<StopIO>)
    ensures forall g, n, id | AttachedAt(AddOrUpdateGateway(s, gw, spec, annotations, io), g, n, id) ::
            AttachedAt(s, g, n, id)
  {
    hide UpdateLoop, CreateAll, Registered;
    var t := AddOrUpdateGateway(s, gw, spec, annotations, io);
    if gw in s.gateways {
      UpdateLoopRoutes(s.pool, s.gateways[gw], spec, annotations, io);
      assert t.gateways == s.gateways[gw := UpdateLoop(s.pool, s.gateways[gw], spec, annotations, io).1];
    } else {
      CreateAllRoutes(spec, annotations);
      assert t.gateways == s.gateways[gw := CreateAll(spec, annotations)];
    }
    forall g, n, id | AttachedAt(t, g, n, id) ensures AttachedAt(s, g, n, id) {
      assert g == gw ==> t.gateways[gw][n].route.Some?;
    }
  }

  // -------------------------------------------------------------------- steps

  /** A new version by whoever: safe for the history when it keeps our finalizer, or when
      there was none to keep, or the object was being deleted in all the cache may show. */
  lemma AppendOK(r: RouteState, obj: Object)
    requires r.versions != [] && r.seen < |r.versions| && FinalizerStays(r)
    requires Ours(obj) || !Ours(r.Last()) || (r.seen == |r.versions| - 1 && r.Last().deleting)
    ensures FinalizerStays(Append(r, obj))
  {
  }

  lemma AppendKeepsInv(w: World, id: RouteId, obj: Object, parents: Parents)
    requires Inv(w, parents) && id in w.routes
    requires Ours(w.routes[id].Last()) ==> Ours(obj)
    ensures Inv(With(w, id, Append(w.routes[id], obj)), parents)
  {
    hide FinalizerStays, AttachedAt;
    AppendOK(w.routes[id], obj);
  }

  lemma ClientStepKeepsInv(w: World, a: Action, parents: Parents)
    requires Inv(w, parents) && (a.Create? || a.Edit? || a.Delete? || a.Release?)
    ensures Inv(Step(w, a, parents), parents)
  {
    var v := Step(w, a, parents);
    if a.id in w.routes && v != w {
      AppendKeepsInv(w, a.id, v.routes[a.id].Last(), parents);
    }
    hide Inv;
  }

  lemma FetchKeepsInv(w: World, a: Action, parents: Parents)
    requires Inv(w, parents) && (a.Fetch? || a.GiveUp?)
    ensures Inv(Step(w, a, parents), parents)
  {
    hide AttachedAt;
    if a.id in w.routes {
      assert ReconcileOK(w.routes[a.id]);
    }
  }

  lemma AddFinalizerKeepsInv(w: World, a: Action, parents: Parents)
    requires Inv(w, parents) && a.AddFinalizer?
    ensures Inv(Step(w, a, parents), parents)
  {
    hide AttachedAt, FinalizerStays;
    if a.id in w.routes {
      var r := w.routes[a.id];
      assert ReconcileOK(r);
      if r.pc.Fetched? {
        AppendOK(r, r.versions[r.pc.at].(finalizer := true));
        var v := Step(w, a, parents);
        SameHistory(Append(r, r.versions[r.pc.at].(finalizer := true)), v.routes[a.id]);
        SameHistory(r, v.routes[a.id]);
        assert ReconcileOK(v.routes[a.id]);
      }
    }
  }

  lemma RemoveFinalizerKeepsInv(w: World, a: Action, parents: Parents)
    requires Inv(w, parents) && a.RemoveFinalizer?
    ensures Inv(Step(w, a, parents), parents)
  {
    hide AttachedAt, FinalizerStays;
    if a.id in w.routes {
      var r := w.routes[a.id];
      assert ReconcileOK(r);
      if r.pc.Detached? {
        var obj := r.versions[r.pc.at];
        var next := if obj.held then obj.(finalizer := false) else Absent;
        if r.pc.at == |r.versions| - 1 {
          AppendOK(r, next);
        }
        var v := Step(w, a, parents);
        SameHistory(Append(r, next), v.routes[a.id]);
        SameHistory(r, v.routes[a.id]);
        assert ReconcileOK(v.routes[a.id]);
      }
    }
  }

  lemma SameHistory(r: RouteState, t: RouteState)
    ensures r.versions == t.versions && r.seen == t.seen ==> FinalizerStays(r) == FinalizerStays(t)
  {
  }

  lemma AttachKeepsInv(w: World, a: Action, parents: Parents)
    requires Inv(w, parents) && a.Attach?
    ensures Inv(Step(w, a, parents), parents)
  {
    hide SetRoute, AttachedAt;
    var v := Step(w, a, parents);
    if a.id in w.routes && v != w {
      var r := w.routes[a.id];
      var (gw, listener) := parents(a.id);
      assert ReconcileOK(r);
      SetRouteIsLocal(w.system, gw, listener, RouteOf(a.id, r.versions[r.pc.at]), a.setIO);
      assert Ours(r.Last());
    }
  }

  lemma DetachKeepsInv(w: World, a: Action, parents: Parents)
    requires Inv(w, parents) && a.Detach?
    ensures Inv(Step(w, a, parents), parents)
  {
    hide RemoveRoute, AttachedAt;
    var v := Step(w, a, parents);
    if a.id in w.routes && v != w {
      var (gw, listener) := parents(a.id);
      assert ReconcileOK(w.routes[a.id]);
      RemoveRouteDetaches(w.system, gw, listener, a.id, a.stopIO);
    }
  }

  lemma StepKeepsInv(w: World, a: Action, parents: Parents)
    requires Inv(w, parents)
    ensures Inv(Step(w, a, parents), parents)
  {
    if a.Other? {
      hide Coherence.Step, AttachedAt;
      if !a.op.SetOp? && !a.op.RemoveOp? {
        OtherOpsAttachNothing(w.system, a.op);
      }
    } else {
      hide Step, Inv;
      match a
      case Attach(_, _) => AttachKeepsInv(w, a, parents);
      case Detach(_, _) => DetachKeepsInv(w, a, parents);
      case Fetch(_, _) => FetchKeepsInv(w, a, parents);
      case GiveUp(_) => FetchKeepsInv(w, a, parents);
      case AddFinalizer(_, _) => AddFinalizerKeepsInv(w, a, parents);
      case RemoveFinalizer(_, _) => RemoveFinalizerKeepsInv(w, a, parents);
      case _ => ClientStepKeepsInv(w, a, parents);
    }
  }

  /** Nothing attached, no reconcile under way, and a history for every route. */
  ghost predicate Initial(w: World) {
    && (forall id | id in w.routes :: w.routes[id] == RouteState([Absent], 0, Idle))
    && (forall gw, listener, id :: !AttachedAt(w.system, gw, listener, id))
  }

  lemma {:induction false} RunKeepsInv(start: World, actions: seq<Action>, parents: Parents)
    requires Initial(start)
    ensures Inv(Run(start, actions, parents), parents)
  {
    hide Step;
    if actions != [] {
      RunKeepsInv(start, actions[..|actions| - 1], parents);
      StepKeepsInv(Run(start, actions[..|actions| - 1], parents), actions[|actions| - 1], parents);
    }
  }

  /** In every run, however stale the cache and whatever fails or gets lost, a route attached to any
      listener exists in the API and carries our finalizer. */
  lemma AttachedRoutesExist(
    start: World, actions: seq<Action>, parents: Parents, gw: string, listener: string, id: RouteId)
    requires Initial(start)
    requires AttachedAt(Run(start, actions, parents).system, gw, listener, id)
    ensures var w := Run(start, actions, parents);
            && id in w.routes && w.routes[id].versions != []
            && w.routes[id].Last().Present? && w.routes[id].Last().finalizer
  {
    RunKeepsInv(start, actions, parents);
  }
}
