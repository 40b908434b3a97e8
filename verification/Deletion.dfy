/** Deleting a route: when RemoveRoute succeeds, and when a deleted route keeps its finalizer
    for as long as its Gateway stays as it is. */
module Deletion {
  import opened Text
  import opened Tunnel
  import opened Sessions
  import opened Listeners
  import opened Registry
  import opened Coherence
  import opened Attachment
  import opened GatewayUpdate
  import opened Stranded
  import opened Finalizers

  // ------------------------------------------------------------- RemoveRoute

  ghost predicate Shows(s: Registry.System, gw: string, name: string, routeName: string, routeNamespace: string) {
    && gw in s.gateways && name in s.gateways[gw]
    && var r := s.gateways[gw][name].route;
       r.Some? && r.value.name == routeName && r.value.namespace == routeNamespace
  }

  /** Every exit of RemoveRoute. The route comes off exactly if the listener shows it, its
      forwarding is still registered when it is stopped, and the server releases it. */
  lemma RemovalIsExact(
    s: Registry.System, gw: string, name: string, routeName: string, routeNamespace: string, io: StopIO)
    requires Sessions.Inv(s.pool)
    ensures var (t, result) := RemoveRoute(s, gw, name, routeName, routeNamespace, io);
            && (result.NoGateway? <==> gw !in s.gateways)
            && (result.RouteNotFound? <==> gw in s.gateways && !Shows(s, gw, name, routeName, routeNamespace))
            && (result.NoGateway? || result.RouteNotFound? ==> t == s)
            && (result.Removed? <==>
                  && Shows(s, gw, name, routeName, routeNamespace) && io.reply.Accepted?
                  && var l := s.gateways[gw][name]; Registered(Interfere(s.pool, io.before), l.kind, l.Key()))
            && (io.before == [] ==>
                  (result.Removed? <==>
                     && Shows(s, gw, name, routeName, routeNamespace) && io.reply.Accepted?
                     && var l := s.gateways[gw][name]; Registered(s.pool, l.kind, l.Key())))
            && (!result.Removed? ==> t.gateways == s.gateways)
            && (result.Removed? ==>
                  var l := s.gateways[gw][name];
                  && t.gateways == s.gateways[gw := s.gateways[gw][name := l.(route := None)]]
                  && !Registered(t.pool, l.kind, l.Key()))
  {
    hide Sessions.Inv, Interfere, StopForwarding, Shrinks;
    if Shows(s, gw, name, routeName, routeNamespace) {
      var l := s.gateways[gw][name];
      var p := Interfere(s.pool, io.before);
      InterfereShrinks(s.pool, io.before);
      StopListenerShrinks(s.pool, l, io);
      StopSucceedsIff(p, l.kind, l.Key(), io.reply);
    }
    assert Interfere(s.pool, []) == s.pool by { InterfereNothing(s.pool); }
  }

  lemma InterfereNothing(p: Pool)
    ensures Interfere(p, []) == p
  {
  }

  lemma StopSucceedsIff(p: Pool, kind: SessionKind, key: string, reply: Tunnel.Reply)
    requires Sessions.Inv(p)
    ensures StopForwarding(p, kind, key, reply).1 == Success <==> Registered(p, kind, key) && reply.Accepted?
  {
    if kind in p.managers {
      ManagerInv(p, kind);
    }
  }

  /** The listener shows the route, and its forwarding is gone. */
  ghost predicate Unremovable(s: Registry.System, gw: string, name: string, routeName: string, routeNamespace: string) {
    && Shows(s, gw, name, routeName, routeNamespace)
    && var l := s.gateways[gw][name]; !Registered(s.pool, l.kind, l.Key())
  }

  /** Then RemoveRoute fails, in every environment, and the next one fails as well. */
  lemma UnremovableStays(
    s: Registry.System, gw: string, name: string, routeName: string, routeNamespace: string, io: StopIO)
    requires Sessions.Inv(s.pool) && Unremovable(s, gw, name, routeName, routeNamespace)
    ensures var (t, result) := RemoveRoute(s, gw, name, routeName, routeNamespace, io);
            && result.NotStopped? && t.gateways == s.gateways
            && Sessions.Inv(t.pool) && Unremovable(t, gw, name, routeName, routeNamespace)
  {
    hide Sessions.Inv, Interfere, Registered, Shrinks;
    var l := s.gateways[gw][name];
    RemovalIsExact(s, gw, name, routeName, routeNamespace, io);
    InterfereShrinks(s.pool, io.before);
    ShrinkUnregisters(s.pool, Interfere(s.pool, io.before), l.kind, l.Key());
    StopListenerShrinks(s.pool, l, io);
  }

  // -------------------------------------------------------- the stuck deletion

  /** The registry's side of a stuck deletion. */
  ghost predicate Held(s: Registry.System, gw: string, name: string, id: RouteId) {
    Strands(s, gw, name) && Shows(s, gw, name, id.1, id.0)
  }

  /** The route is being deleted in all the cache may show, carries our finalizer, and its
      listener shows it without a forwarding. */
  ghost predicate Stuck(w: World, id: RouteId, parents: Parents) {
    && id in w.routes
    && StuckObject(w.routes[id])
    && Held(w.system, parents(id).0, parents(id).1, id)
  }

  ghost predicate StuckObject(r: RouteState) {
    && r.seen < |r.versions|
    && (forall k | r.seen <= k < |r.versions| :: Ours(r.versions[k]) && r.versions[k].deleting)
    && (r.pc.Idle? || (r.pc.Fetched? && r.seen <= r.pc.at < |r.versions|))
  }

  /** A Gateway may be updated, also the route's own, as long as that leaves the listener and
      its key alone; the periodic reconcile of unchanged Gateways does. Another Gateway may be
      deleted. Everything else is free. */
  ghost predicate LeavesListener(w: World, a: Action, id: RouteId, parents: Parents) {
    a.Other? && (a.op.UpdateOp? || a.op.DeleteOp?) ==> Spares(w.system, a.op, parents(id).0, parents(id).1)
  }

  lemma OwnStepKeepsStuck(w: World, a: Action, parents: Parents)
    requires !a.Other? && Stuck(w, a.id, parents)
    ensures Stuck(Finalizers.Step(w, a, parents), a.id, parents)
  {
    hide Coherence.Inv, KeyAlone, Registered, SetRoute, RemoveRoute;
    var (gw, name) := parents(a.id);
    if a.Detach? {
      RemoveKeepsStranded(w.system, gw, name, gw, name, a.id.1, a.id.0, a.stopIO);
      HeldFails(w.system, gw, name, a.id, a.stopIO);
    }
  }

  lemma HeldFails(s: Registry.System, gw: string, name: string, id: RouteId, io: StopIO)
    requires Held(s, gw, name, id)
    ensures RemoveRoute(s, gw, name, id.1, id.0, io).1.NotStopped?
  {
    hide Sessions.Inv, Coherent, RemoveRoute;
    UnremovableStays(s, gw, name, id.1, id.0, io);
  }

  lemma OtherStepKeepsStuck(w: World, a: Action, id: RouteId, parents: Parents)
    requires Stuck(w, id, parents) && LeavesListener(w, a, id, parents) && (a.Other? || a.id != id)
    ensures Stuck(Finalizers.Step(w, a, parents), id, parents)
  {
    hide Coherence.Inv, KeyAlone, Registered, SetRoute, RemoveRoute, Coherence.Step, StuckObject;
    var (gw, name) := parents(id);
    if a.Other? {
      if !a.op.SetOp? && !a.op.RemoveOp? {
        OpKeepsStranded(w.system, a.op, gw, name);
      }
    } else if a.id in w.routes {
      var (g, n) := parents(a.id);
      if a.Detach? {
        RemoveKeepsStranded(w.system, gw, name, g, n, a.id.1, a.id.0, a.stopIO);
      } else if a.Attach? {
        var r := w.routes[a.id];
        if r.pc.Owned? && r.pc.at < |r.versions| && r.versions[r.pc.at].Present? {
          SetKeepsStranded(w.system, gw, name, g, n, RouteOf(a.id, r.versions[r.pc.at]), a.setIO);
        }
      }
    }
  }

  /** A stuck deletion stays stuck through every run that leaves the listener as it is:
      retries, reconnections, other routes, clients, and Gateway reconciles leave the object
      in the API, marked as deleted and with our finalizer on it. */
  lemma {:induction false} StuckStays(w: World, actions: seq<Action>, id: RouteId, parents: Parents)
    requires Stuck(w, id, parents)
    requires forall i | 0 <= i < |actions| ::
               LeavesListener(Finalizers.Run(w, actions[..i], parents), actions[i], id, parents)
    ensures var v := Finalizers.Run(w, actions, parents);
            && Stuck(v, id, parents)
            && v.routes[id].Last().Present? && v.routes[id].Last().deleting && v.routes[id].Last().finalizer
  {
    hide Finalizers.Step, Held, LeavesListener;
    if actions != [] {
      var n := |actions| - 1;
      forall i | 0 <= i < n
        ensures LeavesListener(Finalizers.Run(w, actions[..n][..i], parents), actions[..n][i], id, parents)
      {
        assert actions[..n][..i] == actions[..i] && actions[..n][i] == actions[i];
      }
      StuckStays(w, actions[..n], id, parents);
      var v := Finalizers.Run(w, actions[..n], parents);
      if actions[n].Other? || actions[n].id != id {
        OtherStepKeepsStuck(v, actions[n], id, parents);
      } else {
        OwnStepKeepsStuck(v, actions[n], parents);
      }
    }
  }

  /** The rest of a reconcile that has fetched a route being deleted. */
  function Attempt(id: RouteId, stopIO: StopIO, reply: Finalizers.Reply): seq<Action> {
    [Action.Detach(id, stopIO), RemoveFinalizer(id, reply)]
  }

  /** The end of a deletion, for every world in which the newest version of the route is being
      deleted and carries our finalizer: after the attempt the finalizer is off if and only if
      the update is written and the listener does not show the route, or its forwarding is
      registered when it is stopped and the server releases it. Then the listener no longer
      shows the route, and the object stays only if others hold it. */
  lemma DeletionEndsIff(w: World, id: RouteId, parents: Parents, stopIO: StopIO, reply: Finalizers.Reply)
    requires Sessions.Inv(w.system.pool) && id in w.routes
    requires var r := w.routes[id];
             && r.versions != [] && r.pc == Fetched(|r.versions| - 1)
             && r.Last().Present? && r.Last().deleting && r.Last().finalizer
    ensures var v := Finalizers.Run(w, Attempt(id, stopIO, reply), parents);
            var (gw, name) := parents(id);
            var shown := Shows(w.system, gw, name, id.1, id.0);
            var detached := shown ==>
              var l := w.system.gateways[gw][name];
              && Registered(Interfere(w.system.pool, stopIO.before), l.kind, ForwardingKey(l.hostname, l.port))
              && stopIO.reply == Tunnel.Accepted;
            && id in v.routes && v.routes[id].versions != []
            && (!Ours(v.routes[id].Last()) <==> detached && (reply == Done || reply == Finalizers.Lost(true)))
            && (detached ==> !Shows(v.system, gw, name, id.1, id.0))
            && (!Ours(v.routes[id].Last()) ==> (v.routes[id].Last().Absent? <==> !w.routes[id].Last().held))
  {
    hide Sessions.Inv, Interfere, RemoveRoute, Shows, Registered, ForwardingKey, Finalizers.Step;
    RunTwo(w, Action.Detach(id, stopIO), RemoveFinalizer(id, reply), parents);
    DetachGoesOnIff(w, id, parents, stopIO);
    FinalizerComesOffIff(Finalizers.Step(w, Action.Detach(id, stopIO), parents), id, parents, reply);
  }

  lemma RunTwo(w: World, a: Action, b: Action, parents: Parents)
    ensures Finalizers.Run(w, [a, b], parents) == Finalizers.Step(Finalizers.Step(w, a, parents), b, parents)
  {
    hide Finalizers.Step;
    assert [a, b][..1] == [a] && [a][..0] == [];
    assert Finalizers.Run(w, [a], parents) == Finalizers.Step(w, a, parents);
  }

  lemma DetachGoesOnIff(w: World, id: RouteId, parents: Parents, stopIO: StopIO)
    requires Sessions.Inv(w.system.pool) && id in w.routes
    requires var r := w.routes[id];
             && r.versions != [] && r.pc == Fetched(|r.versions| - 1)
             && r.Last().Present? && r.Last().deleting && r.Last().finalizer
    ensures var v := Finalizers.Step(w, Action.Detach(id, stopIO), parents);
            var (gw, name) := parents(id);
            var detached := Shows(w.system, gw, name, id.1, id.0) ==>
              var l := w.system.gateways[gw][name];
              && Registered(Interfere(w.system.pool, stopIO.before), l.kind, ForwardingKey(l.hostname, l.port))
              && stopIO.reply == Tunnel.Accepted;
            && id in v.routes
            && v.routes[id] == w.routes[id].(pc := if detached then Detached(|w.routes[id].versions| - 1) else Idle)
            && (detached ==> !Shows(v.system, gw, name, id.1, id.0))
  {
    hide Sessions.Inv, Interfere, RemoveRoute, Registered;
    var (gw, name) := parents(id);
    RemovalIsExact(w.system, gw, name, id.1, id.0, stopIO);
    var result := RemoveRoute(w.system, gw, name, id.1, id.0, stopIO).1;
    var v := Finalizers.Step(w, Action.Detach(id, stopIO), parents);
    assert v.routes[id].pc == if result.NotStopped? then Idle else Detached(|w.routes[id].versions| - 1);
    if Shows(w.system, gw, name, id.1, id.0) {
      var l := w.system.gateways[gw][name];
      assert l.Key() == ForwardingKey(l.hostname, l.port);
      assert result.Removed? <==>
          stopIO.reply == Tunnel.Accepted
          && Registered(Interfere(w.system.pool, stopIO.before), l.kind, ForwardingKey(l.hostname, l.port));
      assert result.Removed? || result.NotStopped?;
    } else {
      assert !result.NotStopped?;
    }
  }

  lemma FinalizerComesOffIff(w: World, id: RouteId, parents: Parents, reply: Finalizers.Reply)
    requires id in w.routes
    requires var r := w.routes[id];
             && r.versions != [] && (r.pc == Idle || r.pc == Detached(|r.versions| - 1))
             && r.Last().Present? && r.Last().finalizer
    ensures var v := Finalizers.Step(w, RemoveFinalizer(id, reply), parents);
            && v.system == w.system && id in v.routes && v.routes[id].versions != []
            && (!Ours(v.routes[id].Last())
                <==> w.routes[id].pc.Detached? && (reply == Done || reply == Finalizers.Lost(true)))
            && (!Ours(v.routes[id].Last()) ==> (v.routes[id].Last().Absent? <==> !w.routes[id].Last().held))
  {
  }

  /** The ordinary course of handleAddOrUpdate: SetRoute is called with the parent's listener
      and the fetched backend if and only if the finalizer was there already or was added for
      certain; and then the object carries it. */
  lemma AttachFollowsFinalizer(w: World, id: RouteId, parents: Parents, reply: Finalizers.Reply, io: SetIO)
    requires id in w.routes
    requires var r := w.routes[id];
             && r.pc.Fetched? && r.pc.at < |r.versions| && r.versions[r.pc.at].Present? && !r.versions[r.pc.at].deleting
    ensures var v := Finalizers.Run(w, [AddFinalizer(id, reply), Action.Attach(id, io)], parents);
            var r := w.routes[id];
            var obj := r.versions[r.pc.at];
            var newest := r.pc.at == |r.versions| - 1;
            var written := reply == Done || reply == Finalizers.Lost(true);
            var (gw, name) := parents(id);
            && id in v.routes && v.routes[id].pc == Idle
            && v.system == (if obj.finalizer || (newest && reply == Done)
                            then SetRoute(w.system, gw, name, Route(id.1, id.0, obj.backendHost, obj.backendPort), io).0
                            else w.system)
            && v.routes[id].versions == (if !obj.finalizer && newest && written
                                         then r.versions + [obj.(finalizer := true)] else r.versions)
  {
    hide SetRoute, RemoveRoute, Coherence.Step, Finalizers.Run;
    RunTwo(w, AddFinalizer(id, reply), Action.Attach(id, io), parents);
  }

  /** What does release it: once the listener no longer shows the route, the next attempt takes
      the finalizer off. */
  lemma ReleasedWhenNotShown(w: World, system: Registry.System, id: RouteId, parents: Parents, stopIO: StopIO)
    requires id in w.routes && StuckObject(w.routes[id])
    requires w.routes[id].pc.Fetched? && w.routes[id].pc.at == |w.routes[id].versions| - 1
    requires !Shows(system, parents(id).0, parents(id).1, id.1, id.0)
    ensures var v := Finalizers.Run(w.(system := system), Attempt(id, stopIO, Done), parents);
            id in v.routes && v.routes[id].versions != [] && !Ours(v.routes[id].Last())
  {
    var changed, actions := w.(system := system), Attempt(id, stopIO, Done);
    assert actions[..1][..0] == [] && actions[..2] == actions;
    var detached := Finalizers.Step(changed, actions[0], parents);
    assert Finalizers.Run(changed, actions[..1], parents) == detached;
    assert detached.routes[id].pc == Detached(w.routes[id].pc.at);
  }

  /** So does deleting its Gateway, and an update that changes or drops the listener; an update
      that keeps it does not. */
  lemma GatewayChangeReleases(
    w: World, op: Op, id: RouteId, parents: Parents, stopIO: StopIO)
    requires Stuck(w, id, parents)
    requires w.routes[id].pc.Fetched? && w.routes[id].pc.at == |w.routes[id].versions| - 1
    requires match op
             case UpdateOp(g, spec, _, _) => g == parents(id).0 && DistinctNames(spec)
             case DeleteOp(g, order, _) => g == parents(id).0 && Enumerates(order, w.system.gateways[g])
             case _ => false
    ensures var kept := op.UpdateOp? &&
                        Keeps(w.system.gateways[parents(id).0][parents(id).1], parents(id).1, op.spec, op.annotations);
            var changed := Finalizers.Step(w, Other(op), parents);
            var v := Finalizers.Run(changed, Attempt(id, stopIO, Done), parents);
            id in v.routes && v.routes[id].versions != [] && (Ours(v.routes[id].Last()) <==> kept)
  {
    hide Coherence.Inv, KeyAlone, AddOrUpdateGateway, StopEach;
    var (gw, name) := parents(id);
    var system := Coherence.Step(w.system, op);
    assert Finalizers.Step(w, Other(op), parents) == w.(system := system);
    if op.UpdateOp? {
      UpdateShowsIffKept(w.system, gw, name, op.spec, op.annotations, op.io);
    }
    if Shows(system, gw, name, id.1, id.0) {
      KeptFails(w, system, op, id, parents, stopIO);
    } else {
      ReleasedWhenNotShown(w, system, id, parents, stopIO);
    }
  }

  lemma KeptFails(w: World, system: Registry.System, op: Op, id: RouteId, parents: Parents, stopIO: StopIO)
    requires Stuck(w, id, parents) && w.routes[id].pc.Fetched?
    requires op.UpdateOp? && op.gw == parents(id).0 && system == Coherence.Step(w.system, op)
    requires Shows(system, parents(id).0, parents(id).1, id.1, id.0)
    requires var (gw, name) := parents(id); system.gateways[gw][name] == w.system.gateways[gw][name]
    ensures var v := Finalizers.Run(w.(system := system), Attempt(id, stopIO, Done), parents);
            id in v.routes && v.routes[id].versions != [] && Ours(v.routes[id].Last())
  {
    hide RemoveRoute, KeyAlone, AddOrUpdateGateway, Sessions.Inv, Coherent, AbandonedLive, RejectedAreBare, Registered;
    var (gw, name) := parents(id);
    var l := w.system.gateways[gw][name];
    Coherence.StepKeepsInv(w.system, op);
    UpdateUnregistered(w.system, gw, op.spec, op.annotations, op.io, l.kind, l.Key());
    UnremovableStays(system, gw, name, id.1, id.0, stopIO);
    var changed, actions := w.(system := system), Attempt(id, stopIO, Done);
    assert actions[..1][..0] == [] && actions[..2] == actions;
    assert Finalizers.Run(changed, actions[..1], parents) == Finalizers.Step(changed, actions[0], parents);
  }
}
