/** A Gateway update makes the registry follow the new spec, stops what changed and nothing
    else, and forgets what was dropped. */
module GatewayUpdate {
  import opened Text
  import opened Tunnel
  import opened Sessions
  import opened Listeners
  import opened Registry
  import opened Coherence
  import opened Attachment

  predicate DistinctNames(spec: seq<K8sListener>) {
    forall i, j | 0 <= i < j < |spec| :: spec[i].name != spec[j].name
  }

  function Names(spec: seq<K8sListener>): set<string> {
    set i | 0 <= i < |spec| :: spec[i].name
  }

  lemma NamesAppend(spec: seq<K8sListener>)
    requires spec != []
    ensures Names(spec) == Names(spec[..|spec| - 1]) + {spec[|spec| - 1].name}
  {
    var n := |spec| - 1;
    assert forall i | 0 <= i < n :: spec[..n][i] == spec[i];
    forall name | name in Names(spec[..n]) ensures name in Names(spec) {
      var i :| 0 <= i < n && spec[..n][i].name == name;
      assert spec[i].name == name;
    }
  }

  /** What the spec asks of the listener it names. */
  function Wanted(existing: ListenerMap, k8s: K8sListener, annotations: map<string, string>): Listener {
    var created := CreateListener(k8s, annotations);
    if k8s.name in existing && existing[k8s.name].SameSpec(created) then existing[k8s.name] else created
  }

  /** Is this the key of a listener that the spec changes and that has a route? */
  ghost predicate StoppedBy(
    existing: ListenerMap, spec: seq<K8sListener>, annotations: map<string, string>, kind: SessionKind, key: string)
  {
    exists i :: 0 <= i < |spec| && Changes(existing, spec[i], annotations, kind, key)
  }

  predicate Changes(
    existing: ListenerMap, k8s: K8sListener, annotations: map<string, string>, kind: SessionKind, key: string)
  {
    && k8s.name in existing
    && var l := existing[k8s.name];
       l.route.Some? && l.kind == kind && l.Key() == key && !l.SameSpec(CreateListener(k8s, annotations))
  }

  ghost predicate Untouched(p: Pool, q: Pool, kind: SessionKind, key: string) {
    && (Registered(q, kind, key) <==> Registered(p, kind, key))
    && (Registered(p, kind, key) ==> q.managers[kind].forwardings[key] == p.managers[kind].forwardings[key])
    && Sessions.GetAssignedAddresses(q, kind, key) == Sessions.GetAssignedAddresses(p, kind, key)
  }

  ghost predicate Gone(p: Pool, kind: SessionKind, key: string) {
    !Registered(p, kind, key) && Sessions.GetAssignedAddresses(p, kind, key) == []
  }

  predicate QuietStops(io: seq<StopIO>) {
    forall i | 0 <= i < |io| :: io[i].before == []
  }

  lemma StopForwardingIsLocal(p: Pool, kind: SessionKind, key: string, reply: Reply)
    requires Sessions.Inv(p)
    ensures var q := StopForwarding(p, kind, key, reply).0;
            && Sessions.Inv(q) && Gone(q, kind, key)
            && (forall k, other | (k, other) != (kind, key) :: Untouched(p, q, k, other))
  {
    hide Sessions.Inv, StopForwarding, Untouched;
    StopForwardingKeepsInv(p, kind, key, reply);
    forall k, other | (k, other) != (kind, key) ensures Untouched(p, StopForwarding(p, kind, key, reply).0, k, other) {
      StopLeavesOther(p, kind, key, reply, k, other);
    }
  }

  lemma StopLeavesOther(p: Pool, kind: SessionKind, key: string, reply: Reply, k: SessionKind, other: string)
    requires Sessions.Inv(p) && (k, other) != (kind, key)
    ensures Untouched(p, StopForwarding(p, kind, key, reply).0, k, other)
  {
    hide Sessions.Inv, Tunnel.Inv, Tunnel.Stop;
    if kind in p.managers {
      ManagerInv(p, kind);
      StopIsLocal(p.managers[kind], key, reply);
    }
  }

  lemma StopIsLocal(m: Tunnel.State, key: string, reply: Reply)
    requires Tunnel.Inv(m)
    ensures var n := Tunnel.Stop(m, key, reply).0;
            n.forwardings == m.forwardings - {key} && n.assignedAddrs == m.assignedAddrs - {key}
  {
  }

  // ------------------------------------------------------------ the listeners

  lemma UpdateOneWanted(
    p: Pool, updated: ListenerMap, existing: ListenerMap, k8s: K8sListener, annotations: map<string, string>,
    io: StopIO)
    ensures UpdateOne(p, updated, existing, k8s.name, CreateListener(k8s, annotations), io).1
            == updated[k8s.name := Wanted(existing, k8s, annotations)]
  {
    hide CreateListener, StopListener;
  }

  lemma {:induction false} UpdateLoopFollowsSpec(
    p: Pool, existing: ListenerMap, spec: seq<K8sListener>, annotations: map<string, string>, io: seq<StopIO>)
    requires DistinctNames(spec)
    ensures var updated := UpdateLoop(p, existing, spec, annotations, io).1;
            && updated.Keys == Names(spec)
            && (forall i | 0 <= i < |spec| :: updated[spec[i].name] == Wanted(existing, spec[i], annotations))
  {
    hide CreateListener, UpdateOne, Wanted;
    if spec != [] {
      var n := |spec| - 1;
      UpdateLoopFollowsSpec(p, existing, spec[..n], annotations, io);
      var (p1, updated1) := UpdateLoop(p, existing, spec[..n], annotations, io);
      var updated := UpdateLoop(p, existing, spec, annotations, io).1;
      UpdateOneWanted(p1, updated1, existing, spec[n], annotations, IOAt(io, n));
      NamesAppend(spec);
      forall i | 0 <= i < n ensures updated[spec[i].name] == Wanted(existing, spec[i], annotations) {
        assert spec[..n][i] == spec[i];
        assert spec[i].name != spec[n].name;
      }
    }
  }

  /** A new gateway has exactly the listeners of its spec. */
  lemma {:induction false} CreateAllFollowsSpec(spec: seq<K8sListener>, annotations: map<string, string>)
    requires DistinctNames(spec)
    ensures var created := CreateAll(spec, annotations);
            && created.Keys == Names(spec)
            && (forall i | 0 <= i < |spec| :: created[spec[i].name] == CreateListener(spec[i], annotations))
  {
    hide CreateListener;
    if spec != [] {
      var n := |spec| - 1;
      CreateAllFollowsSpec(spec[..n], annotations);
      NamesAppend(spec);
      forall i | 0 <= i < n
        ensures CreateAll(spec, annotations)[spec[i].name] == CreateListener(spec[i], annotations)
      {
        assert spec[..n][i] == spec[i];
        assert spec[i].name != spec[n].name;
      }
    }
  }

  /** The listeners the gateway had before: none if it is new. */
  function Existing(s: System, gw: string): ListenerMap {
    if gw in s.gateways then s.gateways[gw] else map[]
  }

  /** The registry after a gateway was added or updated, with distinct listener names: exactly
      the names of the spec, each listener with the port, hostname and session kind the spec
      derives; an unchanged listener is kept with its route, any other has none. */
  lemma UpdateFollowsSpec(
    s: System, gw: string, spec: seq<K8sListener>, annotations: map<string, string>, io: seq<StopIO>)
    requires DistinctNames(spec)
    ensures var t, existing := AddOrUpdateGateway(s, gw, spec, annotations, io), Existing(s, gw);
            && t.gateways.Keys == s.gateways.Keys + {gw}
            && (forall g | g in s.gateways && g != gw :: t.gateways[g] == s.gateways[g])
            && t.gateways[gw].Keys == Names(spec)
            && (forall i | 0 <= i < |spec| ::
                  var l, created := t.gateways[gw][spec[i].name], CreateListener(spec[i], annotations);
                  && l.port == created.port && l.hostname == created.hostname && l.kind == created.kind
                  && (if spec[i].name in existing && var old_l := existing[spec[i].name];
                         old_l.port == created.port && old_l.hostname == created.hostname && old_l.kind == created.kind
                      then l == existing[spec[i].name] else l == created && l.route == None))
            && (gw !in s.gateways ==> t.pool == s.pool && t.abandoned == s.abandoned)
  {
    hide UpdateLoop, CreateListener, CreateAll, Registered, Dropped;
    var t := AddOrUpdateGateway(s, gw, spec, annotations, io);
    forall i | 0 <= i < |spec| ensures CreateListener(spec[i], annotations).route == None {
      CreatedHasNoRoute(spec[i], annotations);
    }
    if gw in s.gateways {
      UpdateLoopFollowsSpec(s.pool, s.gateways[gw], spec, annotations, io);
      assert t.gateways[gw] == UpdateLoop(s.pool, s.gateways[gw], spec, annotations, io).1;
    } else {
      CreateAllFollowsSpec(spec, annotations);
      assert t.gateways[gw] == CreateAll(spec, annotations);
    }
  }

  // ----------------------------------------------------------- the forwardings

  /** Whatever StopForwarding answers, and whatever happens meanwhile, the old forwarding of
      a changed listener is gone from both maps of its session. */
  lemma {:induction false} ChangedListenersGone(
    p: Pool, existing: ListenerMap, spec: seq<K8sListener>, annotations: map<string, string>, io: seq<StopIO>,
    kind: SessionKind, key: string)
    requires Sessions.Inv(p)
    ensures var q := UpdateLoop(p, existing, spec, annotations, io).0;
            Sessions.Inv(q) && (StoppedBy(existing, spec, annotations, kind, key) ==> Gone(q, kind, key))
  {
    hide Sessions.Inv, UpdateOne, CreateListener, Gone, Changes;
    if spec != [] {
      var n := |spec| - 1;
      ChangedListenersGone(p, existing, spec[..n], annotations, io, kind, key);
      var (p1, updated1) := UpdateLoop(p, existing, spec[..n], annotations, io);
      UpdateOneGone(p1, updated1, existing, spec[n], annotations, IOAt(io, n), kind, key);
      if StoppedBy(existing, spec, annotations, kind, key) && !Changes(existing, spec[n], annotations, kind, key) {
        var i :| 0 <= i < |spec| && Changes(existing, spec[i], annotations, kind, key);
        assert spec[..n][i] == spec[i];
      }
    }
  }

  /** One turn of the loop: gone stays gone, and a changed listener's forwarding goes. */
  lemma UpdateOneGone(
    p: Pool, updated: ListenerMap, existing: ListenerMap, k8s: K8sListener, annotations: map<string, string>,
    io: StopIO, kind: SessionKind, key: string)
    requires Sessions.Inv(p)
    ensures var q := UpdateOne(p, updated, existing, k8s.name, CreateListener(k8s, annotations), io).0;
            && Sessions.Inv(q)
            && (Gone(p, kind, key) || Changes(existing, k8s, annotations, kind, key) ==> Gone(q, kind, key))
  {
    hide Sessions.Inv, StopListener, CreateListener, Gone;
    if k8s.name in existing {
      StopListenerKeepsGone(p, existing[k8s.name], io, kind, key);
    }
  }

  lemma StopListenerKeepsGone(p: Pool, l: Listener, io: StopIO, kind: SessionKind, key: string)
    requires Sessions.Inv(p)
    ensures var q := StopListener(p, l, io).0;
            && Sessions.Inv(q)
            && (Gone(p, kind, key) || (kind, key) == (l.kind, l.Key()) ==> Gone(q, kind, key))
  {
    hide Sessions.Inv, StopForwarding, Interfere;
    var p0 := Interfere(p, io.before);
    InterfereKeepsInv(p, io.before);
    StopForwardingIsLocal(p0, l.kind, l.Key(), io.reply);
    assert (kind, key) != (l.kind, l.Key()) ==> Untouched(p0, StopListener(p, l, io).0, kind, key);
  }

  /** Left to itself, an update touches no other forwarding. */
  lemma {:induction false} OthersUntouched(
    p: Pool, existing: ListenerMap, spec: seq<K8sListener>, annotations: map<string, string>, io: seq<StopIO>,
    kind: SessionKind, key: string)
    requires Sessions.Inv(p) && QuietStops(io) && !StoppedBy(existing, spec, annotations, kind, key)
    ensures var q := UpdateLoop(p, existing, spec, annotations, io).0;
            Sessions.Inv(q) && Untouched(p, q, kind, key)
  {
    hide Sessions.Inv, StopForwarding, CreateListener, Sessions.GetAssignedAddresses, Registered;
    if spec != [] {
      var n := |spec| - 1;
      forall i | 0 <= i < n ensures !Changes(existing, spec[..n][i], annotations, kind, key) {
        assert spec[..n][i] == spec[i];
      }
      OthersUntouched(p, existing, spec[..n], annotations, io, kind, key);
      var p1 := UpdateLoop(p, existing, spec[..n], annotations, io).0;
      assert !Changes(existing, spec[n], annotations, kind, key);
      UpdateOneUntouched(p, p1, existing, spec[n], annotations, IOAt(io, n), kind, key);
    }
  }

  lemma UpdateOneUntouched(
    p: Pool, p1: Pool, existing: ListenerMap, k8s: K8sListener, annotations: map<string, string>, io: StopIO,
    kind: SessionKind, key: string)
    requires Sessions.Inv(p1) && Untouched(p, p1, kind, key) && io.before == []
    requires !Changes(existing, k8s, annotations, kind, key)
    ensures var q := UpdateOne(p1, map[], existing, k8s.name, CreateListener(k8s, annotations), io).0;
            Sessions.Inv(q) && Untouched(p, q, kind, key)
  {
    hide Sessions.Inv, StopForwarding, CreateListener, Sessions.GetAssignedAddresses, Registered;
    assert Interfere(p1, []) == p1;
    if k8s.name in existing {
      var l := existing[k8s.name];
      StopForwardingIsLocal(p1, l.kind, l.Key(), io.reply);
      if (kind, key) != (l.kind, l.Key()) {
        assert Untouched(p1, StopListener(p1, l, io).0, kind, key);
      }
    }
  }

  /** The update as a whole: a changed listener's old forwarding is gone, also when it had no
      route to be stopped by, as long as listeners had distinct keys and it was not abandoned;
      and forwardings of listeners the spec does not change are untouched. A rejected listener
      has nothing of its own to stop: its key is touched only as that of a changed one. */
  lemma UpdateStopsExactlyTheChanged(
    s: System, gw: string, spec: seq<K8sListener>, annotations: map<string, string>, io: seq<StopIO>, i: nat)
    requires Coherence.Inv(s) && DistinctKeys(s) && gw in s.gateways && i < |spec| && spec[i].name in s.gateways[gw]
    requires QuietStops(io)
    requires var l := s.gateways[gw][spec[i].name]; (l.kind, l.Key()) !in s.abandoned
    ensures var t := AddOrUpdateGateway(s, gw, spec, annotations, io);
            var l := s.gateways[gw][spec[i].name];
            if l.rejected then
              if StoppedBy(s.gateways[gw], spec, annotations, l.kind, l.Key()) then Gone(t.pool, l.kind, l.Key())
              else Untouched(s.pool, t.pool, l.kind, l.Key())
            else if !l.SameSpec(CreateListener(spec[i], annotations)) then Gone(t.pool, l.kind, l.Key())
            else DistinctNames(spec) ==> Untouched(s.pool, t.pool, l.kind, l.Key())
  {
    hide Coherent, AbandonedLive, UpdateLoop, CreateListener, Sessions.Inv;
    var existing := s.gateways[gw];
    var l := existing[spec[i].name];
    var changed := StoppedBy(existing, spec, annotations, l.kind, l.Key());
    ChangedListenersGone(s.pool, existing, spec, annotations, io, l.kind, l.Key());
    if !changed {
      OthersUntouched(s.pool, existing, spec, annotations, io, l.kind, l.Key());
    }
    if !l.rejected {
      if !l.SameSpec(CreateListener(spec[i], annotations)) {
        if l.route.Some? {
          assert Changes(existing, spec[i], annotations, l.kind, l.Key());
        } else {
          OwnerIsUnique(s, gw, spec[i].name);
          UnregisteredIsGone(s.pool, l.kind, l.Key());
          assert !Registered(s.pool, l.kind, l.Key());
        }
      } else if DistinctNames(spec) {
        forall j | 0 <= j < |spec| ensures !Changes(existing, spec[j], annotations, l.kind, l.Key()) {
          assert j != i ==> spec[j].name != spec[i].name;
        }
      }
    }
  }

  lemma UnregisteredIsGone(p: Pool, kind: SessionKind, key: string)
    requires Sessions.Inv(p) && !Registered(p, kind, key)
    ensures Gone(p, kind, key)
  {
    if kind in p.managers {
      ManagerInv(p, kind);
    }
  }

  // --------------------------------------------------------- what is abandoned

  /** Left to itself, an update abandons exactly the registered forwardings of the routed
      listeners that the spec no longer names. */
  lemma UpdateAbandonsExactlyTheDropped(
    s: System, gw: string, spec: seq<K8sListener>, annotations: map<string, string>, io: seq<StopIO>,
    kind: SessionKind, key: string)
    requires Coherence.Inv(s) && DistinctKeys(s) && gw in s.gateways && QuietStops(io) && DistinctNames(spec)
    requires (kind, key) !in s.abandoned
    ensures var t := AddOrUpdateGateway(s, gw, spec, annotations, io);
            (kind, key) in t.abandoned
            <==> && Registered(s.pool, kind, key)
                 && exists name :: DropsRouted(s.gateways[gw], spec, name, kind, key)
  {
    hide Coherent, AbandonedLive, UpdateLoop, CreateListener, Sessions.Inv;
    var existing := s.gateways[gw];
    var t := AddOrUpdateGateway(s, gw, spec, annotations, io);
    var updated := t.gateways[gw];
    UpdateLoopFollowsSpec(s.pool, existing, spec, annotations, io);
    if (kind, key) in t.abandoned {
      var name :| name in existing && name !in updated && existing[name].route.Some?
                  && existing[name].kind == kind && existing[name].Key() == key;
      assert DropsRouted(existing, spec, name, kind, key);
      UpdateLoopShrinks(s.pool, existing, spec, annotations, io);
      ShrinksAt(s.pool, t.pool, kind, key);
    }
    if Registered(s.pool, kind, key) && exists name :: DropsRouted(existing, spec, name, kind, key) {
      var name :| DropsRouted(existing, spec, name, kind, key);
      forall j | 0 <= j < |spec| ensures !Changes(existing, spec[j], annotations, kind, key) {
        assert spec[j].name != name;
      }
      OthersUntouched(s.pool, existing, spec, annotations, io, kind, key);
      assert (existing[name].kind, existing[name].Key()) in Dropped(existing, updated);
    }
  }

  /** Whatever happens meanwhile, an update abandons nothing but the forwardings of routed
      listeners that the spec no longer names. */
  lemma UpdateAbandonsOnlyDropped(
    s: System, gw: string, spec: seq<K8sListener>, annotations: map<string, string>, io: seq<StopIO>,
    kind: SessionKind, key: string)
    requires gw in s.gateways && DistinctNames(spec)
    requires (kind, key) in AddOrUpdateGateway(s, gw, spec, annotations, io).abandoned && (kind, key) !in s.abandoned
    ensures exists name :: DropsRouted(s.gateways[gw], spec, name, kind, key)
  {
    hide UpdateLoop, CreateListener;
    var existing := s.gateways[gw];
    var updated := AddOrUpdateGateway(s, gw, spec, annotations, io).gateways[gw];
    UpdateLoopFollowsSpec(s.pool, existing, spec, annotations, io);
    var name :| name in existing && name !in updated && existing[name].route.Some?
                && existing[name].kind == kind && existing[name].Key() == key;
    assert DropsRouted(existing, spec, name, kind, key);
  }

  ghost predicate DropsRouted(
    existing: ListenerMap, spec: seq<K8sListener>, name: string, kind: SessionKind, key: string)
  {
    && name in existing && existing[name].route.Some? && existing[name].kind == kind && existing[name].Key() == key
    && forall i | 0 <= i < |spec| :: spec[i].name != name
  }

  // ------------------------------------------------------- routes and rejection

  /** In every run no rejected listener has a route, and so none owns a forwarding. */
  lemma RejectedNeverRouted(capturing: bool, io: OpenIO, ops: seq<Op>, gw: string, name: string)
    requires var s := Coherence.Run(Coherence.Start(capturing, io), ops);
             gw in s.gateways && name in s.gateways[gw] && s.gateways[gw][name].rejected
    ensures var s := Coherence.Run(Coherence.Start(capturing, io), ops);
            && s.gateways[gw][name].route == None
            && forall kind, key | Registered(s.pool, kind, key) :: !Owns(s, gw, name, kind, key)
  {
    RunsKeepCoherence(capturing, io, ops);
  }

  /** An update that keeps a listener looks at port, hostname and session kind only: the
      listener ends up as the spec says, route aside, if and only if it was replaced or
      already agreed on protocol and rejection too. */
  lemma UpdatedAsSpecified(
    s: System, gw: string, spec: seq<K8sListener>, annotations: map<string, string>, io: seq<StopIO>, i: nat)
    requires DistinctNames(spec) && i < |spec|
    ensures var t, existing := AddOrUpdateGateway(s, gw, spec, annotations, io), Existing(s, gw);
            var name, wanted := spec[i].name, CreateListener(spec[i], annotations);
            && gw in t.gateways && name in t.gateways[gw]
            && var l := t.gateways[gw][name];
               (l.(route := None) == wanted <==>
                  name in existing && existing[name].SameSpec(wanted) ==>
                    var kept := existing[name];
                    && kept.protocol == wanted.protocol && kept.rejected == wanted.rejected
                    && kept.reason == wanted.reason)
  {
    hide UpdateLoop, CreateListener, AddOrUpdateGateway;
    UpdateFollowsSpec(s, gw, spec, annotations, io);
    assert spec[i].name in Names(spec);
    CreatedHasNoRoute(spec[i], annotations);
  }

  /** For one, an HTTP listener edited to a protocol the controller does not serve stays
      programmed, with its route. */
  lemma RejectionCanBeMissed(
    s: System, gw: string, name: string, hostname: string, port: int, route: Route, io: seq<StopIO>)
    requires gw in s.gateways && name in s.gateways[gw]
    requires s.gateways[gw][name] ==
             CreateListener(K8sListener(name, Some(hostname), port, "HTTP", None), map[]).(route := Some(route))
    ensures var udp := K8sListener(name, Some(hostname), port, "UDP", None);
            && CreateListener(udp, map[]).rejected
            && AddOrUpdateGateway(s, gw, [udp], map[], io).gateways[gw][name] == s.gateways[gw][name]
  {
    hide UpdateLoop, AddOrUpdateGateway;
    var udp := K8sListener(name, Some(hostname), port, "UDP", None);
    assert ToUpper("UDP") == "UDP" && ToUpper("HTTP") == "HTTP";
    UpdateFollowsSpec(s, gw, [udp], map[], io);
    assert [udp][0] == udp;
  }
}
