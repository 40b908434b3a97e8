/** What deleting a Gateway, and removing a route, do to forwardings: those of the routed
    listeners are gone, nothing is left ownerless, and nothing else is touched. */
module GatewayDeletion {
  import opened Text
  import opened Sessions
  import opened Listeners
  import opened Registry
  import opened Coherence
  import opened Attachment
  import opened GatewayUpdate

  /** Is this the key of a listener of the gateway that has a route? */
  ghost predicate RoutedKey(listeners: ListenerMap, kind: SessionKind, key: string) {
    exists name :: name in listeners && HasRoutedKey(listeners[name], kind, key)
  }

  predicate HasRoutedKey(l: Listener, kind: SessionKind, key: string) {
    l.route.Some? && l.kind == kind && ForwardingKey(l.hostname, l.port) == key
  }

  ghost predicate Stops(listeners: ListenerMap, order: seq<string>, kind: SessionKind, key: string) {
    exists i :: 0 <= i < |order| && order[i] in listeners && HasRoutedKey(listeners[order[i]], kind, key)
  }

  /** After stopping the listeners in some order, the keys of those with a route are gone. */
  lemma {:induction false} StoppedAreGone(
    p: Pool, listeners: ListenerMap, order: seq<string>, io: seq<StopIO>, kind: SessionKind, key: string)
    requires Sessions.Inv(p)
    ensures var q := StopEach(p, listeners, order, io);
            && Sessions.Inv(q)
            && (Gone(p, kind, key) || Stops(listeners, order, kind, key) ==> Gone(q, kind, key))
  {
    hide Sessions.Inv, StopListener, Gone, ForwardingKey;
    if order != [] {
      var n := |order| - 1;
      StoppedAreGone(p, listeners, order[..n], io, kind, key);
      assert forall i | 0 <= i < n :: order[..n][i] == order[i];
      if order[n] in listeners && listeners[order[n]].route.Some? {
        StopListenerKeepsGone(StopEach(p, listeners, order[..n], io), listeners[order[n]], IOAt(io, n), kind, key);
      }
    }
  }

  lemma {:induction false} OthersStay(
    p: Pool, listeners: ListenerMap, order: seq<string>, io: seq<StopIO>, kind: SessionKind, key: string)
    requires Sessions.Inv(p) && QuietStops(io) && !RoutedKey(listeners, kind, key)
    ensures var q := StopEach(p, listeners, order, io);
            Sessions.Inv(q) && Untouched(p, q, kind, key)
  {
    hide Sessions.Inv, StopListener, ForwardingKey, Sessions.GetAssignedAddresses, Registered;
    if order != [] {
      var n := |order| - 1;
      OthersStay(p, listeners, order[..n], io, kind, key);
      if order[n] in listeners && listeners[order[n]].route.Some? {
        assert !HasRoutedKey(listeners[order[n]], kind, key);
        StopListenerIsLocal(StopEach(p, listeners, order[..n], io), listeners[order[n]], IOAt(io, n), kind, key);
      }
    }
  }

  /** Left to itself, stopping a listener touches no forwarding but its own. */
  lemma StopListenerIsLocal(p: Pool, l: Listener, io: StopIO, kind: SessionKind, key: string)
    requires Sessions.Inv(p) && io.before == [] && (kind, key) != (l.kind, l.Key())
    ensures var q := StopListener(p, l, io).0;
            Sessions.Inv(q) && Untouched(p, q, kind, key)
  {
    hide Sessions.Inv, StopForwarding;
    assert Interfere(p, []) == p;
    StopForwardingIsLocal(p, l.kind, l.Key(), io.reply);
  }

  /** Deleting a Gateway: it is gone from the registry and no other; for every visiting order,
      every reply and whatever happens meanwhile, each routed listener's forwarding and its
      addresses are gone; nothing becomes abandoned; and left to itself the deletion touches
      no other forwarding. */
  lemma DeleteIsExact(s: System, gw: string, order: seq<string>, io: seq<StopIO>)
    requires Coherence.Inv(s) && gw in s.gateways && Enumerates(order, s.gateways[gw])
    ensures var t := Registry.DeleteGateway(s, gw, order, io);
            && t.gateways == s.gateways - {gw}
            && t.abandoned <= s.abandoned
            && (forall name | name in s.gateways[gw] && s.gateways[gw][name].route.Some? ::
                  var l := s.gateways[gw][name]; Gone(t.pool, l.kind, ForwardingKey(l.hostname, l.port)))
            && (QuietStops(io) ==>
                  forall kind, key | !RoutedKey(s.gateways[gw], kind, key) :: Untouched(s.pool, t.pool, kind, key))
  {
    hide Sessions.Inv, Coherent, AbandonedLive, StopEach, Gone, Untouched, ForwardingKey, Registered;
    var listeners, t := s.gateways[gw], Registry.DeleteGateway(s, gw, order, io);
    forall name | name in listeners && listeners[name].route.Some?
      ensures Gone(t.pool, listeners[name].kind, ForwardingKey(listeners[name].hostname, listeners[name].port))
    {
      var l := listeners[name];
      assert name in order;
      var i :| 0 <= i < |order| && order[i] == name;
      assert HasRoutedKey(listeners[order[i]], l.kind, ForwardingKey(l.hostname, l.port));
      StoppedAreGone(s.pool, listeners, order, io, l.kind, ForwardingKey(l.hostname, l.port));
    }
    if QuietStops(io) {
      forall kind, key | !RoutedKey(listeners, kind, key) ensures Untouched(s.pool, t.pool, kind, key) {
        OthersStay(s.pool, listeners, order, io, kind, key);
      }
    }
  }

  /** Deleting a Gateway that is not known changes nothing. */
  lemma DeleteUnknown(s: System, gw: string, order: seq<string>, io: seq<StopIO>)
    ensures gw !in s.gateways ==> Registry.DeleteGateway(s, gw, order, io) == s
  {
  }

  /** Removing a route, whatever the server answers: the forwarding of the listener that shows
      it is gone, nothing becomes abandoned, other listeners and Gateways stay as they are, and
      left to itself the call touches no other forwarding. */
  lemma RemovalIsLocal(
    s: System, gw: string, name: string, routeName: string, routeNamespace: string, io: StopIO)
    requires Coherence.Inv(s)
    ensures var t := RemoveRoute(s, gw, name, routeName, routeNamespace, io).0;
            && t.abandoned <= s.abandoned && t.gateways.Keys == s.gateways.Keys
            && (forall g, n | g in s.gateways && n in s.gateways[g] && (g, n) != (gw, name) ::
                  n in t.gateways[g] && t.gateways[g][n] == s.gateways[g][n])
            && (gw in s.gateways && name in s.gateways[gw] ==>
                  var l := s.gateways[gw][name];
                  && (l.route.Some? && l.route.value.name == routeName && l.route.value.namespace == routeNamespace ==>
                        Gone(t.pool, l.kind, ForwardingKey(l.hostname, l.port)))
                  && (io.before == [] ==>
                        forall kind, key | (kind, key) != (l.kind, ForwardingKey(l.hostname, l.port)) ::
                          Untouched(s.pool, t.pool, kind, key)))
  {
    hide Sessions.Inv, Coherent, AbandonedLive, StopListener, Gone, Registered, Sessions.GetAssignedAddresses,
         ForwardingKey;
    if gw in s.gateways && name in s.gateways[gw] {
      var l := s.gateways[gw][name];
      StopListenerKeepsGone(s.pool, l, io, l.kind, l.Key());
      if io.before == [] {
        forall kind, key | (kind, key) != (l.kind, l.Key())
          ensures Untouched(s.pool, StopListener(s.pool, l, io).0, kind, key)
        {
          StopListenerIsLocal(s.pool, l, io, kind, key);
        }
      }
    }
  }
}
