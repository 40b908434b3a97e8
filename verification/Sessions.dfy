/** The session pool: up to three tunnel managers, one per session kind, reconciled to the
    wanted configuration. Class SSHSessionPool implements these functions. */
module Sessions {
  import opened Tunnel

  datatype SessionKind = SessionPlain | SessionProxyProto | SessionSNIProxy

  datatype SessionFlags = SessionFlags(proxyProtocolVersion: int, sniProxy: bool)

  const NO_FLAGS := SessionFlags(0, false)

  datatype Pool = Pool(
    capturing: bool,
    managers: map<SessionKind, Tunnel.State>,
    flags: map<SessionKind, SessionFlags>)

  /** Does the factory build the manager, and does its first connection attempt succeed? */
  datatype OpenIO = OpenIO(built: bool, dialSucceeds: bool)

  function OpenLocked(p: Pool, kind: SessionKind, flags: SessionFlags, io: OpenIO): (Pool, Outcome) {
    if !io.built then (p, ManagerNotBuilt)
    else
      var manager := Tunnel.Connect(Fresh(p.capturing), io.dialSucceeds).0;
      (p.(managers := p.managers[kind := manager], flags := p.flags[kind := flags]), Success)
  }

  function Close(p: Pool, kind: SessionKind): Pool {
    p.(managers := p.managers - {kind}, flags := p.flags - {kind})
  }

  /** Reading a missing entry of the flags map yields the zero flags. */
  function FlagsOf(p: Pool, kind: SessionKind): SessionFlags {
    if kind in p.flags then p.flags[kind] else NO_FLAGS
  }

  function ReconcileKind(p: Pool, kind: SessionKind, want: bool, desired: SessionFlags, io: OpenIO): (Pool, Outcome) {
    var present := kind in p.managers;
    if want && !present then OpenLocked(p, kind, desired, io)
    else if !want && present then (Close(p, kind), Success)
    else if want && present && FlagsOf(p, kind) != desired then OpenLocked(Close(p, kind), kind, desired, io)
    else (p, Success)
  }

  function ConfigureSessions(p: Pool, ppVersion: int, sniEnabled: bool, ppIO: OpenIO, sniIO: OpenIO): (Pool, Outcome) {
    var (p1, outcome) := ReconcileKind(p, SessionProxyProto, ppVersion > 0, SessionFlags(ppVersion, false), ppIO);
    if outcome != Success then (p1, outcome)
    else ReconcileKind(p1, SessionSNIProxy, sniEnabled, SessionFlags(0, true), sniIO)
  }

  function StartForwarding(p: Pool, kind: SessionKind, fwd: ForwardingConfig, io: StartIO): (Pool, Outcome) {
    if kind !in p.managers then (p, SessionNotEnabled)
    else
      var (m, outcome) := Start(p.managers[kind], fwd, io);
      (p.(managers := p.managers[kind := m]), outcome)
  }

  function StopForwarding(p: Pool, kind: SessionKind, key: string, reply: Reply): (Pool, Outcome) {
    if kind !in p.managers then (p, SessionNotEnabled)
    else
      var (m, outcome) := Tunnel.Stop(p.managers[kind], key, reply);
      (p.(managers := p.managers[kind := m]), outcome)
  }

  function GetAssignedAddresses(p: Pool, kind: SessionKind, key: string): seq<string> {
    if kind in p.managers then GetAssigned(p.managers[kind], key) else []
  }

  predicate IsConnected(p: Pool, kind: SessionKind) {
    kind in p.managers && p.managers[kind].connected
  }

  function Connect(p: Pool, dials: map<SessionKind, bool>): Pool {
    p.(managers := map kind | kind in p.managers ::
         Tunnel.Connect(p.managers[kind], kind in dials && dials[kind]).0)
  }

  // -------------------------------------------------------------- invariants

  ghost predicate ManagerOK(p: Pool, m: Tunnel.State) {
    Tunnel.Inv(m) && m.capturing == p.capturing
  }

  ghost predicate Inv(p: Pool) {
    && p.managers.Keys == p.flags.Keys
    && (forall kind | kind in p.managers :: ManagerOK(p, p.managers[kind]))
  }

  predicate Registered(p: Pool, kind: SessionKind, key: string) {
    kind in p.managers && key in p.managers[kind].forwardings
  }

  /** One kind after its reconciliation, and every other kind as before. */
  lemma ReconcileIsExact(p: Pool, kind: SessionKind, want: bool, desired: SessionFlags, io: OpenIO)
    requires p.managers.Keys == p.flags.Keys
    ensures var (q, outcome) := ReconcileKind(p, kind, want, desired, io);
            && q.capturing == p.capturing
            && q.managers.Keys == q.flags.Keys
            && (outcome == Success ==> (kind in q.managers <==> want))
            && (outcome != Success ==> want && kind !in q.managers && q == Close(p, kind))
            && (kind in q.managers ==> q.flags[kind] == desired)
            && (kind in p.managers && want && p.flags[kind] == desired ==> q == p && outcome == Success)
            && (kind in q.managers && q != p ==>
                  q.managers[kind] == Tunnel.Connect(Fresh(p.capturing), io.dialSucceeds).0)
            && (forall k | k != kind :: k in q.managers <==> k in p.managers)
            && (forall k | k in q.managers && k != kind :: q.managers[k] == p.managers[k] && q.flags[k] == p.flags[k])
  {
    hide Tunnel.Connect;
    if !want || kind !in p.managers {
      assert kind !in p.managers ==> Close(p, kind) == p;
    }
  }

  /** After a successful call the open kinds are plain, if it was open, and those asked for,
      with the flags asked for; a manager whose flags did not change is untouched. */
  lemma ConfigureIsExact(p: Pool, ppVersion: int, sniEnabled: bool, ppIO: OpenIO, sniIO: OpenIO)
    requires p.managers.Keys == p.flags.Keys
    requires ConfigureSessions(p, ppVersion, sniEnabled, ppIO, sniIO).1 == Success
    ensures var q := ConfigureSessions(p, ppVersion, sniEnabled, ppIO, sniIO).0;
            && q.managers.Keys == q.flags.Keys
            && (SessionPlain in q.managers <==> SessionPlain in p.managers)
            && (SessionProxyProto in q.managers <==> ppVersion > 0)
            && (SessionSNIProxy in q.managers <==> sniEnabled)
            && (SessionProxyProto in q.flags ==> q.flags[SessionProxyProto] == SessionFlags(ppVersion, false))
            && (SessionSNIProxy in q.flags ==> q.flags[SessionSNIProxy] == SessionFlags(0, true))
            && (forall kind | kind in p.managers && kind in q.managers && p.flags[kind] == q.flags[kind] ::
                  q.managers[kind] == p.managers[kind])
  {
    hide ReconcileKind;
    ReconcileIsExact(p, SessionProxyProto, ppVersion > 0, SessionFlags(ppVersion, false), ppIO);
    var p1 := ReconcileKind(p, SessionProxyProto, ppVersion > 0, SessionFlags(ppVersion, false), ppIO).0;
    ReconcileIsExact(p1, SessionSNIProxy, sniEnabled, SessionFlags(0, true), sniIO);
  }

  /** A manager that a successful call opens is empty, and connected as its own dial went. */
  lemma ConfigureOpensFresh(p: Pool, ppVersion: int, sniEnabled: bool, ppIO: OpenIO, sniIO: OpenIO)
    requires p.managers.Keys == p.flags.Keys
    requires ConfigureSessions(p, ppVersion, sniEnabled, ppIO, sniIO).1 == Success
    ensures var q := ConfigureSessions(p, ppVersion, sniEnabled, ppIO, sniIO).0;
            var pp, sni := SessionFlags(ppVersion, false), SessionFlags(0, true);
            && (ppVersion > 0 && !(SessionProxyProto in p.flags && p.flags[SessionProxyProto] == pp) ==>
                  && SessionProxyProto in q.managers
                  && q.managers[SessionProxyProto] == State(p.capturing, ppIO.dialSucceeds, map[], map[], NO_SERVER))
            && (sniEnabled && !(SessionSNIProxy in p.flags && p.flags[SessionSNIProxy] == sni) ==>
                  && SessionSNIProxy in q.managers
                  && q.managers[SessionSNIProxy] == State(p.capturing, sniIO.dialSucceeds, map[], map[], NO_SERVER))
  {
    hide ReconcileKind;
    var pp, sni := SessionFlags(ppVersion, false), SessionFlags(0, true);
    ReconcileIsExact(p, SessionProxyProto, ppVersion > 0, pp, ppIO);
    ReconcileOpens(p, SessionProxyProto, ppVersion > 0, pp, ppIO);
    var p1 := ReconcileKind(p, SessionProxyProto, ppVersion > 0, pp, ppIO).0;
    ReconcileIsExact(p1, SessionSNIProxy, sniEnabled, sni, sniIO);
    ReconcileOpens(p1, SessionSNIProxy, sniEnabled, sni, sniIO);
  }

  lemma ReconcileOpens(p: Pool, kind: SessionKind, want: bool, desired: SessionFlags, io: OpenIO)
    requires p.managers.Keys == p.flags.Keys && ReconcileKind(p, kind, want, desired, io).1 == Success
    ensures want && !(kind in p.flags && p.flags[kind] == desired) ==>
              var q := ReconcileKind(p, kind, want, desired, io).0;
              kind in q.managers && q.managers[kind] == State(p.capturing, io.dialSucceeds, map[], map[], NO_SERVER)
  {
  }

  /** Connect dials every open manager that is down, and leaves the others as they are. */
  lemma ConnectIsExact(p: Pool, dials: map<SessionKind, bool>)
    ensures var q := Connect(p, dials);
            && q.managers.Keys == p.managers.Keys && q.flags == p.flags
            && (forall kind | kind in p.managers ::
                  && (q.managers[kind].connected <==> p.managers[kind].connected || (kind in dials && dials[kind]))
                  && (p.managers[kind].connected ==> q.managers[kind] == p.managers[kind])
                  && q.managers[kind].forwardings == p.managers[kind].forwardings)
  {
  }

  /** Does reconciling the kind build a manager? */
  predicate Builds(p: Pool, kind: SessionKind, want: bool, desired: SessionFlags) {
    want && !(kind in p.managers && FlagsOf(p, kind) == desired)
  }

  /** A call fails exactly when a manager it has to build cannot be built. Then that session
      is missing and every other one is as it was, but for a proxy-protocol session that was
      reconciled before the SNI one failed. */
  lemma ConfigureFailure(p: Pool, ppVersion: int, sniEnabled: bool, ppIO: OpenIO, sniIO: OpenIO)
    requires p.managers.Keys == p.flags.Keys
    ensures var (q, outcome) := ConfigureSessions(p, ppVersion, sniEnabled, ppIO, sniIO);
            var ppFails := Builds(p, SessionProxyProto, ppVersion > 0, SessionFlags(ppVersion, false)) && !ppIO.built;
            var sniFails := Builds(p, SessionSNIProxy, sniEnabled, SessionFlags(0, true)) && !sniIO.built;
            && (outcome != Success <==> ppFails || sniFails)
            && (ppFails ==> q == Close(p, SessionProxyProto))
            && (!ppFails && sniFails ==>
                  q == Close(ReconcileKind(p, SessionProxyProto, ppVersion > 0, SessionFlags(ppVersion, false), ppIO).0,
                             SessionSNIProxy))
            && (outcome != Success ==>
                  && q.managers.Keys == q.flags.Keys
                  && (SessionPlain in q.managers <==> SessionPlain in p.managers)
                  && (forall kind | kind in p.managers && kind in q.managers && p.flags[kind] == q.flags[kind] ::
                        q.managers[kind] == p.managers[kind]))
  {
    hide ReconcileKind;
    var pp, sni := SessionFlags(ppVersion, false), SessionFlags(0, true);
    ReconcileIsExact(p, SessionProxyProto, ppVersion > 0, pp, ppIO);
    ReconcileFails(p, SessionProxyProto, ppVersion > 0, pp, ppIO);
    var p1 := ReconcileKind(p, SessionProxyProto, ppVersion > 0, pp, ppIO).0;
    ReconcileIsExact(p1, SessionSNIProxy, sniEnabled, sni, sniIO);
    ReconcileFails(p1, SessionSNIProxy, sniEnabled, sni, sniIO);
  }

  lemma ReconcileFails(p: Pool, kind: SessionKind, want: bool, desired: SessionFlags, io: OpenIO)
    ensures ReconcileKind(p, kind, want, desired, io).1 != Success <==> Builds(p, kind, want, desired) && !io.built
  {
  }

  /** Configuring again what is already configured builds, stops and changes nothing. */
  lemma ConfigureIdempotent(
    p: Pool, ppVersion: int, sniEnabled: bool, ppIO: OpenIO, sniIO: OpenIO, ppIO2: OpenIO, sniIO2: OpenIO)
    requires p.managers.Keys == p.flags.Keys
    requires ConfigureSessions(p, ppVersion, sniEnabled, ppIO, sniIO).1 == Success
    ensures var q := ConfigureSessions(p, ppVersion, sniEnabled, ppIO, sniIO).0;
            && q.managers.Keys == q.flags.Keys
            && ConfigureSessions(q, ppVersion, sniEnabled, ppIO2, sniIO2) == (q, Success)
  {
    hide ConfigureSessions;
    ConfigureIsExact(p, ppVersion, sniEnabled, ppIO, sniIO);
    var q := ConfigureSessions(p, ppVersion, sniEnabled, ppIO, sniIO).0;
    ConfiguredIsStable(q, ppVersion, sniEnabled, ppIO2, sniIO2);
  }

  lemma ConfiguredIsStable(q: Pool, ppVersion: int, sniEnabled: bool, ppIO: OpenIO, sniIO: OpenIO)
    requires q.managers.Keys == q.flags.Keys
    requires if ppVersion > 0
             then SessionProxyProto in q.flags && q.flags[SessionProxyProto] == SessionFlags(ppVersion, false)
             else SessionProxyProto !in q.flags
    requires if sniEnabled then SessionSNIProxy in q.flags && q.flags[SessionSNIProxy] == SessionFlags(0, true)
             else SessionSNIProxy !in q.flags
    ensures ConfigureSessions(q, ppVersion, sniEnabled, ppIO, sniIO) == (q, Success)
  {
  }

  // ------------------------------------------------------------ interference

  /** What other goroutines and the server may do between two pool calls of one operation. */
  datatype PoolEvent =
    | Drop(kind: SessionKind)
    | Configure(ppVersion: int, sniEnabled: bool, ppIO: OpenIO, sniIO: OpenIO)
    | ConnectAll(dials: map<SessionKind, bool>)
    | Orphan(kind: SessionKind, pair: (string, int), reply: Reply)
    | Drift(kind: SessionKind, bound: set<(string, int)>)
    | Leftover(kind: SessionKind, pairs: set<(string, int)>)
    | StopAll

  function OnManager(p: Pool, kind: SessionKind, e: Tunnel.Event): Pool {
    if kind !in p.managers then p else p.(managers := p.managers[kind := Tunnel.Step(p.managers[kind], e)])
  }

  function Occur(p: Pool, e: PoolEvent): Pool {
    match e
    case Drop(kind) => OnManager(p, kind, DropEvent)
    case Configure(ppVersion, sniEnabled, ppIO, sniIO) => ConfigureSessions(p, ppVersion, sniEnabled, ppIO, sniIO).0
    case ConnectAll(dials) => Connect(p, dials)
    case Orphan(kind, pair, reply) => OnManager(p, kind, OrphanEvent(pair, reply))
    case Drift(kind, bound) => OnManager(p, kind, DriftEvent(bound))
    case Leftover(kind, pairs) => OnManager(p, kind, LeftoverEvent(pairs))
    case StopAll => p.(managers := map[], flags := map[])
  }

  function Interfere(p: Pool, events: seq<PoolEvent>): Pool {
    if events == [] then p else Occur(Interfere(p, events[..|events| - 1]), events[|events| - 1])
  }

  /** Per kind, the forwardings and their addresses are either all kept or all gone. */
  ghost predicate KeepsOrClears(p: Pool, q: Pool) {
    forall kind | kind in q.managers ::
      || (&& kind in p.managers
          && q.managers[kind].forwardings == p.managers[kind].forwardings
          && q.managers[kind].assignedAddrs == p.managers[kind].assignedAddrs)
      || (q.managers[kind].forwardings == map[] && q.managers[kind].assignedAddrs == map[])
  }

  lemma ReconcileKeepsInv(p: Pool, kind: SessionKind, want: bool, desired: SessionFlags, io: OpenIO)
    requires Inv(p)
    ensures var q := ReconcileKind(p, kind, want, desired, io).0;
            Inv(q) && KeepsOrClears(p, q)
  {
    hide ReconcileKind, Tunnel.Inv, Tunnel.Connect, Fresh;
    ReconcileIsExact(p, kind, want, desired, io);
    NewManagerOK(p, io.dialSucceeds);
  }

  lemma ConfigureKeepsInv(p: Pool, ppVersion: int, sniEnabled: bool, ppIO: OpenIO, sniIO: OpenIO)
    requires Inv(p)
    ensures var q := ConfigureSessions(p, ppVersion, sniEnabled, ppIO, sniIO).0;
            Inv(q) && KeepsOrClears(p, q)
  {
    hide ReconcileKind, Inv, KeepsOrClears;
    ReconcileKeepsInv(p, SessionProxyProto, ppVersion > 0, SessionFlags(ppVersion, false), ppIO);
    var p1 := ReconcileKind(p, SessionProxyProto, ppVersion > 0, SessionFlags(ppVersion, false), ppIO).0;
    ReconcileKeepsInv(p1, SessionSNIProxy, sniEnabled, SessionFlags(0, true), sniIO);
    KeepsOrClearsTransitive(p, p1, ReconcileKind(p1, SessionSNIProxy, sniEnabled, SessionFlags(0, true), sniIO).0);
  }

  lemma NewManagerOK(p: Pool, dialSucceeds: bool)
    ensures var m := Tunnel.Connect(Fresh(p.capturing), dialSucceeds).0;
            ManagerOK(p, m) && m.forwardings == map[] && m.assignedAddrs == map[]
  {
  }

  /** Events that do not start a forwarding keep a manager's two maps, or empty both. */
  lemma EventKeepsOrClears(m: Tunnel.State, e: Tunnel.Event)
    requires !e.StartEvent? && !e.StopEvent?
    ensures var n := Tunnel.Step(m, e);
            && n.capturing == m.capturing
            && ((n.forwardings == m.forwardings && n.assignedAddrs == m.assignedAddrs)
                || (n.forwardings == map[] && n.assignedAddrs == map[]))
  {
  }

  lemma OnManagerKeepsInv(p: Pool, kind: SessionKind, e: Tunnel.Event)
    requires Inv(p) && !e.StartEvent? && !e.StopEvent?
    ensures Inv(OnManager(p, kind, e)) && KeepsOrClears(p, OnManager(p, kind, e))
  {
    hide Tunnel.Inv, Tunnel.Step;
    if kind in p.managers {
      StepKeepsInv(p.managers[kind], e);
      EventKeepsOrClears(p.managers[kind], e);
    }
  }

  lemma ConnectKeepsInv(p: Pool, dials: map<SessionKind, bool>)
    requires Inv(p)
    ensures Inv(Connect(p, dials)) && KeepsOrClears(p, Connect(p, dials))
  {
    hide Tunnel.Inv, Tunnel.Step;
    forall kind | kind in p.managers
      ensures var n := Connect(p, dials).managers[kind];
              && ManagerOK(p, n) && n.forwardings == p.managers[kind].forwardings
              && n.assignedAddrs == p.managers[kind].assignedAddrs
    {
      var dial := kind in dials && dials[kind];
      StepKeepsInv(p.managers[kind], ConnectEvent(dial));
      ConnectIsStep(p.managers[kind], dial);
    }
  }

  lemma ConnectIsStep(m: Tunnel.State, dialSucceeds: bool)
    ensures Tunnel.Step(m, ConnectEvent(dialSucceeds)) == Tunnel.Connect(m, dialSucceeds).0
  {
  }

  lemma OccurKeepsInv(p: Pool, e: PoolEvent)
    requires Inv(p)
    ensures Inv(Occur(p, e)) && KeepsOrClears(p, Occur(p, e))
  {
    hide Tunnel.Inv, Tunnel.Step, OnManager, Connect, ConfigureSessions, KeepsOrClears;
    match e
    case Drop(kind) => OnManagerKeepsInv(p, kind, DropEvent);
    case Configure(ppVersion, sniEnabled, ppIO, sniIO) => ConfigureKeepsInv(p, ppVersion, sniEnabled, ppIO, sniIO);
    case ConnectAll(dials) => ConnectKeepsInv(p, dials);
    case Orphan(kind, pair, reply) => OnManagerKeepsInv(p, kind, OrphanEvent(pair, reply));
    case Drift(kind, bound) => OnManagerKeepsInv(p, kind, DriftEvent(bound));
    case Leftover(kind, pairs) => OnManagerKeepsInv(p, kind, LeftoverEvent(pairs));
    case StopAll => EmptyPoolClears(p);
  }

  lemma EmptyPoolClears(p: Pool)
    ensures KeepsOrClears(p, p.(managers := map[], flags := map[]))
  {
  }

  lemma KeepsOrClearsTransitive(p: Pool, q: Pool, r: Pool)
    requires KeepsOrClears(p, q) && KeepsOrClears(q, r)
    ensures KeepsOrClears(p, r)
  {
  }

  lemma {:induction false} InterfereKeepsInv(p: Pool, events: seq<PoolEvent>)
    requires Inv(p)
    ensures Inv(Interfere(p, events)) && KeepsOrClears(p, Interfere(p, events))
  {
    hide Inv, Occur;
    if events != [] {
      InterfereKeepsInv(p, events[..|events| - 1]);
      OccurKeepsInv(Interfere(p, events[..|events| - 1]), events[|events| - 1]);
    }
  }

  lemma StartForwardingKeepsInv(p: Pool, kind: SessionKind, fwd: ForwardingConfig, io: StartIO)
    requires Inv(p)
    ensures Inv(StartForwarding(p, kind, fwd, io).0)
  {
    hide Tunnel.Inv;
    if kind in p.managers {
      StartKeepsInv(p.managers[kind], fwd, io);
    }
  }

  lemma StopForwardingKeepsInv(p: Pool, kind: SessionKind, key: string, reply: Reply)
    requires Inv(p)
    ensures Inv(StopForwarding(p, kind, key, reply).0)
    ensures !Registered(StopForwarding(p, kind, key, reply).0, kind, key)
    ensures GetAssignedAddresses(StopForwarding(p, kind, key, reply).0, kind, key) == []
  {
    hide Tunnel.Inv;
    if kind in p.managers {
      StopKeepsInv(p.managers[kind], key, reply);
    }
  }
}
