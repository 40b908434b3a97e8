/** The session pool as an object: it owns its managers, and replaces them as the wanted
    configuration changes. Methods are critical sections under the pool's lock. */
module SessionPool {
  import opened Text
  import opened Tunnel
  import opened Sessions
  import opened TunnelManager

  lemma ValuesAfterInsert<K, V>(m: map<K, V>, key: K, value: V)
    requires key !in m
    ensures m[key := value].Values == m.Values + {value}
  {
    var n := m[key := value];
    assert n[key] == value;
    assert forall k | k in m :: n[k] == m[k];
  }

  lemma ValuesAfterDelete<K, V>(m: map<K, V>, key: K)
    requires key in m && forall k | k in m && k != key :: m[k] != m[key]
    ensures (m - {key}).Values == m.Values - {m[key]}
  {
    var n := m - {key};
    forall v | v in m.Values - {m[key]} ensures v in n.Values {
      var k :| k in m && m[k] == v;
      assert k in n && n[k] == v;
    }
  }

  class SSHSessionPool {
    const capturing: bool
    var managers: map<SessionKind, SSHTunnelManager>
    var flags: map<SessionKind, SessionFlags>
    ghost var created: set<SSHTunnelManager>
    ghost var stopped: set<SSHTunnelManager>

    ghost function View(): Pool
      reads this, managers.Values
    {
      Pool(capturing, map kind | kind in managers :: managers[kind].View(), flags)
    }

    static ghost predicate Partition(
      managers: map<SessionKind, SSHTunnelManager>, flags: map<SessionKind, SessionFlags>,
      created: set<SSHTunnelManager>, stopped: set<SSHTunnelManager>)
    {
      && managers.Values == created - stopped && stopped <= created
      && (forall kind | kind in managers :: managers[kind] in created)
      && managers.Keys == flags.Keys
      && (forall k1, k2 | k1 in managers && k2 in managers && k1 != k2 :: managers[k1] != managers[k2])
    }

    static lemma PartitionInsert(
      managers: map<SessionKind, SSHTunnelManager>, flags: map<SessionKind, SessionFlags>,
      created: set<SSHTunnelManager>, stopped: set<SSHTunnelManager>,
      kind: SessionKind, m: SSHTunnelManager, desired: SessionFlags)
      requires Partition(managers, flags, created, stopped) && kind !in managers && m !in created
      ensures Partition(managers[kind := m], flags[kind := desired], created + {m}, stopped)
    {
      ValuesAfterInsert(managers, kind, m);
    }

    static lemma PartitionForget(
      managers: map<SessionKind, SSHTunnelManager>, flags: map<SessionKind, SessionFlags>,
      created: set<SSHTunnelManager>, stopped: set<SSHTunnelManager>, kind: SessionKind)
      requires Partition(managers, flags, created, stopped) && kind in managers
      ensures Partition(managers - {kind}, flags - {kind}, created, stopped + {managers[kind]})
    {
      ValuesAfterDelete(managers, kind);
      assert created - (stopped + {managers[kind]}) == managers.Values - {managers[kind]};
    }

    /** Every manager ever created is either live, under exactly one kind, or was stopped,
        and then its connection stays closed. */
    ghost predicate Valid()
      reads this, created
    {
      && Partition(managers, flags, created, stopped)
      && (forall m | m in created :: m.Valid() && m.capturing == capturing)
      && (forall m | m in stopped :: !m.connected)
    }

    lemma ViewInv()
      requires Valid()
      ensures Sessions.Inv(View())
    {
    }

    lemma ManagersAreCreated()
      requires Valid()
      ensures managers.Values <= created
    {
    }

    constructor (capturing: bool, io: OpenIO)
      ensures Valid() && fresh(created)
      ensures io.built ==> View() == OpenLocked(Pool(capturing, map[], map[]), SessionPlain, NO_FLAGS, io).0
      ensures !io.built ==> View() == Pool(capturing, map[], map[]) && created == {}
    {
      this.capturing := capturing;
      managers, flags, created, stopped := map[], map[], {}, {};
      new;
      if io.built {
        var _ := OpenManager(SessionPlain, NO_FLAGS, io);
      }
    }

    method OpenManager(kind: SessionKind, desired: SessionFlags, io: OpenIO) returns (outcome: Outcome)
      requires Valid() && kind !in managers
      modifies this
      ensures Valid() && fresh(created - old(created))
      ensures (View(), outcome) == OpenLocked(old(View()), kind, desired, io)
      ensures forall k | k in old(managers) :: k in managers && managers[k] == old(managers)[k]
      ensures stopped == old(stopped) && old(created) <= created
      ensures outcome == Success ==>
                kind in managers && fresh(managers[kind]) && created == old(created) + {managers[kind]}
      ensures outcome != Success ==> managers == old(managers) && created == old(created)
    {
      hide SSHTunnelManager.Valid, SSHTunnelManager.View, Tunnel.Inv, Tunnel.Connect, Fresh, Partition;
      if !io.built {
        return ManagerNotBuilt;
      }
      var m := new SSHTunnelManager(capturing);
      var _ := m.Connect(io.dialSucceeds);
      Insert(kind, m, desired);
      outcome := Success;
    }

    method Insert(kind: SessionKind, m: SSHTunnelManager, desired: SessionFlags)
      requires Valid() && kind !in managers
      requires m !in created && m.Valid() && m.capturing == capturing
      modifies this
      ensures Valid()
      ensures managers == old(managers)[kind := m] && flags == old(flags)[kind := desired]
      ensures created == old(created) + {m} && stopped == old(stopped)
      ensures View() == Pool(capturing, old(View()).managers[kind := m.View()], flags)
    {
      hide SSHTunnelManager.Valid, SSHTunnelManager.View, Partition;
      PartitionInsert(managers, flags, created, stopped, kind, m, desired);
      managers := managers[kind := m];
      flags := flags[kind := desired];
      created := created + {m};
      assert View().managers == old(View()).managers[kind := m.View()];
    }

    method Forget(kind: SessionKind)
      requires Valid() && kind in managers && !managers[kind].connected
      modifies this
      ensures Valid()
      ensures managers == old(managers) - {kind} && flags == old(flags) - {kind}
      ensures created == old(created) && stopped == old(stopped) + {old(managers)[kind]}
      ensures View() == Close(old(View()), kind)
    {
      hide SSHTunnelManager.Valid, SSHTunnelManager.View, Tunnel.Inv;
      PartitionForget(managers, flags, created, stopped, kind);
      stopped := stopped + {managers[kind]};
      managers := managers - {kind};
      flags := flags - {kind};
      assert View().managers == Close(old(View()), kind).managers;
    }

    method CloseManager(kind: SessionKind)
      requires Valid() && kind in managers
      modifies this, managers[kind]
      ensures Valid() && created == old(created)
      ensures View() == Close(old(View()), kind)
      ensures managers == old(managers) - {kind}
      ensures stopped == old(stopped) + {old(managers)[kind]}
    {
      hide SSHTunnelManager.Valid, SSHTunnelManager.View, Tunnel.Inv, Tunnel.Drop;
      managers[kind].Stop(map[]);
      label Closed:
      Forget(kind);
      assert old@Closed(View()).managers - {kind} == old(View()).managers - {kind};
    }

    method ReconcileKind(kind: SessionKind, want: bool, desired: SessionFlags, io: OpenIO) returns (outcome: Outcome)
      requires Valid()
      modifies this, managers.Values
      ensures Valid() && fresh(created - old(created)) && old(created) <= created
      ensures (View(), outcome) == Sessions.ReconcileKind(old(View()), kind, want, desired, io)
      ensures forall k | k != kind :: k in old(managers) <==> k in managers
      ensures forall k | k in managers && k != kind :: managers[k] == old(managers)[k] && flags[k] == old(flags)[k]
      ensures kind in managers ==> want && flags[kind] == desired
      ensures kind in managers ==>
                fresh(managers[kind]) || (kind in old(managers) && managers[kind] == old(managers)[kind])
      ensures kind in old(managers) && want && old(flags)[kind] == desired ==>
                managers == old(managers) && created == old(created) && stopped == old(stopped)
      ensures !want && kind !in old(managers) ==>
                managers == old(managers) && created == old(created) && stopped == old(stopped)
    {
      hide SSHTunnelManager.Valid, SSHTunnelManager.View, Tunnel.Inv, Tunnel.Connect, Fresh;
      if want && kind !in managers {
        outcome := OpenManager(kind, desired, io);
      } else if !want && kind in managers {
        CloseManager(kind);
        outcome := Success;
      } else if want && kind in managers && flags[kind] != desired {
        CloseManager(kind);
        outcome := OpenManager(kind, desired, io);
      } else {
        outcome := Success;
      }
    }

    /** A manager whose flags already are the wanted ones stays the same object; configuring
        what is configured creates and stops no manager. */
    method ConfigureSessions(ppVersion: int, sniEnabled: bool, ppIO: OpenIO, sniIO: OpenIO) returns (outcome: Outcome)
      requires Valid()
      modifies this, managers.Values
      ensures Valid() && fresh(created - old(created)) && old(created) <= created
      ensures (View(), outcome) == Sessions.ConfigureSessions(old(View()), ppVersion, sniEnabled, ppIO, sniIO)
      ensures outcome == Success ==>
                forall k | k in old(managers) && k in managers && old(flags)[k] == flags[k] ::
                  managers[k] == old(managers)[k]
      ensures SessionPlain in old(managers) ==>
              SessionPlain in managers && managers[SessionPlain] == old(managers)[SessionPlain]
      ensures (if ppVersion > 0
               then SessionProxyProto in old(flags) && old(flags)[SessionProxyProto] == SessionFlags(ppVersion, false)
               else SessionProxyProto !in old(flags)) &&
              (if sniEnabled then SessionSNIProxy in old(flags) && old(flags)[SessionSNIProxy] == SessionFlags(0, true)
               else SessionSNIProxy !in old(flags)) ==>
                managers == old(managers) && created == old(created) && stopped == old(stopped)
    {
      hide SSHTunnelManager.Valid, SSHTunnelManager.View, Tunnel.Inv, Sessions.ReconcileKind;
      outcome := ReconcileKind(SessionProxyProto, ppVersion > 0, SessionFlags(ppVersion, false), ppIO);
      if outcome != Success {
        return;
      }
      outcome := ReconcileKind(SessionSNIProxy, sniEnabled, SessionFlags(0, true), sniIO);
    }

    method StartForwarding(kind: SessionKind, fwd: ForwardingConfig, io: StartIO) returns (outcome: Outcome)
      requires Valid()
      modifies managers.Values
      ensures Valid()
      ensures (View(), outcome) == Sessions.StartForwarding(old(View()), kind, fwd, io)
    {
      hide SSHTunnelManager.Valid, SSHTunnelManager.View, Tunnel.Inv, Tunnel.Start;
      if kind !in managers {
        return SessionNotEnabled;
      }
      outcome := managers[kind].StartForwarding(fwd, io);
      assert View().managers == Sessions.StartForwarding(old(View()), kind, fwd, io).0.managers;
    }

    method StopForwarding(kind: SessionKind, host: string, port: int, reply: Reply) returns (outcome: Outcome)
      requires Valid()
      modifies managers.Values
      ensures Valid()
      ensures (View(), outcome) == Sessions.StopForwarding(old(View()), kind, ForwardingKey(host, port), reply)
    {
      hide SSHTunnelManager.Valid, SSHTunnelManager.View, Tunnel.Inv, Tunnel.Stop;
      if kind !in managers {
        return SessionNotEnabled;
      }
      outcome := managers[kind].StopForwarding(host, port, reply);
      assert View().managers == Sessions.StopForwarding(old(View()), kind, ForwardingKey(host, port), reply).0.managers;
    }

    method GetAssignedAddresses(kind: SessionKind, host: string, port: int) returns (uris: seq<string>)
      requires Valid()
      ensures uris == Sessions.GetAssignedAddresses(View(), kind, ForwardingKey(host, port))
    {
      if kind !in managers {
        return [];
      }
      uris := managers[kind].GetAssignedAddresses(host, port);
    }

    method IsConnected(kind: SessionKind) returns (connected: bool)
      requires Valid()
      ensures connected == Sessions.IsConnected(View(), kind)
    {
      if kind !in managers {
        return false;
      }
      connected := managers[kind].connected;
    }

    method Connect(dials: map<SessionKind, bool>)
      requires Valid()
      modifies managers.Values
      ensures Valid()
      ensures View() == Sessions.Connect(old(View()), dials)
    {
      hide SSHTunnelManager.Valid, SSHTunnelManager.View, Tunnel.Inv, Tunnel.Connect;
      ConnectEach(dials);
      assert View().managers == Sessions.Connect(old(View()), dials).managers;
    }

    method ConnectEach(dials: map<SessionKind, bool>)
      requires Valid()
      modifies managers.Values
      ensures Valid()
      ensures forall kind | kind in managers ::
                managers[kind].View() == Tunnel.Connect(old(managers[kind].View()), kind in dials && dials[kind]).0
    {
      hide SSHTunnelManager.Valid, SSHTunnelManager.View, Tunnel.Inv, Tunnel.Connect;
      var kinds := managers.Keys;
      while kinds != {}
        invariant kinds <= managers.Keys
        invariant Valid()
        invariant forall kind | kind in managers ::
                    managers[kind].View() ==
                    if kind in kinds then old(managers[kind].View())
                    else Tunnel.Connect(old(managers[kind].View()), kind in dials && dials[kind]).0
      {
        var kind :| kind in kinds;
        ConnectOne(managers[kind], kind in dials && dials[kind]);
        kinds := kinds - {kind};
      }
    }

    static method ConnectOne(m: SSHTunnelManager, dialSucceeds: bool)
      requires m.Valid()
      modifies m
      ensures m.Valid() && m.View() == Tunnel.Connect(old(m.View()), dialSucceeds).0
    {
      if !m.connected {
        var _ := m.Connect(dialSucceeds);
      }
    }

    method Stop()
      requires Valid()
      modifies this, managers.Values
      ensures Valid() && created == old(created) && stopped == created
      ensures View() == Occur(old(View()), StopAll)
    {
      hide SSHTunnelManager.Valid, SSHTunnelManager.View, Tunnel.Inv, Tunnel.Drop;
      var kinds := managers.Keys;
      while kinds != {}
        invariant kinds <= managers.Keys && managers == old(managers) && flags == old(flags)
        invariant created == old(created) && stopped == old(stopped)
        invariant Valid()
        invariant forall kind | kind in managers && kind !in kinds :: !managers[kind].connected
        modifies managers.Values
      {
        var kind :| kind in kinds;
        managers[kind].Stop(map[]);
        kinds := kinds - {kind};
      }
      forall m | m in created ensures !m.connected {
        assert m in stopped || m in managers.Values;
      }
      stopped := created;
      managers := map[];
      flags := map[];
      assert managers.Values == {} == created - stopped;
    }

    method DropConnection(kind: SessionKind)
      requires Valid()
      modifies managers.Values
      ensures Valid()
      ensures View() == OnManager(old(View()), kind, DropEvent)
    {
      hide SSHTunnelManager.Valid, SSHTunnelManager.View, Tunnel.Inv, Tunnel.Drop;
      if kind in managers {
        managers[kind].KeepaliveFailed();
        assert View().managers == OnManager(old(View()), kind, DropEvent).managers;
      }
    }

    method CancelOrphan(kind: SessionKind, pair: (string, int), reply: Reply)
      requires Valid()
      modifies managers.Values
      ensures Valid()
      ensures View() == OnManager(old(View()), kind, OrphanEvent(pair, reply))
    {
      hide SSHTunnelManager.Valid, SSHTunnelManager.View, Tunnel.Inv, Tunnel.CancelOrphan;
      if kind in managers {
        managers[kind].CancelOrphan(pair, reply);
        assert View().managers == OnManager(old(View()), kind, OrphanEvent(pair, reply)).managers;
      }
    }

    ghost method ServerDrift(kind: SessionKind, bound: set<(string, int)>)
      requires Valid()
      modifies managers.Values
      ensures Valid()
      ensures View() == OnManager(old(View()), kind, DriftEvent(bound))
    {
      hide SSHTunnelManager.Valid, SSHTunnelManager.View, Tunnel.Inv, Tunnel.Drift;
      if kind in managers {
        managers[kind].ServerDrift(bound);
        assert View().managers == OnManager(old(View()), kind, DriftEvent(bound)).managers;
      }
    }

    ghost method ServerLeftover(kind: SessionKind, pairs: set<(string, int)>)
      requires Valid()
      modifies managers.Values
      ensures Valid()
      ensures View() == OnManager(old(View()), kind, LeftoverEvent(pairs))
    {
      hide SSHTunnelManager.Valid, SSHTunnelManager.View, Tunnel.Inv, Tunnel.Leftover;
      if kind in managers {
        managers[kind].ServerLeftover(pairs);
        assert View().managers == OnManager(old(View()), kind, LeftoverEvent(pairs)).managers;
      }
    }

    /** The events other goroutines and the server may cause between two pool calls. */
    method Happen(e: PoolEvent)
      requires Valid()
      modifies this, created
      ensures Valid() && fresh(created - old(created)) && old(created) <= created
      ensures View() == Occur(old(View()), e)
    {
      hide SSHTunnelManager.Valid, SSHTunnelManager.View, Tunnel.Inv, Sessions.ConfigureSessions, Sessions.Connect,
           OnManager;
      match e {
        case Drop(kind) => DropConnection(kind);
        case Configure(ppVersion, sniEnabled, ppIO, sniIO) =>
          var _ := ConfigureSessions(ppVersion, sniEnabled, ppIO, sniIO);
        case ConnectAll(dials) => Connect(dials);
        case Orphan(kind, pair, reply) => CancelOrphan(kind, pair, reply);
        case Drift(kind, bound) => ServerDrift(kind, bound);
        case Leftover(kind, pairs) => ServerLeftover(kind, pairs);
        case StopAll => Stop();
      }
    }

    method HappenAll(events: seq<PoolEvent>)
      requires Valid()
      modifies this, created
      ensures Valid() && fresh(created - old(created)) && old(created) <= created
      ensures View() == Interfere(old(View()), events)
    {
      for i := 0 to |events|
        invariant Valid() && fresh(created - old(created)) && old(created) <= created
        invariant View() == Interfere(old(View()), events[..i])
      {
        assert events[..i + 1][..i] == events[..i];
        Happen(events[i]);
      }
      assert events[..|events|] == events;
    }
  }
}
