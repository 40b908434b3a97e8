/** The SSH tunnel manager: one connection, its forwardings and the addresses assigned to
    them. Each method is one critical section under clientMu; what the network does in it
    is a parameter. The methods implement the state machine of module Tunnel. */
module TunnelManager {
  import opened Text
  import opened HostMatch
  import opened Tunnel
  import opened Waiters
  import DialErrors

  class SSHTunnelManager {
    const capturing: bool
    var connected: bool
    var hasClient: bool
    var forwardings: map<string, ForwardingConfig>
    var assignedAddrs: map<string, seq<string>>
    var addrNotifications: map<string, seq<seq<string>>>
    var dialErrors: DialErrors.Table
    ghost var server: Server

    ghost function View(): (s: State)
      reads this
      ensures s.capturing == capturing && s.connected == connected
    {
      State(capturing, connected, forwardings, assignedAddrs, server)
    }

    ghost predicate Valid()
      reads this
    {
      hasClient == connected && addrNotifications == map[] && Inv(View())
    }

    constructor (capturing: bool)
      ensures Valid() && View() == Fresh(capturing) && dialErrors == map[] && this.capturing == capturing
    {
      this.capturing := capturing;
      connected, hasClient := false, false;
      forwardings, assignedAddrs, addrNotifications, dialErrors := map[], map[], map[], map[];
      server := NO_SERVER;
    }

    method Connect(dialSucceeds: bool) returns (outcome: Outcome)
      requires Valid()
      modifies this
      ensures Valid()
      ensures (View(), outcome) == Tunnel.Connect(old(View()), dialSucceeds)
      ensures dialErrors == old(dialErrors)
    {
      if connected {
        return Success;
      }
      if !dialSucceeds {
        return ConnectionFailed;
      }
      hasClient, connected := true, true;
      return Success;
    }

    method CloseClient()
      requires hasClient == connected
      modifies this
      ensures hasClient == connected == false
      ensures old(connected) ==> forwardings == map[] && assignedAddrs == map[] && server == NO_SERVER
      ensures !old(connected) ==>
                forwardings == old(forwardings) && assignedAddrs == old(assignedAddrs) && server == old(server)
      ensures addrNotifications == old(addrNotifications) && dialErrors == old(dialErrors)
    {
      if !connected {
        return;
      }
      connected := false;
      hasClient := false;
      server := NO_SERVER;
      assignedAddrs := map[];
      forwardings := map[];
    }

    /** The keepalive of the connection failed or timed out. */
    method KeepaliveFailed()
      requires Valid()
      modifies this
      ensures Valid()
      ensures View() == Drop(old(View()))
      ensures dialErrors == old(dialErrors)
    {
      CloseClient();
    }

    method SendForwardingOnce(pair: (string, int), request: Request, reply: Reply) returns (outcome: Outcome)
      modifies this`server
      ensures (server, outcome) == Ask(old(server), request, pair, reply)
    {
      if pair.1 < 0 || pair.1 > 65535 {
        return InvalidPort;
      }
      server := Ask(server, request, pair, reply).0;
      match reply {
        case Accepted => outcome := Success;
        case Denied => outcome := RequestDenied;
        case _ => outcome := RequestUnanswered;
      }
    }

    /** Sends extracted URIs to every registered waiter. */
    method NotifyURIWaiters(uris: seq<string>)
      modifies this`addrNotifications
      ensures addrNotifications == map key | key in old(addrNotifications) :: Push(old(addrNotifications)[key], uris)
    {
      var channels := addrNotifications.Keys;
      while channels != {}
        invariant channels <= addrNotifications.Keys == old(addrNotifications).Keys
        invariant forall key | key in addrNotifications ::
                    addrNotifications[key] ==
                    if key in channels then old(addrNotifications)[key] else Push(old(addrNotifications)[key], uris)
      {
        var key :| key in channels;
        if |addrNotifications[key]| < CHANNEL_SIZE {
          addrNotifications := addrNotifications[key := addrNotifications[key] + [uris]];
        }
        channels := channels - {key};
      }
    }

    /** The server prints, batch by batch, while this waiter is the only one registered. */
    method ServerOutput(key: string, emitted: seq<seq<string>>)
      requires addrNotifications == map[key := []]
      modifies this`addrNotifications
      ensures addrNotifications == map[key := FirstFew(emitted)]
    {
      for i := 0 to |emitted|
        invariant addrNotifications == map[key := FirstFew(emitted[..i])]
      {
        PushFirstFew(emitted[..i], emitted[i]);
        assert emitted[..i + 1] == emitted[..i] + [emitted[i]];
        NotifyURIWaiters(emitted[i]);
      }
      assert emitted[..|emitted|] == emitted;
    }

    method AwaitAssignedAddresses(fwd: ForwardingConfig, notifications: seq<seq<string>>, io: StartIO)
      returns (outcome: Outcome)
      requires io.emitted == [] <==> notifications == []
      requires notifications != [] ==> notifications[0] == io.emitted[0]
      modifies this`server, this`assignedAddrs
      ensures (View(), outcome) == Await(old(View()), fwd, io)
    {
      var hostnameSpecific :=
        fwd.remoteHost != "" && fwd.remoteHost != "0.0.0.0" && fwd.remoteHost != "localhost";
      var needsVerification := hostnameSpecific || fwd.enforcePort;
      if io.verifyTimeout || notifications == [] {
        if needsVerification {
          var _ := SendForwardingOnce(fwd.Pair(), ForwardCancel, io.cleanupCancel);
          return VerificationTimedOut;
        }
        return Success;
      }
      var uris := notifications[0];
      if needsVerification && !MatchesRequestedHost(uris, fwd.remoteHost, fwd.remotePort, fwd.enforcePort) {
        var _ := SendForwardingOnce(fwd.Pair(), ForwardCancel, io.cleanupCancel);
        return WrongHostAssigned;
      }
      assignedAddrs := assignedAddrs[fwd.Key() := uris];
      return Success;
    }

    method SendStart(fwd: ForwardingConfig, io: StartIO) returns (outcome: Outcome)
      requires addrNotifications == map[]
      modifies this`server, this`assignedAddrs, this`addrNotifications
      ensures (View(), outcome) == Tunnel.SendStart(old(View()), fwd, io)
      ensures addrNotifications == map[]
    {
      if !io.captureReady {
        return CaptureLost;
      }
      var key := fwd.Key();
      if capturing {
        // Registered before the request is sent: the server may print the address first.
        addrNotifications := addrNotifications[key := []];
        ServerOutput(key, io.emitted);
      }
      if fwd.enforcePort {
        var _ := SendForwardingOnce(fwd.Pair(), ForwardCancel, io.preemptiveCancel);
      }
      outcome := SendForwardingOnce(fwd.Pair(), ForwardStart, io.start);
      if outcome == Success && capturing {
        outcome := AwaitAssignedAddresses(fwd, addrNotifications[key], io);
      }
      if capturing {
        addrNotifications := addrNotifications - {key};
      }
    }

    method StartForwarding(fwd: ForwardingConfig, io: StartIO) returns (outcome: Outcome)
      requires Valid()
      modifies this
      ensures Valid()
      ensures (View(), outcome) == Start(old(View()), fwd, io)
      ensures dialErrors == old(dialErrors)
    {
      StartKeepsInv(View(), fwd, io);
      if !connected || !hasClient {
        return ClientNotReady;
      }
      var key := fwd.Key();
      if key in forwardings {
        return ForwardingExists;
      }
      outcome := SendStart(fwd, io);
      if outcome == Success {
        forwardings := forwardings[key := fwd];
      }
    }

    method StopForwarding(host: string, port: int, reply: Reply) returns (outcome: Outcome)
      requires Valid()
      modifies this
      ensures Valid()
      ensures (View(), outcome) == Tunnel.Stop(old(View()), ForwardingKey(host, port), reply)
      ensures outcome != ClientNotReady && outcome != ForwardingNotFound ==>
                var fwd := old(forwardings)[ForwardingKey(host, port)];
                dialErrors == DialErrors.RecordSuccess(old(dialErrors),
                  JoinHostPort(fwd.internalHost, Decimal(fwd.internalPort)))
      ensures outcome == ClientNotReady || outcome == ForwardingNotFound ==> dialErrors == old(dialErrors)
    {
      StopKeepsInv(View(), ForwardingKey(host, port), reply);
      if !connected || !hasClient {
        return ClientNotReady;
      }
      var key := ForwardingKey(host, port);
      if key !in forwardings {
        return ForwardingNotFound;
      }
      var session := forwardings[key];
      forwardings := forwardings - {key};
      assignedAddrs := assignedAddrs - {key};
      RecordBackendDialSuccess(JoinHostPort(session.internalHost, Decimal(session.internalPort)));
      outcome := SendForwardingOnce(session.Pair(), ForwardCancel, reply);
    }

    /** Cancels every forwarding and closes the connection; the replies do not matter. */
    method Stop(replies: map<string, Reply>)
      requires Valid()
      modifies this
      ensures Valid() && !connected
      ensures View() == Drop(old(View()))
      ensures dialErrors == old(dialErrors)
    {
      if hasClient && connected {
        var keys := forwardings.Keys;
        while keys != {}
          invariant keys <= forwardings.Keys
          modifies this`server
        {
          var key :| key in keys;
          var _ := SendForwardingOnce(
            forwardings[key].Pair(), ForwardCancel, if key in replies then replies[key] else Denied);
          keys := keys - {key};
        }
      }
      forwardings := map[];
      CloseClient();
    }

    method CancelOrphan(pair: (string, int), reply: Reply)
      requires Valid()
      modifies this`server
      ensures Valid()
      ensures View() == Tunnel.CancelOrphan(old(View()), pair, reply)
    {
      StepKeepsInv(View(), OrphanEvent(pair, reply));
      if !connected || !hasClient {
        return;
      }
      var _ := SendForwardingOnce(pair, ForwardCancel, reply);
    }

    /** Late effects of unanswered requests, and bindings the server forgot. */
    ghost method ServerDrift(bound: set<(string, int)>)
      requires Valid()
      modifies this`server
      ensures Valid()
      ensures View() == Drift(old(View()), bound)
    {
      StepKeepsInv(View(), DriftEvent(bound));
      server := Drift(View(), bound).server;
    }

    /** Bindings of earlier connections that the server still holds. */
    ghost method ServerLeftover(pairs: set<(string, int)>)
      requires Valid()
      modifies this`server
      ensures Valid()
      ensures View() == Leftover(old(View()), pairs)
    {
      StepKeepsInv(View(), LeftoverEvent(pairs));
      server := Leftover(View(), pairs).server;
    }

    /** The forwarding lookup for a forwarded-tcpip channel. */
    method HandleChannel(address: string, port: nat) returns (backend: Option<(string, int)>)
      ensures backend == Dispatch(View(), address, port)
    {
      var key := ForwardingKey(address, port);
      if key in forwardings {
        return Some((forwardings[key].internalHost, forwardings[key].internalPort));
      }
      return None;
    }

    method GetAssignedAddresses(host: string, port: int) returns (uris: seq<string>)
      ensures uris == GetAssigned(View(), ForwardingKey(host, port))
    {
      var key := ForwardingKey(host, port);
      if key in assignedAddrs {
        return assignedAddrs[key];
      }
      return [];
    }

    method RecordBackendDialSuccess(backend: string)
      modifies this`dialErrors
      ensures dialErrors == DialErrors.RecordSuccess(old(dialErrors), backend)
    {
      dialErrors := dialErrors - {backend};
    }

    method LogBackendDialError(backend: string, now: int) returns (line: DialErrors.LogLine)
      modifies this`dialErrors
      ensures (dialErrors, line) == DialErrors.LogDialError(old(dialErrors), backend, now)
    {
      var stats := DialErrors.Stats(None, 0);
      if backend in dialErrors {
        stats := dialErrors[backend];
      }
      var shouldLogWarn := stats.lastLogged.None? || now - stats.lastLogged.value >= DialErrors.COOLDOWN;
      if shouldLogWarn {
        line := DialErrors.Warn(stats.suppressed);
        stats := DialErrors.Stats(Some(now), 0);
      } else {
        line := DialErrors.Debug;
        stats := stats.(suppressed := stats.suppressed + 1);
      }
      dialErrors := dialErrors[backend := stats];
    }
  }
}
