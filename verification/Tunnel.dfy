/** One SSH tunnel manager as a state machine: what each operation does to the two maps the
    manager keeps and to the bindings the server holds for the connection, for every
    behaviour of the server. Class SSHTunnelManager implements these functions. */
module Tunnel {
  import opened Text
  import opened HostMatch

  datatype ForwardingConfig = ForwardingConfig(
    remoteHost: string,
    remotePort: int,
    internalHost: string,
    internalPort: int,
    enforcePort: bool)
  {
    function Key(): string {
      ForwardingKey(remoteHost, remotePort)
    }
    function Pair(): (string, int) {
      (remoteHost, remotePort)
    }
    predicate NeedsCheck() {
      NeedsVerification(remoteHost, enforcePort)
    }
  }

  datatype Outcome =
    | Success
    | ClientNotReady
    | ForwardingExists
    | ForwardingNotFound
    | SessionNotEnabled
    | CaptureLost
    | InvalidPort
    | RequestDenied
    | RequestUnanswered
    | VerificationTimedOut
    | WrongHostAssigned
    | ConnectionFailed
    | ManagerNotBuilt

  // -------------------------------------------------------------- the server

  datatype Request = ForwardStart | ForwardCancel

  /** What becomes of one global request. An unanswered request may or may not have been
      carried out. */
  datatype Reply =
    | Accepted
    | Denied
    | TransportError(carriedOut: bool)
    | TimedOut(carriedOut: bool)
  {
    predicate Unanswered() {
      TransportError? || TimedOut?
    }
  }

  /** The server's side of one connection. `doubtful` holds the pairs whose state the client
      can no longer know: it only grows while the connection lasts. */
  datatype Server = Server(bound: set<(string, int)>, doubtful: set<(string, int)>)

  predicate ValidPort(port: int) {
    0 <= port <= 65535
  }

  /** One request on the wire, section 7.1 of RFC 4254: tcpip-forward binds the pair,
      cancel-tcpip-forward releases the pair named in the original request. */
  function Ask(server: Server, request: Request, pair: (string, int), reply: Reply): (Server, Outcome) {
    if !ValidPort(pair.1) then (server, InvalidPort)
    else
      var outcome :=
        if reply.Accepted? then Success else if reply.Denied? then RequestDenied else RequestUnanswered;
      var done := reply.Accepted? || (reply.Unanswered() && reply.carriedOut);
      match request
      case ForwardStart =>
        (Server(if done then server.bound + {pair} else server.bound,
                if reply.Unanswered() then server.doubtful + {pair} else server.doubtful),
         outcome)
      case ForwardCancel =>
        (Server(if done then server.bound - {pair} else server.bound,
                if !reply.Accepted? && pair in server.bound then server.doubtful + {pair} else server.doubtful),
         outcome)
  }

  // ------------------------------------------------------------- the manager

  datatype State = State(
    capturing: bool,                             // is a URI extractor installed?
    connected: bool,
    forwardings: map<string, ForwardingConfig>,
    assignedAddrs: map<string, seq<string>>,
    server: Server)

  const NO_SERVER := Server({}, {})

  function Fresh(capturing: bool): State {
    State(capturing, false, map[], map[], NO_SERVER)
  }

  /** The environment of one StartForwarding call: whether the capture session was ready
      before the connection ended, the replies to the requests it may send, the URI batches
      the server printed while it was registered as a waiter, and whether the verification
      timeout won. */
  datatype StartIO = StartIO(
    captureReady: bool,
    preemptiveCancel: Reply,
    start: Reply,
    emitted: seq<seq<string>>,
    verifyTimeout: bool,
    cleanupCancel: Reply)

  /** The batch the waiter reads, if it reads one. */
  function Received(io: StartIO): Option<seq<string>> {
    if io.verifyTimeout || io.emitted == [] then None else Some(io.emitted[0])
  }

  function Await(s: State, fwd: ForwardingConfig, io: StartIO): (State, Outcome) {
    match Received(io)
    case None =>
      if fwd.NeedsCheck() then
        (s.(server := Ask(s.server, ForwardCancel, fwd.Pair(), io.cleanupCancel).0), VerificationTimedOut)
      else (s, Success)
    case Some(uris) =>
      if fwd.NeedsCheck() && !MatchesRequestedHost(uris, fwd.remoteHost, fwd.remotePort, fwd.enforcePort) then
        (s.(server := Ask(s.server, ForwardCancel, fwd.Pair(), io.cleanupCancel).0), WrongHostAssigned)
      else (s.(assignedAddrs := s.assignedAddrs[fwd.Key() := uris]), Success)
  }

  function SendStart(s: State, fwd: ForwardingConfig, io: StartIO): (State, Outcome) {
    if !io.captureReady then (s, CaptureLost)
    else
      var cleared :=
        if fwd.enforcePort then Ask(s.server, ForwardCancel, fwd.Pair(), io.preemptiveCancel).0 else s.server;
      var (server, outcome) := Ask(cleared, ForwardStart, fwd.Pair(), io.start);
      var s1 := s.(server := server);
      if outcome != Success then (s1, outcome)
      else if !s.capturing then (s1, Success)
      else Await(s1, fwd, io)
  }

  function Start(s: State, fwd: ForwardingConfig, io: StartIO): (State, Outcome) {
    if !s.connected then (s, ClientNotReady)
    else if fwd.Key() in s.forwardings then (s, ForwardingExists)
    else
      var (s1, outcome) := SendStart(s, fwd, io);
      if outcome != Success then (s1, outcome)
      else (s1.(forwardings := s1.forwardings[fwd.Key() := fwd]), Success)
  }

  function Stop(s: State, key: string, reply: Reply): (State, Outcome) {
    if !s.connected then (s, ClientNotReady)
    else if key !in s.forwardings then (s, ForwardingNotFound)
    else
      var (server, outcome) := Ask(s.server, ForwardCancel, s.forwardings[key].Pair(), reply);
      (s.(forwardings := s.forwardings - {key}, assignedAddrs := s.assignedAddrs - {key}, server := server), outcome)
  }

  /** Closing the connection, on purpose or because a keepalive failed. */
  function Drop(s: State): State {
    if !s.connected then s
    else s.(connected := false, forwardings := map[], assignedAddrs := map[], server := NO_SERVER)
  }

  function Connect(s: State, dialSucceeds: bool): (State, Outcome) {
    if s.connected then (s, Success)
    else if dialSucceeds then (s.(connected := true), Success)
    else (s, ConnectionFailed)
  }

  /** A forwarded-tcpip channel arrived for a pair that was not registered, and the cancel
      it triggers runs later, without looking again. */
  function CancelOrphan(s: State, pair: (string, int), reply: Reply): State {
    if !s.connected then s else s.(server := Ask(s.server, ForwardCancel, pair, reply).0)
  }

  /** Requests already given up on may still take effect, and a server may forget bindings. */
  function Drift(s: State, bound: set<(string, int)>): State {
    if bound <= s.server.bound + s.server.doubtful then s.(server := s.server.(bound := bound)) else s
  }

  /** The server still holds bindings of earlier connections. Which ones the client cannot
      know; a cancel may release them, and a start of the same pair may be refused over them. */
  function Leftover(s: State, pairs: set<(string, int)>): State {
    if !s.connected || exists pair | pair in pairs :: !ValidPort(pair.1) then s
    else s.(server := Server(s.server.bound + pairs, s.server.doubtful + pairs))
  }

  /** The backend a forwarded-tcpip channel (section 7.2 of RFC 4254) is handed to. */
  function Dispatch(s: State, address: string, port: nat): Option<(string, int)> {
    var key := ForwardingKey(address, port);
    if key in s.forwardings then Some((s.forwardings[key].internalHost, s.forwardings[key].internalPort)) else None
  }

  function GetAssigned(s: State, key: string): seq<string> {
    if key in s.assignedAddrs then s.assignedAddrs[key] else []
  }

  // --------------------------------------------------------------- invariant

  function Pairs(forwardings: map<string, ForwardingConfig>): set<(string, int)> {
    set key | key in forwardings :: forwardings[key].Pair()
  }

  /** The forwardings are stored under their own keys and have ports the wire can carry. */
  ghost predicate WellKeyed(s: State) {
    forall key | key in s.forwardings ::
      key == s.forwardings[key].Key() && ValidPort(s.forwardings[key].remotePort)
  }

  /** Addresses are kept only for registered forwardings, and a registered forwarding that
      needs checking has addresses that pass its own check. */
  ghost predicate VerifiedPairing(s: State) {
    && s.assignedAddrs.Keys <= s.forwardings.Keys
    && (!s.capturing ==> s.assignedAddrs == map[])
    && (forall key | key in s.forwardings ::
          var fwd := s.forwardings[key];
          && (key in s.assignedAddrs ==> Accepts(s.assignedAddrs[key], fwd.remoteHost, fwd.remotePort, fwd.enforcePort))
          && (s.capturing && fwd.NeedsCheck() ==> key in s.assignedAddrs))
  }

  /** Whatever the server still binds is either registered or known to be in doubt. */
  ghost predicate NoSilentLeak(s: State) {
    s.server.bound <= Pairs(s.forwardings) + s.server.doubtful
  }

  ghost predicate EmptyWhenDown(s: State) {
    !s.connected ==> s.forwardings == map[] && s.assignedAddrs == map[] && s.server == NO_SERVER
  }

  ghost predicate Inv(s: State) {
    WellKeyed(s) && VerifiedPairing(s) && NoSilentLeak(s) && EmptyWhenDown(s)
  }

  // -------------------------------------------------------------------- runs

  datatype Event =
    | StartEvent(fwd: ForwardingConfig, io: StartIO)
    | StopEvent(host: string, port: int, reply: Reply)
    | DropEvent
    | ConnectEvent(dialSucceeds: bool)
    | OrphanEvent(orphan: (string, int), reply: Reply)
    | DriftEvent(bound: set<(string, int)>)
    | LeftoverEvent(pairs: set<(string, int)>)

  function Step(s: State, e: Event): State {
    match e
    case StartEvent(fwd, io) => Start(s, fwd, io).0
    case StopEvent(host, port, reply) => Stop(s, ForwardingKey(host, port), reply).0
    case DropEvent => Drop(s)
    case ConnectEvent(ok) => Connect(s, ok).0
    case OrphanEvent(pair, reply) => CancelOrphan(s, pair, reply)
    case DriftEvent(bound) => Drift(s, bound)
    case LeftoverEvent(pairs) => Leftover(s, pairs)
  }

  function Run(s: State, events: seq<Event>): State {
    if events == [] then s else Step(Run(s, events[..|events| - 1]), events[|events| - 1])
  }

  lemma PairsRemove(forwardings: map<string, ForwardingConfig>, key: string)
    requires key in forwardings
    requires forall k | k in forwardings :: k == forwardings[k].Key()
    ensures Pairs(forwardings - {key}) == Pairs(forwardings) - {forwardings[key].Pair()}
  {
    forall k | k in forwardings && k != key
      ensures forwardings[k].Pair() != forwardings[key].Pair()
    {
      assert forwardings[k].Key() != forwardings[key].Key();
    }
    var rest := forwardings - {key};
    forall p | p in Pairs(forwardings) - {forwardings[key].Pair()} ensures p in Pairs(rest) {
      var k :| k in forwardings && forwardings[k].Pair() == p;
      assert k in rest;
    }
    forall p | p in Pairs(rest) ensures p in Pairs(forwardings) - {forwardings[key].Pair()} {
      var k :| k in rest && rest[k].Pair() == p;
      assert k in forwardings;
    }
  }

  lemma PairsAdd(forwardings: map<string, ForwardingConfig>, fwd: ForwardingConfig)
    requires fwd.Key() !in forwardings
    ensures Pairs(forwardings[fwd.Key() := fwd]) == Pairs(forwardings) + {fwd.Pair()}
  {
    var key := fwd.Key();
    var more := forwardings[key := fwd];
    assert more[key].Pair() in Pairs(more);
    forall p | p in Pairs(forwardings) ensures p in Pairs(more) {
      var k :| k in forwardings && forwardings[k].Pair() == p;
      assert k in more && more[k] == forwardings[k];
    }
  }

  /** Will this start, once accepted, be cancelled because its addresses are missing or wrong? */
  predicate CleansUp(s: State, fwd: ForwardingConfig, io: StartIO) {
    && s.capturing && fwd.NeedsCheck()
    && (Received(io).None? ||
        !MatchesRequestedHost(Received(io).value, fwd.remoteHost, fwd.remotePort, fwd.enforcePort))
  }

  /** How a start moves the state, exit by exit: which exits there are, what each does to
      both maps, and what it may do to the server's bindings. */
  lemma StartCases(s: State, fwd: ForwardingConfig, io: StartIO)
    ensures var (s1, outcome) := Start(s, fwd, io);
            && s1.capturing == s.capturing && s1.connected == s.connected
            && (outcome == ClientNotReady <==> !s.connected)
            && (outcome == ForwardingExists <==> s.connected && fwd.Key() in s.forwardings)
            && (outcome == ClientNotReady || outcome == ForwardingExists || outcome == CaptureLost ==> s1 == s)
            && (outcome == Success <==>
                  && s.connected && fwd.Key() !in s.forwardings && io.captureReady
                  && ValidPort(fwd.remotePort) && io.start.Accepted? && !CleansUp(s, fwd, io))
            && (outcome == Success ==>
                  && s1.forwardings == s.forwardings[fwd.Key() := fwd]
                  && s1.assignedAddrs == (if s.capturing && Received(io).Some?
                                          then s.assignedAddrs[fwd.Key() := Received(io).value] else s.assignedAddrs)
                  && s1.server.bound == s.server.bound + {fwd.Pair()})
            && (outcome != Success ==> s1.forwardings == s.forwardings && s1.assignedAddrs == s.assignedAddrs)
            && (outcome != Success ==> s1.server.bound <= s.server.bound + ({fwd.Pair()} * s1.server.doubtful))
            && s.server.bound - {fwd.Pair()} <= s1.server.bound
            && s.server.doubtful <= s1.server.doubtful <= s.server.doubtful + {fwd.Pair()}
  {
    hide MatchesRequestedHost, NeedsVerification, ForwardingKey;
  }

  /** Which error a start ends with, in terms of what was asked and answered. */
  lemma StartOutcomes(s: State, fwd: ForwardingConfig, io: StartIO)
    ensures var outcome := Start(s, fwd, io).1;
            var asked := s.connected && fwd.Key() !in s.forwardings && io.captureReady && ValidPort(fwd.remotePort);
            var waited := asked && io.start.Accepted? && s.capturing && fwd.NeedsCheck();
            && (outcome == CaptureLost <==> s.connected && fwd.Key() !in s.forwardings && !io.captureReady)
            && (outcome == InvalidPort <==>
                  s.connected && fwd.Key() !in s.forwardings && io.captureReady && !ValidPort(fwd.remotePort))
            && (outcome == RequestDenied <==> asked && io.start == Denied)
            && (outcome == RequestUnanswered <==> asked && (io.start.TransportError? || io.start.TimedOut?))
            && (outcome == VerificationTimedOut <==> waited && (io.verifyTimeout || io.emitted == []))
            && (outcome == WrongHostAssigned <==>
                  && waited && !io.verifyTimeout && io.emitted != []
                  && !MatchesRequestedHost(io.emitted[0], fwd.remoteHost, fwd.remotePort, fwd.enforcePort))
            && outcome !in {ForwardingNotFound, SessionNotEnabled, ConnectionFailed, ManagerNotBuilt}
  {
    hide MatchesRequestedHost, NeedsVerification, ForwardingKey;
  }

  /** Every exit of a stop: both maps lose the key and nothing else, and the pair is released
      exactly as the server carries the cancel out. */
  lemma StopIsExact(s: State, key: string, reply: Reply)
    requires WellKeyed(s)
    ensures var (t, outcome) := Stop(s, key, reply);
            && (outcome == ClientNotReady <==> !s.connected)
            && (outcome == ForwardingNotFound <==> s.connected && key !in s.forwardings)
            && (outcome == ClientNotReady || outcome == ForwardingNotFound ==> t == s)
            && (s.connected && key in s.forwardings ==>
                  && t.connected && t.capturing == s.capturing
                  && t.forwardings == s.forwardings - {key} && t.assignedAddrs == s.assignedAddrs - {key}
                  && (outcome == Success <==> reply == Accepted)
                  && (outcome == RequestDenied <==> reply == Denied)
                  && (outcome == RequestUnanswered <==> reply.TransportError? || reply.TimedOut?)
                  && var pair := s.forwardings[key].Pair();
                     && (pair in t.server.bound <==>
                           pair in s.server.bound && reply != Accepted && !(reply.Unanswered() && reply.carriedOut))
                     && t.server.bound - {pair} == s.server.bound - {pair})
  {
  }

  /** An orphan cancel releases its pair exactly as the server carries it out, and touches
      nothing else. */
  lemma CancelOrphanIsExact(s: State, pair: (string, int), reply: Reply)
    ensures var t := CancelOrphan(s, pair, reply);
            && t.connected == s.connected && t.capturing == s.capturing
            && t.forwardings == s.forwardings && t.assignedAddrs == s.assignedAddrs
            && (!s.connected ==> t == s)
            && (s.connected && ValidPort(pair.1) ==>
                  && (pair in t.server.bound <==>
                        pair in s.server.bound && reply != Accepted && !(reply.Unanswered() && reply.carriedOut))
                  && t.server.bound - {pair} == s.server.bound - {pair})
  {
  }

  /** A manager is connected after Connect if it was before or its dial succeeded, and has
      nothing on a connection it did not have before. */
  lemma ConnectIsExact(s: State, dialSucceeds: bool)
    ensures var (t, outcome) := Connect(s, dialSucceeds);
            && (t.connected <==> s.connected || dialSucceeds)
            && (outcome == Success <==> t.connected) && (outcome == ConnectionFailed <==> !t.connected)
            && t.forwardings == s.forwardings && t.assignedAddrs == s.assignedAddrs && t.server == s.server
            && t.capturing == s.capturing
  {
  }

  /** A lost connection takes everything with it. */
  lemma DropIsExact(s: State)
    requires EmptyWhenDown(s)
    ensures Drop(s) == State(s.capturing, false, map[], map[], NO_SERVER)
  {
  }

  lemma StartKeepsInv(s: State, fwd: ForwardingConfig, io: StartIO)
    requires Inv(s)
    ensures Inv(Start(s, fwd, io).0)
  {
    if s.connected && fwd.Key() !in s.forwardings {
      StartCases(s, fwd, io);
      PairsAdd(s.forwardings, fwd);
    }
  }

  lemma StopKeepsInv(s: State, key: string, reply: Reply)
    requires Inv(s)
    ensures Inv(Stop(s, key, reply).0)
    ensures key !in Stop(s, key, reply).0.forwardings && key !in Stop(s, key, reply).0.assignedAddrs
  {
    if s.connected && key in s.forwardings {
      PairsRemove(s.forwardings, key);
    }
  }

  lemma StepKeepsInv(s: State, e: Event)
    requires Inv(s)
    ensures Inv(Step(s, e))
  {
    match e
    case StartEvent(fwd, io) => StartKeepsInv(s, fwd, io);
    case StopEvent(host, port, reply) => StopKeepsInv(s, ForwardingKey(host, port), reply);
    case _ =>
  }

  lemma FreshInv(capturing: bool)
    ensures Inv(Fresh(capturing))
  {
  }

  /** Every run keeps the verified pairing and leaks nothing silently, whatever the server
      prints, refuses, fails to answer or does late. */
  lemma {:induction false} RunsKeepInv(capturing: bool, events: seq<Event>)
    ensures Inv(Run(Fresh(capturing), events))
  {
    hide Inv;
    FreshInv(capturing);
    if events != [] {
      RunsKeepInv(capturing, events[..|events| - 1]);
      StepKeepsInv(Run(Fresh(capturing), events[..|events| - 1]), events[|events| - 1]);
    }
  }

  // ------------------------------------------------------------------- doubt

  /** Does this event leave the client unsure of the pair: by a start that was not answered,
      by a cancel that was not accepted while the server had the pair bound, or because it
      is left over from an earlier connection? */
  predicate Blurs(s: State, e: Event, pair: (string, int)) {
    && s.connected && ValidPort(pair.1)
    && match e
       case StartEvent(fwd, io) =>
         && fwd.Key() !in s.forwardings && io.captureReady && fwd.Pair() == pair
         && (|| io.start.Unanswered()
             || (fwd.enforcePort && !io.preemptiveCancel.Accepted? && pair in s.server.bound)
             || (io.start.Accepted? && CleansUp(s, fwd, io) && !io.cleanupCancel.Accepted?))
       case StopEvent(host, port, reply) =>
         (host, port) == pair && ForwardingKey(host, port) in s.forwardings && !reply.Accepted?
           && pair in s.server.bound
       case OrphanEvent(orphan, reply) => orphan == pair && !reply.Accepted? && pair in s.server.bound
       case LeftoverEvent(pairs) => pair in pairs && forall p | p in pairs :: ValidPort(p.1)
       case _ => false
  }

  /** While the connection lasts, a pair is in doubt after an event if and only if it was
      before, or the event blurs it. */
  lemma DoubtStep(s: State, e: Event, pair: (string, int))
    requires WellKeyed(s) && s.connected && Step(s, e).connected
    ensures pair in Step(s, e).server.doubtful <==> pair in s.server.doubtful || Blurs(s, e, pair)
  {
    hide MatchesRequestedHost, ForwardingKey, NeedsVerification;
    match e
    case StartEvent(fwd, io) => DoubtStart(s, fwd, io, pair);
    case StopEvent(host, port, reply) =>
      var key := ForwardingKey(host, port);
      if key in s.forwardings {
        ForwardingKeyInjective(host, port, s.forwardings[key].remoteHost, s.forwardings[key].remotePort);
      }
    case _ =>
  }

  lemma DoubtStart(s: State, fwd: ForwardingConfig, io: StartIO, pair: (string, int))
    requires s.connected
    ensures pair in Start(s, fwd, io).0.server.doubtful
            <==> pair in s.server.doubtful || Blurs(s, StartEvent(fwd, io), pair)
  {
    hide MatchesRequestedHost, ForwardingKey, NeedsVerification;
  }

  /** The event at position i blurred the pair, on the connection that is still up. */
  ghost predicate BlurredAt(capturing: bool, events: seq<Event>, pair: (string, int), i: nat) {
    && i < |events| && Blurs(Run(Fresh(capturing), events[..i]), events[i], pair)
    && forall j | i < j <= |events| :: Run(Fresh(capturing), events[..j]).connected
  }

  /** In every run the doubtful pairs are exactly those that some event of the current
      connection blurred. */
  lemma {:induction false} DoubtIsExplained(capturing: bool, events: seq<Event>, pair: (string, int))
    ensures pair in Run(Fresh(capturing), events).server.doubtful <==> exists i :: BlurredAt(capturing, events, pair, i)
  {
    hide Blurs, Step, Inv;
    if events == [] {
      FreshInv(capturing);
    } else {
      var n := |events| - 1;
      var before, s, e := events[..n], Run(Fresh(capturing), events[..n]), events[n];
      var t := Run(Fresh(capturing), events);
      assert events[..|events|] == events;
      DoubtIsExplained(capturing, before, pair);
      RunsKeepInv(capturing, before);
      RunsKeepInv(capturing, events);
      if !t.connected {
        DownHasNoServer(t);
      } else if !s.connected {
        ConnectingIsFresh(s, e);
        BlursConnected(s, e, pair);
        assert !Blurs(s, e, pair);
      } else {
        InvKeyed(s);
        DoubtStep(s, e, pair);
        forall i: nat | i < n ensures BlurredAt(capturing, before, pair, i) <==> BlurredAt(capturing, events, pair, i) {
          assert before[..i] == events[..i] && before[i] == events[i];
          assert forall j | i < j <= n :: before[..j] == events[..j];
        }
        assert BlurredAt(capturing, events, pair, n) <==> Blurs(s, e, pair);
      }
    }
  }

  lemma InvKeyed(s: State)
    ensures Inv(s) ==> WellKeyed(s)
  {
  }

  lemma DownHasNoServer(s: State)
    ensures Inv(s) && !s.connected ==> s.server == NO_SERVER
  {
  }

  lemma ConnectingIsFresh(s: State, e: Event)
    requires Inv(s) && !s.connected && Step(s, e).connected
    ensures Step(s, e).server == NO_SERVER
  {
  }

  lemma BlursConnected(s: State, e: Event, pair: (string, int))
    ensures Blurs(s, e, pair) ==> s.connected
  {
  }

  /** The point of the pre-emptive cancel: a pinned pair that the server holds, be it left over
      from an earlier connection or left by a lost request, is free again when the fresh
      request is made, so a refusal of that request leaves nothing bound. */
  lemma PreemptiveCancelReleases(s: State, fwd: ForwardingConfig, io: StartIO)
    requires s.connected && fwd.Key() !in s.forwardings && fwd.enforcePort && io.captureReady
    requires io.preemptiveCancel.Accepted? && io.start.Denied?
    ensures ValidPort(fwd.remotePort) ==> fwd.Pair() !in Start(s, fwd, io).0.server.bound
  {
  }

  /** Without it, or with its refusal, a binding left over outlives the refused request. */
  lemma LeftoverStays(s: State, pairs: set<(string, int)>, fwd: ForwardingConfig, io: StartIO)
    requires s.connected && fwd.Key() !in s.forwardings && fwd.Pair() in pairs
    requires forall pair | pair in pairs :: ValidPort(pair.1)
    requires io.start.Denied? && io.captureReady
    ensures var t := Start(Leftover(s, pairs), fwd, io).0;
            fwd.Pair() in t.server.bound
            <==> !fwd.enforcePort || io.preemptiveCancel.Denied?
                 || (io.preemptiveCancel.Unanswered() && !io.preemptiveCancel.carriedOut)
  {
  }

  // ----------------------------------------------- exact agreement of copies

  /** Manager and server hold the same bindings, and nothing is in doubt. */
  ghost predicate Agree(s: State) {
    s.server.bound == Pairs(s.forwardings) && s.server.doubtful == {}
  }

  /** The server answers every start, and honours every cancel of a pair it has bound. The
      pre-emptive cancel may be refused: it aims at bindings of earlier connections. */
  predicate Reliable(e: Event) {
    match e
    case StartEvent(_, io) => !io.start.Unanswered() && io.cleanupCancel.Accepted?
    case StopEvent(_, _, reply) => reply.Accepted?
    case OrphanEvent(_, reply) => reply.Accepted?
    case DriftEvent(_) => false
    case LeftoverEvent(_) => false
    case _ => true
  }

  /** The orphan cancel that finds its pair registered in the meantime. */
  predicate CancelsRegistered(s: State, e: Event) {
    e.OrphanEvent? && s.connected && ForwardingKey(e.orphan.0, e.orphan.1) in s.forwardings
  }

  /** On a reliable server each step keeps the two copies equal, unless it is an orphan
      cancel that hits a forwarding registered after the orphan channel was seen. */
  lemma ReliableStepAgrees(s: State, e: Event)
    requires Inv(s) && Agree(s) && Reliable(e)
    ensures Agree(Step(s, e)) <==> !CancelsRegistered(s, e)
  {
    match e
    case StartEvent(fwd, io) =>
      if s.connected && fwd.Key() !in s.forwardings {
        NotRegisteredNotPaired(s, fwd.Pair());
        PairsAdd(s.forwardings, fwd);
      }
    case StopEvent(host, port, reply) =>
      var key := ForwardingKey(host, port);
      if s.connected && key in s.forwardings {
        PairsRemove(s.forwardings, key);
      }
    case OrphanEvent(pair, reply) =>
      NotRegisteredNotPaired(s, pair);
      if CancelsRegistered(s, e) {
        var key := ForwardingKey(pair.0, pair.1);
        ForwardingKeyInjective(pair.0, pair.1, s.forwardings[key].remoteHost, s.forwardings[key].remotePort);
        assert pair == s.forwardings[key].Pair();
      }
    case _ =>
  }

  lemma NotRegisteredNotPaired(s: State, pair: (string, int))
    requires WellKeyed(s)
    ensures ForwardingKey(pair.0, pair.1) !in s.forwardings ==> pair !in Pairs(s.forwardings)
  {
    if pair in Pairs(s.forwardings) {
      var key :| key in s.forwardings && s.forwardings[key].Pair() == pair;
      assert key == ForwardingKey(pair.0, pair.1);
    }
  }

  /** Runs in which no orphan cancel hits a registered pair. */
  ghost predicate CleanRun(capturing: bool, events: seq<Event>) {
    forall i | 0 <= i < |events| ::
      Reliable(events[i]) && !CancelsRegistered(Run(Fresh(capturing), events[..i]), events[i])
  }

  /** At the end of every clean run the server binds exactly the registered pairs. */
  lemma {:induction false} CleanRunsAgree(capturing: bool, events: seq<Event>)
    requires CleanRun(capturing, events)
    ensures Agree(Run(Fresh(capturing), events))
  {
    if events != [] {
      var before := events[..|events| - 1];
      forall i | 0 <= i < |before|
        ensures Reliable(before[i]) && !CancelsRegistered(Run(Fresh(capturing), before[..i]), before[i])
      {
        assert before[..i] == events[..i] && before[i] == events[i];
      }
      CleanRunsAgree(capturing, before);
      RunsKeepInv(capturing, before);
      ReliableStepAgrees(Run(Fresh(capturing), before), events[|events| - 1]);
    }
  }

  /** Does this event, on a reliable server, make the copies differ after a clean run? */
  ghost predicate BreaksAgreement(capturing: bool, events: seq<Event>, e: Event) {
    && CleanRun(capturing, events) && Reliable(e)
    && CancelsRegistered(Run(Fresh(capturing), events), e)
    && !Agree(Step(Run(Fresh(capturing), events), e))
  }

  /** A clean run after which the next step makes the copies differ, on a reliable server: an
      orphan cancel was on its way while its pair was registered. */
  lemma DisagreementIsReachable(capturing: bool, fwd: ForwardingConfig)
    requires ValidPort(fwd.remotePort)
    ensures exists events, e :: BreaksAgreement(capturing, events, e)
  {
    var uris := [TCP + HostPort(fwd.remoteHost, fwd.remotePort)];
    var io := StartIO(true, Accepted, Accepted, [uris], false, Accepted);
    var events := [ConnectEvent(true), StartEvent(fwd, io)];
    var up := State(capturing, true, map[], map[], NO_SERVER);
    assert events[..2] == events && events[..1][..0] == [] && events[..2][..1] == events[..1];
    assert Run(Fresh(capturing), events[..1]) == up;
    ExactURIsAccepted(fwd);
    StartCases(up, fwd, io);
    var s, e := Run(Fresh(capturing), events), OrphanEvent(fwd.Pair(), Accepted);
    assert s == Start(up, fwd, io).0;
    assert CleanRun(capturing, events);
    CleanRunsAgree(capturing, events);
    RunsKeepInv(capturing, events);
    ReliableStepAgrees(s, e);
    assert BreaksAgreement(capturing, events, e);
  }

  lemma ExactURIsAccepted(fwd: ForwardingConfig)
    requires ValidPort(fwd.remotePort)
    ensures var uris := [TCP + HostPort(fwd.remoteHost, fwd.remotePort)];
            fwd.NeedsCheck() ==> MatchesRequestedHost(uris, fwd.remoteHost, fwd.remotePort, fwd.enforcePort)
  {
    if WildcardHost(fwd.remoteHost) {
      PinnedPortIsExact(fwd.remoteHost, fwd.remotePort, fwd.remoteHost, fwd.remotePort);
    } else {
      ExactTCPURIAccepted(fwd.remoteHost, fwd.remotePort, fwd.enforcePort);
    }
  }

  // ---------------------------------------------------------------- dispatch

  /** A channel is handed to a backend exactly when its own (address, port) pair is
      registered, and then to the backend of that registration. */
  lemma DispatchIsExact(s: State, address: string, port: nat, backend: (string, int))
    requires WellKeyed(s)
    ensures Dispatch(s, address, port) == Some(backend)
            <==> exists key | key in s.forwardings ::
                   && s.forwardings[key].Pair() == (address, port)
                   && (s.forwardings[key].internalHost, s.forwardings[key].internalPort) == backend
  {
    var own := ForwardingKey(address, port);
    forall key | key in s.forwardings ensures key == own <==> s.forwardings[key].Pair() == (address, port) {
      ForwardingKeyInjective(s.forwardings[key].remoteHost, s.forwardings[key].remotePort, address, port);
    }
  }
}
