/** Whose addresses a forwarding gets. The server reports on each request it carried out, but
    a report names no request: the waiter takes the first batch that is printed while it
    waits, which can be the late report on an earlier request. */
module Reports {
  import opened Text
  import opened HostMatch
  import opened Tunnel

  /** A printed batch, with the pair whose request it is about. */
  datatype Report = Report(origin: (string, int), uris: seq<string>)

  function Batches(printed: seq<Report>): (batches: seq<seq<string>>)
    ensures |batches| == |printed| && forall i | 0 <= i < |printed| :: batches[i] == printed[i].uris
  {
    seq(|printed|, i requires 0 <= i < |printed| => printed[i].uris)
  }

  /** `unreported` holds the pairs whose request was carried out on this connection and not
      yet reported on; `source` is history: whose report the stored addresses came from. */
  datatype World = World(manager: State, unreported: set<(string, int)>, source: map<string, (string, int)>)

  datatype Action =
    | Begin(fwd: ForwardingConfig, io: StartIO, printed: seq<Report>)
    | Unheard(origin: (string, int))          // a report printed while nobody waits
    | Others(event: Event)                    // anything but a start

  /** Does the call get as far as sending its start request? */
  predicate Sends(m: State, fwd: ForwardingConfig, io: StartIO) {
    m.connected && fwd.Key() !in m.forwardings && io.captureReady && ValidPort(fwd.remotePort)
  }

  function CarriedOut(m: State, fwd: ForwardingConfig, io: StartIO): set<(string, int)> {
    if Sends(m, fwd, io) && (io.start.Accepted? || (io.start.Unanswered() && io.start.carriedOut)) then {fwd.Pair()}
    else {}
  }

  /** What the server can print during a call: reports that are due, each once. */
  ghost predicate Due(w: World, fwd: ForwardingConfig, io: StartIO, printed: seq<Report>) {
    && io.emitted == Batches(printed)
    && (forall i | 0 <= i < |printed| :: printed[i].origin in w.unreported + CarriedOut(w.manager, fwd, io))
    && (forall i, j | 0 <= i < j < |printed| :: printed[i].origin != printed[j].origin)
  }

  /** Does the call store addresses? Then they are the first batch printed. */
  predicate Stores(m: State, fwd: ForwardingConfig, io: StartIO) {
    m.capturing && Start(m, fwd, io).1 == Success && Received(io).Some?
  }

  function Kept(source: map<string, (string, int)>, m: State): map<string, (string, int)> {
    map key | key in source && key in m.assignedAddrs :: source[key]
  }

  /** One step; an action whose guard fails changes nothing. */
  ghost function Step(w: World, a: Action): World {
    match a
    case Begin(fwd, io, printed) =>
      if !Due(w, fwd, io, printed) then w
      else
        var m := Start(w.manager, fwd, io).0;
        var heard := set i | 0 <= i < |printed| :: printed[i].origin;
        World(m, (w.unreported + CarriedOut(w.manager, fwd, io)) - heard,
              if Stores(w.manager, fwd, io) then w.source[fwd.Key() := printed[0].origin] else w.source)
    case Unheard(origin) => w.(unreported := w.unreported - {origin})
    case Others(event) =>
      if event.StartEvent? then w
      else
        var m := Tunnel.Step(w.manager, event);
        var late := if event.DriftEvent? then m.server.bound - w.manager.server.bound else {};
        World(m, if m.connected then w.unreported + late else {}, Kept(w.source, m))
  }

  const INITIAL := World(Fresh(true), {}, map[])

  ghost function Run(actions: seq<Action>): World {
    if actions == [] then INITIAL else Step(Run(actions[..|actions| - 1]), actions[|actions| - 1])
  }

  // ---------------------------------------------------------------- one call

  /** The addresses are the forwarding's own, or pass its check. */
  predicate Suits(fwd: ForwardingConfig, report: Report) {
    || report.origin == fwd.Pair()
    || (fwd.NeedsCheck() && MatchesRequestedHost(report.uris, fwd.remoteHost, fwd.remotePort, fwd.enforcePort))
  }

  /** A report on another pair that comes first. */
  function LateReport(origin: (string, int)): seq<Report> {
    [Report(origin, ["http://late"])]
  }

  /** Is there nothing the server may print in this call that would be stored and not suit? */
  ghost predicate AlwaysSuits(w: World, fwd: ForwardingConfig) {
    forall io, printed | Due(w, fwd, io, printed) && Stores(w.manager, fwd, io) :: Suits(fwd, printed[0])
  }

  /** Whatever the server prints, the addresses a call stores suit it, if and only if the
      request needs checking or no report on another pair is outstanding. */
  lemma SuitsIffNothingOutstanding(w: World, fwd: ForwardingConfig)
    requires w.manager.capturing && w.manager.connected && fwd.Key() !in w.manager.forwardings
    requires ValidPort(fwd.remotePort)
    ensures AlwaysSuits(w, fwd) <==> fwd.NeedsCheck() || w.unreported <= {fwd.Pair()}
  {
    if fwd.NeedsCheck() || w.unreported <= {fwd.Pair()} {
      forall io, printed | Due(w, fwd, io, printed) && Stores(w.manager, fwd, io) ensures Suits(fwd, printed[0]) {
        StoredSuits(w, fwd, io, printed);
      }
    } else {
      var origin :| origin in w.unreported && origin != fwd.Pair();
      var printed := LateReport(origin);
      var io := StartIO(true, Accepted, Accepted, Batches(printed), false, Accepted);
      LateIsStored(w, fwd, io, printed);
    }
  }

  lemma StoredSuits(w: World, fwd: ForwardingConfig, io: StartIO, printed: seq<Report>)
    requires Due(w, fwd, io, printed) && Stores(w.manager, fwd, io)
    ensures printed != []
    ensures fwd.NeedsCheck() || w.unreported <= {fwd.Pair()} ==> Suits(fwd, printed[0])
  {
    hide MatchesRequestedHost, NeedsVerification, ForwardingKey;
    StartCases(w.manager, fwd, io);
    assert printed[0].origin in w.unreported + CarriedOut(w.manager, fwd, io);
  }

  lemma LateIsStored(w: World, fwd: ForwardingConfig, io: StartIO, printed: seq<Report>)
    requires w.manager.capturing && w.manager.connected && fwd.Key() !in w.manager.forwardings
    requires ValidPort(fwd.remotePort) && !fwd.NeedsCheck()
    requires |printed| == 1 && printed[0].origin in w.unreported
    requires io == StartIO(true, Accepted, Accepted, Batches(printed), false, Accepted)
    ensures Due(w, fwd, io, printed) && Stores(w.manager, fwd, io)
  {
    hide MatchesRequestedHost, NeedsVerification, ForwardingKey;
    StartCases(w.manager, fwd, io);
  }

  // -------------------------------------------------------------------- runs

  /** Addresses are stored from a known source, and where the source is another request the
      forwarding needs checking, and they pass. */
  ghost predicate SourcesOK(w: World) {
    && w.source.Keys == w.manager.assignedAddrs.Keys
    && forall key | key in w.source && key in w.manager.forwardings ::
         var fwd := w.manager.forwardings[key];
         w.source[key] == fwd.Pair() || fwd.NeedsCheck()
  }

  ghost predicate Inv(w: World) {
    Tunnel.Inv(w.manager) && w.manager.capturing && SourcesOK(w)
  }

  /** An unverified forwarding is started only while no report on another pair is due. */
  predicate Patient(w: World, a: Action) {
    a.Begin? ==> a.fwd.NeedsCheck() || w.unreported <= {a.fwd.Pair()}
  }

  lemma BeginKeepsInv(w: World, a: Action)
    requires Inv(w) && a.Begin? && Patient(w, a)
    ensures Inv(Step(w, a))
  {
    var fwd, io, printed := a.fwd, a.io, a.printed;
    hide Due, Tunnel.Inv, SourcesOK, Start, CarriedOut;
    if Due(w, fwd, io, printed) {
      StartKeepsInv(w.manager, fwd, io);
      StartCases(w.manager, fwd, io);
      BeginKeepsSources(w, fwd, io, printed);
    }
  }

  lemma BeginKeepsSources(w: World, fwd: ForwardingConfig, io: StartIO, printed: seq<Report>)
    requires Inv(w) && Patient(w, Begin(fwd, io, printed)) && Due(w, fwd, io, printed)
    ensures SourcesOK(Step(w, Begin(fwd, io, printed)))
  {
    StartCases(w.manager, fwd, io);
    ManagerPairs(w.manager);
    hide Due, Tunnel.Inv, Start, MatchesRequestedHost, NeedsVerification, ForwardingKey, CarriedOut, ValidPort;
    if Stores(w.manager, fwd, io) {
      StoredSuits(w, fwd, io, printed);
    }
  }

  lemma ManagerPairs(m: State)
    requires Tunnel.Inv(m)
    ensures m.assignedAddrs.Keys <= m.forwardings.Keys
  {
  }

  lemma OthersKeepInv(w: World, a: Action)
    requires Inv(w) && a.Others? && !a.event.StartEvent?
    ensures Inv(Step(w, a))
  {
    Tunnel.StepKeepsInv(w.manager, a.event);
    OtherEventsShrink(w.manager, a.event);
    hide Tunnel.Inv, Tunnel.Step;
  }

  lemma OtherEventsShrink(m: State, e: Event)
    requires Tunnel.Inv(m) && !e.StartEvent?
    ensures var n := Tunnel.Step(m, e);
            && n.capturing == m.capturing
            && n.assignedAddrs.Keys <= m.assignedAddrs.Keys
            && (forall key | key in n.forwardings :: key in m.forwardings && n.forwardings[key] == m.forwardings[key])
  {
  }

  /** In every run that starts unverified forwardings only while no other report is due, each
      stored address list was reported for its own forwarding, or passed its check. */
  lemma {:induction false} PatientRunsKeepInv(actions: seq<Action>)
    requires forall i | 0 <= i < |actions| :: Patient(Run(actions[..i]), actions[i])
    ensures Inv(Run(actions))
  {
    hide Step, Inv, Patient;
    if actions == [] {
      InitialInv();
    } else {
      var n := |actions| - 1;
      forall i | 0 <= i < n ensures Patient(Run(actions[..n][..i]), actions[..n][i]) {
        assert actions[..n][..i] == actions[..i] && actions[..n][i] == actions[i];
      }
      PatientRunsKeepInv(actions[..n]);
      StepKeepsInv(Run(actions[..n]), actions[n]);
    }
  }

  lemma InitialInv()
    ensures Inv(INITIAL)
  {
  }

  lemma StepKeepsInv(w: World, a: Action)
    requires Inv(w) && Patient(w, a)
    ensures Inv(Step(w, a))
  {
    if a.Begin? {
      BeginKeepsInv(w, a);
    } else if a.Others? && !a.event.StartEvent? {
      OthersKeepInv(w, a);
    }
  }

  /** A forwarding that needs no checking shows the addresses reported for another. */
  ghost predicate Misattributed(w: World, fwd: ForwardingConfig, other: ForwardingConfig) {
    && fwd.Key() in w.manager.forwardings && w.manager.forwardings[fwd.Key()] == fwd && !fwd.NeedsCheck()
    && fwd.Key() in w.source && w.source[fwd.Key()] == other.Pair() != fwd.Pair()
    && fwd.Key() in w.manager.assignedAddrs
  }

  /** Such a run: the first start gives up waiting, and its report comes while the second one
      waits. */
  lemma MisattributionIsReachable(first: ForwardingConfig, second: ForwardingConfig)
    requires first.Pair() != second.Pair() && !first.NeedsCheck() && !second.NeedsCheck()
    requires ValidPort(first.remotePort) && ValidPort(second.remotePort)
    ensures exists actions :: Misattributed(Run(actions), second, first)
  {
    hide MatchesRequestedHost, NeedsVerification, ForwardingKey;
    var quiet := StartIO(true, Accepted, Accepted, [], true, Accepted);
    var printed := LateReport(first.Pair());
    var late := StartIO(true, Accepted, Accepted, Batches(printed), false, Accepted);
    var a1 := Extend([], Others(ConnectEvent(true)));
    var w1 := Run(a1);
    var a2 := Extend(a1, Begin(first, quiet, []));
    assert Due(w1, first, quiet, []);
    StartCases(w1.manager, first, quiet);
    var w2 := Run(a2);
    assert first.Pair() in w2.unreported;
    ForwardingKeyInjective(first.remoteHost, first.remotePort, second.remoteHost, second.remotePort);
    LateIsStored(w2, second, late, printed);
    StartCases(w2.manager, second, late);
    var a3 := Extend(a2, Begin(second, late, printed));
    assert Misattributed(Run(a3), second, first);
  }

  lemma Extend(actions: seq<Action>, last: Action) returns (longer: seq<Action>)
    ensures Run(longer) == Step(Run(actions), last)
  {
    longer := actions + [last];
    assert longer[..|actions|] == actions;
  }
}
