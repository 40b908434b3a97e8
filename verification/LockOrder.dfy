/** Deadlock freedom of the controller's locks. A goroutine runs a program of nested critical
    sections; a system is any number of goroutines. Locks are Go's: a Mutex is always taken
    for writing, an RWMutex may make readers wait behind a waiting writer. */
module LockOrder {

  datatype Lock =
    | GatewaysMu
    | ListenersMu(gateway: nat)
    | PoolMu
    | ClientMu(manager: nat)
    | AddrNotifMu(manager: nat)
    | DialErrorsMu(manager: nat)
  {
    function Rank(): nat {
      match this
      case GatewaysMu => 0
      case ListenersMu(_) => 1
      case PoolMu => 2
      case ClientMu(_) => 3
      case AddrNotifMu(_) => 4
      case DialErrorsMu(_) => 4
    }
  }

  datatype Mode = Read | Write

  /** Branches and loops are nondeterministic: every path of the code is a path here. */
  datatype Prog =
    | Skip
    | With(lock: Lock, mode: Mode, body: Prog)
    | Then(first: Prog, second: Prog)
    | Either(left: Prog, right: Prog)
    | Loop(body: Prog)

  /** Locks are taken in strictly increasing rank, from `floor` up. */
  predicate Ordered(p: Prog, floor: nat) {
    match p
    case Skip => true
    case With(lock, _, body) => lock.Rank() >= floor && Ordered(body, lock.Rank() + 1)
    case Then(first, second) => Ordered(first, floor) && Ordered(second, floor)
    case Either(left, right) => Ordered(left, floor) && Ordered(right, floor)
    case Loop(body) => Ordered(body, floor)
  }

  // ------------------------------------------------------------- goroutines

  /** What a goroutine still has to do, next item first. It has called Lock or RLock and not
      come back from it while Await is next; the locks it holds are those it still has to
      release. */
  datatype Item =
    | Do(prog: Prog)
    | Await(lock: Lock, mode: Mode, body: Prog)
    | Unlock(lock: Lock, mode: Mode)

  type Thread = seq<Item>
  type System = seq<Thread>

  predicate Holds(t: Thread, lock: Lock, mode: Mode) {
    Unlock(lock, mode) in t
  }

  predicate WantsLock(t: Thread) {
    t != [] && t[0].Await?
  }

  predicate WaitsToWrite(t: Thread, lock: Lock) {
    WantsLock(t) && t[0].lock == lock && t[0].mode == Write
  }

  /** Does goroutine t hold the lock in a mode that conflicts with this one? */
  predicate Conflicts(t: Thread, lock: Lock, mode: Mode) {
    Holds(t, lock, Write) || (mode == Write && Holds(t, lock, Read))
  }

  ghost predicate Excludes(s: System, i: nat, j: nat) {
    && i < |s| && j < |s| && i != j
    && WantsLock(s[i]) && Conflicts(s[j], s[i][0].lock, s[i][0].mode)
  }

  /** Goroutine i wants a lock that j holds in a conflicting mode, or that i wants to read
      while j waits to write it. */
  ghost predicate WaitsFor(s: System, i: nat, j: nat) {
    || Excludes(s, i, j)
    || (&& i < |s| && j < |s| && i != j
        && WantsLock(s[i]) && s[i][0].mode == Read && WaitsToWrite(s[j], s[i][0].lock))
  }

  ghost predicate Blocked(s: System, i: nat) {
    exists j :: WaitsFor(s, i, j)
  }

  /** One step of one goroutine. */
  ghost predicate ThreadStep(t: Thread, u: Thread) {
    && t != []
    && var rest := t[1..];
       match t[0]
       case Unlock(_, _) => u == rest
       case Do(Skip) => u == rest
       case Do(With(lock, mode, body)) => u == [Await(lock, mode, body)] + rest
       case Await(lock, mode, body) => u == [Do(body), Unlock(lock, mode)] + rest
       case Do(Then(first, second)) => u == [Do(first), Do(second)] + rest
       case Do(Either(left, right)) => u == [Do(left)] + rest || u == [Do(right)] + rest
       case Do(Loop(body)) => u == rest || u == [Do(body), Do(Loop(body))] + rest
  }

  /** The next state when goroutine i goes on. A reader may overtake a waiting writer or not,
      as the runtime decides; progress is proved as if it never could. */
  ghost predicate Next(s: System, t: System, i: nat) {
    && |s| == |t| && i < |s| && (forall j :: !Excludes(s, i, j)) && ThreadStep(s[i], t[i])
    && (forall j | 0 <= j < |s| && j != i :: t[j] == s[j])
  }

  ghost predicate Moves(s: System, t: System) {
    exists i :: Next(s, t, i)
  }

  ghost predicate Execution(run: seq<System>, programs: seq<Prog>) {
    && run != []
    && run[0] == seq(|programs|, i requires 0 <= i < |programs| => [Do(programs[i])])
    && (forall k | 0 < k < |run| :: Moves(run[k - 1], run[k]))
  }

  // -------------------------------------------------------------- invariant

  /** One more than the highest rank held. */
  function Floor(t: Thread): nat {
    if t == [] then 0 else if t[0].Unlock? then t[0].lock.Rank() + 1 else Floor(t[1..])
  }

  ghost predicate Disciplined(t: Thread) {
    t != [] ==>
      && Disciplined(t[1..])
      && (match t[0]
          case Do(p) => Ordered(p, Floor(t[1..]))
          case Await(lock, _, body) => lock.Rank() >= Floor(t[1..]) && Ordered(body, lock.Rank() + 1)
          case Unlock(lock, _) => lock.Rank() >= Floor(t[1..]))
  }

  /** Writers exclude everybody else. */
  ghost predicate Exclusive(s: System) {
    forall i, j, lock, mode | 0 <= i < |s| && 0 <= j < |s| && i != j && Holds(s[i], lock, Write) ::
      !Holds(s[j], lock, mode)
  }

  ghost predicate Inv(s: System) {
    Exclusive(s) && forall i | 0 <= i < |s| :: Disciplined(s[i])
  }

  lemma {:induction false} HeldBelowFloor(t: Thread, lock: Lock, mode: Mode)
    requires Disciplined(t) && Holds(t, lock, mode)
    ensures lock.Rank() < Floor(t)
  {
    if t[0] != Unlock(lock, mode) {
      HeldBelowFloor(t[1..], lock, mode);
    }
  }

  lemma StepKeepsDiscipline(t: Thread, u: Thread)
    requires Disciplined(t) && ThreadStep(t, u)
    ensures Disciplined(u)
  {
    var rest := t[1..];
    match t[0]
    case Do(With(_, _, _)) =>
      assert u[1..] == rest;
    case Await(lock, mode, body) =>
      assert u[1..] == [Unlock(lock, mode)] + rest && u[1..][1..] == rest;
    case Do(Then(first, second)) =>
      assert u[1..] == [Do(second)] + rest && u[1..][1..] == rest;
    case Do(Either(left, right)) =>
      assert u[1..] == rest;
    case Do(Loop(body)) =>
      if u != rest {
        assert u[1..] == t;
      }
    case _ =>
  }

  lemma StepKeepsInv(s: System, t: System, i: nat)
    requires Inv(s) && Next(s, t, i)
    ensures Inv(t)
  {
    StepKeepsDiscipline(s[i], t[i]);
    forall lock, mode | Holds(t[i], lock, mode)
      ensures Holds(s[i], lock, mode) || (WantsLock(s[i]) && s[i][0].lock == lock && s[i][0].mode == mode)
    {
      assert s[i] == [s[i][0]] + s[i][1..];
    }
    forall a, b, lock, mode | 0 <= a < |t| && 0 <= b < |t| && a != b && Holds(t[a], lock, Write)
      ensures !Holds(t[b], lock, mode)
    {
      assert !Excludes(s, i, a) && !Excludes(s, i, b);
      assert a != i ==> Holds(s[a], lock, Write);
      assert b != i && Holds(t[b], lock, mode) ==> Holds(s[b], lock, mode);
      assert mode == Read || mode == Write;
    }
  }

  lemma {:induction false} ExecutionKeepsInv(run: seq<System>, programs: seq<Prog>)
    requires Execution(run, programs)
    requires forall i | 0 <= i < |programs| :: Ordered(programs[i], 0)
    ensures Inv(run[|run| - 1])
  {
    if |run| == 1 {
      forall i | 0 <= i < |programs| ensures Disciplined(run[0][i]) && Floor(run[0][i][1..]) == 0 {
        assert run[0][i][1..] == [];
      }
    } else {
      var before := run[..|run| - 1];
      forall k | 0 < k < |before| ensures Moves(before[k - 1], before[k]) {
        assert Moves(run[k - 1], run[k]);
      }
      assert Moves(run[|run| - 2], run[|run| - 1]);
      ExecutionKeepsInv(before, programs);
      var i :| Next(run[|run| - 2], run[|run| - 1], i);
      StepKeepsInv(run[|run| - 2], run[|run| - 1], i);
    }
  }

  // --------------------------------------------------------------- progress

  /** A goroutine that holds a lock waits only for locks of higher rank. */
  lemma HolderWantsMore(s: System, j: nat, lock: Lock, mode: Mode)
    requires Inv(s) && j < |s| && Holds(s[j], lock, mode)
    ensures WantsLock(s[j]) ==> s[j][0].lock.Rank() > lock.Rank()
  {
    HeldBelowFloor(s[j], lock, mode);
    if WantsLock(s[j]) {
      assert Floor(s[j]) == Floor(s[j][1..]);
    }
  }

  /** How far a goroutine's wait can be from its end. */
  function Depth(t: Thread): nat {
    if !WantsLock(t) then 0
    else 2 * (4 - t[0].lock.Rank()) + (if t[0].mode == Read then 2 else 1)
  }

  /** Waiting goes downhill, so it never comes back to where it started. */
  lemma WaitingDescends(s: System, i: nat, j: nat)
    requires Inv(s) && WaitsFor(s, i, j)
    ensures s[j] != [] && Depth(s[j]) < Depth(s[i])
  {
    var lock := s[i][0].lock;
    if Holds(s[j], lock, Write) || Holds(s[j], lock, Read) {
      HolderWantsMore(s, j, lock, if Holds(s[j], lock, Write) then Write else Read);
    }
  }

  /** A chain of waits: each goroutine on it waits for the next. */
  ghost predicate Chain(s: System, path: seq<nat>) {
    && path != []
    && (forall k | 0 < k < |path| :: WaitsFor(s, path[k - 1], path[k]))
  }

  ghost predicate CanStep(s: System, i: nat) {
    !Blocked(s, i) && exists t :: Next(s, t, i)
  }

  lemma UnblockedCanStep(s: System, i: nat)
    requires i < |s| && s[i] != [] && !Blocked(s, i)
    ensures CanStep(s, i)
  {
    var rest := s[i][1..];
    var u: Thread :=
      match s[i][0]
      case Do(With(lock, mode, body)) => [Await(lock, mode, body)] + rest
      case Await(lock, mode, body) => [Do(body), Unlock(lock, mode)] + rest
      case Do(Then(first, second)) => [Do(first), Do(second)] + rest
      case Do(Either(left, _)) => [Do(left)] + rest
      case _ => rest;
    assert ThreadStep(s[i], u);
    forall j ensures !Excludes(s, i, j) {
      assert !WaitsFor(s, i, j);
    }
    assert Next(s, s[i := u], i);
  }

  /** From every unfinished goroutine a chain of waits leads to one that can go on. */
  lemma {:induction false} SomeoneCanGoOn(s: System, i: nat) returns (path: seq<nat>)
    requires Inv(s) && i < |s| && s[i] != []
    ensures Chain(s, path) && path[0] == i && CanStep(s, path[|path| - 1])
    decreases Depth(s[i])
  {
    if Blocked(s, i) {
      var j :| WaitsFor(s, i, j);
      WaitingDescends(s, i, j);
      var rest := SomeoneCanGoOn(s, j);
      path := [i] + rest;
    } else {
      UnblockedCanStep(s, i);
      path := [i];
    }
  }

  /** In every set of goroutines one waits for no other of the set: there is no circle of
      waits, and no set whose members all wait for each other. */
  lemma {:induction false} NoDeadlockedSet(s: System, goroutines: set<nat>) returns (i: nat)
    requires Inv(s) && goroutines != {}
    ensures i in goroutines && forall j | j in goroutines :: !WaitsFor(s, i, j)
  {
    i :| i in goroutines;
    if j :| j in goroutines && WaitsFor(s, i, j) {
      i := Downhill(s, goroutines, j);
    }
  }

  lemma {:induction false} Downhill(s: System, goroutines: set<nat>, start: nat) returns (i: nat)
    requires Inv(s) && start in goroutines && start < |s|
    ensures i in goroutines && forall j | j in goroutines :: !WaitsFor(s, i, j)
    decreases Depth(s[start])
  {
    i := start;
    if j :| j in goroutines && WaitsFor(s, start, j) {
      WaitingDescends(s, start, j);
      i := Downhill(s, goroutines, j);
    }
  }

  /** Some member waits for no other member. */
  ghost predicate HasWayOut(s: System, goroutines: set<nat>) {
    exists i :: i in goroutines && forall j | j in goroutines :: !WaitsFor(s, i, j)
  }

  /** No deadlock, whole or partial: from each unfinished goroutine a chain of waits leads to
      one that can take a step, and no set of goroutines waits within itself. */
  ghost predicate DeadlockedNowhere(s: System) {
    && (forall i | 0 <= i < |s| && s[i] != [] ::
          exists path :: Chain(s, path) && path[0] == i && CanStep(s, path[|path| - 1]))
    && (forall goroutines :: goroutines != {} ==> HasWayOut(s, goroutines))
  }

  /** So it is in every state of every execution of ordered programs. */
  lemma DeadlockFree(run: seq<System>, programs: seq<Prog>)
    requires Execution(run, programs)
    requires forall p | p in programs :: Ordered(p, 0)
    ensures DeadlockedNowhere(run[|run| - 1])
  {
    ExecutionKeepsInv(run, programs);
    var s := run[|run| - 1];
    forall i | 0 <= i < |s| && s[i] != []
      ensures exists path :: Chain(s, path) && path[0] == i && CanStep(s, path[|path| - 1])
    {
      var path := SomeoneCanGoOn(s, i);
    }
    forall goroutines | goroutines != {} ensures HasWayOut(s, goroutines) {
      var i := NoDeadlockedSet(s, goroutines);
    }
  }

  // ------------------------------------------------- the controller's programs

  function Locked(lock: Lock, body: Prog): Prog { With(lock, Write, body) }

  function RLocked(lock: Lock, body: Prog): Prog { With(lock, Read, body) }

  function Maybe(p: Prog): Prog { Either(Skip, p) }

  // the tunnel manager

  function StartForwarding(m: nat): Prog {
    var register := Locked(AddrNotifMu(m), Skip);
    var store := Maybe(Locked(AddrNotifMu(m), Skip));
    var deregister := Locked(AddrNotifMu(m), Skip);
    Locked(ClientMu(m), Maybe(Then(register, Then(store, deregister))))
  }

  function StopForwarding(m: nat): Prog {
    Locked(ClientMu(m), Maybe(Then(Locked(AddrNotifMu(m), Skip), Locked(DialErrorsMu(m), Skip))))
  }

  function CloseClient(m: nat): Prog {
    Maybe(Locked(AddrNotifMu(m), Skip))
  }

  function StopManager(m: nat): Prog {
    Locked(ClientMu(m), CloseClient(m))
  }

  function ConnectManager(m: nat): Prog {
    Locked(ClientMu(m), Skip)
  }

  function ManagerConnected(m: nat): Prog {
    RLocked(ClientMu(m), Skip)
  }

  function GetAssignedAddresses(m: nat): Prog {
    RLocked(AddrNotifMu(m), Skip)
  }

  function MonitorConnection(m: nat): Prog {
    Then(RLocked(ClientMu(m), Skip),
         Loop(Then(RLocked(ClientMu(m), Skip), Maybe(Locked(ClientMu(m), CloseClient(m))))))
  }

  /** Lookups of incoming channels; dials and orphan cancels run in goroutines of their own. */
  function HandleChannels(m: nat): Prog {
    Then(RLocked(ClientMu(m), Skip), Loop(RLocked(ClientMu(m), Skip)))
  }

  function CancelOrphan(m: nat): Prog {
    RLocked(ClientMu(m), Skip)
  }

  function DialBackend(m: nat): Prog {
    Locked(DialErrorsMu(m), Skip)
  }

  function ReadServerOutput(m: nat): Prog {
    Loop(RLocked(AddrNotifMu(m), Skip))
  }

  /** What the layers above may do to one manager inside a section of their own. */
  datatype ManagerCall = AskConnected | ConnectIfDown | StopOrReplace | Shut | AskAddresses | Forward | Unforward

  function Call(call: ManagerCall, m: nat): Prog {
    match call
    case AskConnected => ManagerConnected(m)
    case ConnectIfDown => Then(ManagerConnected(m), Maybe(ConnectManager(m)))
    case StopOrReplace => Then(Maybe(StopManager(m)), Maybe(ConnectManager(m)))
    case Shut => StopManager(m)
    case AskAddresses => GetAssignedAddresses(m)
    case Forward => StartForwarding(m)
    case Unforward => StopForwarding(m)
  }

  function Calls(call: ManagerCall): nat -> Prog {
    (m: nat) => Call(call, m)
  }

  /** The program of any one of the ids. */
  function AnyOf(ids: seq<nat>, program: nat -> Prog): Prog {
    if ids == [] then Skip else Either(program(ids[0]), AnyOf(ids[1..], program))
  }

  /** The call to some of the managers, in any order. */
  function OnSome(managers: seq<nat>, call: ManagerCall): Prog {
    Loop(AnyOf(managers, Calls(call)))
  }

  // the session pool

  /** The manager of a kind is looked up under the pool's lock, and called without it. Which
      manager that is may change between two calls, and there may be none. */
  function OnOne(managers: seq<nat>, call: ManagerCall): Prog {
    Then(RLocked(PoolMu, Skip), Maybe(AnyOf(managers, Calls(call))))
  }

  function PoolConnect(managers: seq<nat>): Prog {
    RLocked(PoolMu, OnSome(managers, ConnectIfDown))
  }

  function ConfigureSessions(managers: seq<nat>): Prog {
    Locked(PoolMu, OnSome(managers, StopOrReplace))
  }

  function PoolStop(managers: seq<nat>): Prog {
    Locked(PoolMu, OnSome(managers, Shut))
  }

  // the gateway registry; a gateway's record may be replaced by another between two sections

  function AddressSection(managers: seq<nat>): nat -> Prog {
    (g: nat) => RLocked(ListenersMu(g), Loop(OnOne(managers, AskAddresses)))
  }

  function UpdateGatewayAddresses(gateways: seq<nat>, managers: seq<nat>): Prog {
    Locked(GatewaysMu, Maybe(AnyOf(gateways, AddressSection(managers))))
  }

  function UpdateGatewayStatus(gateways: seq<nat>, managers: seq<nat>): Prog {
    Then(Loop(OnOne(managers, AskConnected)), Maybe(UpdateGatewayAddresses(gateways, managers)))
  }

  /** Every call may be the last: its error ends the attempt. */
  function SetupRouteForwarding(managers: seq<nat>): Prog {
    var ask := OnOne(managers, AskConnected);
    Then(Maybe(OnOne(managers, Unforward)),
    Maybe(Then(ask, Then(Maybe(Then(PoolConnect(managers), ask)), Maybe(OnOne(managers, Forward))))))
  }

  /** Both locks are released for the status update and taken again before the return. */
  function Epilogue(g: nat, gateways: seq<nat>, managers: seq<nat>): Prog {
    Maybe(Then(UpdateGatewayStatus(gateways, managers), Locked(GatewaysMu, Locked(ListenersMu(g), Skip))))
  }

  function SetRoute(g: nat, gateways: seq<nat>, managers: seq<nat>): Prog {
    var setup := Then(Maybe(OnOne(managers, AskAddresses)), Maybe(SetupRouteForwarding(managers)));
    Then(Locked(GatewaysMu, Maybe(Locked(ListenersMu(g), Maybe(setup)))), Epilogue(g, gateways, managers))
  }

  function RemoveRoute(g: nat, gateways: seq<nat>, managers: seq<nat>): Prog {
    Then(Locked(GatewaysMu, Maybe(Locked(ListenersMu(g), Maybe(OnOne(managers, Unforward))))),
         Epilogue(g, gateways, managers))
  }

  function StopSection(managers: seq<nat>): nat -> Prog {
    (g: nat) => Locked(ListenersMu(g), Loop(OnOne(managers, Unforward)))
  }

  /** handleAddOrUpdateGateway and handleDeleteGateway. */
  function ChangeGateway(gateways: seq<nat>, managers: seq<nat>): Prog {
    Locked(GatewaysMu, Maybe(AnyOf(gateways, StopSection(managers))))
  }

  function EnsureConnected(managers: seq<nat>): Prog {
    var asked := Loop(OnOne(managers, AskConnected));
    Then(asked, Maybe(Then(PoolConnect(managers), asked)))
  }

  /** Reconcile, with a return after any of its steps: a deleted Gateway, or one to configure,
      to add or update, and to report. */
  function ReconcileGateway(gateways: seq<nat>, managers: seq<nat>): Prog {
    var change := ChangeGateway(gateways, managers);
    var update := Then(change, Maybe(UpdateGatewayStatus(gateways, managers)));
    var configure := Then(ConfigureSessions(managers), Maybe(Then(EnsureConnected(managers), Maybe(update))));
    Then(EnsureConnected(managers), Maybe(Either(change, configure)))
  }

  function RouteJob(gateways: seq<nat>, managers: seq<nat>): nat -> Prog {
    (g: nat) => Either(SetRoute(g, gateways, managers), RemoveRoute(g, gateways, managers))
  }

  /** The goroutines of the controller. */
  datatype Role =
    | GatewayWorker
    | RouteWorker
    | Monitor(m: nat)
    | Channels(m: nat)
    | Orphan(m: nat)
    | Dialer(m: nat)
    | OutputReader(m: nat)
    | Shutdown

  /** `gateways` and `managers` are all gateway records and managers that ever exist. */
  function Program(role: Role, gateways: seq<nat>, managers: seq<nat>): Prog {
    match role
    case GatewayWorker => Loop(ReconcileGateway(gateways, managers))
    case RouteWorker => Loop(AnyOf(gateways, RouteJob(gateways, managers)))
    case Monitor(m) => MonitorConnection(m)
    case Channels(m) => HandleChannels(m)
    case Orphan(m) => CancelOrphan(m)
    case Dialer(m) => DialBackend(m)
    case OutputReader(m) => ReadServerOutput(m)
    case Shutdown => PoolStop(managers)
  }

  lemma Section(lock: Lock, body: Prog, floor: nat)
    requires lock.Rank() >= floor && Ordered(body, lock.Rank() + 1)
    ensures Ordered(Locked(lock, body), floor) && Ordered(RLocked(lock, body), floor)
  {
  }

  lemma Optional(p: Prog, floor: nat)
    ensures Ordered(Maybe(p), floor) <==> Ordered(p, floor)
  {
    assert Ordered(Skip, floor);
  }

  lemma Sequence(p: Prog, q: Prog, floor: nat)
    ensures Ordered(Then(p, q), floor) <==> Ordered(p, floor) && Ordered(q, floor)
  {
  }

  lemma {:induction false} AnyOfOrdered(ids: seq<nat>, program: nat -> Prog, floor: nat)
    requires forall id :: Ordered(program(id), floor)
    ensures Ordered(AnyOf(ids, program), floor) && Ordered(Loop(AnyOf(ids, program)), floor)
  {
    if ids == [] {
      assert Ordered(Skip, floor);
    } else {
      AnyOfOrdered(ids[1..], program, floor);
    }
  }

  lemma ManagerOrdered(m: nat, floor: nat)
    requires floor <= 3
    ensures Ordered(StartForwarding(m), floor) && Ordered(StopForwarding(m), floor)
    ensures Ordered(StopManager(m), floor) && Ordered(ConnectManager(m), floor)
    ensures Ordered(ManagerConnected(m), floor) && Ordered(GetAssignedAddresses(m), floor)
  {
    var address, dial := Locked(AddrNotifMu(m), Skip), Locked(DialErrorsMu(m), Skip);
    Section(AddrNotifMu(m), Skip, 4);
    Section(DialErrorsMu(m), Skip, 4);
    Optional(address, 4);
    Sequence(Maybe(address), address, 4);
    Sequence(address, Then(Maybe(address), address), 4);
    Sequence(address, dial, 4);
    Optional(Then(address, Then(Maybe(address), address)), 4);
    Optional(Then(address, dial), 4);
  }

  lemma CallOrdered(call: ManagerCall, m: nat, floor: nat)
    requires floor <= 3
    ensures Ordered(Call(call, m), floor)
  {
    hide StartForwarding, StopForwarding, StopManager, ConnectManager, ManagerConnected, GetAssignedAddresses;
    ManagerOrdered(m, floor);
    Optional(ConnectManager(m), floor);
    Optional(StopManager(m), floor);
  }

  lemma CallsOrdered(managers: seq<nat>, call: ManagerCall, floor: nat)
    requires floor <= 3
    ensures Ordered(AnyOf(managers, Calls(call)), floor) && Ordered(OnSome(managers, call), floor)
  {
    hide Call, AnyOf;
    forall m ensures Ordered(Calls(call)(m), floor) {
      CallOrdered(call, m, floor);
    }
    AnyOfOrdered(managers, Calls(call), floor);
  }

  lemma OnOneOrdered(managers: seq<nat>, call: ManagerCall, floor: nat)
    requires floor <= 2
    ensures Ordered(OnOne(managers, call), floor) && Ordered(Loop(OnOne(managers, call)), floor)
    ensures Ordered(Maybe(OnOne(managers, call)), floor)
  {
    hide AnyOf;
    CallsOrdered(managers, call, floor);
    Section(PoolMu, Skip, floor);
    Optional(AnyOf(managers, Calls(call)), floor);
    Sequence(RLocked(PoolMu, Skip), Maybe(AnyOf(managers, Calls(call))), floor);
    Optional(OnOne(managers, call), floor);
  }

  lemma PoolOrdered(managers: seq<nat>, floor: nat)
    requires floor <= 2
    ensures Ordered(PoolConnect(managers), floor)
    ensures Ordered(ConfigureSessions(managers), floor)
    ensures Ordered(PoolStop(managers), floor)
  {
    CallsOrdered(managers, ConnectIfDown, 3);
    CallsOrdered(managers, StopOrReplace, 3);
    CallsOrdered(managers, Shut, 3);
  }

  lemma SetupOrdered(managers: seq<nat>)
    ensures Ordered(SetupRouteForwarding(managers), 2)
  {
    hide OnOne, PoolConnect;
    PoolOrdered(managers, 2);
    OnOneOrdered(managers, Unforward, 2);
    OnOneOrdered(managers, AskConnected, 2);
    OnOneOrdered(managers, Forward, 2);
    var ask := OnOne(managers, AskConnected);
    var again := Maybe(Then(PoolConnect(managers), ask));
    var start := Maybe(OnOne(managers, Forward));
    Sequence(PoolConnect(managers), ask, 2);
    Optional(Then(PoolConnect(managers), ask), 2);
    Sequence(again, start, 2);
    Sequence(ask, Then(again, start), 2);
    Optional(Then(ask, Then(again, start)), 2);
  }

  lemma StatusOrdered(gateways: seq<nat>, managers: seq<nat>)
    ensures Ordered(UpdateGatewayStatus(gateways, managers), 0)
  {
    hide OnOne, AnyOf;
    forall g ensures Ordered(AddressSection(managers)(g), 1) {
      OnOneOrdered(managers, AskAddresses, 2);
      Section(ListenersMu(g), Loop(OnOne(managers, AskAddresses)), 1);
    }
    AnyOfOrdered(gateways, AddressSection(managers), 1);
    Optional(AnyOf(gateways, AddressSection(managers)), 1);
    Section(GatewaysMu, Maybe(AnyOf(gateways, AddressSection(managers))), 0);
    Optional(UpdateGatewayAddresses(gateways, managers), 0);
    OnOneOrdered(managers, AskConnected, 0);
  }

  lemma EpilogueOrdered(g: nat, gateways: seq<nat>, managers: seq<nat>)
    ensures Ordered(Epilogue(g, gateways, managers), 0)
  {
    hide UpdateGatewayStatus;
    StatusOrdered(gateways, managers);
    Section(ListenersMu(g), Skip, 1);
    Section(GatewaysMu, Locked(ListenersMu(g), Skip), 0);
    Sequence(UpdateGatewayStatus(gateways, managers), Locked(GatewaysMu, Locked(ListenersMu(g), Skip)), 0);
    Optional(Then(UpdateGatewayStatus(gateways, managers), Locked(GatewaysMu, Locked(ListenersMu(g), Skip))), 0);
  }

  /** A section under both locks of the registry. */
  lemma RegistrySection(g: nat, body: Prog)
    requires Ordered(body, 2)
    ensures Ordered(Locked(GatewaysMu, Maybe(Locked(ListenersMu(g), Maybe(body)))), 0)
  {
    Optional(body, 2);
    Section(ListenersMu(g), Maybe(body), 1);
    Optional(Locked(ListenersMu(g), Maybe(body)), 1);
    Section(GatewaysMu, Maybe(Locked(ListenersMu(g), Maybe(body))), 0);
  }

  lemma RouteJobOrdered(g: nat, gateways: seq<nat>, managers: seq<nat>)
    ensures Ordered(SetRoute(g, gateways, managers), 0) && Ordered(RemoveRoute(g, gateways, managers), 0)
  {
    hide Epilogue, SetupRouteForwarding, OnOne;
    EpilogueOrdered(g, gateways, managers);
    SetupOrdered(managers);
    OnOneOrdered(managers, AskAddresses, 2);
    OnOneOrdered(managers, Unforward, 2);
    Optional(SetupRouteForwarding(managers), 2);
    var setup := Then(Maybe(OnOne(managers, AskAddresses)), Maybe(SetupRouteForwarding(managers)));
    Sequence(Maybe(OnOne(managers, AskAddresses)), Maybe(SetupRouteForwarding(managers)), 2);
    RegistrySection(g, setup);
    RegistrySection(g, OnOne(managers, Unforward));
    hide Locked, Maybe;
    Sequence(Locked(GatewaysMu, Maybe(Locked(ListenersMu(g), Maybe(setup)))), Epilogue(g, gateways, managers), 0);
    Sequence(Locked(GatewaysMu, Maybe(Locked(ListenersMu(g), Maybe(OnOne(managers, Unforward))))),
             Epilogue(g, gateways, managers), 0);
  }

  lemma ChangeOrdered(gateways: seq<nat>, managers: seq<nat>)
    ensures Ordered(ChangeGateway(gateways, managers), 0)
  {
    hide OnOne, AnyOf;
    forall g ensures Ordered(StopSection(managers)(g), 1) {
      OnOneOrdered(managers, Unforward, 2);
      Section(ListenersMu(g), Loop(OnOne(managers, Unforward)), 1);
    }
    AnyOfOrdered(gateways, StopSection(managers), 1);
    Optional(AnyOf(gateways, StopSection(managers)), 1);
  }

  lemma ConnectOrdered(managers: seq<nat>)
    ensures Ordered(EnsureConnected(managers), 0)
  {
    hide OnOne, PoolConnect;
    PoolOrdered(managers, 0);
    OnOneOrdered(managers, AskConnected, 0);
    var asked := Loop(OnOne(managers, AskConnected));
    Sequence(PoolConnect(managers), asked, 0);
    Optional(Then(PoolConnect(managers), asked), 0);
  }

  lemma ReconcileOrdered(gateways: seq<nat>, managers: seq<nat>)
    ensures Ordered(ReconcileGateway(gateways, managers), 0)
  {
    hide UpdateGatewayStatus, ConfigureSessions, ChangeGateway, EnsureConnected;
    StatusOrdered(gateways, managers);
    PoolOrdered(managers, 0);
    ChangeOrdered(gateways, managers);
    ConnectOrdered(managers);
    var change, ensure_up := ChangeGateway(gateways, managers), EnsureConnected(managers);
    var update := Then(change, Maybe(UpdateGatewayStatus(gateways, managers)));
    var configure := Then(ConfigureSessions(managers), Maybe(Then(ensure_up, Maybe(update))));
    Optional(UpdateGatewayStatus(gateways, managers), 0);
    Sequence(change, Maybe(UpdateGatewayStatus(gateways, managers)), 0);
    Optional(update, 0);
    Sequence(ensure_up, Maybe(update), 0);
    Optional(Then(ensure_up, Maybe(update)), 0);
    Sequence(ConfigureSessions(managers), Maybe(Then(ensure_up, Maybe(update))), 0);
    assert Ordered(Either(change, configure), 0);
    Optional(Either(change, configure), 0);
  }

  lemma MonitorOrdered(m: nat)
    ensures Ordered(MonitorConnection(m), 0) && Ordered(HandleChannels(m), 0)
  {
    ManagerOrdered(m, 0);
    Optional(StopManager(m), 0);
    Sequence(ManagerConnected(m), Maybe(StopManager(m)), 0);
  }

  /** Each role takes its locks in the order gatewaysMu, listenersMu, the pool's lock,
      clientMu, then addrNotifMu or dialErrorsMu. */
  lemma RolesOrdered(role: Role, gateways: seq<nat>, managers: seq<nat>)
    ensures Ordered(Program(role, gateways, managers), 0)
  {
    hide ReconcileGateway, AnyOf, SetRoute, RemoveRoute, PoolStop, MonitorConnection, HandleChannels;
    match role
    case GatewayWorker => ReconcileOrdered(gateways, managers);
    case RouteWorker =>
      forall g ensures Ordered(RouteJob(gateways, managers)(g), 0) {
        RouteJobOrdered(g, gateways, managers);
      }
      AnyOfOrdered(gateways, RouteJob(gateways, managers), 0);
    case Shutdown => PoolOrdered(managers, 0);
    case Monitor(m) => MonitorOrdered(m);
    case Channels(m) => MonitorOrdered(m);
    case Orphan(m) => ManagerOrdered(m, 0);
    case Dialer(m) => Section(DialErrorsMu(m), Skip, 0);
    case OutputReader(m) => ManagerOrdered(m, 0);
  }

  /** The controller's goroutines never wait for each other in a circle: any number of them,
      in any roles, on any gateways and managers, in any interleaving. */
  lemma ControllerDeadlockFree(run: seq<System>, roles: seq<Role>, gateways: seq<nat>, managers: seq<nat>)
    requires Execution(run, seq(|roles|, k requires 0 <= k < |roles| => Program(roles[k], gateways, managers)))
    ensures DeadlockedNowhere(run[|run| - 1])
  {
    var programs := seq(|roles|, k requires 0 <= k < |roles| => Program(roles[k], gateways, managers));
    forall p | p in programs ensures Ordered(p, 0) {
      var k :| 0 <= k < |roles| && programs[k] == p;
      RolesOrdered(roles[k], gateways, managers);
    }
    DeadlockFree(run, programs);
  }
}
