/** How server-reported URIs reach the StartForwarding call that waits for them. Any number
    of goroutines start forwardings, any number of readers report batches; a reader first
    copies the registered channels, then sends to them one by one, outside every lock. */
module Notification {
  import opened Text
  import opened Waiters

  /** `sent` and `notified` are history: the batches whose send reached the open channel,
      and whether any reader has the channel in a snapshot. */
  datatype Channel = Channel(buffer: seq<Batch>, closed: bool, sent: seq<Batch>, notified: bool)

  /** Where a goroutine stands in StartForwarding. */
  datatype PC =
    | Idle
    | Holding                                                     // clientMu is write-held
    | Waiting(key: string, channel: nat)
    | Leaving(key: string, channel: nat, received: Option<Batch>)
    | Closing(channel: nat)

  datatype Reader = Reader(batch: Batch, pending: set<nat>)

  datatype State = State(
    clientMu: Option<nat>,
    starters: map<nat, PC>,
    addrNotifications: map<string, nat>,
    channels: seq<Channel>,
    readers: map<nat, Reader>,
    panicked: bool)
  {
    function At(g: nat): PC {
      if g in starters then starters[g] else Idle
    }

    /** Is some reader about to send to the channel? */
    predicate InFlight(channel: nat) {
      exists r | r in readers :: channel in readers[r].pending
    }
  }

  const INITIAL := State(None, map[], map[], [], map[], false)

  datatype Action =
    | Lock(g: nat)
    | Register(g: nat, key: string)
    | Receive(g: nat)
    | GiveUp(g: nat)                // a request failed or the verification timeout fired
    | Deregister(g: nat)
    | Close(g: nat)
    | Unlock(g: nat)
    | Snapshot(r: nat, batch: Batch)
    | Send(r: nat, channel: nat)

  /** One step; an action whose guard fails changes nothing. */
  function Step(s: State, a: Action): State {
    if s.panicked then s
    else
      match a
      case Lock(g) =>
        if s.clientMu.None? && s.At(g).Idle? then s.(clientMu := Some(g), starters := s.starters[g := Holding]) else s
      case Register(g, key) =>
        if !s.At(g).Holding? then s
        else s.(starters := s.starters[g := Waiting(key, |s.channels|)],
                addrNotifications := s.addrNotifications[key := |s.channels|],
                channels := s.channels + [Channel([], false, [], false)])
      case Receive(g) =>
        (match s.At(g)
         case Waiting(key, c) =>
           if c >= |s.channels| || s.channels[c].buffer == [] then s
           else
             var channel := s.channels[c];
             s.(starters := s.starters[g := Leaving(key, c, Some(channel.buffer[0]))],
                channels := s.channels[c := channel.(buffer := channel.buffer[1..])])
         case _ => s)
      case GiveUp(g) =>
        (match s.At(g)
         case Waiting(key, c) => s.(starters := s.starters[g := Leaving(key, c, None)])
         case _ => s)
      case Deregister(g) =>
        (match s.At(g)
         case Leaving(key, c, _) =>
           s.(starters := s.starters[g := Closing(c)], addrNotifications := s.addrNotifications - {key})
         case _ => s)
      case Close(g) =>
        (match s.At(g)
         case Closing(c) =>
           if c >= |s.channels| then s
           else s.(starters := s.starters[g := Holding], channels := s.channels[c := s.channels[c].(closed := true)])
         case _ => s)
      case Unlock(g) =>
        if s.At(g).Holding? then s.(clientMu := None, starters := s.starters[g := Idle]) else s
      case Snapshot(r, batch) =>
        if r in s.readers && s.readers[r].pending != {} then s
        else
          s.(readers := s.readers[r := Reader(batch, s.addrNotifications.Values)],
             channels := seq(|s.channels|, i requires 0 <= i < |s.channels| =>
               if i in s.addrNotifications.Values then s.channels[i].(notified := true) else s.channels[i]))
      case Send(r, c) =>
        if r !in s.readers || c !in s.readers[r].pending || c >= |s.channels| then s
        else if s.channels[c].closed then s.(panicked := true)   // send on a closed channel
        else
          var channel, reader := s.channels[c], s.readers[r];
          s.(readers := s.readers[r := reader.(pending := reader.pending - {c})],
             channels := s.channels[c := channel.(
               buffer := Push(channel.buffer, reader.batch), sent := channel.sent + [reader.batch])])
  }

  function Run(actions: seq<Action>): State {
    if actions == [] then INITIAL else Step(Run(actions[..|actions| - 1]), actions[|actions| - 1])
  }

  // --------------------------------------------------------------- invariant

  /** Only the holder of clientMu is inside StartForwarding, and a registered waiter is the
      holder's own. Hence at most one waiter is registered at any time. */
  ghost predicate OneWaiter(s: State) {
    && (forall g | g in s.starters :: !s.starters[g].Idle? ==> s.clientMu == Some(g))
    && (forall key | key in s.addrNotifications ::
          && s.clientMu.Some?
          && var pc := s.At(s.clientMu.value);
             (pc.Waiting? || pc.Leaving?) && pc.key == key && pc.channel == s.addrNotifications[key])
  }

  ghost predicate StarterOK(s: State, pc: PC) {
    match pc
    case Idle => true
    case Holding => s.addrNotifications == map[]
    case Waiting(key, c) =>
      && c < |s.channels| && !s.channels[c].closed
      && key in s.addrNotifications && s.addrNotifications[key] == c
      && s.channels[c].buffer == FirstFew(s.channels[c].sent)
    case Leaving(key, c, received) =>
      && c < |s.channels| && !s.channels[c].closed
      && key in s.addrNotifications && s.addrNotifications[key] == c
      && (received.Some? ==> s.channels[c].sent != [] && received.value == s.channels[c].sent[0])
    case Closing(c) =>
      c < |s.channels| && !s.channels[c].closed && s.addrNotifications == map[]
  }

  /** A batch some reader took on is either delivered or still in that reader's hands. */
  ghost predicate NothingLost(s: State) {
    forall c | 0 <= c < |s.channels| ::
      s.channels[c].notified && !s.channels[c].closed ==> s.channels[c].sent != [] || s.InFlight(c)
  }

  ghost predicate Inv(s: State) {
    && OneWaiter(s)
    && (forall g | g in s.starters :: StarterOK(s, s.starters[g]))
    && (forall r | r in s.readers :: forall c | c in s.readers[r].pending :: c < |s.channels|)
    && NothingLost(s)
  }

  lemma StepKeepsInv(s: State, a: Action)
    requires Inv(s)
    ensures Inv(Step(s, a))
  {
    StepKeepsOneWaiter(s, a);
    StepKeepsStarters(s, a);
    StepLosesNothing(s, a);
  }

  lemma StepKeepsOneWaiter(s: State, a: Action)
    requires Inv(s)
    ensures OneWaiter(Step(s, a))
  {
  }

  lemma StepKeepsStarters(s: State, a: Action)
    requires Inv(s)
    ensures forall g | g in Step(s, a).starters :: StarterOK(Step(s, a), Step(s, a).starters[g])
  {
    if a.Snapshot? {
      SnapshotKeepsStarters(s, a);
    } else if a.Send? {
      SendKeepsStarters(s, a);
    } else {
      var t := Step(s, a);
      assert s.At(a.g).Idle? || StarterOK(s, s.starters[a.g]);
      assert forall g | g in t.starters && !t.starters[g].Idle? :: g == a.g || t == s;
    }
  }

  lemma SnapshotKeepsStarters(s: State, a: Action)
    requires Inv(s) && a.Snapshot?
    ensures forall g | g in Step(s, a).starters :: StarterOK(Step(s, a), Step(s, a).starters[g])
  {
    var t := Step(s, a);
    forall g | g in t.starters ensures StarterOK(t, t.starters[g]) {
      assert StarterOK(s, s.starters[g]);
    }
  }

  lemma SendKeepsStarters(s: State, a: Action)
    requires Inv(s) && a.Send?
    ensures forall g | g in Step(s, a).starters :: StarterOK(Step(s, a), Step(s, a).starters[g])
  {
    var t := Step(s, a);
    if t != s && !t.panicked {
      PushFirstFew(s.channels[a.channel].sent, s.readers[a.r].batch);
    }
    forall g | g in t.starters ensures StarterOK(t, t.starters[g]) {
      assert StarterOK(s, s.starters[g]);
    }
  }

  lemma StepLosesNothing(s: State, a: Action)
    requires Inv(s)
    ensures NothingLost(Step(s, a))
  {
    hide OneWaiter, StarterOK, Push;
    var t := Step(s, a);
    forall c | 0 <= c < |t.channels| && t.channels[c].notified && !t.channels[c].closed
      ensures t.channels[c].sent != [] || t.InFlight(c)
    {
      if c < |s.channels| && t.channels[c].sent == [] {
        if a.Snapshot? && c in s.addrNotifications.Values && t != s {
          assert c in t.readers[a.r].pending;
        } else if s.InFlight(c) {
          var r :| r in s.readers && c in s.readers[r].pending;
          assert r in t.readers && c in t.readers[r].pending;
        }
      }
    }
  }

  lemma {:induction false} RunsKeepInv(actions: seq<Action>)
    ensures Inv(Run(actions))
  {
    if actions != [] {
      RunsKeepInv(actions[..|actions| - 1]);
      StepKeepsInv(Run(actions[..|actions| - 1]), actions[|actions| - 1]);
    }
  }

  /** In every interleaving, two registered waiters are the same one, and its owner holds
      clientMu. */
  lemma AtMostOneWaiter(actions: seq<Action>, k1: string, k2: string)
    requires k1 in Run(actions).addrNotifications && k2 in Run(actions).addrNotifications
    ensures k1 == k2
    ensures Run(actions).clientMu.Some?
    ensures Run(actions).At(Run(actions).clientMu.value).Waiting?
            || Run(actions).At(Run(actions).clientMu.value).Leaving?
  {
    RunsKeepInv(actions);
  }

  /** In every interleaving, once a reader that saw the waiter has finished sending, the
      waiter has something to read, and reads the first batch sent since it registered. */
  lemma NotificationNotLost(actions: seq<Action>, g: nat, key: string, c: nat)
    requires var s := Run(actions);
             && !s.panicked && s.At(g) == Waiting(key, c) && c < |s.channels|
             && s.channels[c].notified && !s.InFlight(c)
    ensures var s := Run(actions);
            && s.channels[c].sent != []
            && Step(s, Receive(g)).At(g) == Leaving(key, c, Some(s.channels[c].sent[0]))
  {
    RunsKeepInv(actions);
    assert StarterOK(Run(actions), Run(actions).starters[g]);
  }

  /** A snapshot takes in every waiter registered at that moment, and no other. */
  lemma SnapshotReachesAll(actions: seq<Action>, r: nat, batch: Batch)
    requires var s := Run(actions); !s.panicked && (r !in s.readers || s.readers[r].pending == {})
    ensures var s := Run(actions);
            var t := Step(s, Snapshot(r, batch));
            && r in t.readers && t.readers[r].batch == batch
            && (forall c :: c in t.readers[r].pending <==>
                  exists key :: key in s.addrNotifications && s.addrNotifications[key] == c)
            && (forall key | key in s.addrNotifications ::
                  s.addrNotifications[key] < |t.channels| && t.channels[s.addrNotifications[key]].notified)
  {
    RunsKeepInv(actions);
    RegisteredIsOpen(Run(actions));
  }

  // ------------------------------------------------- sends on closed channels

  /** Some reader is about to send to a channel its waiter has closed. */
  ghost predicate Doomed(s: State) {
    exists c :: 0 <= c < |s.channels| && s.channels[c].closed && s.InFlight(c)
  }

  /** The waiter of g closes its channel while a reader still holds it. */
  ghost predicate ClosesInFlight(s: State, a: Action) {
    a.Close? && s.At(a.g).Closing? && s.InFlight(s.At(a.g).channel)
  }

  lemma RegisteredIsOpen(s: State)
    requires Inv(s)
    ensures forall c | c in s.addrNotifications.Values :: c < |s.channels| && !s.channels[c].closed
  {
    forall key | key in s.addrNotifications
      ensures s.addrNotifications[key] < |s.channels| && !s.channels[s.addrNotifications[key]].closed
    {
      assert StarterOK(s, s.starters[s.clientMu.value]);
    }
  }

  /** From a healthy state, a step makes a panic possible exactly when it closes a channel
      that a reader copied before the waiter deregistered and has not yet sent to. */
  lemma OnlyClosingInFlightDooms(s: State, a: Action)
    requires Inv(s) && !s.panicked && !Doomed(s)
    ensures !Step(s, a).panicked
    ensures Doomed(Step(s, a)) <==> ClosesInFlight(s, a)
  {
    var t := Step(s, a);
    assert a.Send? && a.r in s.readers && a.channel in s.readers[a.r].pending ==> s.InFlight(a.channel);
    if !ClosesInFlight(s, a) {
      forall c | 0 <= c < |t.channels| && t.channels[c].closed ensures !t.InFlight(c) {
        RegisteredIsOpen(s);
        assert c < |s.channels|;
        assert !s.InFlight(c);
        forall r | r in t.readers ensures c !in t.readers[r].pending {
          assert r in s.readers ==> c !in s.readers[r].pending;
        }
      }
    }
    if ClosesInFlight(s, a) {
      var c := s.At(a.g).channel;
      assert StarterOK(s, s.At(a.g));
      assert t.channels[c].closed && t.InFlight(c);
    }
  }

  /** A doomed state panics as soon as that reader goes on. */
  lemma DoomedPanics(s: State)
    requires Doomed(s) && !s.panicked
    ensures exists r, c :: Step(s, Send(r, c)).panicked
  {
    var c :| 0 <= c < |s.channels| && s.channels[c].closed && s.InFlight(c);
    var r :| r in s.readers && c in s.readers[r].pending;
    assert Step(s, Send(r, c)).panicked;
  }

  lemma DoomStays(s: State, a: Action)
    requires Inv(s) && !s.panicked && Doomed(s)
    ensures Step(s, a).panicked || Doomed(Step(s, a))
  {
    var c :| 0 <= c < |s.channels| && s.channels[c].closed && s.InFlight(c);
    var r :| r in s.readers && c in s.readers[r].pending;
    var t := Step(s, a);
    if !t.panicked {
      assert r in t.readers && c in t.readers[r].pending;
      assert t.channels[c].closed && t.InFlight(c);
    }
  }

  /** Is the action at position i such a close, before any panic? */
  ghost predicate ClosesAt(actions: seq<Action>, i: nat) {
    i < |actions| && !Run(actions[..i]).panicked && ClosesInFlight(Run(actions[..i]), actions[i])
  }

  /** A run has panicked, or can panic by one more send, if and only if somewhere in it a
      waiter closed its channel while a reader held it. */
  lemma {:induction false} PanicsIffClosedInFlight(actions: seq<Action>)
    ensures Run(actions).panicked || Doomed(Run(actions)) <==> exists i :: ClosesAt(actions, i)
  {
    hide Inv, Step, Doomed, ClosesInFlight;
    if actions == [] {
      InitialHealthy();
    } else {
      var n := |actions| - 1;
      var before, a := actions[..n], actions[n];
      PanicsIffClosedInFlight(before);
      RunsKeepInv(before);
      forall i: nat | i < n ensures ClosesAt(before, i) <==> ClosesAt(actions, i) {
        assert before[..i] == actions[..i] && before[i] == actions[i];
      }
      if Run(before).panicked {
        PanicStays(Run(before), a);
      } else if Doomed(Run(before)) {
        DoomStays(Run(before), a);
      } else {
        OnlyClosingInFlightDooms(Run(before), a);
        assert ClosesAt(actions, n) <==> ClosesInFlight(Run(before), a);
      }
    }
  }

  lemma InitialHealthy()
    ensures !INITIAL.panicked && !Doomed(INITIAL)
  {
  }

  lemma PanicStays(s: State, a: Action)
    ensures s.panicked ==> Step(s, a) == s
  {
  }

  /** A waiter that gives up while a reader still holds its channel lets that reader panic. */
  lemma GivingUpInFlightPanics(s: State, g: nat, key: string, c: nat, r: nat)
    requires !s.panicked && s.At(g) == Waiting(key, c) && c < |s.channels|
    requires r in s.readers && c in s.readers[r].pending
    ensures Step(Step(Step(Step(s, GiveUp(g)), Deregister(g)), Close(g)), Send(r, c)).panicked
  {
    var s1 := Step(s, GiveUp(g));
    var s2 := Step(s1, Deregister(g));
    assert s2.At(g) == Closing(c);
    var s3 := Step(s2, Close(g));
    assert s3.readers == s.readers && s3.channels[c].closed;
  }

  /** Such a run exists in the code as it stands: one waiter and one reader suffice. */
  lemma PanicIsReachable()
    ensures exists actions :: Run(actions).panicked
  {
    var a1 := Extend([], Lock(0));
    var a2 := Extend(a1, Register(0, "k"));
    var s2 := Run(a2);
    assert s2.At(0) == Waiting("k", 0) && "k" in s2.addrNotifications && s2.addrNotifications["k"] == 0;
    var a3 := Extend(a2, Snapshot(0, ["tcp://example.com:22"]));
    assert Run(a3).readers[0].pending == s2.addrNotifications.Values;
    var a4 := Extend(a3, GiveUp(0));
    var a5 := Extend(a4, Deregister(0));
    var a6 := Extend(a5, Close(0));
    var a7 := Extend(a6, Send(0, 0));
    GivingUpInFlightPanics(Run(a3), 0, "k", 0, 0);
  }

  lemma Extend(actions: seq<Action>, last: Action) returns (longer: seq<Action>)
    ensures Run(longer) == Step(Run(actions), last)
  {
    longer := actions + [last];
    assert longer[..|actions|] == actions;
  }
}
