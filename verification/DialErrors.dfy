/** Rate-limited logging of failed backend dials. Per backend, at most one warning per
    cooldown is written, and each warning tells how many failures were kept quiet since
    the one before. Times are nanoseconds; the clock is a parameter. */
module DialErrors {
  import opened Text

  const COOLDOWN: int := 10_000_000_000

  /** `lastLogged` is None while the zero time is stored. */
  datatype Stats = Stats(lastLogged: Option<int>, suppressed: nat)

  datatype LogLine = Warn(suppressed: nat) | Debug

  type Table = map<string, Stats>

  function LogDialError(table: Table, backend: string, now: int): (Table, LogLine) {
    var stats := if backend in table then table[backend] else Stats(None, 0);
    if stats.lastLogged.None? || now - stats.lastLogged.value >= COOLDOWN then
      (table[backend := Stats(Some(now), 0)], Warn(stats.suppressed))
    else
      (table[backend := stats.(suppressed := stats.suppressed + 1)], Debug)
  }

  /** A successful dial, or the end of a forwarding to the backend. */
  function RecordSuccess(table: Table, backend: string): Table {
    table - {backend}
  }

  datatype Event = Failure(backend: string, now: int) | Reset(backend: string)

  function Run(events: seq<Event>): Table {
    if events == [] then map[]
    else
      var table := Run(events[..|events| - 1]);
      match events[|events| - 1]
      case Failure(backend, now) => LogDialError(table, backend, now).0
      case Reset(backend) => RecordSuccess(table, backend)
  }

  /** Failures of a backend since its last reset. */
  function Failures(events: seq<Event>, backend: string): nat {
    if events == [] then 0
    else
      var before := Failures(events[..|events| - 1], backend);
      match events[|events| - 1]
      case Failure(b, _) => if b == backend then before + 1 else before
      case Reset(b) => if b == backend then 0 else before
  }

  /** The failures told to the reader of the log since the last reset: each warning stands
      for itself and for the number it reports. */
  function Told(events: seq<Event>, backend: string): nat {
    if events == [] then 0
    else
      var before := Told(events[..|events| - 1], backend);
      match events[|events| - 1]
      case Failure(b, now) =>
        if b != backend then before
        else
          (match LogDialError(Run(events[..|events| - 1]), b, now).1
           case Warn(suppressed) => before + 1 + suppressed
           case Debug => before)
      case Reset(b) => if b == backend then 0 else before
  }

  function Pending(table: Table, backend: string): nat {
    if backend in table then table[backend].suppressed else 0
  }

  /** No failure is lost: each one is told, or still pending. */
  lemma {:induction false} FailuresConserved(events: seq<Event>, backend: string)
    ensures Failures(events, backend) == Told(events, backend) + Pending(Run(events), backend)
  {
    if events != [] {
      FailuresConserved(events[..|events| - 1], backend);
    }
  }

  /** Times of the warnings written for a backend since its last reset. */
  function WarningTimes(events: seq<Event>, backend: string): seq<int> {
    if events == [] then []
    else
      var before := WarningTimes(events[..|events| - 1], backend);
      match events[|events| - 1]
      case Failure(b, now) =>
        if b == backend && LogDialError(Run(events[..|events| - 1]), b, now).1.Warn? then before + [now] else before
      case Reset(b) => if b == backend then [] else before
  }

  ghost predicate Spaced(times: seq<int>) {
    forall i | 0 < i < |times| :: times[i] - times[i - 1] >= COOLDOWN
  }

  lemma {:induction false} WarningsSpaced(events: seq<Event>, backend: string)
    ensures var times, table := WarningTimes(events, backend), Run(events);
            && Spaced(times)
            && (times == [] <==> backend !in table)
            && (times != [] ==> table[backend].lastLogged == Some(times[|times| - 1]))
  {
    if events != [] {
      WarningsSpaced(events[..|events| - 1], backend);
    }
  }

  /** A failure is warned about exactly when none was since the last reset, or the last
      warning is a cooldown ago. */
  lemma WarnedExactlyWhenDue(events: seq<Event>, backend: string, now: int)
    ensures var times := WarningTimes(events, backend);
            LogDialError(Run(events), backend, now).1.Warn?
            <==> times == [] || now - times[|times| - 1] >= 10_000_000_000
  {
    WarningsSpaced(events, backend);
  }

  function CountWithin(times: seq<int>, from: int, to: int): nat {
    if times == [] then 0
    else
      CountWithin(times[..|times| - 1], from, to) + (if from <= times[|times| - 1] <= to then 1 else 0)
  }

  lemma {:induction false} CountSpaced(times: seq<int>, from: int, to: int)
    requires Spaced(times)
    ensures CountWithin(times, from, to) > 0 ==> (CountWithin(times, from, to) - 1) * COOLDOWN <= to - from
    ensures times != [] && times[|times| - 1] <= to && CountWithin(times, from, to) > 0 ==>
              (CountWithin(times, from, to) - 1) * COOLDOWN <= times[|times| - 1] - from
    ensures times != [] && times[|times| - 1] < from ==> CountWithin(times, from, to) == 0
  {
    if times != [] {
      CountSpaced(times[..|times| - 1], from, to);
    }
  }

  /** Any window of a given length, wherever it starts and however the clock behaves, holds
      at most one warning more than the cooldowns that fit in it. */
  lemma WarningsBounded(events: seq<Event>, backend: string, from: int, length: nat)
    ensures CountWithin(WarningTimes(events, backend), from, from + length) <= 1 + length / 10_000_000_000
  {
    WarningsSpaced(events, backend);
    CountSpaced(WarningTimes(events, backend), from, from + length);
  }
}
