/**
 What the circuit breaker does to one controller, as functions of its entry and the clock readings of the call, and
 what follows over whole runs. A call that reads the clock more than once carries every reading.
 */
module Breaker {
  type Time = int

  const MIN_RESULTS := 5
  const DEFAULT_THRESHOLD: real := 0.5
  const NANOSECONDS_PER_MINUTE := 60_000_000_000

  datatype Config = Config(threshold: real, window: Time, cooldown: Time)

  datatype Entry = Entry(
    successes: seq<Time>,
    failures: seq<Time>,
    tripped: bool,
    trippedAt: Time,
    halfOpen: bool,
    inFlightProbe: bool)

  const FRESH := Entry([], [], false, 0, false, false)

  /** The times after the cutoff, in their order. */
  function Newer(times: seq<Time>, cutoff: Time): seq<Time> {
    if times == [] then []
    else Newer(times[..|times| - 1], cutoff)
         + if times[|times| - 1] > cutoff then [times[|times| - 1]] else []
  }

  function Prune(e: Entry, cutoff: Time): Entry {
    e.(successes := Newer(e.successes, cutoff), failures := Newer(e.failures, cutoff))
  }

  function AfterSuccess(cfg: Config, e: Entry, recorded: Time, pruned: Time): Entry {
    var p := Prune(e.(successes := e.successes + [recorded]), pruned - cfg.window);
    if p.halfOpen then p.(tripped := false, halfOpen := false, successes := [], failures := []) else p
  }

  function Rate(failures: nat, total: nat): real
    requires total > 0
  {
    failures as real / total as real
  }

  /** At least five results, failing at or above the threshold. */
  predicate FailsTooOften(cfg: Config, successes: nat, failures: nat) {
    var total := successes + failures;
    total >= MIN_RESULTS && Rate(failures, total) >= cfg.threshold
  }

  function AfterFailure(cfg: Config, e: Entry, recorded: Time, pruned: Time, stamped: Time): Entry {
    var f := e.(failures := e.failures + [recorded]);
    if f.halfOpen then f.(halfOpen := false, tripped := true, trippedAt := stamped)
    else
      var p := Prune(f, pruned - cfg.window);
      if FailsTooOften(cfg, |p.successes|, |p.failures|) && !p.tripped
      then p.(tripped := true, trippedAt := stamped) else p
  }

  predicate CoolsDown(cfg: Config, e: Entry, now: Time) {
    e.tripped && !e.halfOpen && now - e.trippedAt >= cfg.cooldown
  }

  /** What IsTripped answers. */
  predicate Blocks(cfg: Config, e: Entry, now: Time) {
    e.tripped && !CoolsDown(cfg, e, now) && (e.halfOpen ==> e.inFlightProbe)
  }

  function AfterCheck(cfg: Config, e: Entry, now: Time): Entry {
    if CoolsDown(cfg, e, now) then e.(halfOpen := true, inFlightProbe := true) else e
  }

  function AfterTrip(e: Entry, now: Time): Entry {
    e.(tripped := true, trippedAt := now)
  }

  function AfterReset(e: Entry): Entry {
    e.(tripped := false, successes := [], failures := [])
  }

  datatype Event =
    | Success(recorded: Time, pruned: Time)
    | Failure(recorded: Time, pruned: Time, stamped: Time)
    | Check(now: Time)
    | ProbeDone
    | Trip(now: Time)
    | Reset

  function Step(cfg: Config, e: Entry, ev: Event): Entry {
    match ev
    case Success(recorded, pruned) => AfterSuccess(cfg, e, recorded, pruned)
    case Failure(recorded, pruned, stamped) => AfterFailure(cfg, e, recorded, pruned, stamped)
    case Check(now) => AfterCheck(cfg, e, now)
    case ProbeDone => e.(inFlightProbe := false)
    case Trip(now) => AfterTrip(e, now)
    case Reset => AfterReset(e)
  }

  function Run(cfg: Config, e: Entry, events: seq<Event>): Entry {
    if events == [] then e else Step(cfg, Run(cfg, e, events[..|events| - 1]), events[|events| - 1])
  }

  /** The last clock reading of a run that started when the clock read `from`. */
  function Clock(from: Time, events: seq<Event>): Time {
    if events == [] then from
    else
      match events[|events| - 1]
      case Success(_, pruned) => pruned
      case Failure(_, _, stamped) => stamped
      case Check(now) => now
      case Trip(now) => now
      case _ => Clock(from, events[..|events| - 1])
  }

  /** The clock never runs backwards, within a call or between calls. */
  predicate InOrder(from: Time, events: seq<Event>) {
    events != [] ==>
      var before := Clock(from, events[..|events| - 1]);
      && InOrder(from, events[..|events| - 1])
      && match events[|events| - 1]
         case Success(recorded, pruned) => before <= recorded <= pruned
         case Failure(recorded, pruned, stamped) => before <= recorded <= pruned <= stamped
         case Check(now) => before <= now
         case Trip(now) => before <= now
         case _ => true
  }

  // ---- The pruned lists answer for the full history ------------------------

  /** Every result recorded since the lists were last cleared, nothing pruned. */
  datatype History = History(successes: seq<Time>, failures: seq<Time>)

  /** A success in half-open and a reset clear the lists; other results are added. */
  function Record(h: History, halfOpen: bool, ev: Event): History {
    match ev
    case Success(recorded, _) =>
      if halfOpen then History([], []) else h.(successes := h.successes + [recorded])
    case Failure(recorded, _, _) => h.(failures := h.failures + [recorded])
    case Reset => History([], [])
    case _ => h
  }

  function Recorded(cfg: Config, events: seq<Event>): History {
    if events == [] then History([], [])
    else
      var front := events[..|events| - 1];
      Record(Recorded(cfg, front), Run(cfg, FRESH, front).halfOpen, events[|events| - 1])
  }

  lemma NewerPush(times: seq<Time>, t: Time, cutoff: Time)
    ensures Newer(times + [t], cutoff) == Newer(times, cutoff) + if t > cutoff then [t] else []
  {
    assert (times + [t])[..|times|] == times;
  }

  /** Pruning first with an older cutoff changes nothing. */
  lemma {:induction false} NewerTwice(times: seq<Time>, older: Time, cutoff: Time)
    requires older <= cutoff
    ensures Newer(Newer(times, older), cutoff) == Newer(times, cutoff)
  {
    if times != [] {
      var front, t := times[..|times| - 1], times[|times| - 1];
      NewerTwice(front, older, cutoff);
      assert Newer(front, older) + [] == Newer(front, older) && Newer(front, cutoff) + [] == Newer(front, cutoff);
      if t > older {
        NewerPush(Newer(front, older), t, cutoff);
      }
    }
  }

  /** The two lists have the same entries after any cutoff from `since` on. */
  ghost predicate SameFrom(kept: seq<Time>, all: seq<Time>, since: Time) {
    forall cutoff | cutoff >= since :: Newer(kept, cutoff) == Newer(all, cutoff)
  }

  ghost predicate AgreeFrom(e: Entry, h: History, since: Time) {
    SameFrom(e.successes, h.successes, since) && SameFrom(e.failures, h.failures, since)
  }

  lemma SameAfterPruning(kept: seq<Time>, all: seq<Time>, since: Time, cutoff: Time)
    requires SameFrom(kept, all, since) && since <= cutoff
    ensures SameFrom(Newer(kept, cutoff), all, cutoff)
  {
    forall c | c >= cutoff ensures Newer(Newer(kept, cutoff), c) == Newer(all, c) {
      NewerTwice(kept, cutoff, c);
    }
  }

  lemma SameAfterPush(kept: seq<Time>, all: seq<Time>, since: Time, t: Time)
    requires SameFrom(kept, all, since)
    ensures SameFrom(kept + [t], all + [t], since)
  {
    forall c | c >= since ensures Newer(kept + [t], c) == Newer(all + [t], c) {
      NewerPush(kept, t, c);
      NewerPush(all, t, c);
    }
  }

  /** A list that gains nothing agrees from a later cutoff on, pruned at it or not. */
  lemma KeptAgrees(kept: seq<Time>, all: seq<Time>, since: Time, cutoff: Time)
    requires SameFrom(kept, all, since) && since <= cutoff
    ensures SameFrom(kept, all, cutoff) && SameFrom(Newer(kept, cutoff), all, cutoff)
  {
    SameAfterPruning(kept, all, since, cutoff);
  }

  /** A list that gains an entry agrees with the history that gains it too, pruned afterwards or not. */
  lemma GrownAgrees(kept: seq<Time>, all: seq<Time>, since: Time, t: Time, cutoff: Time)
    requires SameFrom(kept, all, since) && since <= cutoff
    ensures SameFrom(kept + [t], all + [t], cutoff) && SameFrom(Newer(kept + [t], cutoff), all + [t], cutoff)
  {
    SameAfterPush(kept, all, since, t);
    KeptAgrees(kept + [t], all + [t], since, cutoff);
  }

  lemma SuccessAgrees(e: Entry, e': Entry, h: History, since: Time, recorded: Time, cutoff: Time)
    requires AgreeFrom(e, h, since) && since <= cutoff
    requires e'.successes == Newer(e.successes + [recorded], cutoff) && e'.failures == Newer(e.failures, cutoff)
    ensures AgreeFrom(e', h.(successes := h.successes + [recorded]), cutoff)
  {
    GrownAgrees(e.successes, h.successes, since, recorded, cutoff);
    KeptAgrees(e.failures, h.failures, since, cutoff);
  }

  /** Only a half-open failure leaves the lists unpruned. */
  lemma FailureAgrees(e: Entry, e': Entry, h: History, since: Time, recorded: Time, cutoff: Time)
    requires AgreeFrom(e, h, since) && since <= cutoff
    requires e'.successes == (if e.halfOpen then e.successes else Newer(e.successes, cutoff))
    requires e'.failures == (if e.halfOpen then e.failures + [recorded] else Newer(e.failures + [recorded], cutoff))
    ensures AgreeFrom(e', h.(failures := h.failures + [recorded]), cutoff)
  {
    GrownAgrees(e.failures, h.failures, since, recorded, cutoff);
    KeptAgrees(e.successes, h.successes, since, cutoff);
  }

  lemma SuccessIsRecorded(cfg: Config, e: Entry, h: History, since: Time, recorded: Time, pruned: Time)
    requires AgreeFrom(e, h, since) && since <= pruned - cfg.window
    ensures AgreeFrom(AfterSuccess(cfg, e, recorded, pruned), Record(h, e.halfOpen, Success(recorded, pruned)),
                      pruned - cfg.window)
  {
    if !e.halfOpen {
      SuccessAgrees(e, AfterSuccess(cfg, e, recorded, pruned), h, since, recorded, pruned - cfg.window);
    }
  }

  lemma FailureIsRecorded(cfg: Config, e: Entry, h: History, since: Time, recorded: Time, pruned: Time, stamped: Time)
    requires AgreeFrom(e, h, since) && since <= pruned - cfg.window
    ensures AgreeFrom(AfterFailure(cfg, e, recorded, pruned, stamped),
                      h.(failures := h.failures + [recorded]), pruned - cfg.window)
  {
    FailureAgrees(e, AfterFailure(cfg, e, recorded, pruned, stamped), h, since, recorded, pruned - cfg.window);
  }

  lemma RecordingAgrees(cfg: Config, e: Entry, h: History, since: Time, ev: Event)
    requires AgreeFrom(e, h, since)
    requires ev.Success? || ev.Failure? ==> since <= ev.pruned - cfg.window
    ensures AgreeFrom(Step(cfg, e, ev), Record(h, e.halfOpen, ev),
                      if ev.Success? || ev.Failure? then ev.pruned - cfg.window else since)
  {
    match ev
    case Success(recorded, pruned) =>
      SuccessIsRecorded(cfg, e, h, since, recorded, pruned);
    case Failure(recorded, pruned, stamped) =>
      FailureIsRecorded(cfg, e, h, since, recorded, pruned, stamped);
    case _ =>
  }

  /** Over every run, the pruned lists agree with the full history on the current window and all later ones. */
  lemma {:induction false} ListsAgreeWithHistory(cfg: Config, from: Time, events: seq<Event>)
    requires InOrder(from, events)
    ensures AgreeFrom(Run(cfg, FRESH, events), Recorded(cfg, events), Clock(from, events) - cfg.window)
  {
    if events != [] {
      var front := events[..|events| - 1];
      ListsAgreeWithHistory(cfg, from, front);
      RecordingAgrees(cfg, Run(cfg, FRESH, front), Recorded(cfg, front), Clock(from, front) - cfg.window,
                      events[|events| - 1]);
    }
  }

  lemma TripsByHistory(cfg: Config, e: Entry, h: History, since: Time, recorded: Time, pruned: Time, stamped: Time)
    requires AgreeFrom(e, h, since) && since <= pruned - cfg.window && !e.tripped && !e.halfOpen
    ensures var e' := AfterFailure(cfg, e, recorded, pruned, stamped);
            var cutoff := pruned - cfg.window;
            && (e'.tripped <==>
                FailsTooOften(cfg, |Newer(h.successes, cutoff)|, |Newer(h.failures + [recorded], cutoff)|))
            && (e'.tripped ==> e'.trippedAt == stamped)
  {
  }

  lemma RateIsAtLeast(failures: nat, total: nat, threshold: real)
    requires total > 0
    ensures Rate(failures, total) >= threshold <==> failures as real >= threshold * total as real
  {
    var rate := Rate(failures, total);
    assert failures as real == rate * total as real;
    if rate >= threshold {
      TimesKeepsOrder(threshold, rate, total as real);
    } else {
      TimesKeepsOrder(rate, threshold, total as real);
    }
  }

  lemma TimesKeepsOrder(x: real, y: real, b: real)
    requires b > 0.0
    ensures x < y ==> x * b < y * b
    ensures x == y ==> x * b == y * b
  {
  }

  /** Too often: at least five results, of which at least the threshold's share failed. */
  lemma FailsTooOftenIff(cfg: Config, successes: nat, failures: nat)
    ensures FailsTooOften(cfg, successes, failures) <==>
            successes + failures >= 5 && failures as real >= cfg.threshold * (successes + failures) as real
  {
    if successes + failures > 0 {
      RateIsAtLeast(failures, successes + failures, cfg.threshold);
    }
  }

  /**
   In the closed state a failure trips the breaker exactly when, of everything recorded since the last clear, the
   window ending at this call holds at least five results failing at or above the threshold.
   */
  lemma FailureTripsExactly(cfg: Config, from: Time, events: seq<Event>, recorded: Time, pruned: Time, stamped: Time)
    requires InOrder(from, events + [Failure(recorded, pruned, stamped)])
    requires var e := Run(cfg, FRESH, events); !e.tripped && !e.halfOpen
    ensures var h := Recorded(cfg, events + [Failure(recorded, pruned, stamped)]);
            var e' := Run(cfg, FRESH, events + [Failure(recorded, pruned, stamped)]);
            var cutoff := pruned - cfg.window;
            && (e'.tripped <==> FailsTooOften(cfg, |Newer(h.successes, cutoff)|, |Newer(h.failures, cutoff)|))
            && (e'.tripped ==> e'.trippedAt == stamped)
  {
    var all := events + [Failure(recorded, pruned, stamped)];
    assert all[..|events|] == events;
    ListsAgreeWithHistory(cfg, from, events);
    TripsByHistory(cfg, Run(cfg, FRESH, events), Recorded(cfg, events), Clock(from, events) - cfg.window,
                   recorded, pruned, stamped);
  }

  // ---- The probe gate ------------------------------------------------------

  /** The entry after the first `n` events. */
  function After(cfg: Config, e: Entry, events: seq<Event>, n: nat): Entry
    requires n <= |events|
  {
    Run(cfg, e, events[..n])
  }

  /** Event `i` is an IsTripped call that lets its caller through. */
  predicate Passes(cfg: Config, e: Entry, events: seq<Event>, i: nat)
    requires i < |events|
  {
    events[i].Check? && !Blocks(cfg, After(cfg, e, events, i), events[i].now)
  }

  /** When the breaker was last tripped before the end of the run. */
  function LastTrip(start: Time, events: seq<Event>): Time {
    if events == [] then start
    else if events[|events| - 1].Trip? then events[|events| - 1].now
    else LastTrip(start, events[..|events| - 1])
  }

  lemma RunSplit(cfg: Config, e: Entry, events: seq<Event>, i: nat)
    requires i < |events|
    ensures After(cfg, e, events, i + 1) == Step(cfg, After(cfg, e, events, i), events[i])
  {
    assert events[..i + 1][..i] == events[..i];
  }

  lemma GateStep(cfg: Config, s: Entry, ev: Event)
    requires s.tripped && (s.halfOpen ==> s.inFlightProbe) && (ev.Check? || ev.Trip?)
    ensures var passes := ev.Check? && !Blocks(cfg, s, ev.now);
            var s' := Step(cfg, s, ev);
            && s'.tripped && (s'.halfOpen ==> s'.inFlightProbe)
            && s'.trippedAt == (if ev.Trip? then ev.now else s.trippedAt)
            && (s'.halfOpen <==> s.halfOpen || passes)
            && (passes ==> !s.halfOpen && ev.now - s.trippedAt >= cfg.cooldown)
  {
  }

  /** Somebody passes before event `n`. */
  predicate PassedBefore(cfg: Config, e: Entry, events: seq<Event>, n: nat)
    requires n <= |events|
  {
    n > 0 && (Passes(cfg, e, events, n - 1) || PassedBefore(cfg, e, events, n - 1))
  }

  lemma {:induction false} PassingIsRemembered(cfg: Config, e: Entry, events: seq<Event>, i: nat, n: nat)
    requires i < n <= |events| && Passes(cfg, e, events, i)
    ensures PassedBefore(cfg, e, events, n)
  {
    if i < n - 1 {
      PassingIsRemembered(cfg, e, events, i, n - 1);
    }
  }

  /** Along checks and trips the entry stays tripped, and it is half-open exactly when somebody has passed. */
  lemma {:induction false} GateInvariant(cfg: Config, e: Entry, events: seq<Event>, n: nat)
    requires e.tripped && !e.halfOpen && n <= |events|
    requires forall ev | ev in events :: ev.Check? || ev.Trip?
    ensures var s := After(cfg, e, events, n);
            && s.tripped && s.trippedAt == LastTrip(e.trippedAt, events[..n])
            && (s.halfOpen <==> PassedBefore(cfg, e, events, n))
            && (s.halfOpen ==> s.inFlightProbe)
  {
    if n > 0 {
      GateInvariant(cfg, e, events, n - 1);
      RunSplit(cfg, e, events, n - 1);
      assert events[..n][..n - 1] == events[..n - 1];
      assert events[n - 1] in events;
      GateStep(cfg, After(cfg, e, events, n - 1), events[n - 1]);
    }
  }

  /**
   From a tripped entry, whoever calls IsTripped and Trip in whatever order: at most one IsTripped lets its caller
   through, and only once the cooldown since the last trip has passed.
   */
  lemma AtMostOneProbe(cfg: Config, e: Entry, events: seq<Event>, i: nat, j: nat)
    requires e.tripped && !e.halfOpen && i < |events| && j < |events|
    requires forall ev | ev in events :: ev.Check? || ev.Trip?
    requires Passes(cfg, e, events, i)
    ensures events[i].now - LastTrip(e.trippedAt, events[..i]) >= cfg.cooldown
    ensures Passes(cfg, e, events, j) ==> i == j
  {
    GateInvariant(cfg, e, events, i);
    GateInvariant(cfg, e, events, j);
    if Passes(cfg, e, events, j) && i < j {
      PassingIsRemembered(cfg, e, events, i, j);
    } else if Passes(cfg, e, events, j) && j < i {
      PassingIsRemembered(cfg, e, events, j, i);
    }
    assert events[i] in events && events[j] in events;
    GateStep(cfg, After(cfg, e, events, i), events[i]);
    GateStep(cfg, After(cfg, e, events, j), events[j]);
  }

  // ---- When there is a second probe ----------------------------------------

  /** An event of the kind happens after event `i` and before event `n`. */
  predicate CompletedBetween(events: seq<Event>, i: nat, n: nat)
    requires n <= |events|
  {
    exists k | i < k < n :: events[k].ProbeDone?
  }

  predicate FailedBetween(events: seq<Event>, i: nat, n: nat)
    requires n <= |events|
  {
    exists k | i < k < n :: events[k].Failure?
  }

  /** Event `k` ends the tripped state: a reset, or the success of a probe. */
  predicate ClearsAt(cfg: Config, e: Entry, events: seq<Event>, k: nat)
    requires k < |events|
  {
    events[k].Reset? || (events[k].Success? && After(cfg, e, events, k).halfOpen)
  }

  predicate ClearedBetween(cfg: Config, e: Entry, events: seq<Event>, i: nat, n: nat)
    requires n <= |events|
  {
    exists k | i < k < n :: ClearsAt(cfg, e, events, k)
  }

  /** Event `i` is a check that lets a probe through after the cooldown. */
  predicate Probes(cfg: Config, e: Entry, events: seq<Event>, i: nat)
    requires i < |events|
  {
    events[i].Check? && CoolsDown(cfg, After(cfg, e, events, i), events[i].now)
  }

  /** Where a probe of event `i` stands when nothing ended the tripped state since. */
  predicate ProbeStands(s: Entry, events: seq<Event>, i: nat, n: nat)
    requires n <= |events|
  {
    && s.tripped
    && (!s.inFlightProbe ==> CompletedBetween(events, i, n))
    && (!s.halfOpen ==> FailedBetween(events, i, n))
  }

  lemma ProbeStandsStep(cfg: Config, s: Entry, s': Entry, events: seq<Event>, i: nat, n: nat)
    requires i < n < |events| && ProbeStands(s, events, i, n) && s' == Step(cfg, s, events[n])
    requires !events[n].Reset? && !(events[n].Success? && s.halfOpen)
    ensures ProbeStands(s', events, i, n + 1)
  {
    assert CompletedBetween(events, i, n) ==> CompletedBetween(events, i, n + 1);
    assert FailedBetween(events, i, n) ==> FailedBetween(events, i, n + 1);
  }

  lemma NotClearedBefore(cfg: Config, e: Entry, events: seq<Event>, i: nat, n: nat)
    requires i < n < |events| && !ClearedBetween(cfg, e, events, i, n + 1)
    ensures !ClearedBetween(cfg, e, events, i, n) && !ClearsAt(cfg, e, events, n)
  {
  }

  lemma ProbeStandsFirst(cfg: Config, e: Entry, events: seq<Event>, i: nat)
    requires i < |events| && Probes(cfg, e, events, i)
    ensures ProbeStands(After(cfg, e, events, i + 1), events, i, i + 1)
  {
    RunSplit(cfg, e, events, i);
  }

  lemma ProbeStandsNext(cfg: Config, e: Entry, events: seq<Event>, i: nat, n: nat)
    requires i < n < |events| && ProbeStands(After(cfg, e, events, n), events, i, n)
    requires !ClearsAt(cfg, e, events, n)
    ensures ProbeStands(After(cfg, e, events, n + 1), events, i, n + 1)
  {
    RunSplit(cfg, e, events, n);
    ProbeStandsStep(cfg, After(cfg, e, events, n), After(cfg, e, events, n + 1), events, i, n);
  }

  lemma {:induction false} ProbeStandsUntil(cfg: Config, e: Entry, events: seq<Event>, i: nat, n: nat)
    requires i < n <= |events| && Probes(cfg, e, events, i) && !ClearedBetween(cfg, e, events, i, n)
    ensures ProbeStands(After(cfg, e, events, n), events, i, n)
  {
    if n == i + 1 {
      ProbeStandsFirst(cfg, e, events, i);
    } else {
      NotClearedBefore(cfg, e, events, i, n - 1);
      ProbeStandsUntil(cfg, e, events, i, n - 1);
      ProbeStandsNext(cfg, e, events, i, n - 1);
    }
  }

  /**
   Over every run of calls of any kind: after a probe was let through, a check lets a second caller through only if
   the probe was completed, the tripped state was cleared, or a failure was recorded and the cooldown since the last
   trip has passed.
   */
  lemma SecondPassNeeds(cfg: Config, e: Entry, events: seq<Event>, i: nat, j: nat)
    requires i < j < |events| && Probes(cfg, e, events, i) && Passes(cfg, e, events, j)
    ensures || CompletedBetween(events, i, j)
            || ClearedBetween(cfg, e, events, i, j)
            || (FailedBetween(events, i, j) && events[j].now - After(cfg, e, events, j).trippedAt >= cfg.cooldown)
  {
    if !ClearedBetween(cfg, e, events, i, j) {
      ProbeStandsUntil(cfg, e, events, i, j);
    }
  }

  /** Nothing but checks, trips and completions happens after event `i` and before event `n`. */
  predicate OnlyProbing(events: seq<Event>, i: nat, n: nat)
    requires n <= |events|
  {
    forall k | i < k < n :: events[k].Check? || events[k].Trip? || events[k].ProbeDone?
  }

  lemma {:induction false} GateWhileProbing(cfg: Config, e: Entry, events: seq<Event>, i: nat, n: nat)
    requires i < n <= |events| && Probes(cfg, e, events, i) && OnlyProbing(events, i, n)
    ensures var s := After(cfg, e, events, n);
            s.tripped && s.halfOpen && (s.inFlightProbe <==> !CompletedBetween(events, i, n))
  {
    RunSplit(cfg, e, events, n - 1);
    if n > i + 1 {
      GateWhileProbing(cfg, e, events, i, n - 1);
      CompletedGrows(events, i, n - 1);
    }
  }

  lemma CompletedGrows(events: seq<Event>, i: nat, n: nat)
    requires i < n < |events|
    ensures CompletedBetween(events, i, n + 1) <==> CompletedBetween(events, i, n) || events[n].ProbeDone?
  {
  }

  /**
   As long as no result is recorded and nothing is reset, a later check lets its caller through if and only if the
   probe was completed in between.
   */
  lemma SecondPassIffCompleted(cfg: Config, e: Entry, events: seq<Event>, i: nat, j: nat)
    requires i < j < |events| && Probes(cfg, e, events, i) && OnlyProbing(events, i, j) && events[j].Check?
    ensures Passes(cfg, e, events, j) <==> CompletedBetween(events, i, j)
  {
    GateWhileProbing(cfg, e, events, i, j);
  }

  // ---- What the result of a probe decides ----------------------------------

  /** What was recorded after event `j` and before event `n`, as far as a closed breaker remembers it. */
  function RecordedAfter(events: seq<Event>, j: nat, n: nat): History
    requires n <= |events|
  {
    if n <= j + 1 then History([], []) else Record(RecordedAfter(events, j, n - 1), false, events[n - 1])
  }

  /** Event `m` is a failure with which the window of what was recorded since event `j` fails too often. */
  predicate FailsTooOftenSince(cfg: Config, events: seq<Event>, j: nat, m: nat)
    requires m < |events|
  {
    events[m].Failure? &&
    var h, cutoff := RecordedAfter(events, j, m + 1), events[m].pruned - cfg.window;
    FailsTooOften(cfg, |Newer(h.successes, cutoff)|, |Newer(h.failures, cutoff)|)
  }

  /** After event `j` and before event `n` nobody calls Trip, and no failure is one too many. */
  predicate NothingTrips(cfg: Config, events: seq<Event>, j: nat, n: nat)
    requires n <= |events|
  {
    forall m | j < m < n :: !events[m].Trip? && !FailsTooOftenSince(cfg, events, j, m)
  }

  /** Event `j` is the success of the probe of event `i`. */
  predicate ProbeSucceeds(cfg: Config, e: Entry, events: seq<Event>, i: nat, j: nat)
    requires i < j < |events|
  {
    Probes(cfg, e, events, i) && OnlyProbing(events, i, j) && events[j].Success?
  }

  ghost predicate IsClosedSince(cfg: Config, from: Time, s: Entry, events: seq<Event>, j: nat, n: nat)
    requires n <= |events|
  {
    && !s.tripped && !s.halfOpen
    && AgreeFrom(s, RecordedAfter(events, j, n), Clock(from, events[..n]) - cfg.window)
  }

  lemma AgreeLater(e: Entry, h: History, since: Time, later: Time)
    requires AgreeFrom(e, h, since) && since <= later
    ensures AgreeFrom(e, h, later)
  {
    KeptAgrees(e.successes, h.successes, since, later);
    KeptAgrees(e.failures, h.failures, since, later);
  }

  lemma ClockSplit(from: Time, events: seq<Event>, n: nat)
    requires n < |events| && InOrder(from, events[..n + 1])
    ensures InOrder(from, events[..n]) && Clock(from, events[..n]) <= Clock(from, events[..n + 1])
    ensures events[n].Success? || events[n].Failure? ==>
              Clock(from, events[..n]) <= events[n].pruned <= Clock(from, events[..n + 1])
  {
    assert events[..n + 1][..n] == events[..n];
  }

  /** One call on a closed breaker that is no Trip and no failure too many. */
  lemma StaysClosed(cfg: Config, s: Entry, h: History, since: Time, ev: Event)
    requires !s.tripped && !s.halfOpen && AgreeFrom(s, h, since) && !ev.Trip?
    requires ev.Success? || ev.Failure? ==> since <= ev.pruned - cfg.window
    requires ev.Failure? ==>
               var h', cutoff := Record(h, false, ev), ev.pruned - cfg.window;
               !FailsTooOften(cfg, |Newer(h'.successes, cutoff)|, |Newer(h'.failures, cutoff)|)
    ensures !Step(cfg, s, ev).tripped && !Step(cfg, s, ev).halfOpen
  {
    if ev.Failure? {
      TripsByHistory(cfg, s, h, since, ev.recorded, ev.pruned, ev.stamped);
    }
  }

  lemma AgreesNext(cfg: Config, s: Entry, h: History, since: Time, ev: Event, later: Time)
    requires AgreeFrom(s, h, since) && !s.halfOpen && since <= later
    requires ev.Success? || ev.Failure? ==> since <= ev.pruned - cfg.window <= later
    ensures AgreeFrom(Step(cfg, s, ev), Record(h, false, ev), later)
  {
    RecordingAgrees(cfg, s, h, since, ev);
    AgreeLater(Step(cfg, s, ev), Record(h, false, ev),
               if ev.Success? || ev.Failure? then ev.pruned - cfg.window else since, later);
  }

  lemma ClosedStep(cfg: Config, from: Time, s: Entry, events: seq<Event>, j: nat, n: nat)
    requires j < n < |events| && InOrder(from, events[..n + 1])
    requires IsClosedSince(cfg, from, s, events, j, n)
    requires !events[n].Trip? && !FailsTooOftenSince(cfg, events, j, n)
    ensures IsClosedSince(cfg, from, Step(cfg, s, events[n]), events, j, n + 1)
  {
    var h, since := RecordedAfter(events, j, n), Clock(from, events[..n]) - cfg.window;
    var later := Clock(from, events[..n + 1]) - cfg.window;
    ClockSplit(from, events, n);
    StaysClosed(cfg, s, h, since, events[n]);
    AgreesNext(cfg, s, h, since, events[n], later);
  }

  /** The success of the probe itself leaves nothing to remember. */
  lemma ClosedAtFirst(cfg: Config, from: Time, e: Entry, events: seq<Event>, i: nat, j: nat)
    requires i < j < |events| && ProbeSucceeds(cfg, e, events, i, j)
    ensures IsClosedSince(cfg, from, After(cfg, e, events, j + 1), events, j, j + 1)
  {
    RunSplit(cfg, e, events, j);
    GateWhileProbing(cfg, e, events, i, j);
  }

  lemma {:induction false} ClosedSince(
      cfg: Config, from: Time, e: Entry, events: seq<Event>, i: nat, j: nat, n: nat)
    requires i < j < n <= |events| && ProbeSucceeds(cfg, e, events, i, j)
    requires InOrder(from, events[..n]) && NothingTrips(cfg, events, j, n)
    ensures IsClosedSince(cfg, from, After(cfg, e, events, n), events, j, n)
  {
    if n == j + 1 {
      ClosedAtFirst(cfg, from, e, events, i, j);
    } else {
      ClockSplit(from, events, n - 1);
      ClosedSince(cfg, from, e, events, i, j, n - 1);
      RunSplit(cfg, e, events, n - 1);
      ClosedStep(cfg, from, After(cfg, e, events, n - 1), events, j, n - 1);
    }
  }

  /** The success of a probe closes the breaker: until something trips it again, every check passes. */
  lemma SuccessfulProbeCloses(cfg: Config, from: Time, e: Entry, events: seq<Event>, i: nat, j: nat, k: nat)
    requires i < j < k < |events| && ProbeSucceeds(cfg, e, events, i, j)
    requires InOrder(from, events[..k]) && NothingTrips(cfg, events, j, k)
    requires events[k].Check?
    ensures Passes(cfg, e, events, k)
  {
    ClosedSince(cfg, from, e, events, i, j, k);
  }

  lemma TripsOnClosed(cfg: Config, from: Time, s: Entry, events: seq<Event>, j: nat, k: nat)
    requires j < k < |events| && events[k].Failure? && IsClosedSince(cfg, from, s, events, j, k)
    requires Clock(from, events[..k]) <= events[k].pruned
    ensures Step(cfg, s, events[k]).tripped <==> FailsTooOftenSince(cfg, events, j, k)
  {
    TripsByHistory(cfg, s, RecordedAfter(events, j, k), Clock(from, events[..k]) - cfg.window,
                   events[k].recorded, events[k].pruned, events[k].stamped);
  }

  /**
   And it starts afresh: a later failure trips it exactly when, of everything recorded since the success of the probe,
   the window ending at this call fails too often.
   */
  lemma FailureAfterProbeTripsExactly(
      cfg: Config, from: Time, e: Entry, events: seq<Event>, i: nat, j: nat, k: nat)
    requires i < j < k < |events| && ProbeSucceeds(cfg, e, events, i, j)
    requires InOrder(from, events[..k + 1]) && NothingTrips(cfg, events, j, k)
    requires events[k].Failure?
    ensures After(cfg, e, events, k + 1).tripped <==> FailsTooOftenSince(cfg, events, j, k)
  {
    ClockSplit(from, events, k);
    ClosedSince(cfg, from, e, events, i, j, k);
    RunSplit(cfg, e, events, k);
    TripsOnClosed(cfg, from, After(cfg, e, events, k), events, j, k);
  }

  /** A completion, a result, or a check within the cooldown since `stamped`. */
  predicate IsCooling(cfg: Config, ev: Event, stamped: Time) {
    ev.ProbeDone? || ev.Success? || ev.Failure? || (ev.Check? && ev.now - stamped < cfg.cooldown)
  }

  predicate OnlyCooling(cfg: Config, events: seq<Event>, stamped: Time, j: nat, n: nat)
    requires n <= |events|
  {
    forall m | j < m < n :: IsCooling(cfg, events[m], stamped)
  }

  /** Tripped at that time, and nobody was let through since. */
  predicate IsTrippedAt(s: Entry, stamped: Time) {
    s.tripped && !s.halfOpen && s.trippedAt == stamped
  }

  lemma CoolingStep(cfg: Config, s: Entry, ev: Event, stamped: Time)
    requires IsTrippedAt(s, stamped) && IsCooling(cfg, ev, stamped)
    ensures IsTrippedAt(Step(cfg, s, ev), stamped)
  {
  }

  lemma CoolingStarts(cfg: Config, e: Entry, events: seq<Event>, i: nat, j: nat)
    requires i < j < |events| && Probes(cfg, e, events, i) && OnlyProbing(events, i, j) && events[j].Failure?
    ensures IsTrippedAt(After(cfg, e, events, j + 1), events[j].stamped)
  {
    RunSplit(cfg, e, events, j);
    GateWhileProbing(cfg, e, events, i, j);
  }

  lemma {:induction false} CoolingSince(cfg: Config, e: Entry, events: seq<Event>, stamped: Time, j: nat, n: nat)
    requires j < n <= |events| && IsTrippedAt(After(cfg, e, events, j + 1), stamped)
    requires OnlyCooling(cfg, events, stamped, j, n)
    ensures IsTrippedAt(After(cfg, e, events, n), stamped)
  {
    if n > j + 1 {
      CoolingSince(cfg, e, events, stamped, j, n - 1);
      RunSplit(cfg, e, events, n - 1);
      CoolingStep(cfg, After(cfg, e, events, n - 1), events[n - 1], stamped);
    }
  }

  /**
   The failure of a probe trips the breaker again, however few results there are: whatever is recorded or completed
   then, the next check to pass is the first one that a whole cooldown separates from the failure.
   */
  lemma FailedProbeTripsAgain(cfg: Config, e: Entry, events: seq<Event>, i: nat, j: nat, k: nat)
    requires i < j < k < |events| && Probes(cfg, e, events, i) && OnlyProbing(events, i, j) && events[j].Failure?
    requires OnlyCooling(cfg, events, events[j].stamped, j, k)
    requires events[k].Check?
    ensures Passes(cfg, e, events, k) <==> events[k].now - events[j].stamped >= cfg.cooldown
  {
    CoolingStarts(cfg, e, events, i, j);
    CoolingSince(cfg, e, events, events[j].stamped, j, k);
  }

  /** Half-open stays a special case of tripped unless Reset is called while half-open, and then it never does. */
  lemma HalfOpenImpliesTrippedStep(cfg: Config, e: Entry, ev: Event)
    requires e.halfOpen ==> e.tripped
    ensures var e' := Step(cfg, e, ev);
            (e'.halfOpen ==> e'.tripped) <==> !(ev == Reset && e.halfOpen)
  {
  }

  lemma {:induction false} HalfOpenImpliesTripped(cfg: Config, events: seq<Event>)
    requires forall i | 0 <= i < |events| :: events[i] == Reset ==> !Run(cfg, FRESH, events[..i]).halfOpen
    ensures Run(cfg, FRESH, events).halfOpen ==> Run(cfg, FRESH, events).tripped
  {
    if events != [] {
      var front := events[..|events| - 1];
      forall i | 0 <= i < |front| ensures front[..i] == events[..i] {}
      HalfOpenImpliesTripped(cfg, front);
      HalfOpenImpliesTrippedStep(cfg, Run(cfg, FRESH, front), events[|events| - 1]);
    }
  }

  /** Checks and completions after a Reset in half-open: everybody passes, and the entry stays half-open. */
  lemma {:induction false} ResetLooksClosed(cfg: Config, e: Entry, events: seq<Event>)
    requires e.halfOpen && !e.tripped
    requires forall ev | ev in events :: ev.Check? || ev.ProbeDone?
    ensures var s := Run(cfg, e, events);
            s.halfOpen && !s.tripped && s.successes == e.successes && s.failures == e.failures
  {
    if events != [] {
      assert events[|events| - 1] in events;
      ResetLooksClosed(cfg, e, events[..|events| - 1]);
    }
  }

  /**
   From a new breaker: tripped, probed after the cooldown, and reset. Nobody is blocked then, for any number of calls,
   yet the first failure trips the breaker, alone in its window.
   */
  lemma ResetInHalfOpenTripsOnFirstFailure(
      cfg: Config, at: Time, calls: seq<Event>, now: Time, recorded: Time, pruned: Time, stamped: Time)
    requires forall ev | ev in calls :: ev.Check? || ev.ProbeDone?
    ensures var events := [Trip(at), Check(at + cfg.cooldown), Reset] + calls;
            var s := Run(cfg, FRESH, events);
            var s' := Run(cfg, FRESH, events + [Failure(recorded, pruned, stamped)]);
            !Blocks(cfg, s, now) && s'.tripped && s'.failures == [recorded] && s'.successes == []
  {
    var start := [Trip(at), Check(at + cfg.cooldown), Reset];
    var events := start + calls;
    assert start[..1] == [Trip(at)] && start[..2] == [Trip(at), Check(at + cfg.cooldown)] && start[..3] == start;
    assert start[..0] == [];
    RunSplit(cfg, FRESH, start, 0);
    RunSplit(cfg, FRESH, start, 1);
    RunSplit(cfg, FRESH, start, 2);
    RunConcat(cfg, FRESH, start, calls);
    ResetLooksClosed(cfg, Run(cfg, FRESH, start), calls);
    assert (events + [Failure(recorded, pruned, stamped)])[..|events|] == events;
  }

  lemma {:induction false} RunConcat(cfg: Config, e: Entry, a: seq<Event>, b: seq<Event>)
    ensures Run(cfg, e, a + b) == Run(cfg, Run(cfg, e, a), b)
  {
    if b == [] {
      assert a + b == a;
    } else {
      assert (a + b)[..|a + b| - 1] == a + b[..|b| - 1];
      RunConcat(cfg, e, a, b[..|b| - 1]);
    }
  }

  /** A probe completed without a recorded result leaves the gate open to any number of callers. */
  lemma {:induction false} UnrecordedProbeOpensGate(cfg: Config, e: Entry, checks: seq<Event>)
    requires e.tripped && e.halfOpen
    requires forall c | c in checks :: c.Check?
    ensures var open := Step(cfg, e, ProbeDone);
            && Run(cfg, open, checks) == open
            && forall i | 0 <= i < |checks| :: Passes(cfg, open, checks, i)
  {
    var open := Step(cfg, e, ProbeDone);
    if checks != [] {
      var front := checks[..|checks| - 1];
      UnrecordedProbeOpensGate(cfg, e, front);
      assert checks[|front|] in checks;
      forall i | 0 <= i < |checks| ensures Passes(cfg, open, checks, i) {
        if i < |front| {
          assert front[..i] == checks[..i];
          assert Passes(cfg, open, front, i);
        } else {
          assert checks[..i] == front;
        }
      }
    }
  }
}
