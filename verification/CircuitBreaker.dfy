/**
 The circuit breaker as the objects it is made of: time lists compacted in place, one mutable state per controller, and
 the map of states. Every method is proved against the function of the Breaker module that it refines, and leaves the
 other controllers alone. The clock readings of a call are its parameters.
 */
module CircuitBreaker {
  import opened Breaker

  /** Compacts the newer times to the front, in their order, and returns how many there are. */
  method PruneOlderThan(times: array<Time>, cutoff: Time) returns (idx: nat)
    modifies times
    ensures idx <= times.Length
    ensures times[..idx] == Newer(old(times[..]), cutoff)
  {
    idx := 0;
    ghost var was := times[..];
    for i := 0 to times.Length
      invariant idx <= i
      invariant times[..idx] == Newer(was[..i], cutoff)
      invariant times[i..] == was[i..]
    {
      var t := times[i];
      assert t == was[i] by {
        assert times[i..][0] == was[i..][0];
      }
      NewerPush(was[..i], t, cutoff);
      assert was[..i + 1] == was[..i] + [t];
      assert times[i + 1..] == times[i..][1..] == was[i + 1..];
      if t > cutoff {
        times[idx] := t;
        idx := idx + 1;
      }
    }
    assert was[..times.Length] == was;
  }

  /** Prunes a list through the array behind it. */
  method PrunedList(times: seq<Time>, cutoff: Time) returns (r: seq<Time>)
    ensures r == Newer(times, cutoff)
  {
    var a := new Time[|times|](i requires 0 <= i < |times| => times[i]);
    assert a[..] == times;
    var n := PruneOlderThan(a, cutoff);
    r := a[..n];
  }

  class ControllerState {
    var successes: seq<Time>
    var failures: seq<Time>
    var tripped: bool
    var trippedAt: Time
    var halfOpen: bool
    var inFlightProbe: bool

    ghost function View(): Entry
      reads this
    {
      Entry(successes, failures, tripped, trippedAt, halfOpen, inFlightProbe)
    }

    constructor ()
      ensures View() == FRESH
    {
      successes, failures := [], [];
      tripped, trippedAt, halfOpen, inFlightProbe := false, 0, false, false;
    }

    method Prune(cutoff: Time)
      modifies this
      ensures View() == Breaker.Prune(old(View()), cutoff)
    {
      successes := PrunedList(successes, cutoff);
      failures := PrunedList(failures, cutoff);
    }

    method RecordSuccess(cfg: Config, recorded: Time, pruned: Time)
      modifies this
      ensures View() == AfterSuccess(cfg, old(View()), recorded, pruned)
      ensures old(halfOpen) ==> !tripped && !halfOpen && successes == [] && failures == []
    {
      successes := successes + [recorded];
      Prune(pruned - cfg.window);
      if halfOpen {
        tripped, halfOpen := false, false;
        successes, failures := [], [];
      }
    }

    method RecordFailure(cfg: Config, recorded: Time, pruned: Time, stamped: Time)
      modifies this
      ensures View() == AfterFailure(cfg, old(View()), recorded, pruned, stamped)
    {
      failures := failures + [recorded];
      if halfOpen {
        halfOpen, tripped, trippedAt := false, true, stamped;
        return;
      }
      Prune(pruned - cfg.window);
      var total := |successes| + |failures|;
      if total >= MIN_RESULTS {
        var errorRate := Rate(|failures|, total);
        if errorRate >= cfg.threshold && !tripped {
          tripped, trippedAt := true, stamped;
        }
      }
    }

    method IsTripped(cfg: Config, now: Time) returns (blocked: bool)
      modifies this
      ensures blocked == Blocks(cfg, old(View()), now)
      ensures View() == AfterCheck(cfg, old(View()), now)
    {
      if !tripped {
        return false;
      }
      if !halfOpen && now - trippedAt >= cfg.cooldown {
        halfOpen, inFlightProbe := true, true;
        return false;
      }
      if halfOpen {
        return inFlightProbe;
      }
      return true;
    }

    method Reset()
      modifies this
      ensures View() == AfterReset(old(View()))
    {
      tripped := false;
      successes, failures := [], [];
    }
  }

  class CircuitBreaker {
    const cfg: Config
    var states: map<string, ControllerState>

    /** No two controllers share a state. */
    ghost predicate Valid()
      reads this
    {
      forall c, d | c in states && d in states && c != d :: states[c] != states[d]
    }

    ghost function Objects(): set<object>
      reads this
    {
      {this} + set c | c in states :: states[c]
    }

    /** The entry of a controller; one that was never seen has the fresh entry. */
    ghost function View(controller: string): Entry
      reads Objects()
    {
      if controller in states then states[controller].View() else FRESH
    }

    constructor (threshold: real, window: Time)
      ensures Valid() && Objects() == {this}
      ensures forall c :: View(c) == FRESH
      ensures 0.0 < cfg.threshold <= 1.0 && cfg.window > 0 && cfg.cooldown == cfg.window
      ensures 0.0 < threshold <= 1.0 ==> cfg.threshold == threshold
      ensures window > 0 ==> cfg.window == window
      ensures !(0.0 < threshold <= 1.0) ==> cfg.threshold == 0.5
      ensures window <= 0 ==> cfg.window == 5 * 60 * 1_000_000_000
    {
      var t := if threshold <= 0.0 || threshold > 1.0 then DEFAULT_THRESHOLD else threshold;
      var w := if window <= 0 then 5 * NANOSECONDS_PER_MINUTE else window;
      cfg := Config(t, w, w);
      states := map[];
    }

    method GetOrCreate(controller: string) returns (s: ControllerState)
      requires Valid()
      modifies this
      ensures Valid() && fresh(Objects() - old(Objects()))
      ensures controller in states && s == states[controller]
      ensures forall c :: View(c) == old(View(c))
    {
      if controller in states {
        s := states[controller];
      } else {
        s := new ControllerState();
        states := states[controller := s];
      }
    }

    /** The controller made the step, the others did not move. */
    twostate predicate Stepped(controller: string, ev: Event)
      reads Objects()
    {
      && Valid()
      && fresh(Objects() - old(Objects()))
      && View(controller) == Step(cfg, old(View(controller)), ev)
      && forall c | c != controller :: View(c) == old(View(c))
    }

    method RecordSuccess(controller: string, recorded: Time, pruned: Time)
      requires Valid()
      modifies Objects()
      ensures Stepped(controller, Success(recorded, pruned))
    {
      var s := GetOrCreate(controller);
      s.RecordSuccess(cfg, recorded, pruned);
    }

    method RecordFailure(controller: string, recorded: Time, pruned: Time, stamped: Time)
      requires Valid()
      modifies Objects()
      ensures Stepped(controller, Failure(recorded, pruned, stamped))
    {
      var s := GetOrCreate(controller);
      s.RecordFailure(cfg, recorded, pruned, stamped);
    }

    method IsTripped(controller: string, now: Time) returns (blocked: bool)
      requires Valid()
      modifies Objects()
      ensures blocked == Blocks(cfg, old(View(controller)), now)
      ensures Stepped(controller, Check(now))
    {
      if controller !in states {
        return false;
      }
      blocked := states[controller].IsTripped(cfg, now);
    }

    method ProbeCompleted(controller: string)
      requires Valid()
      modifies Objects()
      ensures Stepped(controller, ProbeDone)
    {
      if controller in states {
        states[controller].inFlightProbe := false;
      }
    }

    method Trip(controller: string, now: Time)
      requires Valid()
      modifies Objects()
      ensures Stepped(controller, Event.Trip(now))
    {
      var s := GetOrCreate(controller);
      s.tripped, s.trippedAt := true, now;
    }

    method Reset(controller: string)
      requires Valid()
      modifies Objects()
      ensures Stepped(controller, Event.Reset)
    {
      if controller !in states {
        return;
      }
      states[controller].Reset();
    }
  }
}
