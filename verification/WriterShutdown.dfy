/** Shutting the asynchronous writer down: when a write can be stranded, and that Drain returns. */
module WriterShutdown {
  import opened Wrappers
  import opened AsyncWriter

  /** A Drain call has taken the mutex, or has already set `closed`: nothing is accepted any more. */
  predicate IsClosing(s: State) {
    s.closed || (s.mutex.Some? && s.mutex.value.ByDrainer?)
  }

  // ---- Cancelling after closing loses nothing ------------------------------

  /** A run in which the context is only cancelled once the writer is closing. */
  ghost predicate IsGracefulRun(bufSize: int, actions: seq<Action>, s: State) {
    if actions == [] then s == Init(bufSize)
    else
      var last := |actions| - 1;
      exists before :: IsGracefulRun(bufSize, actions[..last], before) && Enabled(before, actions[last]) &&
                       s == Next(before, actions[last]) && (actions[last] == Cancel ==> IsClosing(before))
  }

  lemma ClosingStays(s: State, a: Action)
    requires Inv(s) && Enabled(s, a) && IsClosing(s)
    ensures IsClosing(Next(s, a))
  {
    MutexOwnerIsHolding(s);
  }

  /** Nobody is cancelled, and no worker gone, before the writer is closing; a worker that is gone left nothing. */
  predicate IsOrderly(s: State) {
    && (s.cancelled ==> IsClosing(s))
    && (s.worker == Exited ==> IsClosing(s) && s.queue == [])
  }

  lemma OrderlyStep(s: State, a: Action)
    requires Inv(s) && Enabled(s, a) && IsOrderly(s) && (a == Cancel ==> IsClosing(s))
    ensures IsOrderly(Next(s, a))
  {
    if IsClosing(s) {
      ClosingStays(s, a);
    }
    if a.Send? {
      SendingIsNotClosing(s, a.p);
    }
  }

  lemma SendingIsNotClosing(s: State, p: Id)
    requires Inv(s) && ProducerAt(s, p).Sending?
    ensures !IsClosing(s)
  {
    assert HoldsAsProducer(ProducerAt(s, p)) <==> s.mutex == Some(ByProducer(p));
  }

  lemma {:induction false} GracefulRunIsOrderly(bufSize: int, actions: seq<Action>, s: State)
    requires IsGracefulRun(bufSize, actions, s)
    ensures IsRun(bufSize, actions, s) && IsOrderly(s)
  {
    if actions != [] {
      var last := |actions| - 1;
      var before :| IsGracefulRun(bufSize, actions[..last], before) && Enabled(before, actions[last]) &&
                    s == Next(before, actions[last]) && (actions[last] == Cancel ==> IsClosing(before));
      GracefulRunIsOrderly(bufSize, actions[..last], before);
      RunsKeepInv(bufSize, actions[..last], before);
      OrderlyStep(before, actions[last]);
    }
  }

  /** When every cancellation comes after the writer began to close, Drain returns with everything accepted executed. */
  lemma GracefulShutdownLosesNothing(bufSize: int, actions: seq<Action>, s: State, d: Id)
    requires IsGracefulRun(bufSize, actions, s) && DrainerAt(s, d) == Returned
    ensures s.executed == s.accepted
  {
    GracefulRunIsOrderly(bufSize, actions, s);
    RunsKeepInv(bufSize, actions, s);
  }

  // ---- Exactly when a write can be stranded --------------------------------

  /** The actions lead from the one state to the other. */
  ghost predicate Leads(s: State, actions: seq<Action>, t: State)
    decreases |actions|
  {
    if actions == [] then s == t else Enabled(s, actions[0]) && Leads(Next(s, actions[0]), actions[1..], t)
  }

  /** A Drain call has returned, and accepted writes are left over. */
  ghost predicate IsStranded(s: State) {
    s.queue != [] && exists d :: DrainerAt(s, d) == Returned
  }

  ghost predicate CanStrand(s: State) {
    exists actions, t :: Leads(s, actions, t) && IsStranded(t)
  }

  lemma CanStrandBefore(s: State, a: Action)
    requires Enabled(s, a) && CanStrand(Next(s, a))
    ensures CanStrand(s)
  {
    var actions, t :| Leads(Next(s, a), actions, t) && IsStranded(t);
    assert ([a] + actions)[1..] == actions;
    assert Leads(s, [a] + actions, t);
  }

  lemma StrandedNow(s: State)
    requires IsStranded(s)
    ensures CanStrand(s)
  {
    assert Leads(s, [], s);
  }

  /** A step from a reachable state, after which a write can be stranded. */
  lemma StepToStranding(s: State, a: Action) returns (s': State)
    requires Reachable(s) && Enabled(s, a)
    ensures s' == Next(s, a) && Reachable(s')
    ensures CanStrand(s') ==> CanStrand(s)
  {
    s' := ReachNext(s, a);
    if CanStrand(s') {
      CanStrandBefore(s, a);
    }
  }

  predicate IsSealed(s: State) {
    IsClosing(s) && (s.worker == Exited ==> s.queue == [])
  }

  lemma {:induction false} SealedNeverStrands(s: State, actions: seq<Action>, t: State)
    requires Reachable(s) && Leads(s, actions, t)
    requires IsSealed(s)
    ensures !IsStranded(t)
    decreases |actions|
  {
    if actions == [] {
      ReachableInv(s);
    } else {
      var s' := ReachNext(s, actions[0]);
      SealedStep(s, actions[0]);
      SealedNeverStrands(s', actions[1..], t);
    }
  }

  /** Once the writer is closing, a worker that leaves has emptied the queue, and nothing is added to it. */
  lemma SealedStep(s: State, a: Action)
    requires Reachable(s) && Enabled(s, a) && IsSealed(s)
    ensures IsSealed(Next(s, a))
  {
    ReachableInv(s);
    ClosingStays(s, a);
    if a.Send? {
      SendingIsNotClosing(s, a.p);
    }
  }

  function OnceRank(s: State): nat {
    match s.once
    case NotStarted => 6
    case Finished => 1
    case InProgress(d) =>
      match DrainerAt(s, d)
      case Entered => 5
      case Setting => 4
      case ClosedSet => 3
      case _ => 2
  }

  /** How many steps the producer that holds the mutex is from releasing it. */
  function MutexRank(s: State): nat {
    match s.mutex
    case Some(ByProducer(p)) =>
      (match ProducerAt(s, p)
       case Checking(_) => 3
       case Sending(_) => 2
       case _ => 1)
    case _ => 0
  }

  function ReleaseStep(s: State, p: Id): Action {
    match ProducerAt(s, p)
    case Checking(_) => CheckClosed(p)
    case Sending(_) => Send(p)
    case _ => UnlockProducer(p)
  }

  lemma ReleaseIsEnabled(s: State, p: Id)
    requires Inv(s) && s.mutex == Some(ByProducer(p))
    ensures Enabled(s, ReleaseStep(s, p))
    ensures var s' := Next(s, ReleaseStep(s, p));
            MutexRank(s') < MutexRank(s) && s'.once == s.once && s'.drainers == s.drainers && s'.worker == s.worker &&
            s'.closed == s.closed && (s.queue != [] ==> s'.queue != [])
  {
    MutexOwnerIsHolding(s);
  }

  lemma FreshDrainer(s: State) returns (d: Id)
    ensures DrainerAt(s, d) == Away
  {
    d := Unused(s.drainers.Keys);
  }

  lemma FreshProducer(s: State) returns (p: Id)
    ensures ProducerAt(s, p) == Idle
  {
    p := Unused(s.producers.Keys);
  }

  lemma Unused(ids: set<Id>) returns (id: Id)
    ensures id !in ids
  {
    id := AllBelow(ids);
  }

  lemma {:induction false} AllBelow(ids: set<Id>) returns (n: nat)
    ensures forall x | x in ids :: x < n
    decreases |ids|
  {
    n := 0;
    if ids != {} {
      var x :| x in ids;
      var m := AllBelow(ids - {x});
      n := if x < m then m else x + 1;
      forall y | y in ids ensures y < n {
        assert y == x || y in ids - {x};
      }
    }
  }

  /** The next step of the drainer that runs the body of the once. */
  function ClosingStep(s: State, d: Id): Action {
    match DrainerAt(s, d)
    case Entered => LockDrainer(d)
    case Setting => SetClosed(d)
    case ClosedSet => UnlockDrainer(d)
    case _ => CloseChannel(d)
  }

  lemma ClosingIsEnabled(s: State, d: Id)
    requires Inv(s) && s.once == InProgress(d) && !(s.mutex.Some? && s.mutex.value.ByProducer?)
    ensures Enabled(s, ClosingStep(s, d))
    ensures var s' := Next(s, ClosingStep(s, d));
            OnceRank(s') < OnceRank(s) && s'.queue == s.queue && s'.worker == s.worker
  {
    assert InsideOnce(DrainerAt(s, d));
    MutexOwnerIsHolding(s);
    if s.mutex.Some? {
      assert InsideOnce(DrainerAt(s, s.mutex.value.d)) <==> s.once == InProgress(s.mutex.value.d);
    }
  }

  lemma FinishedReturns(s: State)
    requires Reachable(s) && s.worker == Exited && s.queue != [] && s.once == Finished
    ensures CanStrand(s)
  {
    var d := FreshDrainer(s);
    var s1 := StepToStranding(s, CallDrain(d));
    var s2 := StepToStranding(s1, SkipOnce(d));
    var s3 := StepToStranding(s2, FinishWait(d));
    assert DrainerAt(s3, d) == Returned;
    StrandedNow(s3);
  }

  lemma StartClosing(s: State) returns (s': State)
    requires Reachable(s) && s.once == NotStarted
    ensures Reachable(s') && (CanStrand(s') ==> CanStrand(s))
    ensures s'.queue == s.queue && s'.worker == s.worker && OnceRank(s') < OnceRank(s)
  {
    var d := FreshDrainer(s);
    var s1 := StepToStranding(s, CallDrain(d));
    s' := StepToStranding(s1, EnterOnce(d));
  }

  /** A worker that is gone while writes are queued: some Drain call still returns, and they stay where they are. */
  lemma {:induction false} LeftoversAreStranded(s: State)
    requires Reachable(s) && s.worker == Exited && s.queue != []
    ensures CanStrand(s)
    decreases OnceRank(s), MutexRank(s)
  {
    ReachableInv(s);
    var s': State;
    if s.once == Finished {
      FinishedReturns(s);
      return;
    } else if s.mutex.Some? && s.mutex.value.ByProducer? {
      ReleaseIsEnabled(s, s.mutex.value.p);
      s' := StepToStranding(s, ReleaseStep(s, s.mutex.value.p));
      SameOnceRank(s, s');
    } else if s.once.InProgress? {
      ClosingIsEnabled(s, s.once.d);
      s' := StepToStranding(s, ClosingStep(s, s.once.d));
    } else {
      s' := StartClosing(s);
    }
    LeftoversAreStranded(s');
  }

  lemma SameOnceRank(s: State, s': State)
    requires s.once == s'.once && s.drainers == s'.drainers
    ensures OnceRank(s) == OnceRank(s')
  {
  }

  /** With the worker gone and nobody at the mutex, a write is accepted. */
  lemma AcceptAfterExit(s: State)
    requires Reachable(s) && s.worker == Exited && !IsClosing(s) && s.mutex == None && s.queue == []
    ensures CanStrand(s)
  {
    AcceptedInOrder(s);
    var p := FreshProducer(s);
    var s1 := StepToStranding(s, Offer(p, 0));
    var s2 := StepToStranding(s1, LockProducer(p));
    var s3 := StepToStranding(s2, CheckClosed(p));
    ReachableInv(s3);
    var s4 := StepToStranding(s3, Send(p));
    LeftoversAreStranded(s4);
  }

  lemma {:induction false} ExitedCanStrand(s: State)
    requires Reachable(s) && s.worker == Exited && !IsClosing(s)
    ensures CanStrand(s)
    decreases MutexRank(s)
  {
    ReachableInv(s);
    if s.queue != [] {
      LeftoversAreStranded(s);
    } else if s.mutex == None {
      AcceptAfterExit(s);
    } else {
      var p := s.mutex.value.p;
      ReleaseIsEnabled(s, p);
      ReleaseIsNotClosing(s, p);
      var s' := StepToStranding(s, ReleaseStep(s, p));
      ExitedCanStrand(s');
    }
  }

  lemma ReleaseIsNotClosing(s: State, p: Id)
    requires Inv(s) && s.mutex == Some(ByProducer(p)) && !s.closed && Enabled(s, ReleaseStep(s, p))
    ensures !IsClosing(Next(s, ReleaseStep(s, p)))
  {
  }

  /** What a worker does next once the context is cancelled and the channel open. */
  function LeavingStep(s: State): Action {
    match s.worker
    case Selecting => SeeCancelled
    case Flushing => if s.queue == [] then TakeDefault else Receive
    case _ => FinishWrite
  }

  lemma LeavingIsEnabled(s: State)
    requires Inv(s) && s.cancelled && !IsClosing(s) && s.worker != Exited
    ensures Enabled(s, LeavingStep(s))
    ensures var s' := Next(s, LeavingStep(s));
            WorkerMeasure(s') < WorkerMeasure(s) && s'.cancelled && !IsClosing(s')
  {
  }

  lemma {:induction false} CancelledCanStrand(s: State)
    requires Reachable(s) && s.cancelled && !IsClosing(s)
    ensures CanStrand(s)
    decreases WorkerMeasure(s)
  {
    ReachableInv(s);
    if s.worker == Exited {
      ExitedCanStrand(s);
    } else {
      LeavingIsEnabled(s);
      var s' := StepToStranding(s, LeavingStep(s));
      CancelledCanStrand(s');
    }
  }

  /**
   From a state that the writer can be in, some continuation ends with a write stranded by a Drain that returned if
   and only if the writer is not closing yet, or the worker is already gone and has left writes in the queue.
   */
  lemma CanStrandIff(s: State)
    requires Reachable(s)
    ensures CanStrand(s) <==> !IsClosing(s) || (s.worker == Exited && s.queue != [])
  {
    if s.worker == Exited && s.queue != [] {
      LeftoversAreStranded(s);
    } else if IsClosing(s) {
      if CanStrand(s) {
        var actions, t :| Leads(s, actions, t) && IsStranded(t);
        SealedNeverStrands(s, actions, t);
      }
    } else {
      var s' := StepToStranding(s, Cancel);
      CancelledCanStrand(s');
    }
  }

  /** Cancelling first and calling Drain afterwards leaves the way open to a stranded write. */
  lemma CancellingFirstCanStrand(s: State)
    requires Reachable(s) && !IsClosing(s)
    ensures Reachable(Next(s, Cancel)) && CanStrand(Next(s, Cancel))
  {
    var s' := ReachNext(s, Cancel);
    CanStrandIff(s');
  }

  /** A Drain call that holds the mutex has closed the way already, although `closed` is not set yet. */
  lemma HoldingTheMutexIsEnough() returns (s: State)
    ensures Reachable(s) && s.cancelled && !s.closed && !CanStrand(s)
  {
    assert IsRun(1, [], Init(1));
    s := ReachNext(Init(1), CallDrain(0));
    s := ReachNext(s, EnterOnce(0));
    s := ReachNext(s, LockDrainer(0));
    s := ReachNext(s, Cancel);
    CanStrandIff(s);
  }

  // ---- Drain returns -------------------------------------------------------

  /** How many steps a call is from its end; a send leaves more work to the worker. */
  function ProducerWeight(pc: Producer): nat {
    match pc
    case Idle => 0
    case Locking(_) => 6
    case Checking(_) => 5
    case Sending(_) => 4
    case Unlocking => 1
  }

  function DrainerWeight(pc: Drainer): nat {
    match pc
    case Away => 0
    case Called => 7
    case Entered => 6
    case Setting => 5
    case ClosedSet => 4
    case Closing => 3
    case Waiting => 2
    case Returned => 0
  }

  ghost function Total(m: map<Id, nat>): nat
    decreases m.Keys
  {
    if m == map[] then 0
    else
      var k :| k in m;
      m[k] + Total(m - {k})
  }

  lemma {:induction false} TotalWithout(m: map<Id, nat>, k: Id)
    requires k in m
    ensures Total(m) == m[k] + Total(m - {k})
    decreases m.Keys
  {
    var first :| first in m && Total(m) == m[first] + Total(m - {first});
    if first != k {
      TotalWithout(m - {first}, k);
      TotalWithout(m - {k}, first);
      assert m - {first} - {k} == m - {k} - {first};
    }
  }

  lemma TotalUpdate(m: map<Id, nat>, k: Id, v: nat)
    ensures Total(m[k := v]) + (if k in m then m[k] else 0) == Total(m) + v
  {
    TotalWithout(m[k := v], k);
    if k in m {
      TotalWithout(m, k);
      assert m[k := v] - {k} == m - {k};
    } else {
      assert m[k := v] - {k} == m;
    }
  }

  function ProducerWeights(s: State): map<Id, nat> {
    map p | p in s.producers :: ProducerWeight(s.producers[p])
  }

  function DrainerWeights(s: State): map<Id, nat> {
    map d | d in s.drainers :: DrainerWeight(s.drainers[d])
  }

  /** A bound on the steps that are left when no call is started any more. */
  ghost function Measure(s: State): nat {
    WorkerMeasure(s) + Total(ProducerWeights(s)) + Total(DrainerWeights(s))
  }

  lemma ProducerMoves(s: State, s': State, p: Id, pc: Producer)
    requires s'.producers == s.producers[p := pc]
    ensures Total(ProducerWeights(s')) + ProducerWeight(ProducerAt(s, p)) == Total(ProducerWeights(s)) + ProducerWeight(pc)
  {
    TotalUpdate(ProducerWeights(s), p, ProducerWeight(pc));
    assert ProducerWeights(s') == ProducerWeights(s)[p := ProducerWeight(pc)];
  }

  lemma DrainerMoves(s: State, s': State, d: Id, pc: Drainer)
    requires s'.drainers == s.drainers[d := pc]
    ensures Total(DrainerWeights(s')) + DrainerWeight(DrainerAt(s, d)) == Total(DrainerWeights(s)) + DrainerWeight(pc)
  {
    TotalUpdate(DrainerWeights(s), d, DrainerWeight(pc));
    assert DrainerWeights(s') == DrainerWeights(s)[d := DrainerWeight(pc)];
  }

  predicate IsOfProducer(a: Action) {
    a.LockProducer? || a.CheckClosed? || a.Send? || a.UnlockProducer?
  }

  lemma ProducerStepWeighs(s: State, a: Action)
    requires Enabled(s, a) && IsOfProducer(a)
    ensures var s' := Next(s, a);
            && s'.producers == s.producers[a.p := ProducerAt(s', a.p)] && s'.drainers == s.drainers
            && WorkerMeasure(s') + ProducerWeight(ProducerAt(s', a.p)) < WorkerMeasure(s) + ProducerWeight(ProducerAt(s, a.p))
  {
  }

  lemma ProducerStepFalls(s: State, a: Action)
    requires Enabled(s, a) && IsOfProducer(a)
    ensures Measure(Next(s, a)) < Measure(s)
  {
    var s' := Next(s, a);
    ProducerStepWeighs(s, a);
    ProducerMoves(s, s', a.p, ProducerAt(s', a.p));
  }

  lemma WorkerStepFalls(s: State, a: Action)
    requires Enabled(s, a) && IsWorkerAction(a)
    ensures Measure(Next(s, a)) < Measure(s)
  {
    var s' := Next(s, a);
    assert ProducerWeights(s') == ProducerWeights(s) && DrainerWeights(s') == DrainerWeights(s);
  }

  predicate IsOfDrainer(a: Action) {
    IsInternal(a) && !IsOfProducer(a) && !IsWorkerAction(a)
  }

  predicate Weighs(s: State, a: Action)
    requires Enabled(s, a) && IsOfDrainer(a)
  {
    var s' := Next(s, a);
    && s'.drainers == s.drainers[a.d := DrainerAt(s', a.d)] && s'.producers == s.producers
    && WorkerMeasure(s') == WorkerMeasure(s)
    && DrainerWeight(DrainerAt(s', a.d)) < DrainerWeight(DrainerAt(s, a.d))
  }

  lemma OutsideBodyWeighs(s: State, a: Action)
    requires Enabled(s, a) && (a.EnterOnce? || a.SkipOnce? || a.FinishWait?)
    ensures Weighs(s, a)
  {
  }

  lemma InsideBodyWeighs(s: State, a: Action)
    requires Enabled(s, a) && (a.LockDrainer? || a.SetClosed? || a.UnlockDrainer? || a.CloseChannel?)
    ensures Weighs(s, a)
  {
  }

  lemma DrainerStepWeighs(s: State, a: Action)
    requires Enabled(s, a) && IsOfDrainer(a)
    ensures Weighs(s, a)
  {
    if a.EnterOnce? || a.SkipOnce? || a.FinishWait? {
      OutsideBodyWeighs(s, a);
    } else {
      InsideBodyWeighs(s, a);
    }
  }

  lemma DrainerStepFalls(s: State, a: Action)
    requires Enabled(s, a) && IsOfDrainer(a)
    ensures Measure(Next(s, a)) < Measure(s)
  {
    var s' := Next(s, a);
    DrainerStepWeighs(s, a);
    DrainerMoves(s, s', a.d, DrainerAt(s', a.d));
  }

  /** Every step that does not start a call or cancel brings the end of all calls closer. */
  lemma MeasureFalls(s: State, a: Action)
    requires Enabled(s, a) && IsInternal(a)
    ensures Measure(Next(s, a)) < Measure(s)
  {
    if IsOfProducer(a) {
      ProducerStepFalls(s, a);
    } else if IsWorkerAction(a) {
      WorkerStepFalls(s, a);
    } else {
      DrainerStepFalls(s, a);
    }
  }

  lemma CallsStay(s: State, a: Action, d: Id)
    requires Enabled(s, a) && DrainerAt(s, d) != Away
    ensures DrainerAt(Next(s, a), d) != Away
  {
  }

  lemma {:induction false} CallsStayUnderWay(s: State, actions: seq<Action>, t: State, d: Id)
    requires Leads(s, actions, t) && DrainerAt(s, d) != Away
    ensures DrainerAt(t, d) != Away
    decreases |actions|
  {
    if actions != [] {
      CallsStay(s, actions[0], d);
      CallsStayUnderWay(Next(s, actions[0]), actions[1..], t, d);
    }
  }

  lemma {:induction false} InternalRunsAreShort(s: State, actions: seq<Action>, t: State)
    requires Reachable(s) && Leads(s, actions, t) && forall a | a in actions :: IsInternal(a)
    ensures |actions| + Measure(t) <= Measure(s) && Reachable(t)
    decreases |actions|
  {
    if actions != [] {
      MeasureFalls(s, actions[0]);
      var s' := ReachNext(s, actions[0]);
      InternalRunsAreShort(s', actions[1..], t);
    }
  }

  /**
   When no more calls are started, the writer comes to rest after a bounded number of steps, whatever their order, and
   every Drain call that was under way has then returned.
   */
  lemma DrainReturns(s: State, actions: seq<Action>, t: State)
    requires Reachable(s) && Leads(s, actions, t) && forall a | a in actions :: IsInternal(a)
    requires forall a | IsInternal(a) :: !Enabled(t, a)
    ensures |actions| <= Measure(s)
    ensures forall d | DrainerAt(s, d) != Away :: DrainerAt(t, d) == Returned
  {
    InternalRunsAreShort(s, actions, t);
    forall d | DrainerAt(s, d) != Away ensures DrainerAt(t, d) == Returned {
      CallsStayUnderWay(s, actions, t, d);
      if DrainerAt(t, d) != Returned {
        DrainNeverDeadlocks(t, d);
      }
    }
  }
}
