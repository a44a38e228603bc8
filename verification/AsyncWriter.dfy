/**
 The asynchronous writer as interleaved steps: any number of producers calling Enqueue, any number of callers of
 Drain, the cancellation of the context, and the one worker started by Run. A step is one lock operation, one
 check, one channel operation, or the execution of one queued write.
 */
module AsyncWriter {
  import opened Wrappers

  type Write = int
  type Id = nat

  /** Where an Enqueue call stands; from Checking to Unlocking it holds the mutex. */
  datatype Producer = Idle | Locking(w: Write) | Checking(w: Write) | Sending(w: Write) | Unlocking

  /** Where a Drain call stands; Setting and ClosedSet hold the mutex, Entered to Closing run inside the once. */
  datatype Drainer = Away | Called | Entered | Setting | ClosedSet | Closing | Waiting | Returned

  datatype Worker = Selecting | Running(w: Write) | Flushing | FlushRunning(w: Write) | Exited

  datatype Owner = ByProducer(p: Id) | ByDrainer(d: Id)

  datatype Once = NotStarted | InProgress(d: Id) | Finished

  datatype State = State(
    capacity: nat,
    queue: seq<Write>,
    channelClosed: bool,
    mutex: Option<Owner>,
    closed: bool,
    once: Once,
    dropped: nat,
    cancelled: bool,
    worker: Worker,
    producers: map<Id, Producer>,
    drainers: map<Id, Drainer>,
    /** A send on, or a second close of, a closed channel. */
    panicked: bool,
    // What happened so far, read by no step.
    offered: nat,
    accepted: seq<Write>,
    executed: seq<Write>,
    afterClose: nat,
    /** How many writes were accepted when the worker exited. */
    exitMark: Option<nat>)

  datatype Action =
    | Offer(p: Id, w: Write)
    | LockProducer(p: Id)
    | CheckClosed(p: Id)
    | Send(p: Id)
    | UnlockProducer(p: Id)
    | CallDrain(d: Id)
    | EnterOnce(d: Id)
    | SkipOnce(d: Id)
    | LockDrainer(d: Id)
    | SetClosed(d: Id)
    | UnlockDrainer(d: Id)
    | CloseChannel(d: Id)
    | FinishWait(d: Id)
    | Cancel
    | Receive
    | SeeClosed
    | SeeCancelled
    | TakeDefault
    | FinishWrite

  function ProducerAt(s: State, p: Id): Producer {
    if p in s.producers then s.producers[p] else Idle
  }

  function DrainerAt(s: State, d: Id): Drainer {
    if d in s.drainers then s.drainers[d] else Away
  }

  /** The capacity NewWriter gives the channel. */
  function Capacity(bufSize: int): nat {
    if bufSize <= 0 then 4096 else bufSize
  }

  /** Right after NewWriter and Run. */
  function Init(bufSize: int): State {
    State(Capacity(bufSize), [], false, None, false, NotStarted, 0, false, Selecting, map[], map[], false,
          0, [], [], 0, None)
  }

  predicate Enabled(s: State, a: Action) {
    match a
    case Offer(p, _) => ProducerAt(s, p) == Idle
    case LockProducer(p) => ProducerAt(s, p).Locking? && s.mutex == None
    case CheckClosed(p) => ProducerAt(s, p).Checking?
    case Send(p) => ProducerAt(s, p).Sending?
    case UnlockProducer(p) => ProducerAt(s, p) == Unlocking
    case CallDrain(d) => DrainerAt(s, d) == Away
    case EnterOnce(d) => DrainerAt(s, d) == Called && s.once == NotStarted
    case SkipOnce(d) => DrainerAt(s, d) == Called && s.once == Finished
    case LockDrainer(d) => DrainerAt(s, d) == Entered && s.mutex == None
    case SetClosed(d) => DrainerAt(s, d) == Setting
    case UnlockDrainer(d) => DrainerAt(s, d) == ClosedSet
    case CloseChannel(d) => DrainerAt(s, d) == Closing
    case FinishWait(d) => DrainerAt(s, d) == Waiting && s.worker == Exited
    case Cancel => true
    case Receive => (s.worker == Selecting || s.worker == Flushing) && s.queue != []
    case SeeClosed => (s.worker == Selecting || s.worker == Flushing) && s.queue == [] && s.channelClosed
    case SeeCancelled => s.worker == Selecting && s.cancelled
    case TakeDefault => s.worker == Flushing && s.queue == [] && !s.channelClosed
    case FinishWrite => s.worker.Running? || s.worker.FlushRunning?
  }

  function Exit(s: State): State {
    s.(worker := Exited, exitMark := Some(|s.accepted|))
  }

  function Next(s: State, a: Action): State
    requires Enabled(s, a)
  {
    match a
    case Offer(p, w) => s.(producers := s.producers[p := Locking(w)], offered := s.offered + 1)
    case LockProducer(p) =>
      s.(producers := s.producers[p := Checking(ProducerAt(s, p).w)], mutex := Some(ByProducer(p)))
    case CheckClosed(p) =>
      if s.closed then s.(producers := s.producers[p := Unlocking], afterClose := s.afterClose + 1)
      else s.(producers := s.producers[p := Sending(ProducerAt(s, p).w)])
    case Send(p) =>
      var sent := s.(producers := s.producers[p := Unlocking]);
      var w := ProducerAt(s, p).w;
      if s.channelClosed then sent.(panicked := true)
      else if |s.queue| < s.capacity then sent.(queue := s.queue + [w], accepted := s.accepted + [w])
      else sent.(dropped := s.dropped + 1)
    case UnlockProducer(p) => s.(producers := s.producers[p := Idle], mutex := None)
    case CallDrain(d) => s.(drainers := s.drainers[d := Called])
    case EnterOnce(d) => s.(drainers := s.drainers[d := Entered], once := InProgress(d))
    case SkipOnce(d) => s.(drainers := s.drainers[d := Waiting])
    case LockDrainer(d) => s.(drainers := s.drainers[d := Setting], mutex := Some(ByDrainer(d)))
    case SetClosed(d) => s.(drainers := s.drainers[d := ClosedSet], closed := true)
    case UnlockDrainer(d) => s.(drainers := s.drainers[d := Closing], mutex := None)
    case CloseChannel(d) =>
      s.(drainers := s.drainers[d := Waiting], once := Finished,
         panicked := s.panicked || s.channelClosed, channelClosed := true)
    case FinishWait(d) => s.(drainers := s.drainers[d := Returned])
    case Cancel => s.(cancelled := true)
    case Receive =>
      s.(queue := s.queue[1..],
         worker := if s.worker == Selecting then Running(s.queue[0]) else FlushRunning(s.queue[0]))
    case SeeClosed => Exit(s)
    case SeeCancelled => s.(worker := Flushing)
    case TakeDefault => Exit(s)
    case FinishWrite =>
      s.(executed := s.executed + [s.worker.w], worker := if s.worker.Running? then Selecting else Flushing)
  }

  /** States after a run of enabled steps from a new writer. */
  ghost predicate IsRun(bufSize: int, actions: seq<Action>, s: State) {
    if actions == [] then s == Init(bufSize)
    else
      var last := |actions| - 1;
      exists before :: IsRun(bufSize, actions[..last], before) && Enabled(before, actions[last]) &&
                       s == Next(before, actions[last])
  }

  ghost predicate Reachable(s: State) {
    exists bufSize, actions :: IsRun(bufSize, actions, s)
  }

  // ---- Invariants ---------------------------------------------------------

  predicate HoldsAsProducer(pc: Producer) { pc.Checking? || pc.Sending? || pc == Unlocking }

  predicate HoldsAsDrainer(pc: Drainer) { pc == Setting || pc == ClosedSet }

  predicate InsideOnce(pc: Drainer) { pc == Entered || pc == Setting || pc == ClosedSet || pc == Closing }

  ghost predicate ProducerHolds(s: State) {
    forall p :: HoldsAsProducer(ProducerAt(s, p)) <==> s.mutex == Some(ByProducer(p))
  }

  ghost predicate DrainerHolds(s: State) {
    forall d :: HoldsAsDrainer(DrainerAt(s, d)) <==> s.mutex == Some(ByDrainer(d))
  }

  /** Exactly the owner of the mutex is at a place where the mutex is held. */
  ghost predicate MutexInv(s: State) {
    ProducerHolds(s) && DrainerHolds(s)
  }

  ghost predicate OneInsideOnce(s: State) {
    forall d :: InsideOnce(DrainerAt(s, d)) <==> s.once == InProgress(d)
  }

  ghost predicate WaitsAfterOnce(s: State) {
    forall d :: DrainerAt(s, d) in {Waiting, Returned} ==> s.once == Finished
  }

  ghost predicate ClosedFollowsOnce(s: State) {
    && (s.channelClosed <==> s.once == Finished)
    && (s.closed <==> s.once == Finished ||
                      (s.once.InProgress? && DrainerAt(s, s.once.d) in {ClosedSet, Closing}))
  }

  /** One drainer at most runs the body of the once, and `closed` follows it. */
  ghost predicate OnceInv(s: State) {
    OneInsideOnce(s) && WaitsAfterOnce(s) && ClosedFollowsOnce(s)
  }

  /** A producer past its check still sees an open writer. */
  ghost predicate SendInv(s: State) {
    (forall p :: ProducerAt(s, p).Sending? ==> !s.closed) && !s.panicked
  }

  function InFlight(s: State): seq<Write> {
    if s.worker.Running? || s.worker.FlushRunning? then [s.worker.w] else []
  }

  /** Nothing accepted is lost or reordered. */
  ghost predicate OrderInv(s: State) {
    && s.accepted == s.executed + InFlight(s) + s.queue
    && |s.queue| <= s.capacity
  }

  predicate MarkInv(s: State) {
    && (s.worker == Exited <==> s.exitMark.Some?)
    && (s.worker == Exited ==> s.exitMark.value == |s.executed|)
    && (s.worker == Exited ==> s.cancelled || s.channelClosed)
    && (s.worker == Exited && !s.cancelled ==> s.queue == [])
    && (s.worker == Flushing || s.worker.FlushRunning? ==> s.cancelled)
  }

  ghost predicate ExitInv(s: State) {
    MarkInv(s) && forall d :: DrainerAt(s, d) == Returned ==> s.worker == Exited
  }

  predicate IsOpen(pc: Producer) { pc.Locking? || pc.Checking? || pc.Sending? }

  /** Enqueue calls whose outcome is still open. */
  ghost function Undecided(producers: map<Id, Producer>): set<Id> {
    set p | p in producers && IsOpen(producers[p])
  }

  lemma SizeWithout(s: set<Id>, p: Id)
    ensures |s| == |s - {p}| + if p in s then 1 else 0
  {
    if p in s {
      assert s == (s - {p}) + {p};
    } else {
      assert s == s - {p};
    }
  }

  lemma UndecidedUpdate(producers: map<Id, Producer>, p: Id, pc: Producer)
    ensures var wasOpen := p in producers && IsOpen(producers[p]);
            |Undecided(producers[p := pc])|
            == |Undecided(producers)| - (if wasOpen then 1 else 0) + if IsOpen(pc) then 1 else 0
  {
    var before, after := Undecided(producers), Undecided(producers[p := pc]);
    assert before - {p} == after - {p};
    SizeWithout(before, p);
    SizeWithout(after, p);
  }

  ghost predicate CountInv(s: State) {
    s.offered == |s.accepted| + s.dropped + s.afterClose + |Undecided(s.producers)|
  }

  ghost predicate Inv(s: State) {
    MutexInv(s) && OnceInv(s) && SendInv(s) && OrderInv(s) && ExitInv(s) && CountInv(s)
  }

  lemma ProducerStep(s: State, a: Action)
    requires Enabled(s, a) && MutexInv(s)
    ensures ProducerHolds(Next(s, a))
  {
  }

  lemma DrainerStep(s: State, a: Action)
    requires Enabled(s, a) && MutexInv(s)
    ensures DrainerHolds(Next(s, a))
  {
  }

  lemma MutexStep(s: State, a: Action)
    requires Enabled(s, a) && MutexInv(s)
    ensures MutexInv(Next(s, a))
  {
    ProducerStep(s, a);
    DrainerStep(s, a);
  }

  lemma InsideStep(s: State, a: Action)
    requires Enabled(s, a) && OneInsideOnce(s)
    ensures OneInsideOnce(Next(s, a))
  {
  }

  lemma WaitsAt(s: State, a: Action, d: Id)
    requires Enabled(s, a) && OneInsideOnce(s)
    requires DrainerAt(s, d) in {Waiting, Returned} ==> s.once == Finished
    ensures DrainerAt(Next(s, a), d) in {Waiting, Returned} ==> Next(s, a).once == Finished
  {
  }

  lemma WaitStep(s: State, a: Action)
    requires Enabled(s, a) && OneInsideOnce(s) && WaitsAfterOnce(s)
    ensures WaitsAfterOnce(Next(s, a))
  {
    forall d ensures DrainerAt(Next(s, a), d) in {Waiting, Returned} ==> Next(s, a).once == Finished {
      WaitsAt(s, a, d);
    }
  }

  lemma ClosedStep(s: State, a: Action)
    requires Enabled(s, a) && OneInsideOnce(s) && ClosedFollowsOnce(s)
    ensures ClosedFollowsOnce(Next(s, a))
  {
    if a.EnterOnce? || a.LockDrainer? || a.SetClosed? || a.UnlockDrainer? || a.CloseChannel? {
      assert InsideOnce(DrainerAt(s, a.d)) <==> s.once == InProgress(a.d);
    }
  }

  lemma OnceStep(s: State, a: Action)
    requires Enabled(s, a) && OnceInv(s)
    ensures OnceInv(Next(s, a))
  {
    InsideStep(s, a);
    WaitStep(s, a);
    ClosedStep(s, a);
  }

  lemma SendStep(s: State, a: Action)
    requires Enabled(s, a) && MutexInv(s) && OnceInv(s) && SendInv(s)
    ensures SendInv(Next(s, a))
  {
    if a.SetClosed? {
      assert HoldsAsDrainer(DrainerAt(s, a.d));
      forall p ensures !ProducerAt(s, p).Sending? {
        assert HoldsAsProducer(ProducerAt(s, p)) ==> s.mutex == Some(ByProducer(p));
      }
    }
    var s' := Next(s, a);
    forall p | ProducerAt(s', p).Sending? ensures !s'.closed {
      assert ProducerAt(s, p).Sending? || a == CheckClosed(p);
    }
  }

  lemma ReceiveStep(s: State)
    requires Enabled(s, Receive) && OrderInv(s)
    ensures OrderInv(Next(s, Receive))
  {
    assert s.queue == [s.queue[0]] + s.queue[1..];
  }

  lemma TransferStep(s: State, a: Action)
    requires Enabled(s, a) && OrderInv(s) && (a.Send? || a.FinishWrite?)
    ensures OrderInv(Next(s, a))
  {
  }

  lemma OrderStep(s: State, a: Action)
    requires Enabled(s, a) && OrderInv(s)
    ensures OrderInv(Next(s, a))
  {
    if a.Receive? {
      ReceiveStep(s);
    } else if a.Send? || a.FinishWrite? {
      TransferStep(s, a);
    } else {
      assert InFlight(Next(s, a)) == InFlight(s);
    }
  }

  /** Only the worker itself, a send and the cancellation touch what the exit depends on. */
  lemma MarkStep(s: State, a: Action)
    requires Enabled(s, a) && MarkInv(s) && OrderInv(s)
    ensures MarkInv(Next(s, a))
  {
    if !a.Send? && !a.Receive? && !a.FinishWrite? && !a.SeeClosed? && !a.TakeDefault? && !a.SeeCancelled? {
      assert Next(s, a).worker == s.worker && Next(s, a).queue == s.queue;
    }
  }

  lemma ReturnedAt(s: State, a: Action, d: Id)
    requires Enabled(s, a) && (DrainerAt(s, d) == Returned ==> s.worker == Exited)
    ensures DrainerAt(Next(s, a), d) == Returned ==> Next(s, a).worker == Exited
  {
  }

  lemma ExitStep(s: State, a: Action)
    requires Enabled(s, a) && Inv(s)
    ensures ExitInv(Next(s, a))
  {
    MarkStep(s, a);
    forall d ensures DrainerAt(Next(s, a), d) == Returned ==> Next(s, a).worker == Exited {
      ReturnedAt(s, a, d);
    }
  }

  lemma CountStep(s: State, a: Action)
    requires Enabled(s, a) && SendInv(s) && OnceInv(s) && CountInv(s)
    ensures CountInv(Next(s, a))
  {
    if a.Offer? || a.LockProducer? || a.CheckClosed? || a.Send? || a.UnlockProducer? {
      UndecidedUpdate(s.producers, a.p, Next(s, a).producers[a.p]);
    }
  }

  lemma {:induction false} RunsKeepInv(bufSize: int, actions: seq<Action>, s: State)
    requires IsRun(bufSize, actions, s)
    ensures Inv(s)
  {
    if actions != [] {
      var last := |actions| - 1;
      var before :| IsRun(bufSize, actions[..last], before) && Enabled(before, actions[last]) &&
                    s == Next(before, actions[last]);
      RunsKeepInv(bufSize, actions[..last], before);
      MutexStep(before, actions[last]);
      OnceStep(before, actions[last]);
      SendStep(before, actions[last]);
      OrderStep(before, actions[last]);
      ExitStep(before, actions[last]);
      CountStep(before, actions[last]);
    }
  }

  lemma ReachableInv(s: State)
    requires Reachable(s)
    ensures Inv(s)
  {
    var bufSize, actions :| IsRun(bufSize, actions, s);
    RunsKeepInv(bufSize, actions, s);
  }

  // ---- What callers may rely on -------------------------------------------

  /** No interleaving sends on a closed channel or closes it twice. */
  lemma NeverPanics(s: State)
    requires Reachable(s)
    ensures !s.panicked
    ensures forall p :: ProducerAt(s, p).Sending? ==> !s.channelClosed
    ensures forall d :: DrainerAt(s, d) == Closing ==> !s.channelClosed
  {
    ReachableInv(s);
    forall d | DrainerAt(s, d) == Closing ensures !s.channelClosed {
      assert InsideOnce(DrainerAt(s, d));
    }
  }

  /** Accepted writes are executed in the order of acceptance, none skipped; the queue stays within its capacity. */
  lemma AcceptedInOrder(s: State)
    requires Reachable(s)
    ensures s.accepted == s.executed + InFlight(s) + s.queue
    ensures |s.queue| <= s.capacity && s.capacity > 0
  {
    ReachableInv(s);
    var bufSize, actions :| IsRun(bufSize, actions, s);
    CapacityIsFixed(bufSize, actions, s);
  }

  lemma {:induction false} CapacityIsFixed(bufSize: int, actions: seq<Action>, s: State)
    requires IsRun(bufSize, actions, s)
    ensures s.capacity == Capacity(bufSize) > 0
    ensures s.capacity == if bufSize > 0 then bufSize else 4096
  {
    if actions != [] {
      var last := |actions| - 1;
      var before :| IsRun(bufSize, actions[..last], before) && Enabled(before, actions[last]) &&
                    s == Next(before, actions[last]);
      CapacityIsFixed(bufSize, actions[..last], before);
    }
  }

  /** Every offered write is accepted, dropped or refused after Drain, once no Enqueue call is under way. */
  lemma OfferedIsAccountedFor(s: State)
    requires Reachable(s)
    requires forall p :: !IsOpen(ProducerAt(s, p))
    ensures s.offered == |s.accepted| + s.dropped + s.afterClose
  {
    ReachableInv(s);
    forall p ensures p !in Undecided(s.producers) {
      assert !IsOpen(ProducerAt(s, p));
    }
    assert Undecided(s.producers) == {};
  }

  /**
   When a Drain call has returned: without cancellation everything accepted has run. With cancellation, what is
   stranded in the queue is exactly what was accepted after the worker exited, and nothing else is missing.
   */
  lemma DrainGuarantee(s: State, d: Id)
    requires Reachable(s) && DrainerAt(s, d) == Returned
    ensures s.exitMark.Some? && s.exitMark.value <= |s.accepted|
    ensures s.executed == s.accepted[..s.exitMark.value]
    ensures s.queue == s.accepted[s.exitMark.value..]
    ensures s.executed == s.accepted <==> s.exitMark.value == |s.accepted|
    ensures !s.cancelled ==> s.executed == s.accepted && s.queue == []
  {
    ReachableInv(s);
  }

  /** After that, no step of anyone changes what was accepted, executed or stranded. */
  lemma DrainIsFinal(s: State, d: Id, a: Action)
    requires Reachable(s) && DrainerAt(s, d) == Returned && Enabled(s, a)
    ensures var s' := Next(s, a);
            s'.accepted == s.accepted && s'.executed == s.executed && s'.queue == s.queue && s'.worker == Exited
  {
    ReachableInv(s);
  }

  /** A worker that leaves because the channel is closed strands nothing, cancelled or not. */
  lemma SeeingTheCloseStrandsNothing(s: State)
    requires Reachable(s) && Enabled(s, SeeClosed)
    ensures Next(s, SeeClosed).executed == Next(s, SeeClosed).accepted
  {
    ReachableInv(s);
  }

  lemma ReachNext(s: State, a: Action) returns (s': State)
    requires Reachable(s) && Enabled(s, a)
    ensures s' == Next(s, a) && Reachable(s')
  {
    var bufSize, actions :| IsRun(bufSize, actions, s);
    s' := Next(s, a);
    assert (actions + [a])[..|actions|] == actions;
    assert IsRun(bufSize, actions + [a], s');
  }

  /** The worker of a one-slot writer after it saw the cancellation and left through the default. */
  function WorkerGone(): State {
    Init(1).(cancelled := true, worker := Exited, exitMark := Some(0))
  }

  lemma ReachWorkerGone()
    ensures Reachable(WorkerGone())
  {
    assert IsRun(1, [], Init(1));
    var s := ReachNext(Init(1), Cancel);
    s := ReachNext(s, SeeCancelled);
    s := ReachNext(s, TakeDefault);
  }

  /** The same writer still accepts what a producer enqueues. */
  lemma ReachStillAccepting() returns (s: State)
    ensures Reachable(s) && s.worker == Exited && s.queue == [7] && s.executed == []
    ensures s.mutex == None && s.once == NotStarted && !s.closed && s.drainers == map[]
  {
    ReachWorkerGone();
    s := ReachNext(WorkerGone(), Offer(0, 7));
    s := ReachNext(s, LockProducer(0));
    s := ReachNext(s, CheckClosed(0));
    s := ReachNext(s, Send(0));
    s := ReachNext(s, UnlockProducer(0));
  }

  lemma ReachClosedWriter() returns (s: State)
    ensures Reachable(s) && s.worker == Exited && s.queue == [7] && s.executed == []
    ensures DrainerAt(s, 0) == ClosedSet
  {
    s := ReachStillAccepting();
    s := ReachNext(s, CallDrain(0));
    s := ReachNext(s, EnterOnce(0));
    s := ReachNext(s, LockDrainer(0));
    s := ReachNext(s, SetClosed(0));
  }

  /** The cancelled worker can leave while Enqueue still accepts: here a write is stranded for good. */
  lemma CancellationCanStrand()
    ensures exists s :: Reachable(s) && DrainerAt(s, 0) == Returned && s.queue == [7] && s.executed == []
  {
    var s := ReachClosedWriter();
    s := ReachNext(s, UnlockDrainer(0));
    s := ReachNext(s, CloseChannel(0));
    s := ReachNext(s, FinishWait(0));
  }

  // ---- Only a full queue drops -------------------------------------------

  /** The write of the latest Enqueue call of this producer. */
  function LastOffer(actions: seq<Action>, p: Id): Option<Write> {
    if actions == [] then None
    else
      match actions[|actions| - 1]
      case Offer(q, w) => if q == p then Some(w) else LastOffer(actions[..|actions| - 1], p)
      case _ => LastOffer(actions[..|actions| - 1], p)
  }

  /** A call carries the write it was made with until its outcome is known. */
  predicate CarriesOffer(actions: seq<Action>, s: State, p: Id) {
    IsOpen(ProducerAt(s, p)) ==> LastOffer(actions, p) == Some(ProducerAt(s, p).w)
  }

  lemma CarriesOfferStep(actions: seq<Action>, s: State, a: Action, p: Id)
    requires Enabled(s, a) && CarriesOffer(actions, s, p)
    ensures CarriesOffer(actions + [a], Next(s, a), p)
  {
    assert (actions + [a])[..|actions|] == actions;
  }

  lemma {:induction false} CallCarriesItsWrite(bufSize: int, actions: seq<Action>, s: State, p: Id)
    requires IsRun(bufSize, actions, s)
    ensures CarriesOffer(actions, s, p)
  {
    if actions != [] {
      var last := |actions| - 1;
      var before :| IsRun(bufSize, actions[..last], before) && Enabled(before, actions[last]) &&
                    s == Next(before, actions[last]);
      CallCarriesItsWrite(bufSize, actions[..last], before, p);
      CarriesOfferStep(actions[..last], before, actions[last], p);
      assert actions == actions[..last] + [actions[last]];
    }
  }

  /**
   In every state of every run: a send into a queue with room accepts the write of its call, as the last one, and a
   send into a full queue drops it and changes nothing else that counts.
   */
  lemma SendIsAcceptedIffRoom(bufSize: int, actions: seq<Action>, s: State, p: Id)
    requires IsRun(bufSize, actions, s) && Enabled(s, Send(p))
    ensures LastOffer(actions, p).Some?
    ensures var w, s' := LastOffer(actions, p).value, Next(s, Send(p));
            && (|s.queue| < s.capacity ==>
                  s'.queue == s.queue + [w] && s'.accepted == s.accepted + [w] && s'.dropped == s.dropped)
            && (|s.queue| == s.capacity ==>
                  s'.queue == s.queue && s'.accepted == s.accepted && s'.dropped == s.dropped + 1)
  {
    CallCarriesItsWrite(bufSize, actions, s, p);
    assert Reachable(s);
    NeverPanics(s);
  }

  lemma {:induction false} RunIsDeterministic(bufSize: int, actions: seq<Action>, s: State, t: State)
    requires IsRun(bufSize, actions, s) && IsRun(bufSize, actions, t)
    ensures s == t
  {
    if actions != [] {
      var last := |actions| - 1;
      var s0 :| IsRun(bufSize, actions[..last], s0) && Enabled(s0, actions[last]) && s == Next(s0, actions[last]);
      var t0 :| IsRun(bufSize, actions[..last], t0) && Enabled(t0, actions[last]) && t == Next(t0, actions[last]);
      RunIsDeterministic(bufSize, actions[..last], s0, t0);
    }
  }

  /** The queue is full after the first `n` actions. */
  ghost predicate FullAfter(bufSize: int, actions: seq<Action>, n: nat)
    requires n <= |actions|
  {
    exists t :: IsRun(bufSize, actions[..n], t) && |t.queue| == t.capacity
  }

  /** The sends that find the queue full. */
  ghost function SendsToFull(bufSize: int, actions: seq<Action>): set<nat> {
    set n: nat | n < |actions| && actions[n].Send? && FullAfter(bufSize, actions, n)
  }

  lemma SendsToFullPush(bufSize: int, actions: seq<Action>, a: Action, s: State)
    requires IsRun(bufSize, actions, s)
    ensures SendsToFull(bufSize, actions + [a])
         == SendsToFull(bufSize, actions) + if a.Send? && |s.queue| == s.capacity then {|actions|} else {}
  {
    forall n: nat | n <= |actions|
      ensures FullAfter(bufSize, actions + [a], n) <==> FullAfter(bufSize, actions, n)
    {
      assert (actions + [a])[..n] == actions[..n];
    }
    assert actions[..|actions|] == actions;
    assert FullAfter(bufSize, actions, |actions|) <==> |s.queue| == s.capacity by {
      if FullAfter(bufSize, actions, |actions|) {
        var t :| IsRun(bufSize, actions, t) && |t.queue| == t.capacity;
        RunIsDeterministic(bufSize, actions, s, t);
      }
    }
  }

  lemma DropStep(bufSize: int, actions: seq<Action>, s: State, a: Action)
    requires IsRun(bufSize, actions, s) && Enabled(s, a)
    ensures Next(s, a).dropped == s.dropped + if a.Send? && |s.queue| == s.capacity then 1 else 0
  {
    if a.Send? {
      RunsKeepInv(bufSize, actions, s);
      SendIsAcceptedIffRoom(bufSize, actions, s, a.p);
    }
  }

  lemma DroppedPush(bufSize: int, actions: seq<Action>, s: State, a: Action)
    requires IsRun(bufSize, actions, s) && Enabled(s, a) && s.dropped == |SendsToFull(bufSize, actions)|
    ensures Next(s, a).dropped == |SendsToFull(bufSize, actions + [a])|
  {
    DropStep(bufSize, actions, s, a);
    SendsToFullPush(bufSize, actions, a, s);
  }

  /** The state before the last action of a run. */
  lemma LastStep(bufSize: int, actions: seq<Action>, s: State) returns (before: State)
    requires IsRun(bufSize, actions, s) && actions != []
    ensures var last := |actions| - 1;
            && actions == actions[..last] + [actions[last]]
            && IsRun(bufSize, actions[..last], before) && Enabled(before, actions[last])
            && s == Next(before, actions[last])
  {
    var last := |actions| - 1;
    before :| IsRun(bufSize, actions[..last], before) && Enabled(before, actions[last]) &&
              s == Next(before, actions[last]);
  }

  /** Over every run, as many writes are dropped as sends found the queue full. */
  lemma {:induction false} DroppedIsSendsToFull(bufSize: int, actions: seq<Action>, s: State)
    requires IsRun(bufSize, actions, s)
    ensures s.dropped == |SendsToFull(bufSize, actions)|
  {
    if actions == [] {
      assert SendsToFull(bufSize, actions) == {};
    } else {
      var before := LastStep(bufSize, actions, s);
      DroppedIsSendsToFull(bufSize, actions[..|actions| - 1], before);
      DroppedPush(bufSize, actions[..|actions| - 1], before, actions[|actions| - 1]);
    }
  }

  function CountOffers(actions: seq<Action>): nat {
    if actions == [] then 0
    else CountOffers(actions[..|actions| - 1]) + if actions[|actions| - 1].Offer? then 1 else 0
  }

  lemma OfferStep(s: State, a: Action)
    requires Enabled(s, a)
    ensures Next(s, a).offered == s.offered + if a.Offer? then 1 else 0
  {
  }

  lemma RefusalStep(s: State, a: Action)
    requires Enabled(s, a)
    ensures Next(s, a).afterClose == s.afterClose + if a.CheckClosed? && s.closed then 1 else 0
  {
  }

  lemma ClosedStays(s: State, a: Action)
    requires Enabled(s, a)
    ensures s.closed ==> Next(s, a).closed
  {
  }

  lemma {:induction false} OfferedIsCount(bufSize: int, actions: seq<Action>, s: State)
    requires IsRun(bufSize, actions, s)
    ensures s.offered == CountOffers(actions)
    ensures s.afterClose > 0 ==> s.closed
  {
    if actions != [] {
      var before := LastStep(bufSize, actions, s);
      OfferedIsCount(bufSize, actions[..|actions| - 1], before);
      OfferStep(before, actions[|actions| - 1]);
      RefusalStep(before, actions[|actions| - 1]);
      ClosedStays(before, actions[|actions| - 1]);
    }
  }

  lemma {:induction false} OffersOfPrefix(actions: seq<Action>, n: nat)
    requires n <= |actions|
    ensures CountOffers(actions[..n]) <= CountOffers(actions)
  {
    if n < |actions| {
      OffersOfPrefix(actions[..|actions| - 1], n);
      assert actions[..|actions| - 1][..n] == actions[..n];
    } else {
      assert actions[..n] == actions;
    }
  }

  /** A send to a full queue is the call of at least one write more than fit into it. */
  lemma SendToFullNeedsOffers(bufSize: int, actions: seq<Action>, t: State, p: Id)
    requires IsRun(bufSize, actions, t) && |t.queue| == t.capacity && ProducerAt(t, p).Sending?
    ensures CountOffers(actions) > Capacity(bufSize)
  {
    RunsKeepInv(bufSize, actions, t);
    CapacityIsFixed(bufSize, actions, t);
    OfferedIsCount(bufSize, actions, t);
    assert p in Undecided(t.producers);
    assert |Undecided(t.producers)| > 0;
  }

  lemma {:induction false} ActionWasEnabled(bufSize: int, actions: seq<Action>, s: State, n: nat) returns (t: State)
    requires IsRun(bufSize, actions, s) && n < |actions|
    ensures IsRun(bufSize, actions[..n], t) && Enabled(t, actions[n])
  {
    var last := |actions| - 1;
    var before :| IsRun(bufSize, actions[..last], before) && Enabled(before, actions[last]) &&
                  s == Next(before, actions[last]);
    if n == last {
      t := before;
    } else {
      t := ActionWasEnabled(bufSize, actions[..last], before, n);
      assert actions[..last][..n] == actions[..n];
    }
  }

  /**
   A run that offers no more writes than the channel holds drops none: whatever was offered is accepted, refused after
   closing, or still under way; and nothing is refused before a Drain call closes the writer.
   */
  lemma NothingIsDroppedWithinCapacity(bufSize: int, actions: seq<Action>, s: State)
    requires IsRun(bufSize, actions, s) && CountOffers(actions) <= Capacity(bufSize)
    ensures s.dropped == 0
    ensures CountOffers(actions) == |s.accepted| + s.afterClose + |Undecided(s.producers)|
    ensures !s.closed ==> s.afterClose == 0
  {
    RunsKeepInv(bufSize, actions, s);
    OfferedIsCount(bufSize, actions, s);
    DroppedIsSendsToFull(bufSize, actions, s);
    forall n ensures n !in SendsToFull(bufSize, actions) {
      if n in SendsToFull(bufSize, actions) {
        var t := ActionWasEnabled(bufSize, actions, s, n);
        var u :| IsRun(bufSize, actions[..n], u) && |u.queue| == u.capacity;
        RunIsDeterministic(bufSize, actions[..n], t, u);
        SendToFullNeedsOffers(bufSize, actions[..n], t, actions[n].p);
        OffersOfPrefix(actions, n);
      }
    }
    assert SendsToFull(bufSize, actions) == {};
  }

  // ---- Drain does return --------------------------------------------------

  predicate IsWorkerAction(a: Action) {
    a == Receive || a == SeeClosed || a == SeeCancelled || a == TakeDefault || a == FinishWrite
  }

  /** Steps that neither start a call nor cancel: they only move existing calls and the worker on. */
  predicate IsInternal(a: Action) {
    !a.Offer? && !a.CallDrain? && !a.Cancel?
  }

  /** How many more steps the worker can make once the channel is closed. */
  function WorkerMeasure(s: State): nat {
    2 * |s.queue| +
    match s.worker
    case Selecting => 2
    case Running(_) => 3
    case Flushing => 1
    case FlushRunning(_) => 2
    case Exited => 0
  }

  lemma MeasureStep(s: State, a: Action)
    requires s.channelClosed && Enabled(s, a)
    ensures IsWorkerAction(a) ==> WorkerMeasure(Next(s, a)) < WorkerMeasure(s)
    ensures !IsWorkerAction(a) ==> WorkerMeasure(Next(s, a)) == WorkerMeasure(s)
    ensures Next(s, a).channelClosed
  {
  }

  /** Once the channel is closed the worker is never blocked before it exits, and every step brings its exit closer. */
  lemma WorkerWindsDown(s: State)
    requires s.channelClosed && s.worker != Exited
    ensures exists a :: IsWorkerAction(a) && Enabled(s, a)
    ensures forall a | Enabled(s, a) ::
              && (IsWorkerAction(a) ==> WorkerMeasure(Next(s, a)) < WorkerMeasure(s))
              && (!IsWorkerAction(a) ==> WorkerMeasure(Next(s, a)) == WorkerMeasure(s))
  {
    assert IsWorkerAction(if s.worker.Running? || s.worker.FlushRunning? then FinishWrite
                          else if s.queue != [] then Receive else SeeClosed);
    forall a | Enabled(s, a)
      ensures IsWorkerAction(a) ==> WorkerMeasure(Next(s, a)) < WorkerMeasure(s)
      ensures !IsWorkerAction(a) ==> WorkerMeasure(Next(s, a)) == WorkerMeasure(s)
    {
      MeasureStep(s, a);
    }
  }

  /** While a Drain call is under way somebody can move: the locks, the once and the wait group never deadlock. */
  lemma DrainNeverDeadlocks(s: State, d: Id)
    requires Reachable(s) && DrainerAt(s, d) != Away && DrainerAt(s, d) != Returned
    ensures exists a :: IsInternal(a) && Enabled(s, a)
  {
    ReachableInv(s);
    var a :=
      if s.mutex.Some? then
        match s.mutex.value
        case ByProducer(p) =>
          (match ProducerAt(s, p)
           case Checking(_) => CheckClosed(p)
           case Sending(_) => Send(p)
           case _ => UnlockProducer(p))
        case ByDrainer(e) => if DrainerAt(s, e) == Setting then SetClosed(e) else UnlockDrainer(e)
      else if s.once.InProgress? then
        if DrainerAt(s, s.once.d) == Entered then LockDrainer(s.once.d) else CloseChannel(s.once.d)
      else if s.once == NotStarted then EnterOnce(d)
      else if DrainerAt(s, d) == Called then SkipOnce(d)
      else if s.worker == Exited then FinishWait(d)
      else if s.worker.Running? || s.worker.FlushRunning? then FinishWrite
      else if s.queue != [] then Receive
      else SeeClosed;
    MutexOwnerIsHolding(s);
    assert InsideOnce(DrainerAt(s, d)) ==> s.once == InProgress(d);
    assert s.once.InProgress? ==> InsideOnce(DrainerAt(s, s.once.d));
    assert IsInternal(a) && Enabled(s, a);
  }

  lemma MutexOwnerIsHolding(s: State)
    requires MutexInv(s)
    ensures s.mutex.Some? && s.mutex.value.ByProducer? ==> HoldsAsProducer(ProducerAt(s, s.mutex.value.p))
    ensures s.mutex.Some? && s.mutex.value.ByDrainer? ==> HoldsAsDrainer(DrainerAt(s, s.mutex.value.d))
    ensures s.mutex == None && s.once.InProgress? ==> !HoldsAsDrainer(DrainerAt(s, s.once.d))
  {
  }
}
