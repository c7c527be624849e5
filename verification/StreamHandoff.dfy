/** The hand-off between the Task that owns a graph run and the async generator that
    the caller iterates (`ResourceBoundedAgentGraph.astream`).

    One event is the code that runs between two suspension points, so putting the
    sentinel and finishing the producer Task are one event. The asyncio queue is
    modelled with its waiter futures: a side that waits has a `woken` flag, and it can
    only run again once the other side has set that flag. */
module StreamHandoff {

  type Chunk = nat

  datatype Item = Data(chunk: Chunk) | Finished

  datatype Error = TimedOut | LeaseRefused(code: nat) | BudgetRefused | Upstream(code: nat)

  /** How the body of the producer is leaving its `with` blocks. */
  datatype Exit = Normal | Cancelled | Failed(error: Error)

  datatype Outcome = Returned | Raised(error: Error) | WasCancelled

  datatype Producer =
    | Created                               // scheduled, body not entered
    | Acquiring                             // asleep between two lease attempts
    | Pulling                               // awaiting the inner stream
    | Putting(chunk: Chunk, woken: bool)    // awaiting a free slot of the queue
    | Closing(exit: Exit)                   // awaiting `aclose` of the inner stream
    | Done(outcome: Outcome)

  /** Why the consumer left its loop. */
  datatype Reason = Completed | ProducerRaised | ClosedByCaller | Interrupted

  datatype Result = ReturnedToCaller | RaisedToCaller(error: Error) | ClosedQuietly | CancelledToCaller

  datatype Consumer =
    | Getting(woken: bool)                  // awaiting an item of the queue
    | Joining                               // awaiting the producer after the sentinel
    | Yielded                               // suspended at `yield`; the caller decides
    | Unwinding(reason: Reason, interrupted: bool, gathered: bool)
    | Left(reason: Reason, result: Result)

  datatype State = State(
    nested: bool,             // the caller's context already holds the lease
    queue: seq<Item>,
    producer: Producer,
    cancelPending: bool,      // a cancel of the producer not yet delivered
    outerCancel: bool,        // the consumer's cleanup cancelled the producer
    expired: bool,            // the run deadline fired
    consumer: Consumer,
    produced: seq<Chunk>,     // everything the inner stream has yielded
    enqueued: seq<Chunk>,
    dropped: seq<Chunk>,      // yielded by the inner stream but never enqueued
    delivered: seq<Chunk>,
    ended: bool,              // the inner stream was exhausted
    sentinels: nat,
    acquired: nat,
    releases: nat,
    budgets: nat,
    finishedBudgets: nat)

  datatype Attempt = Granted | Busy | Refused(code: nat)

  datatype Pull = Next(chunk: Chunk, overBudget: bool) | Exhausted | Raises(error: Error)

  datatype Event =
    | Start(attempt: Attempt)
    | NeverStart
    | Retry(attempt: Attempt)
    | PullEnds(pull: Pull)
    | PutResumes
    | CancelArrives           // the pending cancel is thrown into the producer
    | CancelSwallowed         // the inner stream absorbs it and carries on
    | CloseEnds(overBudget: bool)
    | CloseRaises(error: Error)
    | Expire
    | GetResumes
    | JoinResumes
    | CallerNext
    | CallerCloses
    | CallerCancels
    | GatherNoticed
    | CleanupResumes

  /** The state at the consumer's first suspension: the Task exists and has not run. */
  function Init(nested: bool): State {
    State(nested, [], Created, false, false, false, Getting(false), [], [], [], [], false, 0, 0, 0, 0, 0)
  }

  predicate InsideDeadline(p: Producer) {
    p.Acquiring? || p.Pulling? || p.Putting? || p.Closing?
  }

  predicate Enabled(s: State, e: Event) {
    match e
    case Start(_) => s.producer.Created? && !s.cancelPending
    case NeverStart => s.producer.Created? && s.cancelPending
    case Retry(_) => s.producer.Acquiring? && !s.cancelPending
    case PullEnds(_) => s.producer.Pulling? && !s.cancelPending
    case PutResumes => s.producer.Putting? && s.producer.woken && !s.cancelPending
    case CancelArrives => InsideDeadline(s.producer) && s.cancelPending
    case CancelSwallowed => (s.producer.Pulling? || s.producer.Closing?) && s.cancelPending
    case CloseEnds(_) => s.producer.Closing? && !s.cancelPending
    case CloseRaises(_) => s.producer.Closing? && !s.cancelPending
    case Expire => InsideDeadline(s.producer) && !s.expired
    case GetResumes => s.consumer.Getting? && s.consumer.woken
    case JoinResumes => s.consumer.Joining? && s.producer.Done?
    case CallerNext => s.consumer.Yielded?
    case CallerCloses => s.consumer.Yielded?
    case CallerCancels => !s.consumer.Left? && !s.consumer.Joining?
    case GatherNoticed => s.consumer.Unwinding? && !s.consumer.gathered && s.producer.Done?
    case CleanupResumes => s.consumer.Unwinding? && s.consumer.gathered
  }

  // ---- the queue ----

  function WakeConsumer(c: Consumer): Consumer {
    if c.Getting? then Getting(true) else c
  }

  function WakeProducer(p: Producer): Producer {
    if p.Putting? then p.(woken := true) else p
  }

  function Enqueue(s: State, chunk: Chunk): (t: State)
    requires s.queue == []
    ensures t.nested == s.nested
  {
    s.(queue := [Data(chunk)], enqueued := s.enqueued + [chunk], consumer := WakeConsumer(s.consumer))
  }

  // ---- the producer ----

  /** The code from the end of the inner stream to the end of the Task: finish the
      budget, attempt the release, map the deadline, put the sentinel if there is room. */
  function Finish(s: State, exit: Exit): (t: State)
    ensures t.nested == s.nested && t.producer.Done?
  {
    var outcome :=
      match exit
      case Normal => Returned
      case Cancelled => if s.expired && !s.outerCancel then Raised(TimedOut) else WasCancelled
      case Failed(error) => Raised(error);
    var t := s.(producer := Done(outcome), cancelPending := false,
                releases := s.releases + (if s.acquired > 0 then 1 else 0),
                finishedBudgets := s.finishedBudgets + (if s.budgets > 0 then 1 else 0));
    if t.queue == [] then
      t.(queue := [Finished], sentinels := t.sentinels + 1, consumer := WakeConsumer(t.consumer))
    else
      t
  }

  function TryLease(s: State, attempt: Attempt): (t: State)
    ensures t.nested == s.nested
  {
    if s.nested then s.(producer := Pulling, budgets := s.budgets + 1)
    else
      match attempt
      case Granted => s.(producer := Pulling, acquired := s.acquired + 1, budgets := s.budgets + 1)
      case Busy => s.(producer := Acquiring)
      case Refused(code) => Finish(s, Failed(LeaseRefused(code)))
  }

  /** `hold_run_budget` checks the ledger on every exit except a cancellation. */
  function BudgetExit(exit: Exit, overBudget: bool): Exit {
    if overBudget && !exit.Cancelled? then Failed(BudgetRefused) else exit
  }

  function PullStep(s: State, pull: Pull): (t: State)
    ensures t.nested == s.nested
  {
    match pull
    case Next(chunk, overBudget) =>
      var t := s.(produced := s.produced + [chunk]);
      if overBudget then t.(producer := Closing(Failed(BudgetRefused)), dropped := [chunk])
      else if t.queue == [] then Enqueue(t, chunk)
      else t.(producer := Putting(chunk, false))
    case Exhausted => s.(producer := Closing(Normal), ended := true)
    case Raises(error) => s.(producer := Closing(Failed(error)))
  }

  function PutStep(s: State): (t: State)
    requires s.producer.Putting?
    ensures t.nested == s.nested
  {
    if s.queue == [] then Enqueue(s, s.producer.chunk).(producer := Pulling)
    else s.(producer := s.producer.(woken := false))
  }

  function CancelStep(s: State): (t: State)
    requires InsideDeadline(s.producer)
    ensures t.nested == s.nested && (t.producer.Closing? || t.producer.Done?)
  {
    var t := s.(cancelPending := false);
    match s.producer
    case Pulling => t.(producer := Closing(Cancelled))
    case Putting(chunk, _) => t.(producer := Closing(Cancelled), dropped := [chunk])
    case _ => Finish(t, Cancelled)
  }

  // ---- the consumer ----

  /** Entry of the `finally` block. */
  function Leave(s: State, reason: Reason): (t: State)
    ensures t.nested == s.nested && t.producer == s.producer
  {
    var t := if s.producer.Done? then s else s.(cancelPending := true, outerCancel := true);
    t.(consumer := Unwinding(reason, false, false))
  }

  /** `await producer` on a finished Task. */
  function Join(s: State): (t: State)
    requires s.producer.Done?
    ensures t.nested == s.nested
  {
    Leave(s, if s.producer.outcome.Returned? then Completed
             else if s.producer.outcome.Raised? then ProducerRaised else Interrupted)
  }

  function Take(s: State): (t: State)
    requires s.queue != []
    ensures t.nested == s.nested
  {
    var t := s.(queue := s.queue[1..], producer := WakeProducer(s.producer));
    match s.queue[0]
    case Data(chunk) => t.(delivered := t.delivered + [chunk], consumer := Yielded)
    case Finished => if t.producer.Done? then Join(t) else t.(consumer := Joining)
  }

  function LoopTop(s: State): (t: State)
    ensures t.nested == s.nested
  {
    if s.producer.Done? && s.queue == [] then Join(s)
    else if s.queue != [] then Take(s)
    else s.(consumer := Getting(false))
  }

  function ExitResult(s: State): Result
    requires s.consumer.Unwinding? && s.producer.Done?
  {
    if s.consumer.interrupted then CancelledToCaller
    else if s.producer.outcome.Raised? then RaisedToCaller(s.producer.outcome.error)
    else match s.consumer.reason
      case Completed => ReturnedToCaller
      case ClosedByCaller => ClosedQuietly
      case _ => CancelledToCaller
  }

  function Apply(s: State, e: Event): (t: State)
    requires Enabled(s, e)
    ensures t.nested == s.nested
  {
    match e
    case Start(attempt) => TryLease(s, attempt)
    case NeverStart => s.(producer := Done(WasCancelled), cancelPending := false)
    case Retry(attempt) => TryLease(s, attempt)
    case PullEnds(pull) => PullStep(s, pull)
    case PutResumes => PutStep(s)
    case CancelArrives => CancelStep(s)
    case CancelSwallowed => s.(cancelPending := false)
    case CloseEnds(overBudget) => Finish(s, BudgetExit(s.producer.exit, overBudget))
    case CloseRaises(error) => Finish(s, Failed(error))
    case Expire => s.(expired := true, cancelPending := true)
    case GetResumes => if s.queue == [] then s.(consumer := Getting(false)) else Take(s)
    case JoinResumes => Join(s)
    case CallerNext => LoopTop(s)
    case CallerCloses => Leave(s, ClosedByCaller)
    case CallerCancels =>
      if s.consumer.Unwinding? then s.(consumer := s.consumer.(interrupted := true))
      else Leave(s, Interrupted)
    case GatherNoticed => s.(consumer := s.consumer.(gathered := true))
    case CleanupResumes =>
      if s.producer.Done? then s.(consumer := Left(s.consumer.reason, ExitResult(s)))
      else s
  }

  // ---- runs ----

  ghost predicate IsRun(s: State, events: seq<Event>)
    decreases |events|
  {
    events == [] || (Enabled(s, events[0]) && IsRun(Apply(s, events[0]), events[1..]))
  }

  ghost function After(s: State, events: seq<Event>): State
    requires IsRun(s, events)
    decreases |events|
  {
    if events == [] then s else After(Apply(s, events[0]), events[1..])
  }

  // ---- the invariant ----

  function QueuedChunks(queue: seq<Item>): seq<Chunk> {
    if |queue| == 1 && queue[0].Data? then [queue[0].chunk] else []
  }

  /** Chunks the inner stream yielded that are not enqueued: in the producer's hand, or lost. */
  function Unqueued(s: State): seq<Chunk> {
    if s.producer.Putting? then [s.producer.chunk] else s.dropped
  }

  ghost predicate ChunksAccounted(s: State) {
    && s.produced == s.enqueued + Unqueued(s)
    && s.enqueued == s.delivered + QueuedChunks(s.queue)
    && (s.dropped != [] ==> s.producer.Closing? || s.producer.Done?)
    && (s.ended ==> s.dropped == [] && (s.producer.Closing? || s.producer.Done?))
  }

  ghost predicate SentinelLast(s: State) {
    && |s.queue| <= 1
    && (Finished in s.queue ==> s.producer.Done? && s.sentinels == 1)
    && s.sentinels <= 1
    && (s.sentinels == 1 ==> s.producer.Done?)
  }

  ghost predicate NoLostWakeup(s: State) {
    && !s.consumer.Joining?
    && (s.consumer.Getting? ==> s.consumer.woken == (s.queue != []))
    && (s.consumer.Getting? && !s.consumer.woken ==> !s.producer.Done?)
    && (s.producer.Putting? ==> s.producer.woken == (s.queue == []))
  }

  ghost predicate ResourcesBalanced(s: State) {
    match s.producer
    case Created => s.acquired == s.releases == s.budgets == s.finishedBudgets == 0
    case Acquiring => s.acquired == s.releases == s.budgets == s.finishedBudgets == 0
    case Done(_) => s.releases == s.acquired <= 1 && s.finishedBudgets == s.budgets <= 1
                    && (s.nested ==> s.acquired == 0)
    case _ => s.acquired == (if s.nested then 0 else 1) && s.releases == 0
              && s.budgets == 1 && s.finishedBudgets == 0
  }

  ghost predicate ExitsJustified(s: State) {
    && (s.cancelPending ==> (s.outerCancel || s.expired) && !s.producer.Done?)
    && (s.producer.Created? ==> !s.expired && s.cancelPending == s.outerCancel)
    && (s.producer.Acquiring? && s.outerCancel ==> s.cancelPending)
    && (s.producer == Closing(Normal) ==> s.ended)
    && (s.producer == Closing(Cancelled) ==> s.outerCancel || s.expired)
    && (s.producer == Done(Returned) ==> s.ended)
    && (s.producer == Done(WasCancelled) ==> s.outerCancel)
    && (s.outerCancel ==> s.consumer.Unwinding? || s.consumer.Left?)
    && (s.consumer.Unwinding? ==> s.outerCancel || s.producer.Done?)
    && (s.consumer.Unwinding? && s.consumer.gathered ==> s.producer.Done?)
    && (s.consumer.Left? ==> s.producer.Done?)
  }

  ghost predicate LeavesDrained(s: State) {
    && (s.consumer.Unwinding? && (s.consumer.reason.Completed? || s.consumer.reason.ProducerRaised?) ==>
          s.queue == [] && !s.outerCancel && s.producer.Done?
          && s.producer.outcome.Returned? == s.consumer.reason.Completed?
          && s.producer.outcome.Raised? == s.consumer.reason.ProducerRaised?)
    && (s.consumer.Left? && (s.consumer.reason.Completed? || s.consumer.reason.ProducerRaised?) ==>
          s.queue == [] && !s.outerCancel && s.producer.Done?
          && s.producer.outcome.Returned? == s.consumer.reason.Completed?
          && s.producer.outcome.Raised? == s.consumer.reason.ProducerRaised?)
    && (s.consumer.Left? && s.consumer.result.ReturnedToCaller? ==> s.consumer.reason.Completed?)
    && (s.consumer.Left? && s.consumer.result.RaisedToCaller? ==>
          s.producer == Done(Raised(s.consumer.result.error)))
    && (s.consumer.Left? && s.producer.Done? && s.producer.outcome.Raised? ==>
          s.consumer.result == RaisedToCaller(s.producer.outcome.error) || s.consumer.result.CancelledToCaller?)
  }

  ghost predicate Inv(s: State) {
    && ChunksAccounted(s)
    && SentinelLast(s)
    && NoLostWakeup(s)
    && ResourcesBalanced(s)
    && ExitsJustified(s)
    && LeavesDrained(s)
  }

  lemma FinishKeepsInv(s: State, exit: Exit)
    requires Inv(s) && !s.producer.Done? && !s.producer.Putting?
    requires exit.Normal? ==> s.ended
    requires exit.Cancelled? ==> s.outerCancel || s.expired
    ensures Inv(Finish(s, exit))
  {
  }

  lemma LeaveKeepsInv(s: State, reason: Reason)
    requires Inv(s) && (s.consumer.Getting? || s.consumer.Yielded?)
    requires reason.ClosedByCaller? || reason.Interrupted?
    ensures Inv(Leave(s, reason))
  {
  }

  lemma JoinKeepsInv(s: State)
    requires Inv(s) && s.producer.Done? && s.queue == [] && s.consumer.Yielded?
    ensures Inv(Join(s))
  {
  }

  /** Receiving the sentinel: the producer is done, so its outcome is taken up at once. */
  lemma TakeSentinelKeepsInv(s: State)
    requires Inv(s) && s.queue == [Finished] && (s.consumer.Getting? || s.consumer.Yielded?)
    ensures Inv(Take(s))
  {
    var t := s.(queue := [], consumer := Yielded);
    assert Inv(t);
    JoinKeepsInv(t);
    assert s.queue[1..] == [];
    assert Take(s) == Join(t);
  }

  lemma TakeChunkKeepsInv(s: State, chunk: Chunk)
    requires Inv(s) && s.queue == [Data(chunk)] && (s.consumer.Getting? || s.consumer.Yielded?)
    ensures Inv(Take(s))
  {
    assert s.queue[1..] == [];
    assert Take(s) == s.(queue := [], producer := WakeProducer(s.producer),
                         delivered := s.delivered + [chunk], consumer := Yielded);
  }

  lemma TakeKeepsInv(s: State)
    requires Inv(s) && s.queue != [] && (s.consumer.Getting? || s.consumer.Yielded?)
    ensures Inv(Take(s))
  {
    assert s.queue == [s.queue[0]];
    match s.queue[0]
    case Data(chunk) => TakeChunkKeepsInv(s, chunk);
    case Finished => TakeSentinelKeepsInv(s);
  }

  lemma TryLeaseKeepsInv(s: State, attempt: Attempt)
    requires Inv(s) && (s.producer.Created? || s.producer.Acquiring?) && !s.cancelPending
    ensures Inv(TryLease(s, attempt))
  {
    if !s.nested && attempt.Refused? { FinishKeepsInv(s, Failed(LeaseRefused(attempt.code))); }
  }

  lemma PullKeepsInv(s: State, pull: Pull)
    requires Inv(s) && s.producer.Pulling? && !s.cancelPending
    ensures Inv(PullStep(s, pull))
  {
    match pull
    case Next(chunk, overBudget) =>
      var t := PullStep(s, pull);
      assert t.produced == s.produced + [chunk] && s.dropped == [] && s.produced == s.enqueued;
      if overBudget {
        assert ChunksAccounted(t);
      } else if s.queue == [] {
        assert t.queue == [Data(chunk)] && t.enqueued == t.delivered + [chunk];
        assert ChunksAccounted(t);
      } else {
        assert t.queue == s.queue && |s.queue| == 1;
        assert ChunksAccounted(t);
      }
    case Exhausted =>
    case Raises(_) =>
  }

  lemma PutKeepsInv(s: State)
    requires Inv(s) && s.producer.Putting? && s.producer.woken && !s.cancelPending
    ensures Inv(PutStep(s))
  {
  }

  lemma CancelKeepsInv(s: State)
    requires Inv(s) && InsideDeadline(s.producer) && s.cancelPending
    ensures Inv(CancelStep(s))
  {
    if s.producer.Acquiring? || s.producer.Closing? {
      FinishKeepsInv(s, Cancelled);
      assert Finish(s.(cancelPending := false), Cancelled) == Finish(s, Cancelled);
    }
  }

  lemma StepKeepsInv(s: State, e: Event)
    requires Inv(s) && Enabled(s, e)
    ensures Inv(Apply(s, e))
  {
    match e
    case Start(attempt) => TryLeaseKeepsInv(s, attempt);
    case Retry(attempt) => TryLeaseKeepsInv(s, attempt);
    case PullEnds(pull) => PullKeepsInv(s, pull);
    case PutResumes => PutKeepsInv(s);
    case CancelArrives => CancelKeepsInv(s);
    case CloseEnds(overBudget) => FinishKeepsInv(s, BudgetExit(s.producer.exit, overBudget));
    case CloseRaises(error) => FinishKeepsInv(s, Failed(error));
    case GetResumes => TakeKeepsInv(s);
    case CallerNext =>
      if s.queue != [] { TakeKeepsInv(s); } else if s.producer.Done? { JoinKeepsInv(s); }
    case CallerCloses => LeaveKeepsInv(s, ClosedByCaller);
    case CallerCancels => if !s.consumer.Unwinding? { LeaveKeepsInv(s, Interrupted); }
    case _ => LocalStepKeepsInv(s, e);
  }

  /** The events that touch neither the queue nor the producer's exit. */
  lemma LocalStepKeepsInv(s: State, e: Event)
    requires Inv(s) && Enabled(s, e)
    requires e.NeverStart? || e.CancelSwallowed? || e.Expire? || e.JoinResumes? || e.GatherNoticed? || e.CleanupResumes?
    ensures Inv(Apply(s, e))
  {
  }

  lemma {:induction false} RunKeepsInv(s: State, events: seq<Event>)
    requires Inv(s) && IsRun(s, events)
    ensures Inv(After(s, events))
    decreases |events|
  {
    if events != [] {
      StepKeepsInv(s, events[0]);
      RunKeepsInv(Apply(s, events[0]), events[1..]);
    }
  }

  ghost predicate Reachable(nested: bool, s: State) {
    exists events :: IsRun(Init(nested), events) && After(Init(nested), events) == s
  }

  lemma ReachableInv(nested: bool, s: State)
    requires Reachable(nested, s)
    ensures Inv(s)
  {
    var events :| IsRun(Init(nested), events) && After(Init(nested), events) == s;
    RunKeepsInv(Init(nested), events);
  }
}
