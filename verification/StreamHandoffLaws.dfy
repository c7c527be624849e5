/** What the hand-off promises in every interleaving: delivery in order, no lost wakeup, no
    swallowed failure, cleanup before the caller gets away, and progress. */
module StreamHandoffLaws {
  import opened StreamHandoff

  // ---- what the hand-off promises ----

  /** In every interleaving the caller has seen a prefix of what the inner stream
      produced, the queue holds at most the next chunk, and at most one further chunk is
      in the producer's hand or lost; a chunk is lost only once the producer is leaving. */
  lemma DeliveryIsPrefix(nested: bool, s: State)
    requires Reachable(nested, s)
    ensures s.delivered + QueuedChunks(s.queue) + Unqueued(s) == s.produced
    ensures s.delivered + QueuedChunks(s.queue) <= s.produced
    ensures |QueuedChunks(s.queue)| <= |s.queue| <= 1
    ensures s.dropped != [] ==> (s.producer.Closing? || s.producer.Done?) && !s.ended
  {
    ReachableInv(nested, s);
  }

  /** The sentinel is enqueued at most once, and never before the producer Task is done;
      hence the consumer that receives it never waits for the Task again. */
  lemma SentinelMarksCompletion(nested: bool, s: State)
    requires Reachable(nested, s)
    ensures s.sentinels <= 1
    ensures s.sentinels == 1 || Finished in s.queue ==> s.producer.Done?
    ensures !s.consumer.Joining?
  {
    ReachableInv(nested, s);
  }

  /** No wakeup is lost: a side that waits without a wakeup has nothing to do, and the
      consumer never waits on an empty queue once the producer is done. */
  lemma WaitersAreJustified(nested: bool, s: State)
    requires Reachable(nested, s)
    ensures s.consumer == Getting(false) ==> s.queue == [] && !s.producer.Done?
    ensures s.consumer == Getting(true) ==> s.queue != []
    ensures s.producer.Putting? && !s.producer.woken ==> |s.queue| == 1 && s.consumer != Getting(false)
    ensures s.producer.Putting? && s.producer.woken ==> s.queue == []
  {
    ReachableInv(nested, s);
  }

  /** A run that returns normally delivered every chunk of the exhausted inner stream,
      once and in order; a run whose consumer saw the producer's own error first delivered
      everything that had been enqueued. */
  lemma NormalReturnIsComplete(nested: bool, s: State)
    requires Reachable(nested, s) && s.consumer.Left?
    ensures s.consumer.result.ReturnedToCaller? ==> s.delivered == s.produced && s.ended && s.producer == Done(Returned)
    ensures s.consumer.reason.ProducerRaised? ==>
              s.delivered == s.enqueued && s.producer.Done? && s.producer.outcome.Raised?
    ensures s.consumer.result.RaisedToCaller? ==> s.producer == Done(Raised(s.consumer.result.error))
  {
    ReachableInv(nested, s);
  }

  /** A producer that failed is never reported as a normal or a quiet end: the caller gets
      that error unless the caller itself was cancelled. */
  lemma FailureIsNeverSwallowed(nested: bool, s: State)
    requires Reachable(nested, s) && s.consumer.Left?
    ensures s.producer.Done?
    ensures s.producer.outcome.Raised? ==>
              s.consumer.result == RaisedToCaller(s.producer.outcome.error) || s.consumer.result.CancelledToCaller?
  {
    ReachableInv(nested, s);
  }

  /** However often the caller closes or cancels, the generator is left only after the
      producer Task is done; by then the lease it acquired has had exactly one release
      attempt and its budget is finished. A run nested in a held lease releases nothing. */
  lemma LeftOnlyAfterCleanup(nested: bool, s: State)
    requires Reachable(nested, s)
    ensures s.producer.Done? ==> s.releases == s.acquired <= 1 && s.finishedBudgets == s.budgets <= 1
    ensures s.consumer.Left? ==> s.producer.Done?
    ensures s.nested == nested && (nested ==> s.releases == 0)
  {
    ReachableInv(nested, s);
    var events :| IsRun(Init(nested), events) && After(Init(nested), events) == s;
    NestedIsConstant(Init(nested), events);
  }

  lemma {:induction false} NestedIsConstant(s: State, events: seq<Event>)
    requires IsRun(s, events)
    ensures After(s, events).nested == s.nested
    decreases |events|
  {
    if events != [] {
      NestedIsConstant(Apply(s, events[0]), events[1..]);
    }
  }

  // ---- progress ----

  /** The producer waits for the consumer, or has ended. */
  ghost predicate ProducerStuck(s: State) {
    !s.cancelPending && (s.producer.Done? || (s.producer.Putting? && !s.producer.woken))
  }

  /** The consumer waits for the producer. */
  ghost predicate ConsumerStuck(s: State) {
    || s.consumer == Getting(false)
    || (s.consumer.Joining? && !s.producer.Done?)
    || (s.consumer.Unwinding? && !s.consumer.gathered && !s.producer.Done?)
  }

  ghost predicate HonoursCancellation(events: seq<Event>) {
    forall i :: 0 <= i < |events| ==> events[i] != CancelSwallowed
  }

  /** Kept by every event except a swallowed cancellation: once the consumer has cancelled
      the producer, the cancel is pending or the producer is past its last `put`. */
  ghost predicate CancelEffective(s: State) {
    s.outerCancel ==> s.cancelPending || s.producer.Closing? || s.producer.Done?
  }

  lemma StepKeepsCancelEffective(s: State, e: Event)
    requires Inv(s) && CancelEffective(s) && Enabled(s, e) && e != CancelSwallowed
    ensures CancelEffective(Apply(s, e))
  {
    if s.outerCancel { CancelStaysEffective(s, e); }
  }

  lemma CancelStaysEffective(s: State, e: Event)
    requires Inv(s) && CancelEffective(s) && Enabled(s, e) && e != CancelSwallowed && s.outerCancel
    ensures CancelEffective(Apply(s, e))
  {
  }

  /** What makes a cancel ineffective is a swallow by the inner stream while it is pulled. */
  lemma CancelIsLostIff(s: State, e: Event)
    requires Inv(s) && CancelEffective(s) && Enabled(s, e)
    ensures !CancelEffective(Apply(s, e)) <==> e == CancelSwallowed && s.outerCancel && s.producer.Pulling?
  {
    if e != CancelSwallowed { StepKeepsCancelEffective(s, e); }
  }

  lemma {:induction false} RunKeepsCancelEffective(s: State, events: seq<Event>)
    requires Inv(s) && CancelEffective(s) && IsRun(s, events) && HonoursCancellation(events)
    ensures Inv(After(s, events)) && CancelEffective(After(s, events))
    decreases |events|
  {
    if events != [] {
      StepKeepsInv(s, events[0]);
      StepKeepsCancelEffective(s, events[0]);
      RunKeepsCancelEffective(Apply(s, events[0]), events[1..]);
    }
  }

  ghost predicate Deadlocked(s: State) {
    ProducerStuck(s) && ConsumerStuck(s)
  }

  /** The consumer's cancel has been lost: the producer pulls or puts, although it was cancelled. */
  lemma LostCancelMeans(s: State)
    requires Inv(s) && !CancelEffective(s)
    ensures !s.cancelPending && (s.producer.Pulling? || s.producer.Putting?)
    ensures s.consumer.Unwinding? && !s.consumer.gathered
  {
  }

  lemma PutIntoFullQueue(s: State)
    requires Inv(s) && !CancelEffective(s) && s.producer.Pulling? && s.queue != []
    ensures Enabled(s, PullEnds(Next(0, false))) && Deadlocked(Apply(s, PullEnds(Next(0, false))))
  {
    LostCancelMeans(s);
  }

  /** After a lost cancel two more chunks are enough to block the producer for good. */
  lemma LostCancelDeadlocks(s: State) returns (events: seq<Event>)
    requires Inv(s) && !CancelEffective(s)
    ensures IsRun(s, events) && HonoursCancellation(events) && Deadlocked(After(s, events))
  {
    LostCancelMeans(s);
    var chunk := PullEnds(Next(0, false));
    if s.producer.Putting? && !s.producer.woken {
      events := [];
    } else {
      var first := if s.producer.Putting? then PutResumes else chunk;
      var t := Apply(s, first);
      StepKeepsInv(s, first);
      if Deadlocked(t) {
        Prepend(s, first, t, []);
        events := [first] + [];
      } else {
        PutIntoFullQueue(t);
        var u := Apply(t, chunk);
        Prepend(t, chunk, u, []);
        Prepend(s, first, t, [chunk] + []);
        events := [first] + ([chunk] + []);
      }
    }
  }

  ghost predicate DeadlockAhead(s: State) {
    exists events :: IsRun(s, events) && HonoursCancellation(events) && Deadlocked(After(s, events))
  }

  /** From a reachable state some continuation in which no further cancellation is swallowed
      deadlocks if and only if a cancel of the consumer has been lost. */
  lemma DeadlockAheadIff(nested: bool, s: State)
    requires Reachable(nested, s)
    ensures DeadlockAhead(s) <==> !CancelEffective(s)
  {
    ReachableInv(nested, s);
    if CancelEffective(s) {
      forall events | IsRun(s, events) && HonoursCancellation(events) ensures !Deadlocked(After(s, events)) {
        RunKeepsCancelEffective(s, events);
      }
    } else {
      var events := LostCancelDeadlocks(s);
    }
  }

  /** A deadlock lasts until the run deadline, if that is still to come; the caller's further
      cancellations change nothing. */
  lemma DeadlockLastsUntilDeadline(s: State, e: Event)
    requires Inv(s) && Deadlocked(s) && Enabled(s, e)
    ensures (e.Expire? && !s.expired) || (e.CallerCancels? && Deadlocked(Apply(s, e)))
  {
  }

  /** Neither side ever waits for the other while the other waits for it, as long as the
      inner stream does not swallow a cancellation at all. */
  lemma NoDeadlock(nested: bool, events: seq<Event>)
    requires IsRun(Init(nested), events) && HonoursCancellation(events)
    ensures !Deadlocked(After(Init(nested), events))
  {
    RunKeepsCancelEffective(Init(nested), events);
  }

  /** A run that does deadlock: the inner stream absorbs the cancel and yields one more
      chunk, which blocks on the full queue while the consumer waits for the Task. */
  function SwallowingRun(): seq<Event> {
    [Start(Granted), PullEnds(Next(0, false)), GetResumes, PullEnds(Next(1, false)),
     CallerCloses, CancelSwallowed, PullEnds(Next(2, false))]
  }

  lemma SwallowedCancelDeadlocks()
    ensures IsRun(Init(false), SwallowingRun())
    ensures Deadlocked(After(Init(false), SwallowingRun()))
  {
    var s1 := Init(false).(producer := Pulling, acquired := 1, budgets := 1);
    var s2 := s1.(produced := [0], queue := [Data(0)], enqueued := [0], consumer := Getting(true));
    var s3 := s2.(queue := [], delivered := [0], consumer := Yielded);
    var s4 := s3.(produced := [0, 1], queue := [Data(1)], enqueued := [0, 1]);
    var s5 := s4.(cancelPending := true, outerCancel := true, consumer := Unwinding(ClosedByCaller, false, false));
    var s6 := s5.(cancelPending := false);
    var s7 := s6.(produced := [0, 1, 2], producer := Putting(2, false));
    Prepend(s6, PullEnds(Next(2, false)), s7, []);
    Prepend(s5, CancelSwallowed, s6, [PullEnds(Next(2, false))]);
    Prepend(s4, CallerCloses, s5, SwallowingRun()[5..]);
    Prepend(s3, PullEnds(Next(1, false)), s4, SwallowingRun()[4..]);
    Prepend(s2, GetResumes, s3, SwallowingRun()[3..]);
    Prepend(s1, PullEnds(Next(0, false)), s2, SwallowingRun()[2..]);
    Prepend(Init(false), Start(Granted), s1, SwallowingRun()[1..]);
  }

  lemma Prepend(s: State, e: Event, t: State, rest: seq<Event>)
    requires Enabled(s, e) && Apply(s, e) == t && IsRun(t, rest)
    ensures IsRun(s, [e] + rest) && After(s, [e] + rest) == After(t, rest)
  {
    var run := [e] + rest;
    assert run[0] == e && run[1..] == rest;
  }

  predicate IsProducerEvent(e: Event) {
    match e
    case Start(_) => true
    case NeverStart => true
    case Retry(_) => true
    case PullEnds(_) => true
    case PutResumes => true
    case CancelArrives => true
    case CancelSwallowed => true
    case CloseEnds(_) => true
    case CloseRaises(_) => true
    case _ => false
  }

  function ProducerEvents(events: seq<Event>): nat
    decreases |events|
  {
    if events == [] then 0
    else (if IsProducerEvent(events[0]) then 1 else 0) + ProducerEvents(events[1..])
  }

  /** Producer events still to come once the consumer has cancelled it. */
  function CleanupSteps(p: Producer): nat {
    match p
    case Created => 1
    case Acquiring => 1
    case Pulling => 2
    case Putting(_, _) => 2
    case Closing(_) => 1
    case Done(_) => 0
  }

  lemma CleanupStepDecreases(s: State, e: Event)
    requires Inv(s) && CancelEffective(s) && s.outerCancel && Enabled(s, e) && e != CancelSwallowed
    ensures var t := Apply(s, e);
      && t.outerCancel
      && CleanupSteps(t.producer) + (if IsProducerEvent(e) then 1 else 0) <= CleanupSteps(s.producer)
  {
  }

  /** Bounded cleanup: after the consumer's cancel the producer runs at most two more
      times, whatever the caller does meanwhile, and it can always run until it is done. */
  lemma {:induction false} CleanupIsBounded(s: State, events: seq<Event>)
    requires Inv(s) && CancelEffective(s) && s.outerCancel && IsRun(s, events) && HonoursCancellation(events)
    ensures ProducerEvents(events) + CleanupSteps(After(s, events).producer) <= CleanupSteps(s.producer) <= 2
    ensures var t := After(s, events);
      t.producer.Done? || exists e :: IsProducerEvent(e) && e != CancelSwallowed && Enabled(t, e)
    decreases |events|
  {
    if events == [] {
      if !s.producer.Done? {
        var e :=
          if s.producer.Created? then NeverStart
          else if s.cancelPending then CancelArrives
          else CloseEnds(false);
        assert IsProducerEvent(e) && Enabled(s, e);
      }
    } else {
      StepKeepsInv(s, events[0]);
      StepKeepsCancelEffective(s, events[0]);
      CleanupStepDecreases(s, events[0]);
      CleanupIsBounded(Apply(s, events[0]), events[1..]);
    }
  }
}
