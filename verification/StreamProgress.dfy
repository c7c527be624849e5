/** Progress of the hand-off: whoever waits is answered, nothing happens twice, and a caller that
    leaves gets away after a few steps. */
module StreamProgress {
  import opened StreamHandoff
  import opened StreamHandoffLaws

  // ---- the caller is answered ----

  /** What the consumer does with the chunks that are enqueued and not yet delivered. */
  ghost predicate Answered(s: State, t: State) {
    if |s.delivered| < |s.enqueued| then t.consumer.Yielded? && t.delivered == s.delivered + [s.enqueued[|s.delivered|]]
    else
      && t.delivered == s.delivered
      && (if s.producer.Done? then t.consumer.Unwinding? && t.producer == s.producer
          else t == s.(consumer := Getting(false)))
  }

  lemma NextChunk(s: State)
    requires Inv(s)
    ensures |s.delivered| < |s.enqueued| <==> s.queue != [] && s.queue[0].Data?
    ensures |s.delivered| < |s.enqueued| ==> s.queue == [Data(s.enqueued[|s.delivered|])]
    ensures s.queue != [] && !s.queue[0].Data? ==> s.producer.Done?
  {
    if s.queue != [] { assert s.queue == [s.queue[0]]; }
  }

  /** A caller at a yield may ask for the next chunk or close the generator. Asking delivers the
      oldest chunk that is enqueued; without one it ends the loop if the producer is done, and else
      waits for the queue. */
  lemma NextIsAnswered(nested: bool, s: State)
    requires Reachable(nested, s) && s.consumer.Yielded?
    ensures Enabled(s, CallerCloses) && Apply(s, CallerCloses).consumer.Unwinding?
    ensures Enabled(s, CallerNext) && Answered(s, Apply(s, CallerNext))
  {
    ReachableInv(nested, s);
    NextChunk(s);
  }

  /** A waiting consumer resumes exactly if there is something in the queue, and then it delivers
      that or leaves its loop. */
  lemma WaitingIsAnswered(nested: bool, s: State)
    requires Reachable(nested, s) && s.consumer.Getting?
    ensures Enabled(s, GetResumes) <==> |s.delivered| < |s.enqueued| || s.producer.Done?
    ensures Enabled(s, GetResumes) ==> Answered(s, Apply(s, GetResumes))
  {
    ReachableInv(nested, s);
    NextChunk(s);
  }

  // ---- the caller gets away ----

  /** Until the generator is left the caller may cancel, and then the consumer is on its way out. */
  lemma CallerMayAlwaysCancel(nested: bool, s: State)
    requires Reachable(nested, s)
    ensures Enabled(s, CallerCancels) <==> !s.consumer.Left?
    ensures !s.consumer.Left? ==> Apply(s, CallerCancels).consumer.Unwinding?
  {
    ReachableInv(nested, s);
  }

  predicate IsOwnEvent(e: Event) {
    (IsProducerEvent(e) && e != CancelSwallowed) || e == GatherNoticed || e == CleanupResumes
  }

  function OwnEvents(events: seq<Event>): nat
    decreases |events|
  {
    if events == [] then 0 else (if IsOwnEvent(events[0]) then 1 else 0) + OwnEvents(events[1..])
  }

  ghost predicate Leaving(s: State) {
    Inv(s) && CancelEffective(s) && (s.consumer.Unwinding? || s.consumer.Left?)
  }

  /** Steps of the producer and the consumer until the generator is left. */
  function LeavingSteps(s: State): nat {
    CleanupSteps(s.producer)
    + if s.consumer.Left? then 0 else if s.consumer.Unwinding? && s.consumer.gathered then 1 else 2
  }

  lemma LeavingStepCounts(s: State, e: Event)
    requires Leaving(s) && Enabled(s, e) && e != CancelSwallowed
    ensures Leaving(Apply(s, e))
    ensures LeavingSteps(Apply(s, e)) + (if IsOwnEvent(e) then 1 else 0) <= LeavingSteps(s)
  {
    StepKeepsInv(s, e);
    StepKeepsCancelEffective(s, e);
    if s.outerCancel { CleanupStepDecreases(s, e); }
  }

  lemma NextLeavingEvent(s: State) returns (e: Event)
    requires Leaving(s) && !s.consumer.Left?
    ensures IsOwnEvent(e) && Enabled(s, e)
  {
    e := if s.producer.Done? then (if s.consumer.gathered then CleanupResumes else GatherNoticed)
         else if s.producer.Created? then NeverStart
         else if s.cancelPending then CancelArrives
         else CloseEnds(false);
  }

  /** From the moment the consumer leaves its loop the generator is left after at most four steps of
      the producer and the consumer, however often the caller cancels meanwhile; and until then one
      of these steps is always possible. */
  lemma {:induction false} LeavingIsBounded(s: State, events: seq<Event>)
    requires Leaving(s) && IsRun(s, events) && HonoursCancellation(events)
    ensures OwnEvents(events) + LeavingSteps(After(s, events)) <= LeavingSteps(s) <= 4
    ensures After(s, events).consumer.Left? || exists e :: IsOwnEvent(e) && Enabled(After(s, events), e)
    decreases |events|
  {
    if events == [] {
      if !s.consumer.Left? { var e := NextLeavingEvent(s); }
    } else {
      LeavingStepCounts(s, events[0]);
      LeavingIsBounded(Apply(s, events[0]), events[1..]);
    }
  }

  /** While the inner stream honours cancellation, somebody inside can always move, unless the caller
      is to decide or the generator is left. */
  lemma SomebodyCanMove(nested: bool, events: seq<Event>)
    requires IsRun(Init(nested), events) && HonoursCancellation(events)
    ensures var s := After(Init(nested), events);
      || s.consumer.Left? || s.consumer.Yielded?
      || exists e :: (IsOwnEvent(e) || e == GetResumes) && Enabled(s, e)
  {
    RunKeepsCancelEffective(Init(nested), events);
    var s := After(Init(nested), events);
    if s.consumer.Unwinding? {
      var e := NextLeavingEvent(s);
    } else if s.consumer.Getting? {
      var e :=
        if s.consumer.woken then GetResumes
        else if s.producer.Created? then Start(Busy)
        else if s.cancelPending then CancelArrives
        else if s.producer.Acquiring? then Retry(Busy)
        else if s.producer.Pulling? then PullEnds(Exhausted)
        else if s.producer.Putting? then PutResumes
        else CloseEnds(false);
      assert (IsOwnEvent(e) || e == GetResumes) && Enabled(s, e);
    }
  }

  // ---- nothing happens twice ----

  function Count(events: seq<Event>, which: Event -> bool): nat
    decreases |events|
  {
    if events == [] then 0 else (if which(events[0]) then 1 else 0) + Count(events[1..], which)
  }

  predicate IsStart(e: Event) { e.Start? || e.NeverStart? }

  predicate IsArrival(e: Event) { e.CancelArrives? || e.CancelSwallowed? }

  predicate IsExpiry(e: Event) { e.Expire? }

  function One(b: bool): nat {
    if b then 1 else 0
  }

  ghost predicate GoesOn(s: State, t: State) {
    && t.expired == s.expired && !t.producer.Created?
    && t.outerCancel == s.outerCancel && (t.cancelPending ==> s.cancelPending)
  }

  lemma LeaseAttemptGoesOn(s: State, attempt: Attempt)
    ensures GoesOn(s, TryLease(s, attempt))
  {
  }

  lemma PullGoesOn(s: State, pull: Pull)
    requires s.producer.Pulling?
    ensures GoesOn(s, PullStep(s, pull))
  {
  }

  lemma CancelGoesOn(s: State)
    requires InsideDeadline(s.producer)
    ensures GoesOn(s, CancelStep(s)) && !CancelStep(s).cancelPending
  {
  }

  lemma ClosingGoesOn(s: State, exit: Exit)
    ensures GoesOn(s, Finish(s, exit))
  {
  }

  lemma ProducerGoesOn(s: State, e: Event)
    requires Enabled(s, e) && IsProducerEvent(e)
    ensures GoesOn(s, Apply(s, e)) && (IsArrival(e) ==> s.cancelPending && !Apply(s, e).cancelPending)
  {
    match e
    case Start(attempt) => LeaseAttemptGoesOn(s, attempt);
    case Retry(attempt) => LeaseAttemptGoesOn(s, attempt);
    case PullEnds(pull) => PullGoesOn(s, pull);
    case CancelArrives => CancelGoesOn(s);
    case CloseEnds(overBudget) => ClosingGoesOn(s, BudgetExit(s.producer.exit, overBudget));
    case CloseRaises(error) => ClosingGoesOn(s, Failed(error));
    case _ =>
  }

  /** What a step of the consumer leaves as it was. */
  ghost predicate LetsGoOn(s: State, t: State) {
    t.expired == s.expired && (t.producer.Created? <==> s.producer.Created?)
  }

  lemma TakeLetsGoOn(s: State)
    requires s.queue != []
    ensures LetsGoOn(s, Take(s))
  {
  }

  lemma ConsumerLetsGoOn(s: State, e: Event)
    requires Enabled(s, e) && !IsProducerEvent(e) && !e.Expire?
    ensures LetsGoOn(s, Apply(s, e))
  {
    match e
    case GetResumes => if s.queue != [] { TakeLetsGoOn(s); }
    case CallerNext => if s.queue != [] { TakeLetsGoOn(s); }
    case _ =>
  }

  lemma StepIsCounted(s: State, e: Event)
    requires Enabled(s, e)
    ensures One(s.producer.Created?) == One(Apply(s, e).producer.Created?) + One(IsStart(e))
    ensures One(Apply(s, e).expired) == One(s.expired) + One(IsExpiry(e))
  {
    if IsProducerEvent(e) {
      ProducerGoesOn(s, e);
    } else if !e.Expire? {
      ConsumerLetsGoOn(s, e);
    }
  }

  lemma {:induction false} EventsAreCounted(s: State, events: seq<Event>)
    requires IsRun(s, events)
    ensures One(s.producer.Created?) == One(After(s, events).producer.Created?) + Count(events, IsStart)
    ensures One(After(s, events).expired) == One(s.expired) + Count(events, IsExpiry)
    decreases |events|
  {
    if events != [] {
      StepIsCounted(s, events[0]);
      EventsAreCounted(Apply(s, events[0]), events[1..]);
    }
  }

  /** The Task starts once, and from then until it is done the deadline may fire, once. */
  lemma DeadlineRunsFromTheStart(nested: bool, events: seq<Event>)
    requires IsRun(Init(nested), events)
    ensures Count(events, IsStart) <= 1 && Count(events, IsExpiry) <= 1
    ensures Enabled(After(Init(nested), events), Expire) <==>
              Count(events, IsStart) == 1 && Count(events, IsExpiry) == 0 && !After(Init(nested), events).producer.Done?
  {
    EventsAreCounted(Init(nested), events);
  }

  lemma ArrivalIsPaid(s: State, e: Event)
    requires Inv(s) && Enabled(s, e)
    ensures var t := Apply(s, e);
      One(IsArrival(e)) + One(t.cancelPending) + One(s.outerCancel)
      <= One(IsExpiry(e)) + One(s.cancelPending) + One(t.outerCancel)
  {
    if IsProducerEvent(e) { ProducerGoesOn(s, e); }
  }

  lemma {:induction false} ArrivalsCounted(s: State, events: seq<Event>)
    requires Inv(s) && IsRun(s, events)
    ensures var t := After(s, events);
      Count(events, IsArrival) + One(t.cancelPending) + One(s.outerCancel)
      <= Count(events, IsExpiry) + One(s.cancelPending) + One(t.outerCancel)
    decreases |events|
  {
    if events != [] {
      StepKeepsInv(s, events[0]);
      ArrivalIsPaid(s, events[0]);
      ArrivalsCounted(Apply(s, events[0]), events[1..]);
    }
  }

  /** A cancellation is thrown into the producer at most once for the deadline and once for the
      consumer that leaves. */
  lemma CancelsArriveOnce(nested: bool, events: seq<Event>)
    requires IsRun(Init(nested), events)
    ensures var s := After(Init(nested), events);
      Count(events, IsArrival) + One(s.cancelPending) <= One(s.expired) + One(s.outerCancel)
  {
    ArrivalsCounted(Init(nested), events);
    EventsAreCounted(Init(nested), events);
  }
}
