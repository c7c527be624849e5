/** How a stream ends, told from what happened to it: for every run, the outcome of the producer and
    what the caller gets, from a record of the events and not from the steps of the Task. */
module StreamEndings {
  import Options
  import opened StreamHandoff
  import opened StreamHandoffLaws

  // ---- what happened ----

  /** How the inner stream came to its end, if it did. */
  datatype StreamEnd = Unended | RanOut | Overspent | Raising(error: Error)

  /** How it was closed. */
  datatype Closure = Unclosed | Closed(overBudget: bool) | CloseFailed(error: Error)

  datatype Facts = Facts(
    chunks: seq<Chunk>, end: StreamEnd, closure: Closure, refusal: Options.Option<nat>,
    expiry: bool, callerClosed: bool, callerCancelled: bool)

  const Nothing := Facts([], Unended, Unclosed, Options.None, false, false, false)

  function WithPull(f: Facts, pull: Pull): Facts {
    match pull
    case Next(chunk, overBudget) => f.(chunks := f.chunks + [chunk], end := if overBudget then Overspent else f.end)
    case Exhausted => f.(end := RanOut)
    case Raises(error) => f.(end := Raising(error))
  }

  function WithAttempt(f: Facts, attempt: Attempt): Facts {
    if attempt.Refused? then f.(refusal := Options.Some(attempt.code)) else f
  }

  /** One event more on the record. */
  function Noted(f: Facts, e: Event): Facts {
    match e
    case Start(attempt) => WithAttempt(f, attempt)
    case Retry(attempt) => WithAttempt(f, attempt)
    case PullEnds(pull) => WithPull(f, pull)
    case CloseEnds(overBudget) => f.(closure := Closed(overBudget))
    case CloseRaises(error) => f.(closure := CloseFailed(error))
    case Expire => f.(expiry := true)
    case CallerCloses => f.(callerClosed := true)
    case CallerCancels => f.(callerCancelled := true)
    case _ => f
  }

  function Record(f: Facts, events: seq<Event>): Facts
    decreases |events|
  {
    if events == [] then f else Record(Noted(f, events[0]), events[1..])
  }

  // ---- what the facts say ----

  /** The outcome of a producer that is done. A refused lease and an error while the inner stream is
      closed come out as themselves; so do a spent budget and an error of the inner stream; an
      exhausted stream returns. All else is a cancellation: a timeout, if the deadline fired and
      the consumer had not cancelled the producer. */
  function OutcomeOf(nested: bool, f: Facts, cancelled: bool): Outcome {
    if f.closure.CloseFailed? then Raised(f.closure.error)
    else if f.refusal.Some? && !nested then Raised(LeaseRefused(f.refusal.value))
    else if f.closure.Closed? && !f.end.Unended? then
      if f.closure.overBudget || f.end.Overspent? then Raised(BudgetRefused)
      else if f.end.RanOut? then Returned
      else Raised(f.end.error)
    else if f.expiry && !cancelled then Raised(TimedOut)
    else WasCancelled
  }

  /** What the caller gets: an error of the producer, or else its own cancellation, the quiet end
      it asked for, or a normal return. */
  function ResultOf(outcome: Outcome, f: Facts): Result {
    if outcome.Raised? then RaisedToCaller(outcome.error)
    else if f.callerCancelled then CancelledToCaller
    else if f.callerClosed then ClosedQuietly
    else ReturnedToCaller
  }

  /** A cancellation that arrives while the consumer already waits for the producer comes before
      the producer's error. */
  predicate ResultIs(result: Result, outcome: Outcome, f: Facts) {
    result == ResultOf(outcome, f) || (f.callerCancelled && result == CancelledToCaller)
  }

  // ---- every step is told ----

  /** Why the producer closes the inner stream, if it does after this end. */
  function ExitFor(end: StreamEnd): Exit {
    match end
    case Unended => Cancelled
    case RanOut => Normal
    case Overspent => Failed(BudgetRefused)
    case Raising(error) => Failed(error)
  }

  ghost predicate ProducerTold(s: State, f: Facts) {
    match s.producer
    case Done(outcome) => outcome == OutcomeOf(s.nested, f, s.outerCancel)
    case Closing(exit) => f.closure.Unclosed? && (f.refusal.Some? ==> s.nested) && exit == ExitFor(f.end)
    case _ => f.closure.Unclosed? && (f.refusal.Some? ==> s.nested) && f.end.Unended?
  }

  ghost predicate ConsumerTold(s: State, f: Facts) {
    match s.consumer
    case Unwinding(reason, interrupted, _) =>
      && (reason.ClosedByCaller? <==> f.callerClosed)
      && (interrupted || reason.Interrupted? <==> f.callerCancelled)
    case Left(_, result) =>
      s.producer.Done? && ResultIs(result, s.producer.outcome, f)
    case _ => !f.callerClosed && !f.callerCancelled
  }

  ghost predicate Told(s: State, f: Facts) {
    && s.produced == f.chunks && (s.ended <==> f.end.RanOut?) && (s.expired <==> f.expiry)
    && (s.outerCancel ==> f.callerClosed || f.callerCancelled)
    && ProducerTold(s, f) && ConsumerTold(s, f)
  }

  /** What is on the record of the producer stays true through a step of the consumer … */
  lemma ProducerStays(s: State, t: State, f: Facts, g: Facts)
    requires ProducerTold(s, f) && g == f.(callerClosed := g.callerClosed, callerCancelled := g.callerCancelled)
    requires t.nested == s.nested && (t.producer == s.producer || t.producer == WakeProducer(s.producer))
    requires s.producer.Done? ==> t.outerCancel == s.outerCancel
    ensures ProducerTold(t, g)
  {
  }

  /** … and the other way round. */
  lemma ConsumerStays(s: State, t: State, f: Facts, g: Facts)
    requires ConsumerTold(s, f) && g.callerClosed == f.callerClosed && g.callerCancelled == f.callerCancelled
    requires (t.consumer == s.consumer || t.consumer == WakeConsumer(s.consumer)) && !s.producer.Done?
    ensures ConsumerTold(t, g)
  {
  }

  lemma FinishIsTold(s: State, f: Facts, exit: Exit, g: Facts)
    requires Told(s, f) && !s.producer.Done?
    requires g == f.(closure := g.closure, refusal := g.refusal)
    requires g.closure.CloseFailed? ==> exit == Failed(g.closure.error)
    requires !g.closure.CloseFailed? && g.refusal.Some? && !s.nested ==> exit == Failed(LeaseRefused(g.refusal.value))
    requires !g.closure.CloseFailed? && (g.refusal.Some? ==> s.nested) ==>
      exit == if g.closure.Closed? then BudgetExit(ExitFor(f.end), g.closure.overBudget) else Cancelled
    ensures Told(Finish(s, exit), g)
  {
    ConsumerStays(s, Finish(s, exit), f, g);
  }

  lemma AttemptIsTold(s: State, f: Facts, attempt: Attempt)
    requires Told(s, f) && (s.producer.Created? || s.producer.Acquiring?)
    ensures Told(TryLease(s, attempt), WithAttempt(f, attempt))
  {
    var (t, g) := (TryLease(s, attempt), WithAttempt(f, attempt));
    if !s.nested && attempt.Refused? {
      FinishIsTold(s, f, Failed(LeaseRefused(attempt.code)), g);
    } else {
      ConsumerStays(s, t, f, g);
    }
  }

  lemma ChunkIsTold(s: State, f: Facts, chunk: Chunk)
    requires Told(s, f) && s.producer.Pulling?
    ensures Told(PullStep(s, Next(chunk, false)), f.(chunks := f.chunks + [chunk]))
  {
    var (t, g) := (PullStep(s, Next(chunk, false)), f.(chunks := f.chunks + [chunk]));
    ConsumerStays(s, t, f, g);
  }

  lemma PullIsTold(s: State, f: Facts, pull: Pull)
    requires Told(s, f) && s.producer.Pulling?
    ensures Told(PullStep(s, pull), WithPull(f, pull))
  {
    if pull.Next? && !pull.overBudget {
      ChunkIsTold(s, f, pull.chunk);
    } else {
      ConsumerStays(s, PullStep(s, pull), f, WithPull(f, pull));
    }
  }

  lemma PutIsTold(s: State, f: Facts)
    requires Told(s, f) && s.producer.Putting?
    ensures Told(PutStep(s), f)
  {
    ConsumerStays(s, PutStep(s), f, f);
  }

  lemma CancelIsTold(s: State, f: Facts)
    requires Told(s, f) && InsideDeadline(s.producer)
    ensures Told(CancelStep(s), f)
  {
    var t := s.(cancelPending := false);
    if s.producer.Pulling? || s.producer.Putting? {
      ConsumerStays(s, CancelStep(s), f, f);
    } else {
      FinishIsTold(t, f, Cancelled, f);
    }
  }

  lemma LeaveIsTold(s: State, f: Facts, reason: Reason, g: Facts)
    requires Told(s, f) && (s.consumer.Getting? || s.consumer.Joining? || s.consumer.Yielded?)
    requires g == f.(callerClosed := reason.ClosedByCaller?, callerCancelled := reason.Interrupted?)
    requires reason.Completed? || reason.ProducerRaised? ==> s.producer.Done?
    ensures Told(Leave(s, reason), g)
  {
    ProducerStays(s, Leave(s, reason), f, g);
  }

  lemma JoinIsTold(s: State, f: Facts)
    requires Told(s, f) && (s.consumer.Getting? || s.consumer.Joining? || s.consumer.Yielded?)
    requires s.producer.Done? && !s.producer.outcome.WasCancelled?
    ensures Told(Join(s), f)
  {
    LeaveIsTold(s, f, if s.producer.outcome.Returned? then Completed else ProducerRaised, f);
  }

  lemma TakeIsTold(s: State, f: Facts)
    requires Told(s, f) && (s.consumer.Getting? || s.consumer.Joining? || s.consumer.Yielded?)
    requires s.queue != [] && ExitsJustified(s)
    ensures Told(Take(s), f)
  {
    var t := s.(queue := s.queue[1..], producer := WakeProducer(s.producer));
    ProducerStays(s, t, f, f);
    if s.queue[0].Finished? && s.producer.Done? {
      JoinIsTold(t, f);
    } else {
      ProducerStays(s, Take(s), f, f);
    }
  }

  lemma ExitIsTold(s: State, f: Facts)
    requires Told(s, f) && ExitsJustified(s) && LeavesDrained(s) && s.consumer.Unwinding? && s.producer.Done?
    ensures Told(s.(consumer := Left(s.consumer.reason, ExitResult(s))), f)
  {
  }

  /** The events of the producer, and the deadline. */
  lemma ProducerStepIsTold(s: State, f: Facts, e: Event)
    requires Told(s, f) && ExitsJustified(s) && Enabled(s, e)
    requires e.Start? || e.NeverStart? || e.Retry? || e.PullEnds? || e.PutResumes? || e.CancelArrives?
             || e.CancelSwallowed? || e.CloseEnds? || e.CloseRaises? || e.Expire?
    ensures Told(Apply(s, e), Noted(f, e))
  {
    if e.Start? || e.Retry? {
      AttemptIsTold(s, f, e.attempt);
    } else if e.PullEnds? {
      PullIsTold(s, f, e.pull);
    } else if e.PutResumes? {
      PutIsTold(s, f);
    } else if e.CancelArrives? {
      CancelIsTold(s, f);
    } else if e.CloseEnds? {
      FinishIsTold(s, f, BudgetExit(s.producer.exit, e.overBudget), Noted(f, e));
    } else if e.CloseRaises? {
      FinishIsTold(s, f, Failed(e.error), Noted(f, e));
    } else {
      ConsumerStays(s, Apply(s, e), f, Noted(f, e));
    }
  }

  lemma StepIsTold(s: State, f: Facts, e: Event)
    requires Told(s, f) && ExitsJustified(s) && LeavesDrained(s) && Enabled(s, e)
    ensures Told(Apply(s, e), Noted(f, e))
  {
    match e
    case GetResumes => if s.queue != [] { TakeIsTold(s, f); } else { ProducerStays(s, Apply(s, e), f, f); }
    case CallerNext =>
      if s.queue != [] { TakeIsTold(s, f); }
      else if s.producer.Done? { JoinIsTold(s, f); }
      else { ProducerStays(s, Apply(s, e), f, f); }
    case JoinResumes => JoinIsTold(s, f);
    case CallerCloses => LeaveIsTold(s, f, ClosedByCaller, Noted(f, e));
    case CallerCancels =>
      if s.consumer.Unwinding? { ProducerStays(s, Apply(s, e), f, Noted(f, e)); }
      else { LeaveIsTold(s, f, Interrupted, Noted(f, e)); }
    case GatherNoticed => ProducerStays(s, Apply(s, e), f, f);
    case CleanupResumes => if s.producer.Done? { ExitIsTold(s, f); }
    case _ => ProducerStepIsTold(s, f, e);
  }

  lemma {:induction false} RunIsTold(s: State, f: Facts, events: seq<Event>)
    requires Inv(s) && Told(s, f) && IsRun(s, events)
    ensures Inv(After(s, events)) && Told(After(s, events), Record(f, events))
    ensures After(s, events).nested == s.nested
    decreases |events|
  {
    if events != [] {
      StepKeepsInv(s, events[0]);
      StepIsTold(s, f, events[0]);
      RunIsTold(Apply(s, events[0]), Noted(f, events[0]), events[1..]);
    }
  }

  // ---- how every run ends ----

  /** In every run: what the inner stream yielded is what the producer has to hand over, and as
      soon as the producer is done its outcome is the one the facts demand. */
  lemma OutcomeIsTold(nested: bool, events: seq<Event>)
    requires IsRun(Init(nested), events)
    ensures var (s, f) := (After(Init(nested), events), Record(Nothing, events));
      && s.produced == f.chunks && (s.ended <==> f.end.RanOut?) && (s.expired <==> f.expiry)
      && (s.outerCancel ==> f.callerClosed || f.callerCancelled)
      && (s.producer.Done? ==> s.producer.outcome == OutcomeOf(nested, f, s.outerCancel))
  {
    RunIsTold(Init(nested), Nothing, events);
  }

  /** Once the generator is left, the caller has got what the facts demand. */
  lemma ResultIsTold(nested: bool, events: seq<Event>)
    requires IsRun(Init(nested), events) && After(Init(nested), events).consumer.Left?
    ensures var (s, f) := (After(Init(nested), events), Record(Nothing, events));
      s.producer.Done? && ResultIs(s.consumer.result, s.producer.outcome, f)
  {
    RunIsTold(Init(nested), Nothing, events);
  }

  /** Neither the lease, the deadline, the budget, the inner stream nor the caller gets in the way. */
  predicate Smooth(e: Event) {
    match e
    case Start(attempt) => !attempt.Refused?
    case Retry(attempt) => !attempt.Refused?
    case PullEnds(pull) => pull.Exhausted? || (pull.Next? && !pull.overBudget)
    case CloseEnds(overBudget) => !overBudget
    case CloseRaises(_) => false
    case Expire => false
    case CallerCloses => false
    case CallerCancels => false
    case _ => true
  }

  predicate AllSmooth(events: seq<Event>) {
    forall i :: 0 <= i < |events| ==> Smooth(events[i])
  }

  predicate SmoothFacts(f: Facts) {
    && (f.end.Unended? || f.end.RanOut?) && (f.closure.Unclosed? || f.closure == Closed(false))
    && f.refusal.None? && !f.expiry && !f.callerClosed && !f.callerCancelled
  }

  lemma {:induction false} SmoothRecord(f: Facts, events: seq<Event>)
    requires SmoothFacts(f) && AllSmooth(events)
    ensures SmoothFacts(Record(f, events))
    decreases |events|
  {
    if events != [] {
      assert Smooth(events[0]);
      SmoothRecord(Noted(f, events[0]), events[1..]);
    }
  }

  /** A run in which nothing gets in the way ends, when it ends, with a normal return that has
      delivered every chunk the inner stream yielded. */
  lemma SmoothRunReturns(nested: bool, events: seq<Event>)
    requires IsRun(Init(nested), events) && AllSmooth(events) && After(Init(nested), events).consumer.Left?
    ensures var s := After(Init(nested), events);
      && s.consumer.result == ReturnedToCaller && s.ended
      && s.delivered == s.produced == Record(Nothing, events).chunks
  {
    OutcomeIsTold(nested, events);
    ResultIsTold(nested, events);
    SmoothRecord(Nothing, events);
    var s := After(Init(nested), events);
    assert Reachable(nested, s);
    ReachableInv(nested, s);
    NormalReturnIsComplete(nested, s);
  }

  /** What is known of the producer does not change any more once it is closing or done. */
  lemma FactsStayForAStep(s: State, f: Facts, e: Event)
    requires Enabled(s, e) && (s.producer.Closing? || s.producer.Done?)
    ensures var (t, g) := (Apply(s, e), Noted(f, e));
      && (t.producer == s.producer || (s.producer.Closing? && t.producer.Done?))
      && g.end == f.end && g.refusal == f.refusal && g.chunks == f.chunks
      && (s.producer.Done? ==> g.closure == f.closure && g.expiry == f.expiry)
  {
    RecordStays(s, f, e);
    if IsProducerEvent(e) { ClosingGoesOn(s, e); } else { ClosingWaits(s, e); }
  }

  lemma RecordStays(s: State, f: Facts, e: Event)
    requires Enabled(s, e) && (s.producer.Closing? || s.producer.Done?)
    ensures var g := Noted(f, e);
      && g.end == f.end && g.refusal == f.refusal && g.chunks == f.chunks
      && (s.producer.Done? ==> g.closure == f.closure && g.expiry == f.expiry)
  {
  }

  lemma ClosingGoesOn(s: State, e: Event)
    requires Enabled(s, e) && IsProducerEvent(e) && (s.producer.Closing? || s.producer.Done?)
    ensures Apply(s, e).producer == s.producer || (s.producer.Closing? && Apply(s, e).producer.Done?)
  {
  }

  lemma ClosingWaits(s: State, e: Event)
    requires Enabled(s, e) && !IsProducerEvent(e) && (s.producer.Closing? || s.producer.Done?)
    ensures Apply(s, e).producer == s.producer
  {
  }

  lemma {:induction false} FactsStay(s: State, f: Facts, events: seq<Event>)
    requires IsRun(s, events) && (s.producer.Closing? || s.producer.Done?)
    ensures var g := Record(f, events);
      && g.end == f.end && g.refusal == f.refusal && g.chunks == f.chunks
      && (s.producer.Done? ==> g.closure == f.closure && g.expiry == f.expiry)
    decreases |events|
  {
    if events != [] {
      FactsStayForAStep(s, f, events[0]);
      FactsStay(Apply(s, events[0]), Noted(f, events[0]), events[1..]);
    }
  }

  lemma {:induction false} RaisingStays(s: State, f: Facts, events: seq<Event>, i: nat)
    requires Inv(s) && Told(s, f) && IsRun(s, events) && i < |events|
    requires events[i].PullEnds? && (events[i].pull.Raises? || events[i].pull.Exhausted?)
    ensures var g := Record(f, events);
      && g.end == (if events[i].pull.Raises? then Raising(events[i].pull.error) else RanOut)
      && (g.refusal.Some? ==> s.nested)
    decreases i
  {
    var (t, g) := (Apply(s, events[0]), Noted(f, events[0]));
    StepKeepsInv(s, events[0]);
    StepIsTold(s, f, events[0]);
    if i == 0 {
      FactsStay(t, g, events[1..]);
    } else {
      RaisingStays(t, g, events[1..], i - 1);
    }
  }

  lemma {:induction false} ClosureStays(s: State, f: Facts, events: seq<Event>, i: nat)
    requires Inv(s) && Told(s, f) && IsRun(s, events) && i < |events|
    requires events[i].CloseEnds? || events[i].CloseRaises?
    ensures Record(f, events).closure == if events[i].CloseEnds? then Closed(events[i].overBudget)
                                         else CloseFailed(events[i].error)
    ensures After(s, events).producer.Done?
    decreases i
  {
    var (t, g) := (Apply(s, events[0]), Noted(f, events[0]));
    StepKeepsInv(s, events[0]);
    StepIsTold(s, f, events[0]);
    if i == 0 {
      FactsStay(t, g, events[1..]);
      DoneStays(t, events[1..]);
    } else {
      ClosureStays(t, g, events[1..], i - 1);
    }
  }

  lemma {:induction false} DoneStays(s: State, events: seq<Event>)
    requires s.producer.Done? && IsRun(s, events)
    ensures After(s, events).producer == s.producer
    decreases |events|
  {
    if events != [] {
      FactsStayForAStep(s, Nothing, events[0]);
      DoneStays(Apply(s, events[0]), events[1..]);
    }
  }

  /** A close over the budget never counts as a normal end: the budget error comes out, unless the
      run had been cut short before. */
  lemma CloseOverBudget(nested: bool, events: seq<Event>, i: nat)
    requires IsRun(Init(nested), events) && i < |events| && events[i] == CloseEnds(true)
    ensures var (s, f) := (After(Init(nested), events), Record(Nothing, events));
      && s.producer.Done?
      && (!f.end.Unended? ==> s.producer.outcome == Raised(BudgetRefused))
      && (f.end.Unended? ==> s.producer.outcome in {Raised(TimedOut), WasCancelled})
  {
    ClosureStays(Init(nested), Nothing, events, i);
    OutcomeIsTold(nested, events);
    RefusalMeansNoClose(Init(nested), Nothing, events);
  }

  /** Where no lease was granted, there is nothing to close. */
  lemma {:induction false} RefusalMeansNoClose(s: State, f: Facts, events: seq<Event>)
    requires Inv(s) && Told(s, f) && IsRun(s, events)
    requires f.refusal.Some? && !s.nested ==> s.producer.Done? && f.closure.Unclosed?
    ensures var g := Record(f, events); g.refusal.Some? && !s.nested ==> g.closure.Unclosed?
    decreases |events|
  {
    if events != [] {
      StepKeepsInv(s, events[0]);
      StepIsTold(s, f, events[0]);
      RefusalMeansNoClose(Apply(s, events[0]), Noted(f, events[0]), events[1..]);
    }
  }

  predicate CallerStays(events: seq<Event>) {
    forall i :: 0 <= i < |events| ==> !events[i].CallerCloses? && !events[i].CallerCancels?
  }

  predicate CloseSucceeds(events: seq<Event>) {
    forall i :: 0 <= i < |events| ==> !events[i].CloseRaises?
  }

  lemma {:induction false} QuietRecord(f: Facts, events: seq<Event>)
    requires CallerStays(events) && CloseSucceeds(events)
    requires !f.callerClosed && !f.callerCancelled && !f.closure.CloseFailed?
    ensures var g := Record(f, events); !g.callerClosed && !g.callerCancelled && !g.closure.CloseFailed?
    ensures Expire !in events ==> Record(f, events).expiry == f.expiry
    ensures CloseEnds(true) !in events && f.closure != Closed(true) ==> Record(f, events).closure != Closed(true)
    decreases |events|
  {
    if events != [] {
      assert !events[0].CallerCloses? && !events[0].CallerCancels? && !events[0].CloseRaises?;
      assert events[0] in events && forall e :: e in events[1..] ==> e in events;
      QuietRecord(Noted(f, events[0]), events[1..]);
    }
  }

  /** An error of the inner stream reaches a caller that stays as that very error, unless the
      deadline fires first. */
  lemma RaisedErrorComesOut(nested: bool, events: seq<Event>, i: nat, error: Error)
    requires IsRun(Init(nested), events) && After(Init(nested), events).consumer.Left?
    requires i < |events| && events[i] == PullEnds(Raises(error))
    requires CallerStays(events) && CloseSucceeds(events) && CloseEnds(true) !in events && Expire !in events
    ensures After(Init(nested), events).consumer.result == RaisedToCaller(error)
  {
    RaisingStays(Init(nested), Nothing, events, i);
    QuietRecord(Nothing, events);
    OutcomeIsTold(nested, events);
    ResultIsTold(nested, events);
    RunKeepsInv(Init(nested), events);
  }

  /** After the deadline has fired, and as long as the inner stream honours it, the producer is
      about to be cancelled, is closing for that, or is done without having ended by itself. */
  ghost predicate Expiring(s: State, f: Facts) {
    f.expiry ==>
      && (f.refusal.Some? ==> s.nested)
      && (s.cancelPending || s.producer == Closing(Cancelled) || s.producer.Done?)
      && (s.producer.Done? && f.closure.Closed? ==> f.end.Unended?)
  }

  lemma StepKeepsExpiring(s: State, f: Facts, e: Event)
    requires Inv(s) && Told(s, f) && Expiring(s, f) && Enabled(s, e) && e != CancelSwallowed
    ensures Expiring(Apply(s, e), Noted(f, e))
  {
  }

  lemma {:induction false} RunKeepsExpiring(s: State, f: Facts, events: seq<Event>)
    requires Inv(s) && Told(s, f) && Expiring(s, f) && IsRun(s, events) && HonoursCancellation(events)
    ensures Expiring(After(s, events), Record(f, events))
    decreases |events|
  {
    if events != [] {
      StepKeepsInv(s, events[0]);
      StepIsTold(s, f, events[0]);
      StepKeepsExpiring(s, f, events[0]);
      RunKeepsExpiring(Apply(s, events[0]), Noted(f, events[0]), events[1..]);
    }
  }

  lemma {:induction false} ExpiryIsNoted(f: Facts, events: seq<Event>)
    requires f.expiry || Expire in events
    ensures Record(f, events).expiry
    decreases |events|
  {
    if events != [] { ExpiryIsNoted(Noted(f, events[0]), events[1..]); }
  }

  /** When the deadline fires, a caller that stays gets the timeout, however far the stream had come,
      as long as the inner stream honours the cancellation and closes without an error. */
  lemma ExpiryTimesOut(nested: bool, events: seq<Event>)
    requires IsRun(Init(nested), events) && After(Init(nested), events).consumer.Left?
    requires Expire in events && HonoursCancellation(events) && CallerStays(events) && CloseSucceeds(events)
    ensures After(Init(nested), events).consumer.result == RaisedToCaller(TimedOut)
  {
    ExpiryIsNoted(Nothing, events);
    QuietRecord(Nothing, events);
    RunIsTold(Init(nested), Nothing, events);
    RunKeepsExpiring(Init(nested), Nothing, events);
    OutcomeIsTold(nested, events);
    ResultIsTold(nested, events);
  }
}
