/** The download of a statistics result in the browser (`statistics-download.ts`).

    Everything between two awaits is one step: starting a download, going on after its
    verified data has arrived or failed to arrive, cancelling, disposing. In between the user
    may sign in as somebody else. */
module Downloads {
  import opened Options

  /** The identity a request was started under, and whether its signal has been aborted. */
  datatype Request = Request(identity: string, aborted: bool, settled: bool)

  datatype Output = Loading | Success | Idle | Error | Delivered(request: nat)

  /** How the wait of a request ended: the data arrived and could be delivered, or not; or the
      load failed, by an abort or otherwise. */
  datatype Outcome = Loaded | DeliverFails | LoadFails | LoadAborted

  datatype State = State(
    active: Option<nat>, disposed: bool, identity: string, requests: seq<Request>, out: seq<Output>)

  function Started(s: State): State {
    if s.disposed || s.active.Some? then s
    else s.(active := Some(|s.requests|), requests := s.requests + [Request(s.identity, false, false)],
            out := s.out + [Loading])
  }

  /** The request may still report and deliver. */
  predicate Current(s: State, r: nat)
    requires r < |s.requests|
  {
    !s.disposed && s.active == Some(r) && !s.requests[r].aborted && s.requests[r].identity == s.identity
  }

  function Reported(r: nat, outcome: Outcome): seq<Output> {
    match outcome
    case Loaded => [Delivered(r), Success]
    case LoadAborted => [Idle]
    case _ => [Error]
  }

  function Settled(s: State, r: nat, outcome: Outcome): State
    requires r < |s.requests|
  {
    var request := s.requests[r];
    var mine := s.active == Some(r);
    s.(out := if Current(s, r) then s.out + Reported(r, outcome) else s.out,
       active := if mine then None else s.active,
       requests := s.requests[r := Request(request.identity, request.aborted || mine, true)])
  }

  function Cancelled(s: State): State
    requires s.active.Some? ==> s.active.value < |s.requests|
  {
    s.(active := None,
       requests := if s.active.None? then s.requests
                   else s.requests[s.active.value := s.requests[s.active.value].(aborted := true)],
       out := if s.disposed then s.out else s.out + [Idle])
  }

  function Disposed(s: State): State
    requires s.active.Some? ==> s.active.value < |s.requests|
  {
    Cancelled(s.(disposed := true))
  }

  /** The active request waits for its data. */
  predicate Waiting(s: State) {
    s.active.Some? ==>
      && s.active.value < |s.requests|
      && !s.requests[s.active.value].settled && !s.requests[s.active.value].aborted
  }

  /** And a disposed controller has none. */
  predicate Sound(s: State) {
    Waiting(s) && (s.disposed ==> s.active.None?)
  }

  predicate NoneCurrent(s: State) {
    forall r :: 0 <= r < |s.requests| ==> !Current(s, r)
  }

  class StatisticsDownloadController {
    var active: Option<nat>
    var disposed: bool
    var identity: string
    var requests: seq<Request>
    var out: seq<Output>

    ghost function View(): State
      reads this
    {
      State(active, disposed, identity, requests, out)
    }

    ghost predicate Valid()
      reads this
    {
      Sound(View())
    }

    constructor (signedIn: string)
      ensures Valid() && View() == State(None, false, signedIn, [], [])
    {
      active, disposed, identity, requests, out := None, false, signedIn, [], [];
    }

    /** `start` up to its await: a new request, current until something intervenes, unless one is
        still waiting or the controller is disposed. */
    method Start()
      requires Valid()
      modifies this
      ensures Valid() && View() == Started(old(View()))
      ensures old(disposed) || old(active).Some? ==> View() == old(View())
      ensures !old(disposed) && old(active).None? ==>
        var r := |old(requests)|;
        |requests| == r + 1 && requests[..r] == old(requests) && Current(View(), r) && out == old(out) + [Loading]
    {
      if disposed || active.Some? {
        return;
      }
      active := Some(|requests|);
      requests := requests + [Request(identity, false, false)];
      out := out + [Loading];
    }

    /** `start` from its await on: the data is delivered exactly if it has arrived and the request
        is current; a request that is not leaves no trace in the output. No other request
        becomes or ceases to be current. */
    method Settle(r: nat, outcome: Outcome)
      requires Valid() && r < |requests|
      modifies this
      ensures Valid() && View() == Settled(old(View()), r, outcome)
      ensures old(out) <= out && |requests| == |old(requests)|
      ensures Delivered(r) in out[|old(out)|..] <==> outcome.Loaded? && Current(old(View()), r)
      ensures !Current(old(View()), r) ==> out == old(out)
      ensures !Current(View(), r)
      ensures forall q :: 0 <= q < |requests| && q != r ==> (Current(View(), q) <==> Current(old(View()), q))
    {
      var current := !disposed && active == Some(r) && !requests[r].aborted && requests[r].identity == identity;
      if current {
        match outcome {
          case Loaded =>
            out := out + [Delivered(r)];
            out := out + [Success];
            assert out == old(out) + [Delivered(r), Success];
          case LoadAborted => out := out + [Idle];
          case _ => out := out + [Error];
        }
      }
      var aborted := requests[r].aborted;
      if active == Some(r) {
        active := None;
        aborted := true;
      }
      requests := requests[r := Request(requests[r].identity, aborted, true)];
    }

    /** Whatever was waiting will deliver nothing, and `start` may be called again. */
    method Cancel()
      requires Waiting(View())
      modifies this
      ensures Valid() && View() == Cancelled(old(View()))
      ensures NoneCurrent(View()) && disposed == old(disposed)
      ensures out == old(out) + if disposed then [] else [Idle]
      ensures !disposed ==> Started(View()).active == Some(|requests|)
    {
      if active.Some? {
        requests := requests[active.value := requests[active.value].(aborted := true)];
      }
      active := None;
      if !disposed {
        out := out + [Idle];
      }
    }

    /** Whatever was waiting will deliver nothing, nothing is reported, and no request can be
        started any more. */
    method Dispose()
      requires Valid()
      modifies this
      ensures Valid() && View() == Disposed(old(View()))
      ensures NoneCurrent(View()) && out == old(out) && Started(View()) == View()
    {
      disposed := true;
      Cancel();
    }
  }

  // ---- runs ----

  datatype Event = Start | Settle(r: nat, outcome: Outcome) | Cancel | Dispose | SignIn(identity: string)

  predicate Enabled(s: State, e: Event) {
    Sound(s) && (e.Settle? ==> e.r < |s.requests| && !s.requests[e.r].settled)
  }

  function Apply(s: State, e: Event): State
    requires Enabled(s, e)
  {
    match e
    case Start => Started(s)
    case Settle(r, outcome) => Settled(s, r, outcome)
    case Cancel => Cancelled(s)
    case Dispose => Disposed(s)
    case SignIn(identity) => s.(identity := identity)
  }

  ghost predicate IsRun(s: State, events: seq<Event>)
    decreases |events|
  {
    events == [] || (Enabled(s, events[0]) && IsRun(Apply(s, events[0]), events[1..]))
  }

  ghost function After(s: State, events: seq<Event>): State
    requires IsRun(s, events)
    decreases |events|
  {
    if events == [] then s else After(Apply(s, events[0]), events[1..])
  }

  lemma StepKeepsSound(s: State, e: Event)
    requires Enabled(s, e)
    ensures Sound(Apply(s, e))
  {
  }

  /** A run comes to no state in which the controller could not go on. */
  lemma {:induction false} RunKeepsSound(s: State, events: seq<Event>)
    requires Sound(s) && IsRun(s, events)
    ensures Sound(After(s, events))
    decreases |events|
  {
    if events != [] {
      StepKeepsSound(s, events[0]);
      RunKeepsSound(Apply(s, events[0]), events[1..]);
    }
  }

  /** The request has been started and is neither active nor able to become so. */
  predicate Over(s: State, r: nat) {
    r < |s.requests| && s.active != Some(r)
  }

  lemma {:induction false} OverStays(s: State, events: seq<Event>, r: nat)
    requires IsRun(s, events) && Over(s, r)
    ensures Over(After(s, events), r)
    decreases |events|
  {
    if events != [] { OverStays(Apply(s, events[0]), events[1..], r); }
  }

  predicate Interrupts(e: Event) {
    e.Cancel? || e.Dispose?
  }

  lemma TailInterrupts(events: seq<Event>)
    requires events != []
    ensures (forall k :: 0 <= k < |events| ==> !Interrupts(events[k]))
            <==> !Interrupts(events[0]) && forall k :: 0 <= k < |events[1..]| ==> !Interrupts(events[1..][k])
  {
    assert forall k :: 0 < k < |events| ==> events[k] == events[1..][k - 1];
  }

  /** From its start on, until its data arrives, a request stays current exactly if neither a
      cancellation nor a disposal intervenes and the identity is, at the end, the one it was
      started under; further attempts to start change nothing. So exactly then its data is
      delivered. */
  lemma {:induction false} DeliversIffUndisturbed(s: State, events: seq<Event>, r: nat)
    requires Sound(s) && IsRun(s, events) && s.active == Some(r)
    requires forall k :: 0 <= k < |events| ==> !(events[k].Settle? && events[k].r == r)
    ensures var t := After(s, events);
      && r < |t.requests| && t.requests[r].identity == s.requests[r].identity
      && (Current(t, r) <==>
            (forall k :: 0 <= k < |events| ==> !Interrupts(events[k])) && t.identity == s.requests[r].identity)
    decreases |events|
  {
    if events != [] {
      var (e, t) := (events[0], Apply(s, events[0]));
      TailInterrupts(events);
      IdentityStays(t, events[1..], r);
      assert forall k :: 0 < k < |events| ==> events[k] == events[1..][k - 1];
      if Interrupts(e) {
        OverStays(t, events[1..], r);
      } else {
        StepKeepsSound(s, e);
        DeliversIffUndisturbed(t, events[1..], r);
      }
    }
  }

  lemma {:induction false} IdentityStays(s: State, events: seq<Event>, r: nat)
    requires IsRun(s, events) && r < |s.requests|
    ensures r < |After(s, events).requests| && After(s, events).requests[r].identity == s.requests[r].identity
    decreases |events|
  {
    if events != [] { IdentityStays(Apply(s, events[0]), events[1..], r); }
  }

  /** After a disposal the controller is silent for good. */
  lemma {:induction false} DisposedIsSilent(s: State, events: seq<Event>)
    requires Sound(s) && s.disposed && IsRun(s, events)
    ensures After(s, events).out == s.out && After(s, events).disposed
    decreases |events|
  {
    if events != [] {
      StepKeepsSound(s, events[0]);
      DisposedIsSilent(Apply(s, events[0]), events[1..]);
    }
  }

  /** Once a request is over, by a cancellation or otherwise, nothing of it is delivered any more. */
  lemma {:induction false} NoLateDelivery(s: State, events: seq<Event>, r: nat)
    requires IsRun(s, events) && Over(s, r)
    ensures s.out <= After(s, events).out
    ensures forall k :: |s.out| <= k < |After(s, events).out| ==> After(s, events).out[k] != Delivered(r)
    decreases |events|
  {
    if events != [] {
      var t := Apply(s, events[0]);
      NoLateDelivery(t, events[1..], r);
      assert s.out <= t.out;
      assert forall k :: |s.out| <= k < |t.out| ==> t.out[k] != Delivered(r);
    }
  }

  // ---- whole requests ----

  function IdentityAfter(identity: string, events: seq<Event>): string {
    if events == [] then identity
    else if events[|events| - 1].SignIn? then events[|events| - 1].identity
    else IdentityAfter(identity, events[..|events| - 1])
  }

  lemma {:induction false} RunJoins(s: State, front: seq<Event>, e: Event)
    requires IsRun(s, front + [e])
    ensures IsRun(s, front) && Enabled(After(s, front), e) && After(s, front + [e]) == Apply(After(s, front), e)
    decreases |front|
  {
    if front == [] {
      assert [] + [e] == [e] && [e][1..] == [];
    } else {
      assert (front + [e])[0] == front[0] && (front + [e])[1..] == front[1..] + [e];
      RunJoins(Apply(s, front[0]), front[1..], e);
    }
  }

  lemma StepIsTold(s: State, e: Event)
    requires Enabled(s, e)
    ensures Apply(s, e).identity == if e.SignIn? then e.identity else s.identity
    ensures Apply(s, e).disposed <==> s.disposed || e == Dispose
  {
  }

  /** The user is whoever signed in last, and the controller is disposed if it ever was. */
  lemma {:induction false} RunIsTold(s: State, events: seq<Event>)
    requires IsRun(s, events)
    ensures After(s, events).identity == IdentityAfter(s.identity, events)
    ensures After(s, events).disposed <==> s.disposed || Dispose in events
    decreases |events|
  {
    if events != [] {
      var (front, e) := (events[..|events| - 1], events[|events| - 1]);
      assert events == front + [e];
      RunJoins(s, front, e);
      RunIsTold(s, front);
      assert Dispose in events <==> Dispose in front || e == Dispose;
      StepIsTold(After(s, front), e);
    }
  }

  /** What the user is told when the wait of a current request ends. */
  function ReportOf(r: nat, outcome: Outcome): seq<Output> {
    if outcome.Loaded? then [Delivered(r), Success] else if outcome.LoadAborted? then [Idle] else [Error]
  }

  /** The user asks for a download; things happen; the wait of that request ends. If nothing was
      cancelled or disposed meanwhile, and the user is the one who asked, its data is delivered if
      it has arrived, and otherwise the failure is reported; else nothing is delivered or
      reported. */
  lemma RequestDelivers(s: State, between: seq<Event>, outcome: Outcome)
    requires Sound(s) && !s.disposed && s.active.None?
    requires var r := |s.requests|;
      IsRun(Started(s), between + [Settle(r, outcome)]) && forall k :: 0 <= k < |between| ==>
        !(between[k].Settle? && between[k].r == r)
    ensures var (r, t) := (|s.requests|, Started(s));
      && IsRun(t, between)
      && var u := After(t, between + [Settle(r, outcome)]);
      && u.active != Some(r)
      && u.out == After(t, between).out
                  + if (forall e :: e in between ==> !Interrupts(e)) && IdentityAfter(s.identity, between) == s.identity
                    then ReportOf(r, outcome) else []
  {
    var (r, t) := (|s.requests|, Started(s));
    RunJoins(t, between, Settle(r, outcome));
    DeliversIffUndisturbed(t, between, r);
    RunIsTold(t, between);
    SettleTells(After(t, between), r, outcome);
    assert (forall e :: e in between ==> !Interrupts(e))
           <==> (forall k :: 0 <= k < |between| ==> !Interrupts(between[k]));
  }

  lemma SettleTells(s: State, r: nat, outcome: Outcome)
    requires Enabled(s, Settle(r, outcome))
    ensures var t := Apply(s, Settle(r, outcome));
      t.active != Some(r) && t.out == s.out + if Current(s, r) then ReportOf(r, outcome) else []
  {
    assert s.out + [] == s.out;
  }

  /** The signal of every request but the active one has been aborted, and a request is settled once
      its wait has ended; each was announced by one loading sign. */
  ghost predicate SignalsTold(s: State, events: seq<Event>) {
    && (forall r :: 0 <= r < |s.requests| ==> (s.requests[r].aborted <==> s.active != Some(r)))
    && (forall r :: 0 <= r < |s.requests| ==> (s.requests[r].settled <==> WaitEnded(events, r)))
    && LoadingSigns(s.out) == |s.requests|
  }

  ghost predicate WaitEnded(events: seq<Event>, r: nat) {
    exists e :: e in events && e.Settle? && e.r == r
  }

  function LoadingSigns(out: seq<Output>): nat {
    if out == [] then 0 else LoadingSigns(out[..|out| - 1]) + if out[|out| - 1].Loading? then 1 else 0
  }

  lemma {:induction false} SignsJoin(a: seq<Output>, b: seq<Output>)
    ensures LoadingSigns(a + b) == LoadingSigns(a) + LoadingSigns(b)
    decreases |b|
  {
    if b == [] {
      assert a + b == a;
    } else {
      assert (a + b)[..|a + b| - 1] == a + b[..|b| - 1];
      SignsJoin(a, b[..|b| - 1]);
    }
  }

  lemma StepSignals(s: State, front: seq<Event>, e: Event)
    requires Enabled(s, e) && SignalsTold(s, front)
    requires forall r: nat :: WaitEnded(front, r) ==> r < |s.requests|
    ensures SignalsTold(Apply(s, e), front + [e])
    ensures forall r: nat :: WaitEnded(front + [e], r) ==> r < |Apply(s, e).requests|
  {
    var t := Apply(s, e);
    forall r: nat ensures WaitEnded(front + [e], r) <==> WaitEnded(front, r) || (e.Settle? && e.r == r) {
      if e.Settle? && e.r == r { assert e in front + [e]; }
    }
    SignsOfStep(s, e);
  }

  lemma SignsOfStep(s: State, e: Event)
    requires Enabled(s, e)
    ensures LoadingSigns(Apply(s, e).out) - LoadingSigns(s.out) == |Apply(s, e).requests| - |s.requests|
  {
    if e.Start? {
      if !s.disposed && s.active.None? { SignsJoin(s.out, [Loading]); }
      assert [Loading][..0] == [];
    } else {
      var report := ReportOfStep(s, e);
      SignsJoin(s.out, report);
      NoSigns(report);
    }
  }

  /** No other step starts a request or announces one. */
  lemma ReportOfStep(s: State, e: Event) returns (report: seq<Output>)
    requires Enabled(s, e) && !e.Start?
    ensures Apply(s, e).out == s.out + report && |report| <= 2 && Loading !in report
    ensures |Apply(s, e).requests| == |s.requests|
  {
    report := if e.Settle? && Current(s, e.r) then Reported(e.r, e.outcome)
              else if e.Cancel? && !s.disposed then [Idle] else [];
    assert s.out + [] == s.out;
  }

  lemma NoSigns(report: seq<Output>)
    requires |report| <= 2 && Loading !in report
    ensures LoadingSigns(report) == 0
  {
    if |report| == 2 { assert report[..1][..0] == []; }
  }

  lemma {:induction false} RunSignals(signedIn: string, events: seq<Event>)
    requires IsRun(New(signedIn), events)
    ensures SignalsTold(After(New(signedIn), events), events)
    ensures forall r: nat :: WaitEnded(events, r) ==> r < |After(New(signedIn), events).requests|
    decreases |events|
  {
    if events != [] {
      var (front, e) := (events[..|events| - 1], events[|events| - 1]);
      assert events == front + [e];
      RunJoins(New(signedIn), front, e);
      RunSignals(signedIn, front);
      StepSignals(After(New(signedIn), front), front, e);
    }
  }

  function New(signedIn: string): State {
    State(None, false, signedIn, [], [])
  }

  /** What the buttons do in a run: a start leaves a current request unless one is waiting or the
      controller is disposed, and after a cancellation a new one can be started, after a disposal
      none. */
  lemma StartAndCancel(s: State)
    requires Sound(s)
    ensures Enabled(s, Start) && Enabled(s, Cancel) && Enabled(s, Dispose)
    ensures s.active.None? && !s.disposed ==> Apply(s, Start).active == Some(|s.requests|)
    ensures Apply(s, Cancel).active.None? && (Apply(s, Cancel).disposed <==> s.disposed)
    ensures Apply(s, Dispose).active.None? && Apply(s, Dispose).disposed
  {
  }
}
