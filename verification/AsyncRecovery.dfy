/** The asyncio variant of the reconnecting (`AsyncRedisRecoveryState` in `redis_recovery.py`): single
    flight within one event loop, but not across loops. */
module AsyncRecovery {
  import opened Options
  import opened RedisRecovery

  type Loop = nat

  /** `AsyncRedisRecoveryState` has no claim flag: a probe runs under a lock of its event
      loop, so `probing` holds the loops with a probe in flight. */
  datatype AsyncSystem = AsyncSystem(state: State, now: real, probing: set<Loop>)

  datatype AsyncEvent =
    | LoopAsks(loop: Loop)
    | LoopFails(loop: Loop, random: real)
    | LoopSucceeds(loop: Loop, client: Client)
    | LoopCancelled(loop: Loop)
    | AsyncMark(client: Client, random: real)
    | AsyncPass(elapsed: real)

  predicate AsyncEnabled(s: AsyncSystem, e: AsyncEvent) {
    match e
    case LoopAsks(loop) => loop !in s.probing
    case LoopFails(loop, _) => loop in s.probing
    case LoopSucceeds(loop, _) => loop in s.probing
    case LoopCancelled(loop) => loop in s.probing
    case AsyncMark(_, _) => true
    case AsyncPass(elapsed) => elapsed >= 0.0
  }

  function AsyncApply(s: AsyncSystem, c: Config, e: AsyncEvent): AsyncSystem {
    match e
    case LoopAsks(loop) =>
      if s.state.available || s.now < s.state.nextProbeAt then s else s.(probing := s.probing + {loop})
    case LoopFails(loop, random) =>
      s.(state := Failed(s.state, c, s.now, random), probing := s.probing - {loop})
    case LoopSucceeds(loop, client) =>
      s.(state := ProbeSucceeded(s.state, client), probing := s.probing - {loop})
    case LoopCancelled(loop) => s.(probing := s.probing - {loop})
    case AsyncMark(client, random) => s.(state := Marked(s.state, c, client, s.now, random))
    case AsyncPass(elapsed) => s.(now := s.now + elapsed)
  }

  ghost predicate AsyncRun(s: AsyncSystem, c: Config, events: seq<AsyncEvent>)
    decreases |events|
  {
    events == [] || (AsyncEnabled(s, events[0]) && AsyncRun(AsyncApply(s, c, events[0]), c, events[1..]))
  }

  function AsyncAfter(s: AsyncSystem, c: Config, events: seq<AsyncEvent>): AsyncSystem
    decreases |events|
  {
    if events == [] then s else AsyncAfter(AsyncApply(s, c, events[0]), c, events[1..])
  }

  function AsyncStart(now: real): AsyncSystem {
    AsyncSystem(State(None, false, false, 0, 0.0), now, {})
  }

  /** Only these event loops use the object. */
  ghost predicate AsksFrom(events: seq<AsyncEvent>, loops: set<Loop>) {
    forall i :: 0 <= i < |events| && events[i].LoopAsks? ==> events[i].loop in loops
  }

  ghost predicate AsyncInv(s: AsyncSystem, loops: set<Loop>) {
    && s.probing <= loops
    && (s.state.available ==> s.state.client.Some? && s.state.failures == 0 && s.probing == {})
    && (!s.state.available ==> s.state.client.None?)
  }

  /** A failing probe takes away a client that is in use. */
  predicate Discards(s: AsyncSystem, c: Config, events: seq<AsyncEvent>)
    decreases |events|
  {
    && events != []
    && ((events[0].LoopFails? && s.state.available) || Discards(AsyncApply(s, c, events[0]), c, events[1..]))
  }

  lemma AtMostOneLoop(probing: set<Loop>, loops: set<Loop>)
    requires probing <= loops && |loops| <= 1
    ensures |probing| <= 1 && forall a, b :: a in probing && b in loops ==> a == b
  {
    if a :| a in loops {
      assert |loops - {a}| == 0;
      assert loops == {a} && (probing == {} || probing == {a});
    }
  }

  /** Used from one event loop, the asyncio variant is single-flight, and a failing probe
      never discards a client that is in use. */
  lemma {:induction false} OneLoopIsSingleFlight(s: AsyncSystem, c: Config, loops: set<Loop>, events: seq<AsyncEvent>)
    requires AsyncInv(s, loops) && |loops| <= 1 && AsyncRun(s, c, events) && AsksFrom(events, loops)
    ensures AsyncInv(AsyncAfter(s, c, events), loops)
    ensures |AsyncAfter(s, c, events).probing| <= 1 && !Discards(s, c, events)
    decreases |events|
  {
    AtMostOneLoop(s.probing, loops);
    if events != [] { OneLoopIsSingleFlight(AsyncApply(s, c, events[0]), c, loops, events[1..]); }
  }

  lemma AsyncPrepend(s: AsyncSystem, c: Config, e: AsyncEvent, rest: seq<AsyncEvent>)
    requires AsyncEnabled(s, e) && AsyncRun(AsyncApply(s, c, e), c, rest)
    ensures AsyncRun(s, c, [e] + rest) && AsyncAfter(s, c, [e] + rest) == AsyncAfter(AsyncApply(s, c, e), c, rest)
    ensures Discards(AsyncApply(s, c, e), c, rest) ==> Discards(s, c, [e] + rest)
  {
    assert ([e] + rest)[0] == e && ([e] + rest)[1..] == rest;
  }

  /** Two event loops reach two probes in flight. */
  lemma TwoProbes(c: Config, now: real, a: Loop, b: Loop) returns (events: seq<AsyncEvent>)
    requires a != b
    ensures AsyncRun(AsyncStart(now), c, events) && AsksFrom(events, {a, b})
    ensures AsyncAfter(AsyncStart(now), c, events).probing == {a, b}
    ensures !AsyncAfter(AsyncStart(now), c, events).state.available
  {
    var start, wait := AsyncStart(now), AsyncPass(Max(-now, 0.0));
    var s1 := AsyncApply(start, c, wait);
    var s2 := AsyncApply(s1, c, LoopAsks(a));
    AsyncPrepend(s2, c, LoopAsks(b), []);
    events := [LoopAsks(b)] + [];
    AsyncPrepend(s1, c, LoopAsks(a), events);
    events := [LoopAsks(a)] + events;
    AsyncPrepend(start, c, wait, events);
    events := [wait] + events;
  }

  lemma {:induction false} AsyncJoin(s: AsyncSystem, c: Config, first: seq<AsyncEvent>, second: seq<AsyncEvent>)
    requires AsyncRun(s, c, first) && AsyncRun(AsyncAfter(s, c, first), c, second)
    ensures AsyncRun(s, c, first + second)
    ensures Discards(AsyncAfter(s, c, first), c, second) ==> Discards(s, c, first + second)
    decreases |first|
  {
    if first == [] {
      assert first + second == second;
    } else {
      var s1 := AsyncApply(s, c, first[0]);
      AsyncJoin(s1, c, first[1..], second);
      AsyncPrepend(s, c, first[0], first[1..] + second);
      assert [first[0]] + (first[1..] + second) == first + second;
    }
  }

  /** The one probe succeeds, and the failure of the other discards the client just installed. */
  lemma TwoLoopsDiscard(c: Config, now: real, a: Loop, b: Loop) returns (events: seq<AsyncEvent>)
    requires a != b
    ensures AsyncRun(AsyncStart(now), c, events) && AsksFrom(events, {a, b}) && Discards(AsyncStart(now), c, events)
  {
    var first := TwoProbes(c, now, a, b);
    var s := AsyncAfter(AsyncStart(now), c, first);
    var s1 := AsyncApply(s, c, LoopSucceeds(a, 0));
    AsyncPrepend(s1, c, LoopFails(b, 0.0), []);
    var second := [LoopFails(b, 0.0)] + [];
    AsyncPrepend(s, c, LoopSucceeds(a, 0), second);
    second := [LoopSucceeds(a, 0)] + second;
    AsyncJoin(AsyncStart(now), c, first, second);
    events := first + second;
  }

  ghost predicate AlwaysSingleFlight(c: Config, now: real, loops: set<Loop>) {
    forall events :: AsyncRun(AsyncStart(now), c, events) && AsksFrom(events, loops) ==>
      |AsyncAfter(AsyncStart(now), c, events).probing| <= 1
  }

  ghost predicate NeverDiscards(c: Config, now: real, loops: set<Loop>) {
    forall events :: AsyncRun(AsyncStart(now), c, events) && AsksFrom(events, loops) ==>
      !Discards(AsyncStart(now), c, events)
  }

  lemma TwoOf(loops: set<Loop>) returns (a: Loop, b: Loop)
    requires |loops| > 1
    ensures a in loops && b in loops && a != b
  {
    a :| a in loops;
    assert |loops - {a}| > 0;
    b :| b in loops - {a};
  }

  /** For every start and every set of event loops: the asyncio variant is single-flight, and
      no client in use is discarded by a failing probe, if and only if one loop at most uses it. */
  lemma SingleFlightIffOneLoop(c: Config, now: real, loops: set<Loop>)
    ensures AlwaysSingleFlight(c, now, loops) <==> |loops| <= 1
    ensures NeverDiscards(c, now, loops) <==> |loops| <= 1
  {
    if |loops| <= 1 {
      forall events | AsyncRun(AsyncStart(now), c, events) && AsksFrom(events, loops)
        ensures |AsyncAfter(AsyncStart(now), c, events).probing| <= 1 && !Discards(AsyncStart(now), c, events)
      {
        OneLoopIsSingleFlight(AsyncStart(now), c, loops, events);
      }
    } else {
      var a, b := TwoOf(loops);
      var both := TwoProbes(c, now, a, b);
      assert |{a, b}| == 2;
      var discarding := TwoLoopsDiscard(c, now, a, b);
      assert AsksFrom(both, loops) && AsksFrom(discarding, loops);
    }
  }

  // ---- one loop and the object with locks ----

  /** The same client, failures and times; the claim is held while a loop probes. */
  ghost predicate Mirrors(s: AsyncSystem, t: System) {
    t.state == s.state.(probing := s.probing != {}) && t.now == s.now && t.probers == s.probing
  }

  ghost predicate NoneCancelled(events: seq<AsyncEvent>) {
    forall i :: 0 <= i < |events| ==> !events[i].LoopCancelled?
  }

  function Counterpart(e: AsyncEvent): Event
    requires !e.LoopCancelled?
  {
    match e
    case LoopAsks(loop) => Ask(loop)
    case LoopFails(loop, random) => Fails(loop, random)
    case LoopSucceeds(loop, client) => Succeeds(loop, client)
    case AsyncMark(client, random) => Mark(client, random)
    case AsyncPass(elapsed) => Pass(elapsed)
  }

  function Counterparts(events: seq<AsyncEvent>): seq<Event>
    requires NoneCancelled(events)
    decreases |events|
  {
    if events == [] then [] else [Counterpart(events[0])] + Counterparts(events[1..])
  }

  lemma OneLoopStep(s: AsyncSystem, t: System, c: Config, loops: set<Loop>, e: AsyncEvent)
    requires AsyncInv(s, loops) && |loops| <= 1 && Mirrors(s, t) && !e.LoopCancelled?
    requires e.LoopAsks? ==> e.loop in loops
    ensures AsyncEnabled(s, e) <==> Enabled(t, Counterpart(e))
    ensures AsyncEnabled(s, e) ==>
              AsyncInv(AsyncApply(s, c, e), loops) && Mirrors(AsyncApply(s, c, e), Apply(t, c, Counterpart(e)))
  {
    AtMostOneLoop(s.probing, loops);
  }

  /** Used from one event loop whose probes are not cancelled, the asyncio variant has exactly the runs
      of the object with locks, with the same client, failure count and times after each. */
  lemma {:induction false} OneLoopIsLikeLocks(s: AsyncSystem, t: System, c: Config, loops: set<Loop>,
                                              events: seq<AsyncEvent>)
    requires AsyncInv(s, loops) && |loops| <= 1 && Mirrors(s, t) && NoneCancelled(events) && AsksFrom(events, loops)
    ensures AsyncRun(s, c, events) <==> IsRun(t, c, Counterparts(events))
    ensures AsyncRun(s, c, events) ==> Mirrors(AsyncAfter(s, c, events), After(t, c, Counterparts(events)))
    decreases |events|
  {
    if events != [] {
      OneLoopStep(s, t, c, loops, events[0]);
      var mirrored := Counterparts(events);
      assert mirrored[0] == Counterpart(events[0]) && mirrored[1..] == Counterparts(events[1..]);
      if AsyncEnabled(s, events[0]) {
        OneLoopIsLikeLocks(AsyncApply(s, c, events[0]), Apply(t, c, mirrored[0]), c, loops, events[1..]);
      }
    }
  }

  /** A probe can be cancelled at any time, and then it is as if it had never been begun. */
  lemma CancelUndoesTheProbe(s: AsyncSystem, c: Config, loop: Loop)
    requires AsyncEnabled(s, LoopAsks(loop)) && loop in AsyncApply(s, c, LoopAsks(loop)).probing
    ensures AsyncEnabled(AsyncApply(s, c, LoopAsks(loop)), LoopCancelled(loop))
    ensures AsyncApply(AsyncApply(s, c, LoopAsks(loop)), c, LoopCancelled(loop)) == s
  {
    assert s.probing + {loop} - {loop} == s.probing;
  }

  /** The first probe may begin at once, and its failure is the first one counted. */
  lemma StartsUnconnected(c: Config, now: real, loop: Loop, random: real)
    requires now >= 0.0
    ensures var probing := AsyncApply(AsyncStart(now), c, LoopAsks(loop));
      var failed := AsyncApply(probing, c, LoopFails(loop, random));
      && AsyncEnabled(AsyncStart(now), LoopAsks(loop)) && probing.probing == {loop}
      && failed.state == State(None, false, false, 1, now + Delay(c, 1, random)) && failed.probing == {}
  {
  }
}
