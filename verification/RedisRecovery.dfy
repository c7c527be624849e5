/** Reconnecting to Redis with one probe at a time and bounded, jittered backoff
    (`redis_recovery.py`). Delays and clocks are exact reals.

    `get_client` has two sections under the lock with the unlocked probe between them;
    any number of threads interleave these sections. */
module RedisRecovery {
  import opened Options

  type Client = nat
  type Thread = nat

  datatype Config = Config(initial: real, max: real, jitter: real)

  /** The constructor's checks. */
  ghost predicate ValidConfig(c: Config) {
    1.0 <= c.initial <= c.max <= 30.0 && 0.0 <= c.jitter <= 1.0
  }

  /** The first of the constructor's errors: about the initial backoff, the maximal one, the jitter. */
  datatype ConfigError = BadStart | BadMaximum | BadJitter

  function ErrorIn(c: Config): Option<ConfigError> {
    if !(1.0 <= c.initial <= c.max) then Some(BadStart)
    else if c.max > 30.0 then Some(BadMaximum)
    else if !(0.0 <= c.jitter <= 1.0) then Some(BadJitter)
    else None
  }

  lemma RefusedIffInvalid(c: Config)
    ensures ErrorIn(c).None? <==> ValidConfig(c)
    ensures ErrorIn(c) == Some(BadStart) <==> c.initial < 1.0 || c.max < c.initial
    ensures ErrorIn(c) == Some(BadMaximum) ==> c.max > 30.0
    ensures ErrorIn(c) == Some(BadJitter) ==> c.jitter < 0.0 || c.jitter > 1.0
  {
  }

  // ---- the delay ----

  function Min(a: real, b: real): real { if a <= b then a else b }

  function Max(a: real, b: real): real { if a >= b then a else b }

  /** `delay * 2**times`. */
  function Doubled(delay: real, times: nat): real {
    if times == 0 then delay else 2.0 * Doubled(delay, times - 1)
  }

  function Exponent(failures: int): int {
    if failures - 1 < 16 then failures - 1 else 16
  }

  function BaseDelay(c: Config, failures: nat): real
    requires failures >= 1
  {
    Min(Doubled(c.initial, Exponent(failures)), c.max)
  }

  /** `_next_delay_locked` for one value of the random source. */
  function Delay(c: Config, failures: nat, random: real): real
    requires failures >= 1
  {
    var base := BaseDelay(c, failures);
    var sample := Min(Max(random, 0.0), 1.0);
    var jitter := (sample * 2.0 - 1.0) * base * c.jitter;
    Min(Max(base + jitter, c.initial), c.max)
  }

  lemma DelayIsBounded(c: Config, failures: nat, random: real)
    requires ValidConfig(c) && failures >= 1
    ensures c.initial <= Delay(c, failures, random) <= c.max
    ensures 1.0 <= Delay(c, failures, random) <= 30.0
  {
  }

  lemma {:induction false} DoublingGrows(delay: real, n: nat, m: nat)
    requires delay >= 0.0 && n <= m
    ensures delay <= Doubled(delay, n) <= Doubled(delay, m)
    decreases m
  {
    if n < m { DoublingGrows(delay, n, m - 1); } else if m > 0 { DoublingGrows(delay, m - 1, m - 1); }
  }

  /** Without the random part the delay never shrinks as failures accumulate. */
  lemma BaseDelayGrows(c: Config, fewer: nat, more: nat)
    requires ValidConfig(c) && 1 <= fewer <= more
    ensures c.initial <= BaseDelay(c, fewer) <= BaseDelay(c, more) <= c.max
  {
    DoublingGrows(c.initial, Exponent(fewer), Exponent(more));
  }

  /** The maximum is reached by the sixth failure, so the exponent cap of 16, and any other
      cap of at least five, never changes the result. */
  lemma BaseDelaySaturates(c: Config, failures: nat)
    requires ValidConfig(c) && failures >= 1
    ensures failures >= 6 ==> BaseDelay(c, failures) == c.max
    ensures BaseDelay(c, failures) == Min(Doubled(c.initial, failures - 1), c.max)
  {
    if failures >= 6 {
      DoublingGrows(c.initial, 5, Exponent(failures));
      DoublingGrows(c.initial, 5, failures - 1);
      assert Doubled(c.initial, 1) == 2.0 * c.initial;
      assert Doubled(c.initial, 3) == 8.0 * c.initial;
      assert Doubled(c.initial, 5) == 32.0 * c.initial;
    }
  }

  // ---- the delay and the failures ----

  /** What the backoff after this many failures in a row is meant to be: it doubles with each
      failure, up to the maximum. */
  function Expected(c: Config, failures: nat): real
    requires failures >= 1
  {
    Min(Doubled(c.initial, failures - 1), c.max)
  }

  /** The delay before jitter is applied at either end. */
  function Earliest(c: Config, failures: nat): real
    requires failures >= 1
  {
    (1.0 - c.jitter) * Expected(c, failures)
  }

  function Latest(c: Config, failures: nat): real
    requires failures >= 1
  {
    (1.0 + c.jitter) * Expected(c, failures)
  }

  /** The unclamped delay for one sample between 0 and 1. */
  function Jittered(base: real, jitter: real, sample: real): real {
    base + (sample * 2.0 - 1.0) * base * jitter
  }

  lemma ScaledByUnit(x: real, y: real)
    requires -1.0 <= x <= 1.0 && y >= 0.0
    ensures -y <= x * y <= y
  {
    assert (1.0 - x) * y >= 0.0 && (1.0 + x) * y >= 0.0;
  }

  lemma JitterIsBounded(base: real, jitter: real, sample: real)
    requires base >= 0.0 && jitter >= 0.0 && 0.0 <= sample <= 1.0
    ensures (1.0 - jitter) * base <= Jittered(base, jitter, sample) <= (1.0 + jitter) * base
  {
    var x, y := sample * 2.0 - 1.0, base * jitter;
    ScaledByUnit(x, y);
    assert x * base * jitter == x * y;
    assert (1.0 - jitter) * base == base - y && (1.0 + jitter) * base == base + y;
  }

  lemma JitterGrows(base: real, jitter: real, sample: real, more: real)
    requires base >= 0.0 && jitter >= 0.0 && sample <= more
    ensures Jittered(base, jitter, sample) <= Jittered(base, jitter, more)
  {
    var y := base * jitter;
    assert (more - sample) * 2.0 * y >= 0.0;
    assert (sample * 2.0 - 1.0) * base * jitter == (sample * 2.0 - 1.0) * y;
    assert (more * 2.0 - 1.0) * base * jitter == (more * 2.0 - 1.0) * y;
  }

  function Clamped(x: real, low: real, high: real): real {
    Min(Max(x, low), high)
  }

  lemma DelayIsJittered(c: Config, failures: nat, random: real)
    requires ValidConfig(c) && failures >= 1
    ensures c.initial <= Expected(c, failures) <= c.max
    ensures Delay(c, failures, random)
         == Clamped(Jittered(Expected(c, failures), c.jitter, Clamped(random, 0.0, 1.0)), c.initial, c.max)
  {
    BaseDelaySaturates(c, failures);
    BaseDelayGrows(c, failures, failures);
  }

  /** For every sample the scheduled delay differs from the expected one by at most the jitter's
      share of it … */
  lemma DelayIsNearExpected(c: Config, failures: nat, random: real)
    requires ValidConfig(c) && failures >= 1
    ensures Earliest(c, failures) <= Delay(c, failures, random) <= Latest(c, failures)
  {
    var low, high := EarliestAndLatest(c, failures);
    var jittered := JitteredBetween(c, failures, random, low, high);
    DelayIsJittered(c, failures, random);
    ClampedStaysNear(jittered, low, Expected(c, failures), high, c.initial, c.max);
  }

  lemma JitteredBetween(c: Config, failures: nat, random: real, low: real, high: real) returns (jittered: real)
    requires ValidConfig(c) && failures >= 1 && Expected(c, failures) >= 0.0
    requires low == Earliest(c, failures) && high == Latest(c, failures)
    ensures jittered == Jittered(Expected(c, failures), c.jitter, Clamped(random, 0.0, 1.0))
    ensures low <= jittered <= high
  {
    jittered := Jittered(Expected(c, failures), c.jitter, Clamped(random, 0.0, 1.0));
    JitterIsBounded(Expected(c, failures), c.jitter, Clamped(random, 0.0, 1.0));
  }

  lemma EarliestAndLatest(c: Config, failures: nat) returns (low: real, high: real)
    requires ValidConfig(c) && failures >= 1
    ensures low == Earliest(c, failures) && high == Latest(c, failures)
    ensures c.initial <= Expected(c, failures) <= c.max && low <= Expected(c, failures) <= high
  {
    low, high := Earliest(c, failures), Latest(c, failures);
    DoublingGrows(c.initial, 0, failures - 1);
    JitterIsBounded(Expected(c, failures), c.jitter, 0.5);
  }

  /** Clamping brings a value no further away from one that needs no clamping. */
  lemma ClampedStaysNear(x: real, low: real, middle: real, high: real, a: real, b: real)
    requires low <= x <= high && low <= middle <= high && a <= middle <= b
    ensures low <= Clamped(x, a, b) <= high
  {
  }

  /** … in the middle it equals it, and it does not shrink as the sample grows. */
  lemma DelayFollowsTheSample(c: Config, failures: nat, random: real, more: real)
    requires ValidConfig(c) && failures >= 1
    ensures Delay(c, failures, 0.5) == Expected(c, failures)
    ensures random <= more ==> Delay(c, failures, random) <= Delay(c, failures, more)
  {
    DelayIsJittered(c, failures, 0.5);
    DelayIsJittered(c, failures, random);
    DelayIsJittered(c, failures, more);
    if random <= more {
      JitterGrows(Expected(c, failures), c.jitter, Clamped(random, 0.0, 1.0), Clamped(more, 0.0, 1.0));
    }
  }

  /** The expected delay doubles until it reaches the maximum. */
  lemma ExpectedDoubles(c: Config, failures: nat)
    requires ValidConfig(c) && failures >= 1
    ensures Expected(c, 1) == c.initial
    ensures Expected(c, failures + 1) == Min(2.0 * Expected(c, failures), c.max)
  {
    DoublingGrows(c.initial, 0, failures - 1);
  }

  // ---- the locked sections ----

  datatype State = State(client: Option<Client>, available: bool, probing: bool, failures: nat, nextProbeAt: real)

  function Failed(s: State, c: Config, now: real, random: real): State {
    State(None, false, s.probing, s.failures + 1, now + Delay(c, s.failures + 1, random))
  }

  datatype Answer = Use(client: Option<Client>) | NotNow | Probe

  function Claimed(s: State, now: real): (State, Answer) {
    if s.available then (s, Use(s.client))
    else if s.probing || now < s.nextProbeAt then (s, NotNow)
    else (s.(probing := true), Probe)
  }

  function ProbeFailed(s: State, c: Config, now: real, random: real): State {
    Failed(s.(probing := false), c, now, random)
  }

  function ProbeSucceeded(s: State, candidate: Client): State {
    State(Some(candidate), true, false, 0, 0.0)
  }

  function Marked(s: State, c: Config, client: Client, now: real, random: real): State {
    if !s.available || s.client != Some(client) then s else Failed(s, c, now, random)
  }

  function Ceil(x: real): int {
    -((-x).Floor)
  }

  /** `protection_state.retry_after`. */
  function RetryAfter(s: State, now: real): int {
    if s.available then 0
    else var up := Ceil(s.nextProbeAt - now); if up > 1 then up else 1
  }

  /** The object itself: each method is one section under its lock. */
  class RedisRecoveryState {
    const config: Config
    var client: Option<Client>
    var available: bool
    var probeInProgress: bool
    var failureCount: nat
    var nextProbeAt: real

    ghost function View(): State
      reads this
    {
      State(client, available, probeInProgress, failureCount, nextProbeAt)
    }

    ghost predicate Valid()
      reads this
    {
      && ValidConfig(config)
      && (available <==> client.Some?)
      && (available ==> failureCount == 0 && !probeInProgress)
      && (!available ==> failureCount >= 1)
    }

    /** No probe before the initial backoff is over, and one to whoever asks first after the
        maximal one; and likewise between the ends of the delay that belongs to the failures
        counted so far. */
    ghost predicate RetriesAfter(failedAt: real)
      requires failureCount >= 1
      reads this
    {
      && (forall t :: Claimed(View(), t).1.Probe? ==> t >= failedAt + Earliest(config, failureCount))
      && (forall t :: t >= failedAt + Latest(config, failureCount) ==> Claimed(View(), t).1.Probe?)
      && (forall t :: Claimed(View(), t).1.Probe? ==> t >= failedAt + config.initial)
      && (forall t :: t >= failedAt + config.max ==> Claimed(View(), t).1.Probe?)
    }

    /** `__init__` with the outcome of the initial connection. */
    constructor (c: Config, initial: Option<Client>, now: real, random: real)
      ensures config == c
      ensures client == initial && (available <==> initial.Some?)
      ensures initial.None? ==> failureCount == 1
      ensures ValidConfig(c) ==> Valid() && (initial.None? ==> RetriesAfter(now))
      ensures View() == if initial.Some? then ProbeSucceeded(State(None, false, false, 0, 0.0), initial.value)
                        else ProbeFailed(State(None, false, false, 0, 0.0), c, now, random)
    {
      config := c;
      client, available, probeInProgress, failureCount, nextProbeAt := None, false, false, 0, 0.0;
      new;
      if initial.None? {
        RecordFailure(now, random);
      } else {
        client := initial;
        available := true;
      }
    }

    method NextDelay(random: real) returns (delay: real)
      requires failureCount >= 1
      ensures delay == Delay(config, failureCount, random)
    {
      var exponent := if failureCount - 1 < 16 then failureCount - 1 else 16;
      var baseDelay := Min(Doubled(config.initial, exponent), config.max);
      var sample := Min(Max(random, 0.0), 1.0);
      var jitter := (sample * 2.0 - 1.0) * baseDelay * config.jitter;
      delay := Min(Max(baseDelay + jitter, config.initial), config.max);
    }

    method RecordFailure(now: real, random: real)
      modifies this
      ensures failureCount == old(failureCount) + 1
      ensures ValidConfig(config) ==>
        && now + config.initial <= nextProbeAt <= now + config.max
        && now + Earliest(config, failureCount) <= nextProbeAt <= now + Latest(config, failureCount)
      ensures View() == Failed(old(View()), config, now, random)
    {
      available := false;
      client := None;
      failureCount := failureCount + 1;
      var delay := NextDelay(random);
      if ValidConfig(config) {
        DelayIsBounded(config, failureCount, random);
        DelayIsNearExpected(config, failureCount, random);
      }
      nextProbeAt := now + delay;
    }

    /** Hands out the client in use, or else the one claim: whoever asks again, whenever that
        is, has to wait until the claim is settled. */
    method ClaimProbe(now: real) returns (answer: Answer)
      requires Valid()
      modifies this
      ensures Valid()
      ensures answer.Use? <==> old(client).Some?
      ensures answer.Use? ==> answer.client == old(client)
      ensures answer.Probe? <==> old(client).None? && !old(probeInProgress) && now >= old(nextProbeAt)
      ensures answer.Probe? ==> forall later :: Claimed(View(), later).1 == NotNow
      ensures !answer.Probe? ==> View() == old(View())
      ensures (View(), answer) == Claimed(old(View()), now)
    {
      if available {
        return Use(client);
      }
      if probeInProgress || now < nextProbeAt {
        return NotNow;
      }
      probeInProgress := true;
      answer := Probe;
    }

    /** Gives the claim back; the next one is due between the initial and the maximal backoff. */
    method SettleFailure(now: real, random: real)
      requires Valid()
      modifies this
      ensures Valid() && client.None? && failureCount == old(failureCount) + 1
      ensures RetriesAfter(now)
      ensures View() == ProbeFailed(old(View()), config, now, random)
    {
      probeInProgress := false;
      RecordFailure(now, random);
    }

    /** Whoever asks from now on gets the candidate. */
    method SettleSuccess(candidate: Client)
      requires Valid()
      modifies this
      ensures Valid()
      ensures forall later :: Claimed(View(), later).1 == Use(Some(candidate))
      ensures View() == ProbeSucceeded(old(View()), candidate)
    {
      client := Some(candidate);
      available := true;
      probeInProgress := false;
      failureCount := 0;
      nextProbeAt := 0.0;
    }

    /** A report about a client that is not in use leaves the object as it is; one about the client
        in use is the first failure of an outage. */
    method MarkUnavailable(failed: Client, now: real, random: real)
      requires Valid()
      modifies this
      ensures Valid()
      ensures old(client) != Some(failed) ==> View() == old(View())
      ensures old(client) == Some(failed) ==> client.None? && failureCount == 1 && RetriesAfter(now)
      ensures View() == Marked(old(View()), config, failed, now, random)
    {
      if !available || client != Some(failed) {
        return;
      }
      RecordFailure(now, random);
    }
  }

  // ---- any number of threads ----

  datatype Outcome = Success | Failure

  /** `probers` are the threads between the two locked sections; `history` and `failedAt`
      record the outcomes that were counted and the time of the last failure. */
  datatype System = System(state: State, now: real, probers: set<Thread>, history: seq<Outcome>, failedAt: real)

  datatype Event =
    | Ask(thread: Thread)
    | Fails(thread: Thread, random: real)
    | Succeeds(thread: Thread, client: Client)
    | Crashes(thread: Thread)                 // a probe error outside `_RECOVERABLE_ERRORS`
    | Mark(client: Client, random: real)
    | Pass(elapsed: real)

  function Start(c: Config, initial: Option<Client>, now: real, random: real): System {
    var empty := State(None, false, false, 0, 0.0);
    if initial.Some? then System(ProbeSucceeded(empty, initial.value), now, {}, [Success], now)
    else System(ProbeFailed(empty, c, now, random), now, {}, [Failure], now)
  }

  predicate Enabled(s: System, e: Event) {
    match e
    case Ask(thread) => thread !in s.probers
    case Fails(thread, _) => thread in s.probers
    case Succeeds(thread, _) => thread in s.probers
    case Crashes(thread) => thread in s.probers
    case Mark(_, _) => true
    case Pass(elapsed) => elapsed >= 0.0
  }

  predicate MarkCounts(s: System, client: Client) {
    s.state.available && s.state.client == Some(client)
  }

  function Apply(s: System, c: Config, e: Event): System {
    match e
    case Ask(thread) =>
      var (state, answer) := Claimed(s.state, s.now);
      s.(state := state, probers := if answer.Probe? then s.probers + {thread} else s.probers)
    case Fails(thread, random) =>
      s.(state := ProbeFailed(s.state, c, s.now, random), probers := s.probers - {thread},
         history := s.history + [Failure], failedAt := s.now)
    case Succeeds(thread, client) =>
      s.(state := ProbeSucceeded(s.state, client), probers := s.probers - {thread}, history := s.history + [Success])
    case Crashes(thread) => s.(probers := s.probers - {thread})
    case Mark(client, random) =>
      var state := Marked(s.state, c, client, s.now, random);
      if MarkCounts(s, client) then s.(state := state, history := s.history + [Failure], failedAt := s.now)
      else s.(state := state)
    case Pass(elapsed) => s.(now := s.now + elapsed)
  }

  ghost predicate IsRun(s: System, c: Config, events: seq<Event>)
    decreases |events|
  {
    events == [] || (Enabled(s, events[0]) && IsRun(Apply(s, c, events[0]), c, events[1..]))
  }

  function After(s: System, c: Config, events: seq<Event>): System
    decreases |events|
  {
    if events == [] then s else After(Apply(s, c, events[0]), c, events[1..])
  }

  /** Failures counted since the last success. */
  function TrailingFailures(history: seq<Outcome>): nat {
    if history == [] || history[|history| - 1].Success? then 0
    else 1 + TrailingFailures(history[..|history| - 1])
  }

  lemma TrailingAppend(history: seq<Outcome>, o: Outcome)
    ensures TrailingFailures(history + [o]) == if o.Success? then 0 else 1 + TrailingFailures(history)
  {
    assert (history + [o])[..|history|] == history;
  }

  ghost predicate AtMostOne(probers: set<Thread>) {
    forall a, b :: a in probers && b in probers ==> a == b
  }

  ghost predicate Inv(s: System, c: Config) {
    && AtMostOne(s.probers)
    && (s.probers != {} ==> s.state.probing)
    && (s.state.available ==> s.state.client.Some? && !s.state.probing && s.state.failures == 0)
    && (!s.state.available ==> s.state.client.None? && s.state.failures >= 1)
    && s.state.failures == TrailingFailures(s.history)
    && s.failedAt <= s.now
    && (!s.state.available ==> s.failedAt + c.initial <= s.state.nextProbeAt <= s.failedAt + c.max)
    && (!s.state.available ==> Due(s.failedAt, s.state, c))
  }

  /** The next probe is due within the delay that belongs to the failures counted. */
  ghost predicate Due(failedAt: real, state: State, c: Config)
    requires state.failures >= 1
  {
    failedAt + Earliest(c, state.failures) <= state.nextProbeAt <= failedAt + Latest(c, state.failures)
  }

  lemma StartInv(c: Config, initial: Option<Client>, now: real, random: real)
    requires ValidConfig(c)
    ensures Inv(Start(c, initial, now, random), c)
  {
    if initial.None? {
      DelayIsBounded(c, 1, random);
      DelayIsNearExpected(c, 1, random);
    }
  }

  /** A failure counted now, when no probe is left in flight. */
  lemma CountedFailure(s: System, c: Config, t: System, next: real)
    requires Inv(s, c) && s.now + c.initial <= next <= s.now + c.max
    requires s.now + Earliest(c, s.state.failures + 1) <= next <= s.now + Latest(c, s.state.failures + 1)
    requires t == System(State(None, false, false, s.state.failures + 1, next), s.now, {}, s.history + [Failure], s.now)
    ensures Inv(t, c)
  {
    TrailingAppend(s.history, Failure);
  }

  lemma FailureKeepsInv(s: System, c: Config, thread: Thread, random: real)
    requires ValidConfig(c) && Inv(s, c) && thread in s.probers
    ensures Inv(Apply(s, c, Fails(thread, random)), c)
  {
    DelayIsBounded(c, s.state.failures + 1, random);
    DelayIsNearExpected(c, s.state.failures + 1, random);
    assert s.probers - {thread} == {};
    CountedFailure(s, c, Apply(s, c, Fails(thread, random)), s.now + Delay(c, s.state.failures + 1, random));
  }

  lemma SuccessKeepsInv(s: System, c: Config, thread: Thread, client: Client)
    requires Inv(s, c) && thread in s.probers
    ensures Inv(Apply(s, c, Succeeds(thread, client)), c)
  {
    TrailingAppend(s.history, Success);
    assert s.probers - {thread} == {};
  }

  lemma MarkKeepsInv(s: System, c: Config, client: Client, random: real)
    requires ValidConfig(c) && Inv(s, c)
    ensures Inv(Apply(s, c, Mark(client, random)), c)
  {
    if MarkCounts(s, client) {
      DelayIsBounded(c, s.state.failures + 1, random);
      DelayIsNearExpected(c, s.state.failures + 1, random);
      CountedFailure(s, c, Apply(s, c, Mark(client, random)), s.now + Delay(c, s.state.failures + 1, random));
    }
  }

  lemma StepKeepsInv(s: System, c: Config, e: Event)
    requires ValidConfig(c) && Inv(s, c) && Enabled(s, e)
    ensures Inv(Apply(s, c, e), c)
  {
    match e
    case Fails(thread, random) => FailureKeepsInv(s, c, thread, random);
    case Succeeds(thread, client) => SuccessKeepsInv(s, c, thread, client);
    case Mark(client, random) => MarkKeepsInv(s, c, client, random);
    case _ =>
  }

  lemma {:induction false} RunKeepsInv(s: System, c: Config, events: seq<Event>)
    requires ValidConfig(c) && Inv(s, c) && IsRun(s, c, events)
    ensures Inv(After(s, c, events), c)
    decreases |events|
  {
    if events != [] {
      StepKeepsInv(s, c, events[0]);
      RunKeepsInv(Apply(s, c, events[0]), c, events[1..]);
    }
  }

  ghost predicate Reachable(c: Config, s: System) {
    exists initial, now, random, events ::
      var start := Start(c, initial, now, random); IsRun(start, c, events) && After(start, c, events) == s
  }

  lemma ReachableInv(c: Config, s: System)
    requires ValidConfig(c) && Reachable(c, s)
    ensures Inv(s, c)
  {
    var initial, now, random, events :|
      var start := Start(c, initial, now, random); IsRun(start, c, events) && After(start, c, events) == s;
    StartInv(c, initial, now, random);
    RunKeepsInv(Start(c, initial, now, random), c, events);
  }

  /** In every interleaving at most one probe is in flight; `available` means there is a
      client, no failure is counted and no probe runs; the failure count is the number of
      failures since the last success. */
  lemma SingleFlight(c: Config, s: System)
    requires ValidConfig(c) && Reachable(c, s)
    ensures |s.probers| <= 1
    ensures s.state.available <==> s.state.client.Some?
    ensures s.state.available ==> s.state.failures == 0 && s.probers == {} && !s.state.probing
    ensures s.state.failures == TrailingFailures(s.history)
  {
    ReachableInv(c, s);
    if thread :| thread in s.probers { assert s.probers == {thread}; }
  }

  /** A probe starts only when none is in flight and its time has come, which is at least
      the initial backoff and at most the maximum after the last counted failure. */
  lemma ProbesWaitForTheirTime(c: Config, s: System, thread: Thread)
    requires ValidConfig(c) && Reachable(c, s) && thread !in s.probers
    ensures thread in Apply(s, c, Ask(thread)).probers <==>
              !s.state.available && !s.state.probing && s.now >= s.state.nextProbeAt
    ensures thread in Apply(s, c, Ask(thread)).probers ==> s.probers == {} && s.now >= s.failedAt + c.initial
    ensures !s.state.available && !s.state.probing && s.now >= s.failedAt + c.max ==>
              thread in Apply(s, c, Ask(thread)).probers
  {
    ReachableInv(c, s);
  }

  /** After the k-th failure in a row no probe starts before the delay that belongs to k failures,
      less its jitter, is over, and whoever asks once it is over with its jitter starts one, unless
      one is claimed. */
  lemma BackoffFollowsTheFailures(c: Config, s: System, thread: Thread)
    requires ValidConfig(c) && Reachable(c, s) && thread !in s.probers && !s.state.available
    ensures var k := TrailingFailures(s.history);
      && k >= 1
      && (thread in Apply(s, c, Ask(thread)).probers ==> s.now >= s.failedAt + Earliest(c, k))
      && (!s.state.probing && s.now >= s.failedAt + Latest(c, k) ==> thread in Apply(s, c, Ask(thread)).probers)
  {
    ReachableInv(c, s);
  }

  /** Whoever waits `retry_after` whole seconds finds the probe due, unless one is in flight. */
  lemma RetryAfterSuffices(c: Config, s: System, thread: Thread, elapsed: real)
    requires ValidConfig(c) && Reachable(c, s) && !s.state.available
    requires elapsed >= RetryAfter(s.state, s.now) as real
    ensures 1 <= RetryAfter(s.state, s.now) <= 30
    ensures !s.state.probing ==> Claimed(s.state, s.now + elapsed).1.Probe?
  {
    ReachableInv(c, s);
    assert s.state.nextProbeAt - s.now <= 30.0;
  }

  /** The hint is no longer than it must be: unless it is the least one, whoever comes back a second
      early is turned away; and there is nothing to wait for while a client is in use. */
  lemma RetryAfterIsTight(s: State, now: real, early: real)
    ensures s.available ==> RetryAfter(s, now) == 0
    ensures !s.available && RetryAfter(s, now) > 1 && early <= RetryAfter(s, now) as real - 1.0 ==>
              !Claimed(s, now + early).1.Probe?
  {
  }

  /** A failure report, which may come at any time, changes nothing exactly if it is about another
      client than the current one. */
  lemma StaleFailureIsIgnored(c: Config, s: System, client: Client, random: real)
    ensures Enabled(s, Mark(client, random))
    ensures Apply(s, c, Mark(client, random)) == s <==> !MarkCounts(s, client)
  {
    assert |s.history + [Failure]| != |s.history|;
  }

  function CountedMarks(s: System, c: Config, events: seq<Event>): nat
    decreases |events|
  {
    if events == [] then 0
    else (if events[0].Mark? && MarkCounts(s, events[0].client) then 1 else 0)
         + CountedMarks(Apply(s, c, events[0]), c, events[1..])
  }

  /** One outage is counted once: until a probe succeeds, at most one report takes effect,
      however many threads noticed the failure. */
  lemma {:induction false} OutageCountsOnce(s: System, c: Config, events: seq<Event>)
    requires forall i :: 0 <= i < |events| ==> !events[i].Succeeds?
    ensures CountedMarks(s, c, events) <= if s.state.available then 1 else 0
    decreases |events|
  {
    if events != [] {
      assert Apply(s, c, events[0]).state.available ==> s.state.available;
      OutageCountsOnce(Apply(s, c, events[0]), c, events[1..]);
    }
  }

  // ---- when a reconnect is still possible ----

  /** The claim flag is set although no thread holds the claim. */
  ghost predicate Orphaned(s: System) {
    s.state.probing && s.probers == {}
  }

  lemma {:induction false} OrphanedForever(s: System, c: Config, events: seq<Event>)
    requires ValidConfig(c) && Inv(s, c) && Orphaned(s) && IsRun(s, c, events)
    ensures Orphaned(After(s, c, events)) && !After(s, c, events).state.available
    decreases |events|
  {
    if events != [] {
      StepKeepsInv(s, c, events[0]);
      OrphanedForever(Apply(s, c, events[0]), c, events[1..]);
    }
  }

  ghost predicate CanReconnect(s: System, c: Config) {
    exists events :: IsRun(s, c, events) && After(s, c, events).state.available
  }

  lemma Prepend(s: System, c: Config, e: Event, rest: seq<Event>)
    requires Enabled(s, e) && IsRun(Apply(s, c, e), c, rest)
    ensures IsRun(s, c, [e] + rest) && After(s, c, [e] + rest) == After(Apply(s, c, e), c, rest)
  {
    assert ([e] + rest)[0] == e && ([e] + rest)[1..] == rest;
  }

  /** While a thread holds the claim, or nobody has set the flag, a probe may still succeed. */
  lemma WayBack(s: System, c: Config) returns (events: seq<Event>)
    requires ValidConfig(c) && Inv(s, c) && !Orphaned(s)
    ensures IsRun(s, c, events) && After(s, c, events).state.available
  {
    if s.state.available { return []; }
    if s.probers != {} {
      var thread :| thread in s.probers;
      Prepend(s, c, Succeeds(thread, 0), []);
      return [Succeeds(thread, 0)] + [];
    }
    var wait := Pass(Max(s.state.nextProbeAt - s.now, 0.0));
    var s1 := Apply(s, c, wait);
    var s2 := Apply(s1, c, Ask(0));
    assert s2.probers == {0};
    Prepend(s2, c, Succeeds(0, 0), []);
    events := [Succeeds(0, 0)] + [];
    Prepend(s1, c, Ask(0), events);
    events := [Ask(0)] + events;
    Prepend(s, c, wait, events);
    events := [wait] + events;
  }

  /** Reconnecting is possible exactly while the claim flag has an owner or is clear. */
  lemma ReconnectIffNotOrphaned(c: Config, s: System)
    requires ValidConfig(c) && Reachable(c, s)
    ensures CanReconnect(s, c) <==> !Orphaned(s)
  {
    ReachableInv(c, s);
    if Orphaned(s) {
      forall events | IsRun(s, c, events) ensures !After(s, c, events).state.available {
        OrphanedForever(s, c, events);
      }
    } else {
      var events := WayBack(s, c);
    }
  }

  /** A probe has ended with an error outside the recoverable ones. */
  ghost predicate HasCrash(events: seq<Event>) {
    exists i :: 0 <= i < |events| && events[i].Crashes?
  }

  lemma CrashTail(events: seq<Event>)
    requires events != []
    ensures HasCrash(events) <==> events[0].Crashes? || HasCrash(events[1..])
  {
    if i :| 0 < i < |events| && events[i].Crashes? { assert events[1..][i - 1].Crashes?; }
    if i :| 0 <= i < |events| - 1 && events[1..][i].Crashes? { assert events[i + 1].Crashes?; }
  }

  /** The flag is left without an owner by exactly the runs in which such an error occurred. */
  lemma {:induction false} OrphanedIffCrash(s: System, c: Config, events: seq<Event>)
    requires ValidConfig(c) && Inv(s, c) && !Orphaned(s) && IsRun(s, c, events)
    ensures Orphaned(After(s, c, events)) <==> HasCrash(events)
    decreases |events|
  {
    if events != [] {
      var (e, t) := (events[0], Apply(s, c, events[0]));
      StepKeepsInv(s, c, e);
      CrashTail(events);
      if e.Crashes? {
        assert t.probers == {};
        OrphanedForever(t, c, events[1..]);
      } else {
        if e.Ask? && Claimed(s.state, s.now).1.Probe? { assert e.thread in t.probers; }
        OrphanedIffCrash(t, c, events[1..]);
      }
    }
  }

  /** From every start and after every run, a reconnect is still possible if and only if no
      probe has ended with an error outside the recoverable ones. */
  lemma ReconnectIffNoCrash(c: Config, initial: Option<Client>, now: real, random: real, events: seq<Event>)
    requires ValidConfig(c) && IsRun(Start(c, initial, now, random), c, events)
    ensures CanReconnect(After(Start(c, initial, now, random), c, events), c) <==> !HasCrash(events)
  {
    var start := Start(c, initial, now, random);
    StartInv(c, initial, now, random);
    OrphanedIffCrash(start, c, events);
    assert Reachable(c, After(start, c, events));
    ReconnectIffNotOrphaned(c, After(start, c, events));
  }

  /** Such a run: the first probe after a failed start ends that way. */
  lemma CrashLocksOut(c: Config, now: real, random: real) returns (events: seq<Event>)
    requires ValidConfig(c)
    ensures IsRun(Start(c, None, now, random), c, events)
    ensures !CanReconnect(After(Start(c, None, now, random), c, events), c)
  {
    var start := Start(c, None, now, random);
    DelayIsBounded(c, 1, random);
    var s1 := Apply(start, c, Pass(c.max));
    var s2 := Apply(s1, c, Ask(0));
    Prepend(s2, c, Crashes(0), []);
    events := [Crashes(0)] + [];
    Prepend(s1, c, Ask(0), events);
    events := [Ask(0)] + events;
    Prepend(start, c, Pass(c.max), events);
    events := [Pass(c.max)] + events;
    assert events[2].Crashes?;
    ReconnectIffNoCrash(c, None, now, random, events);
  }
}
