/** The fixed-window limiter (`rate_limit_service.py`).

    A request reads the clock, and later increments the counter of the window it read; the
    first to increment a counter then sets its time to live. These are separate steps, and any
    number of requests interleave. Time is one nondecreasing clock, for Redis and its callers;
    the digest of an identity is any injective one; Redis loses no counter before its time. */
module RateLimits {
  import opened Options

  /** `ratelimit:<scope>:<digest>:<window>` */
  datatype Key = Key(scope: string, digest: string, window: int)

  datatype Counter = Counter(count: nat, deadline: Option<real>)

  type Store = map<Key, Counter>

  function WindowOf(seconds: nat, t: real): int
    requires seconds > 0
  {
    (t / seconds as real).Floor
  }

  /** `k` times the width. */
  function Multiple(k: int, width: real): real
    decreases if k < 0 then -k else k
  {
    if k == 0 then 0.0 else if k > 0 then Multiple(k - 1, width) + width else Multiple(k + 1, width) - width
  }

  function WindowStart(seconds: nat, window: int): real {
    Multiple(window, seconds as real)
  }

  function WindowEnd(seconds: nat, window: int): real {
    WindowStart(seconds, window) + seconds as real
  }

  function KeyOf(digest: string -> string, scope: string, identity: string, seconds: nat, t: real): Key
    requires seconds > 0
  {
    Key(scope, digest(identity), WindowOf(seconds, t))
  }

  predicate Live(c: Counter, now: real) {
    c.deadline.None? || now < c.deadline.value
  }

  function CountAt(store: Store, key: Key, now: real): nat {
    if key in store && Live(store[key], now) then store[key].count else 0
  }

  function Incremented(store: Store, key: Key, now: real): Store {
    var live := key in store && Live(store[key], now);
    store[key := Counter(CountAt(store, key, now) + 1, if live then store[key].deadline else None)]
  }

  function Expiring(store: Store, key: Key, now: real, seconds: nat): Store {
    if key in store && Live(store[key], now)
    then store[key := store[key].(deadline := Some(now + seconds as real))]
    else store
  }

  // ---- one check ----

  datatype Status = Enforced | Degraded | Unavailable

  datatype Decision = Decision(allowed: bool, remaining: nat, retryAfter: nat, status: Status)

  const FAIL_OPEN: set<string> := {"auth", "session", "default"}

  /** `retry` is the wait the recovery state suggests. */
  function UnavailableDecision(scope: string, limit: nat, retry: nat): Decision {
    if scope in FAIL_OPEN then Decision(true, limit, 0, Degraded) else Decision(false, 0, retry, Unavailable)
  }

  /** The commands of a client, and the error that any of them may end with instead. */
  class Redis {
    var now: real
    var counters: Store

    constructor (t: real)
      ensures now == t && counters == map[]
    {
      now, counters := t, map[];
    }

    method Incr(key: Key, fails: bool) returns (count: Option<nat>)
      modifies this
      ensures now == old(now)
      ensures fails ==> count.None? && counters == old(counters)
      ensures !fails ==> counters == Incremented(old(counters), key, now)
                         && count == Some(CountAt(old(counters), key, now) + 1)
    {
      if fails { return None; }
      counters := Incremented(counters, key, now);
      count := Some(counters[key].count);
    }

    method Expire(key: Key, seconds: nat, fails: bool) returns (ok: bool)
      modifies this
      ensures now == old(now) && ok == !fails
      ensures counters == if fails then old(counters) else Expiring(old(counters), key, now, seconds)
    {
      if !fails { counters := Expiring(counters, key, now, seconds); }
      ok := !fails;
    }

    /** The whole seconds a key has still to live, as the server rounds them; -1 without a deadline. */
    method Ttl(key: Key, rounded: int, fails: bool) returns (ttl: Option<int>)
      ensures ttl == if fails then None
                     else Some(if key in counters && counters[key].deadline.None? then -1 else rounded)
    {
      ttl := if fails then None else Some(if key in counters && counters[key].deadline.None? then -1 else rounded);
    }
  }

  /** `check`, run without other steps in between. `client` is what the recovery state hands
      out; `failures` tells which commands end with an error. */
  method Check(client: Option<Redis>, digest: string -> string, scope: string, identity: string, limit: nat,
               seconds: nat, retry: nat, rounded: int, failures: set<string>)
    returns (d: Decision, markUnavailable: bool)
    requires seconds > 0
    modifies if client.Some? then {client.value} else {}
    ensures client.None? ==> d == UnavailableDecision(scope, limit, retry) && !markUnavailable
    ensures client.Some? ==>
      var key := KeyOf(digest, scope, identity, seconds, client.value.now);
      var before, after := old(client.value.counters), client.value.counters;
      var number := CountAt(before, key, client.value.now) + 1;
      && client.value.now == old(client.value.now)
      && (d.status.Enforced? ==>
            && (d.allowed <==> number <= limit)
            && d.remaining == (if number <= limit then limit - number else 0)
            && d.retryAfter == (if number <= limit then 0
                                else if key in after && after[key].deadline.Some? && rounded > 0 then rounded
                                else seconds))
      && (markUnavailable ==> d == UnavailableDecision(scope, limit, retry))
      && (!markUnavailable <==> d.status.Enforced?)
      && (markUnavailable <==>
            "incr" in failures || ("expire" in failures && number == 1) || ("ttl" in failures && number > limit))
      && after == if "incr" in failures then before
                  else if number == 1 && "expire" !in failures
                  then Expiring(Incremented(before, key, client.value.now), key, client.value.now, seconds)
                  else Incremented(before, key, client.value.now)
  {
    markUnavailable := false;
    if client.None? {
      return UnavailableDecision(scope, limit, retry), false;
    }
    var redis := client.value;
    var key := KeyOf(digest, scope, identity, seconds, redis.now);
    var count := redis.Incr(key, "incr" in failures);
    if count.None? {
      return UnavailableDecision(scope, limit, retry), true;
    }
    if count.value == 1 {
      var ok := redis.Expire(key, seconds, "expire" in failures);
      if !ok {
        return UnavailableDecision(scope, limit, retry), true;
      }
    }
    var allowed := count.value <= limit;
    var remaining := if limit > count.value then limit - count.value else 0;
    var retryAfter := 0;
    if !allowed {
      var ttl := redis.Ttl(key, rounded, "ttl" in failures);
      if ttl.None? {
        return UnavailableDecision(scope, limit, retry), true;
      }
      retryAfter := if ttl.value > 0 then ttl.value else seconds;
    }
    d := Decision(allowed, remaining, retryAfter, Enforced);
  }

  // ---- interleaved requests ----

  /** An increment that was carried out: for which counter, when, and which number it returned. */
  datatype Entry = Entry(key: Key, at: real, number: nat)

  /** `reading` are the requests that have read the clock, `setting` the keys whose first
      increment has been answered but whose time to live has not been set. */
  datatype State = State(now: real, store: Store, reading: multiset<Key>, setting: multiset<Key>, log: seq<Entry>)

  datatype Event =
    | Advance(to: real)
    | ReadClock(scope: string, identity: string)
    | Increment(key: Key)
    | Lose(key: Key)          // the request ends before its increment is carried out
    | SetExpiry(key: Key)
    | Abandon(key: Key)       // the request ends before it sets the time to live

  predicate Enabled(s: State, e: Event) {
    match e
    case Advance(to) => to >= s.now
    case ReadClock(_, _) => true
    case Increment(key) => key in s.reading
    case Lose(key) => key in s.reading
    case SetExpiry(key) => key in s.setting
    case Abandon(key) => key in s.setting
  }

  /** The state after an increment. */
  function Counted(s: State, key: Key): State
    requires key in s.reading
  {
    var number := CountAt(s.store, key, s.now) + 1;
    s.(store := Incremented(s.store, key, s.now), reading := s.reading - multiset{key},
       setting := if number == 1 then s.setting + multiset{key} else s.setting,
       log := s.log + [Entry(key, s.now, number)])
  }

  function Apply(digest: string -> string, seconds: nat, s: State, e: Event): State
    requires seconds > 0 && Enabled(s, e)
  {
    match e
    case Advance(to) => s.(now := to)
    case ReadClock(scope, identity) =>
      s.(reading := s.reading + multiset{KeyOf(digest, scope, identity, seconds, s.now)})
    case Increment(key) => Counted(s, key)
    case Lose(key) => s.(reading := s.reading - multiset{key})
    case SetExpiry(key) =>
      s.(store := Expiring(s.store, key, s.now, seconds), setting := s.setting - multiset{key})
    case Abandon(key) => s.(setting := s.setting - multiset{key})
  }

  ghost predicate IsRun(digest: string -> string, seconds: nat, s: State, events: seq<Event>)
    requires seconds > 0
    decreases |events|
  {
    events == [] || (Enabled(s, events[0]) && IsRun(digest, seconds, Apply(digest, seconds, s, events[0]), events[1..]))
  }

  ghost function After(digest: string -> string, seconds: nat, s: State, events: seq<Event>): State
    requires seconds > 0 && IsRun(digest, seconds, s, events)
    decreases |events|
  {
    if events == [] then s else After(digest, seconds, Apply(digest, seconds, s, events[0]), events[1..])
  }

  function Idle(now: real): State {
    State(now, map[], multiset{}, multiset{}, [])
  }

  // ---- windows ----

  lemma {:induction false} MultipleIsProduct(k: int, width: real)
    ensures Multiple(k, width) == k as real * width
    decreases if k < 0 then -k else k
  {
    if k > 0 {
      MultipleIsProduct(k - 1, width);
      assert (k - 1) as real == k as real - 1.0;
    } else if k < 0 {
      MultipleIsProduct(k + 1, width);
      assert (k + 1) as real == k as real + 1.0;
    }
  }

  /** Windows follow each other without a gap. */
  lemma WindowsMeet(seconds: nat, window: int)
    ensures WindowStart(seconds, window + 1) == WindowEnd(seconds, window)
  {
  }

  lemma {:induction false} LaterWindow(seconds: nat, a: int, b: int)
    requires a <= b
    ensures WindowStart(seconds, a) <= WindowStart(seconds, b)
    decreases b - a
  {
    if a < b {
      WindowsMeet(seconds, a);
      LaterWindow(seconds, a + 1, b);
    }
  }

  lemma Bracket(q: real, f: real, w: real, t: real)
    requires w > 0.0 && q * w == t && f <= q < f + 1.0
    ensures f * w <= t < f * w + w
  {
    var low, mid := Products(f, q, w);
    var mid', high := Products(q, f + 1.0, w);
    assert low <= t && t < high && high == f * w + w;
  }

  /** Two products with the same positive factor are ordered like the other factors. */
  lemma Products(a: real, b: real, w: real) returns (x: real, y: real)
    requires w > 0.0
    ensures x == a * w && y == b * w && (a <= b ==> x <= y) && (a < b ==> x < y)
  {
    x, y := a * w, b * w;
    assert y - x == (b - a) * w;
    assert b - a > 0.0 ==> (b - a) * w > 0.0;
  }

  lemma WindowHolds(seconds: nat, t: real)
    requires seconds > 0
    ensures WindowStart(seconds, WindowOf(seconds, t)) <= t < WindowEnd(seconds, WindowOf(seconds, t))
  {
    var w := seconds as real;
    var q := t / w;
    assert q * w == t;
    Bracket(q, q.Floor as real, w, t);
    MultipleIsProduct(q.Floor, w);
  }

  /** An increment that was carried out before its window had ended. */
  predicate InTime(seconds: nat, e: Entry) {
    e.at < WindowEnd(seconds, e.key.window)
  }

  /** How many increments of this key were carried out in time. */
  function Requests(seconds: nat, log: seq<Entry>, key: Key): nat {
    if log == [] then 0
    else
      var last := log[|log| - 1];
      Requests(seconds, log[..|log| - 1], key) + if last.key == key && InTime(seconds, last) then 1 else 0
  }

  /** How many of them were allowed. */
  function Allowed(seconds: nat, limit: nat, log: seq<Entry>, key: Key): nat {
    if log == [] then 0
    else
      var last := log[|log| - 1];
      Allowed(seconds, limit, log[..|log| - 1], key)
      + if last.key == key && InTime(seconds, last) && last.number <= limit then 1 else 0
  }

  /** The number the last increment of this key returned, 0 before the first. */
  function LastNumber(log: seq<Entry>, key: Key): nat {
    if log == [] then 0
    else if log[|log| - 1].key == key then log[|log| - 1].number
    else LastNumber(log[..|log| - 1], key)
  }

  // ---- the invariant ----

  /** Increments in time are numbered 1, 2, 3, … in each window; any increment goes on
      counting or starts afresh. */
  predicate NumberedAfter(seconds: nat, front: seq<Entry>, e: Entry) {
    && (InTime(seconds, e) ==> e.number == Requests(seconds, front, e.key) + 1)
    && (e.number == 1 || e.number == LastNumber(front, e.key) + 1)
  }

  predicate WellNumbered(seconds: nat, log: seq<Entry>)
    decreases |log|
  {
    log == [] || (WellNumbered(seconds, log[..|log| - 1]) && NumberedAfter(seconds, log[..|log| - 1], log[|log| - 1]))
  }

  /** A deadline lies at or behind the end of the key's own window. */
  ghost predicate DeadlinesLate(seconds: nat, store: Store) {
    forall key :: key in store && store[key].deadline.Some? ==>
      store[key].deadline.value >= WindowEnd(seconds, key.window)
  }

  /** A counter that lives holds its last number; in its window it counts all requests. */
  ghost predicate Counts(seconds: nat, s: State, key: Key) {
    && (s.now < WindowEnd(seconds, key.window) ==> CountAt(s.store, key, s.now) == Requests(seconds, s.log, key))
    && (key in s.store && Live(s.store[key], s.now) ==> s.store[key].count == LastNumber(s.log, key))
  }

  ghost predicate AllCount(seconds: nat, s: State) {
    forall key :: Counts(seconds, s, key)
  }

  ghost predicate Begun(seconds: nat, s: State) {
    forall key :: key in s.reading || key in s.setting ==> WindowStart(seconds, key.window) <= s.now
  }

  ghost predicate InOrder(seconds: nat, s: State) {
    && (forall i :: 0 <= i < |s.log| ==> WindowStart(seconds, s.log[i].key.window) <= s.log[i].at <= s.now)
    && (forall i, j :: 0 <= i < j < |s.log| ==> s.log[i].at <= s.log[j].at)
  }

  ghost predicate Inv(seconds: nat, s: State) {
    WellNumbered(seconds, s.log) && DeadlinesLate(seconds, s.store) && AllCount(seconds, s) && Begun(seconds, s)
    && InOrder(seconds, s)
  }

  lemma IdleIsFine(seconds: nat, start: real)
    ensures Inv(seconds, Idle(start))
  {
    forall key ensures Counts(seconds, Idle(start), key) { }
  }

  /** Time alone takes no counter away before its window has ended. */
  lemma AdvanceKeeps(seconds: nat, s: State, to: real)
    requires Inv(seconds, s) && to >= s.now
    ensures Inv(seconds, s.(now := to))
  {
    forall key ensures Counts(seconds, s.(now := to), key) { assert Counts(seconds, s, key); }
  }

  lemma IncrementIsNumbered(seconds: nat, s: State, key: Key)
    requires WellNumbered(seconds, s.log) && Counts(seconds, s, key) && key in s.reading
    ensures WellNumbered(seconds, Counted(s, key).log)
  {
    assert Counted(s, key).log[..|s.log|] == s.log;
  }

  lemma IncrementCounts(seconds: nat, s: State, key: Key)
    requires Counts(seconds, s, key) && key in s.reading
    ensures Counts(seconds, Counted(s, key), key)
  {
    assert Counted(s, key).log[..|s.log|] == s.log;
  }

  lemma IncrementSparesOthers(seconds: nat, s: State, key: Key, other: Key)
    requires Counts(seconds, s, other) && key in s.reading && other != key
    ensures Counts(seconds, Counted(s, key), other)
  {
    assert Counted(s, key).log[..|s.log|] == s.log;
  }

  lemma IncrementBegun(seconds: nat, s: State, key: Key)
    requires Begun(seconds, s) && key in s.reading
    ensures Begun(seconds, Counted(s, key))
  {
  }

  lemma IncrementInOrder(seconds: nat, s: State, key: Key)
    requires WindowStart(seconds, key.window) <= s.now && InOrder(seconds, s) && key in s.reading
    ensures InOrder(seconds, Counted(s, key))
  {
  }

  lemma IncrementKeeps(seconds: nat, s: State, key: Key)
    requires Inv(seconds, s) && key in s.reading
    ensures Inv(seconds, Counted(s, key))
  {
    assert Counts(seconds, s, key);
    IncrementIsNumbered(seconds, s, key);
    IncrementBegun(seconds, s, key);
    IncrementInOrder(seconds, s, key);
    forall other ensures Counts(seconds, Counted(s, key), other) {
      assert Counts(seconds, s, other);
      if other == key { IncrementCounts(seconds, s, key); } else { IncrementSparesOthers(seconds, s, key, other); }
    }
  }

  /** A time to live set at or behind the start of a window ends at or behind its end. */
  lemma ExpiryCounts(seconds: nat, s: State, key: Key, other: Key)
    requires Counts(seconds, s, other) && WindowStart(seconds, key.window) <= s.now && seconds > 0
    ensures Counts(seconds, s.(store := Expiring(s.store, key, s.now, seconds)), other)
  {
  }

  lemma SetExpiryKeeps(digest: string -> string, seconds: nat, s: State, key: Key)
    requires seconds > 0 && Inv(seconds, s) && key in s.setting
    ensures Inv(seconds, Apply(digest, seconds, s, SetExpiry(key)))
  {
    var t := Apply(digest, seconds, s, SetExpiry(key));
    forall other ensures Counts(seconds, t, other) {
      assert Counts(seconds, s, other);
      ExpiryCounts(seconds, s, key, other);
    }
  }

  /** Reading the clock, and giving up, touch no counter. */
  lemma IdleStepKeeps(digest: string -> string, seconds: nat, s: State, e: Event)
    requires seconds > 0 && Inv(seconds, s) && Enabled(s, e) && (e.ReadClock? || e.Lose? || e.Abandon?)
    ensures Inv(seconds, Apply(digest, seconds, s, e))
  {
    var t := Apply(digest, seconds, s, e);
    WindowHolds(seconds, s.now);
    forall key ensures Counts(seconds, t, key) { assert Counts(seconds, s, key); }
  }

  lemma StepKeepsInv(digest: string -> string, seconds: nat, s: State, e: Event)
    requires seconds > 0 && Inv(seconds, s) && Enabled(s, e)
    ensures Inv(seconds, Apply(digest, seconds, s, e))
  {
    match e
    case Advance(to) => AdvanceKeeps(seconds, s, to);
    case Increment(key) => IncrementKeeps(seconds, s, key);
    case SetExpiry(key) => SetExpiryKeeps(digest, seconds, s, key);
    case _ => IdleStepKeeps(digest, seconds, s, e);
  }

  lemma {:induction false} RunKeepsInv(digest: string -> string, seconds: nat, s: State, events: seq<Event>)
    requires seconds > 0 && Inv(seconds, s) && IsRun(digest, seconds, s, events)
    ensures Inv(seconds, After(digest, seconds, s, events))
    decreases |events|
  {
    if events != [] {
      StepKeepsInv(digest, seconds, s, events[0]);
      RunKeepsInv(digest, seconds, Apply(digest, seconds, s, events[0]), events[1..]);
    }
  }
}
