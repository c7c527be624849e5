/** What the limiter allows in every run, and what escapes it: increments that are carried out after
    the end of their window. */
module RateLimitLaws {
  import opened Options
  import opened Digits
  import opened RateLimits

  // ---- the limit ----

  lemma {:induction false} FirstOnesAllowed(seconds: nat, limit: nat, log: seq<Entry>, key: Key)
    requires WellNumbered(seconds, log)
    ensures var n := Requests(seconds, log, key);
      Allowed(seconds, limit, log, key) == if n <= limit then n else limit
    decreases |log|
  {
    if log != [] { FirstOnesAllowed(seconds, limit, log[..|log| - 1], key); }
  }

  /** In every run and for every identity and window, of the increments carried out in time exactly
      the first `limit` are allowed, or all of them if they are fewer: the time to live, set
      whenever, never resets a counter inside its own window. */
  lemma LimitPerWindow(digest: string -> string, seconds: nat, limit: nat, start: real, events: seq<Event>, key: Key)
    requires seconds > 0 && IsRun(digest, seconds, Idle(start), events)
    ensures var log := After(digest, seconds, Idle(start), events).log;
      var n := Requests(seconds, log, key);
      && Allowed(seconds, limit, log, key) == (if n <= limit then n else limit)
      && forall i :: 0 <= i < |log| && InTime(seconds, log[i]) ==>
           log[i].number == Requests(seconds, log[..i], log[i].key) + 1
  {
    IdleIsFine(seconds, start);
    RunKeepsInv(digest, seconds, Idle(start), events);
    var log := After(digest, seconds, Idle(start), events).log;
    FirstOnesAllowed(seconds, limit, log, key);
    NumberedThroughout(seconds, log);
  }

  lemma {:induction false} NumberedThroughout(seconds: nat, log: seq<Entry>)
    requires WellNumbered(seconds, log)
    ensures forall i :: 0 <= i < |log| ==> NumberedAfter(seconds, log[..i], log[i])
    decreases |log|
  {
    if log != [] {
      var front := log[..|log| - 1];
      NumberedThroughout(seconds, front);
      forall i | 0 <= i < |front| ensures log[..i] == front[..i] && log[i] == front[i] { }
    }
  }

  /** Allowed increments of one identity, in whatever window, that were carried out in time in
      the interval from `from` up to a window's length later. */
  function AllowedSince(seconds: nat, limit: nat, log: seq<Entry>, scope: string, d: string, from: real): nat {
    if log == [] then 0
    else
      var last := log[|log| - 1];
      AllowedSince(seconds, limit, log[..|log| - 1], scope, d, from)
      + if last.key.scope == scope && last.key.digest == d && from <= last.at < from + seconds as real
           && InTime(seconds, last) && last.number <= limit then 1 else 0
  }

  /** An interval as long as a window meets at most two windows. */
  lemma TwoWindows(seconds: nat, from: real, e: Entry)
    requires seconds > 0 && from <= e.at < from + seconds as real && InTime(seconds, e)
    requires WindowStart(seconds, e.key.window) <= e.at
    ensures e.key.window == WindowOf(seconds, from) || e.key.window == WindowOf(seconds, from) + 1
  {
    WindowHolds(seconds, from);
    var first := WindowOf(seconds, from);
    WindowsMeet(seconds, e.key.window);
    WindowsMeet(seconds, first);
    WindowsMeet(seconds, first + 1);
    if e.key.window + 1 <= first { LaterWindow(seconds, e.key.window + 1, first); }
    if first + 2 <= e.key.window { LaterWindow(seconds, first + 2, e.key.window); }
  }

  lemma {:induction false} IntervalBound(seconds: nat, limit: nat, log: seq<Entry>, scope: string, d: string,
                                         from: real)
    requires seconds > 0 && forall i :: 0 <= i < |log| ==> WindowStart(seconds, log[i].key.window) <= log[i].at
    ensures AllowedSince(seconds, limit, log, scope, d, from)
         <= Allowed(seconds, limit, log, Key(scope, d, WindowOf(seconds, from)))
          + Allowed(seconds, limit, log, Key(scope, d, WindowOf(seconds, from) + 1))
    decreases |log|
  {
    if log != [] {
      IntervalBound(seconds, limit, log[..|log| - 1], scope, d, from);
      var last := log[|log| - 1];
      if from <= last.at < from + seconds as real && InTime(seconds, last) { TwoWindows(seconds, from, last); }
    }
  }

  /** In no interval of a window's length more than twice the limit is allowed, of the increments
      carried out in time. */
  lemma TwiceTheLimit(digest: string -> string, seconds: nat, limit: nat, start: real, events: seq<Event>,
                      scope: string, d: string, from: real)
    requires seconds > 0 && IsRun(digest, seconds, Idle(start), events)
    ensures AllowedSince(seconds, limit, After(digest, seconds, Idle(start), events).log, scope, d, from) <= 2 * limit
  {
    var first := WindowOf(seconds, from);
    LimitPerWindow(digest, seconds, limit, start, events, Key(scope, d, first));
    LimitPerWindow(digest, seconds, limit, start, events, Key(scope, d, first + 1));
    IdleIsFine(seconds, start);
    RunKeepsInv(digest, seconds, Idle(start), events);
    IntervalBound(seconds, limit, After(digest, seconds, Idle(start), events).log, scope, d, from);
  }

  // ---- increments carried out late ----

  /** All increments of a key, late ones included, and how many of them are allowed. */
  function Carried(log: seq<Entry>, key: Key): nat {
    if log == [] then 0
    else Carried(log[..|log| - 1], key) + if log[|log| - 1].key == key then 1 else 0
  }

  function AllowedAtAll(limit: nat, log: seq<Entry>, key: Key): nat {
    if log == [] then 0
    else
      var last := log[|log| - 1];
      AllowedAtAll(limit, log[..|log| - 1], key) + if last.key == key && last.number <= limit then 1 else 0
  }

  /** How often the counter of a key was created. */
  function Creations(log: seq<Entry>, key: Key): nat {
    if log == [] then 0
    else
      var last := log[|log| - 1];
      Creations(log[..|log| - 1], key) + if last.key == key && last.number == 1 then 1 else 0
  }

  /** A counter created once numbers its increments through; one created again has allowed
      all of them, as long as they are within the limit, and otherwise more than the limit. */
  lemma {:induction false} CreationsTell(seconds: nat, limit: nat, log: seq<Entry>, key: Key)
    requires WellNumbered(seconds, log) && limit >= 1
    ensures var (n, allowed, last) := (Carried(log, key), AllowedAtAll(limit, log, key), LastNumber(log, key));
      && (Creations(log, key) == 0 <==> n == 0) && (n == 0 <==> last == 0)
      && (Creations(log, key) <= 1 ==> last == n && allowed == if n <= limit then n else limit)
      && (Creations(log, key) >= 2 ==> last < n && if n <= limit then allowed == n else allowed > limit)
    decreases |log|
  {
    if log != [] { CreationsTell(seconds, limit, log[..|log| - 1], key); }
  }

  /** Late increments included, a key is allowed more than its limit exactly if more than the
      limit were carried out and its counter was created more than once. */
  lemma OverLimitIffCreatedAgain(digest: string -> string, seconds: nat, limit: nat, start: real, events: seq<Event>,
                                 key: Key)
    requires seconds > 0 && limit >= 1 && IsRun(digest, seconds, Idle(start), events)
    ensures var log := After(digest, seconds, Idle(start), events).log;
      AllowedAtAll(limit, log, key) > limit <==> Carried(log, key) > limit && Creations(log, key) > 1
  {
    IdleIsFine(seconds, start);
    RunKeepsInv(digest, seconds, Idle(start), events);
    CreationsTell(seconds, limit, After(digest, seconds, Idle(start), events).log, key);
  }

  /** An earlier increment in time is one of the requests counted. */
  lemma {:induction false} EarlierIsCounted(seconds: nat, log: seq<Entry>, i: nat)
    requires i < |log| && InTime(seconds, log[i])
    ensures Requests(seconds, log, log[i].key) >= 1
    decreases |log|
  {
    if i < |log| - 1 { EarlierIsCounted(seconds, log[..|log| - 1], i); }
  }

  /** A counter is created again only by an increment carried out at or after the end of its
      window. */
  lemma CreatedAgainIsLate(digest: string -> string, seconds: nat, start: real, events: seq<Event>, i: nat, j: nat)
    requires seconds > 0 && IsRun(digest, seconds, Idle(start), events)
    requires i < j < |After(digest, seconds, Idle(start), events).log|
    requires var log := After(digest, seconds, Idle(start), events).log;
      log[i].key == log[j].key && log[i].number == log[j].number == 1
    ensures !InTime(seconds, After(digest, seconds, Idle(start), events).log[j])
  {
    IdleIsFine(seconds, start);
    RunKeepsInv(digest, seconds, Idle(start), events);
    var log := After(digest, seconds, Idle(start), events).log;
    NumberedThroughout(seconds, log);
    assert log[..j][i] == log[i];
    if InTime(seconds, log[j]) { EarlierIsCounted(seconds, log[..j], i); }
  }

  // ---- two runs that show where the bounds are tight ----

  lemma Prepend(digest: string -> string, seconds: nat, s: State, e: Event, t: State, rest: seq<Event>, last: State)
    requires seconds > 0 && Enabled(s, e) && Apply(digest, seconds, s, e) == t
    requires IsRun(digest, seconds, t, rest) && After(digest, seconds, t, rest) == last
    ensures IsRun(digest, seconds, s, [e] + rest) && After(digest, seconds, s, [e] + rest) == last
  {
    assert ([e] + rest)[0] == e && ([e] + rest)[1..] == rest;
  }

  /** A request for a counter that does not exist yet, carried out at once at time `t`. */
  lemma FirstRequest(digest: string -> string, seconds: nat, s: State, t: real, scope: string, identity: string,
                     after: State, rest: seq<Event>, last: State)
    returns (events: seq<Event>)
    requires seconds > 0 && s.reading == multiset{} && s.now <= t
    requires KeyOf(digest, scope, identity, seconds, t) !in s.store
    requires var k := KeyOf(digest, scope, identity, seconds, t);
      after == State(t, s.store[k := Counter(1, None)], multiset{}, s.setting + multiset{k}, s.log + [Entry(k, t, 1)])
    requires IsRun(digest, seconds, after, rest) && After(digest, seconds, after, rest) == last
    ensures IsRun(digest, seconds, s, events) && After(digest, seconds, s, events) == last
  {
    var k := KeyOf(digest, scope, identity, seconds, t);
    var s1 := s.(now := t);
    var s2 := s1.(reading := multiset{k});
    Prepend(digest, seconds, s2, Increment(k), after, rest, last);
    events := [Increment(k)] + rest;
    Prepend(digest, seconds, s1, ReadClock(scope, identity), s2, events, last);
    events := [ReadClock(scope, identity)] + events;
    Prepend(digest, seconds, s, Advance(t), s1, events, last);
    events := [Advance(t)] + events;
  }

  /** With limit 1, a request just before the end of a window and one at the start of the next
      are both allowed: twice the limit is reached. */
  lemma TwiceIsReached(digest: string -> string) returns (events: seq<Event>)
    ensures IsRun(digest, 10, Idle(0.0), events)
    ensures AllowedSince(10, 1, After(digest, 10, Idle(0.0), events).log, "agent", digest("u"), 9.0) == 2
  {
    var (k0, k1) := (Key("agent", digest("u"), 0), Key("agent", digest("u"), 1));
    assert WindowOf(10, 9.0) == 0 && WindowOf(10, 10.0) == 1;
    var log := [Entry(k0, 9.0, 1), Entry(k1, 10.0, 1)];
    var s1 := State(9.0, map[][k0 := Counter(1, None)], multiset{}, multiset{} + multiset{k0}, [] + [log[0]]);
    var s2 := State(10.0, s1.store[k1 := Counter(1, None)], multiset{}, s1.setting + multiset{k1}, s1.log + [log[1]]);
    events := FirstRequest(digest, 10, s1, 10.0, "agent", "u", s2, [], s2);
    events := FirstRequest(digest, 10, Idle(0.0), 9.0, "agent", "u", s1, events, s2);
    TwoAllowed(s2.log, digest("u"));
  }

  lemma TwoAllowed(log: seq<Entry>, d: string)
    requires log == [Entry(Key("agent", d, 0), 9.0, 1), Entry(Key("agent", d, 1), 10.0, 1)]
    ensures AllowedSince(10, 1, log, "agent", d, 9.0) == 2
  {
    assert log[..1] == [log[0]] && log[..1][..0] == [];
    assert AllowedSince(10, 1, log[..1], "agent", d, 9.0) == 1;
  }

  /** The requests of one identity that have read the clock in the windows 0 to `n` - 1. */
  function Pending(scope: string, d: string, n: nat): multiset<Key> {
    if n == 0 then multiset{} else Pending(scope, d, n - 1) + multiset{Key(scope, d, n - 1)}
  }

  /** `n` increments of one identity at time `t`, each of which created its counter. */
  ghost predicate AllAtOnce(log: seq<Entry>, scope: string, d: string, n: nat, t: real) {
    && |log| == n
    && forall i :: 0 <= i < n ==> log[i] == Entry(Key(scope, d, log[i].key.window), t, 1)
  }

  /** A request that reads the clock at the start of a window reads that window. */
  lemma WindowOfStart(seconds: nat, window: int)
    requires seconds > 0
    ensures WindowOf(seconds, WindowStart(seconds, window)) == window
  {
    var t := WindowStart(seconds, window);
    var read := WindowOf(seconds, t);
    WindowHolds(seconds, t);
    WindowsMeet(seconds, read);
    WindowsMeet(seconds, window);
    if read < window { LaterWindow(seconds, read + 1, window); }
    if read > window { LaterWindow(seconds, window + 1, read); }
  }

  lemma {:induction false} OneMoreAtOnce(scope: string, d: string, s: State, n: nat, total: nat)
    requires 0 < n <= total && s.reading == Pending(scope, d, n)
    requires forall key :: key in s.store ==> key.window >= n
    requires AllAtOnce(s.log, scope, d, total - n, s.now)
    ensures var key := Key(scope, d, n - 1);
      && key in s.reading
      && var next := Counted(s, key);
      && next.now == s.now && next.reading == Pending(scope, d, n - 1)
      && (forall other :: other in next.store ==> other.window >= n - 1)
      && AllAtOnce(next.log, scope, d, total - n + 1, s.now)
  {
    var key := Key(scope, d, n - 1);
    assert key in s.reading && key !in s.store;
    assert Counted(s, key).log == s.log + [Entry(key, s.now, 1)];
  }

  lemma {:induction false} IncrementAll(digest: string -> string, seconds: nat, scope: string, d: string, s: State,
                                        n: nat, total: nat)
    returns (events: seq<Event>, last: State)
    requires seconds > 0 && n <= total && s.reading == Pending(scope, d, n)
    requires forall key :: key in s.store ==> key.window >= n
    requires AllAtOnce(s.log, scope, d, total - n, s.now)
    ensures IsRun(digest, seconds, s, events) && After(digest, seconds, s, events) == last
    ensures AllAtOnce(last.log, scope, d, total, s.now)
    decreases n
  {
    if n == 0 {
      events, last := [], s;
    } else {
      var key := Key(scope, d, n - 1);
      var next := Counted(s, key);
      OneMoreAtOnce(scope, d, s, n, total);
      events, last := IncrementAll(digest, seconds, scope, d, next, n - 1, total);
      Prepend(digest, seconds, s, Increment(key), next, events, last);
      events := [Increment(key)] + events;
    }
  }

  lemma {:induction false} ReadAll(digest: string -> string, seconds: nat, scope: string, identity: string, s: State,
                                   i: nat, n: nat)
    returns (events: seq<Event>, last: State)
    requires seconds > 0 && i <= n && s.reading == Pending(scope, digest(identity), i)
    requires s.store == map[] && s.log == [] && s.now <= WindowStart(seconds, i)
    ensures IsRun(digest, seconds, s, events) && After(digest, seconds, s, events) == last
    ensures AllAtOnce(last.log, scope, digest(identity), n, WindowStart(seconds, n))
    decreases n - i
  {
    var t := WindowStart(seconds, i);
    var s1 := s.(now := t);
    if i == n {
      events, last := IncrementAll(digest, seconds, scope, digest(identity), s1, n, n);
    } else {
      WindowOfStart(seconds, i);
      WindowsMeet(seconds, i);
      var s2 := s1.(reading := Pending(scope, digest(identity), i + 1));
      events, last := ReadAll(digest, seconds, scope, identity, s2, i + 1, n);
      Prepend(digest, seconds, s1, ReadClock(scope, identity), s2, events, last);
      events := [ReadClock(scope, identity)] + events;
    }
    Prepend(digest, seconds, s, Advance(t), s1, events, last);
    events := [Advance(t)] + events;
  }

  /** Late increments pile up: for every number, a run in which that many requests of one identity
      are each the first of their counter, and so allowed under any limit, at one instant. */
  lemma LateOnesPileUp(digest: string -> string, seconds: nat, scope: string, identity: string, n: nat)
    returns (events: seq<Event>)
    requires seconds > 0
    ensures IsRun(digest, seconds, Idle(0.0), events)
    ensures var log := After(digest, seconds, Idle(0.0), events).log;
      AllAtOnce(log, scope, digest(identity), n, WindowStart(seconds, n))
  {
    var last;
    events, last := ReadAll(digest, seconds, scope, identity, Idle(0.0), 0, n);
  }

  /** A request that reads the clock in one window and increments after its end escapes the
      limit: the counter may have expired by then. With limit 1, both requests of the one
      window are allowed. */
  lemma StragglersEscape(digest: string -> string) returns (events: seq<Event>)
    ensures IsRun(digest, 10, Idle(0.0), events)
    ensures var log := After(digest, 10, Idle(0.0), events).log;
      |log| == 2 && log[0].key == log[1].key && log[0].number == log[1].number == 1 && !InTime(10, log[1])
  {
    var k := Key("agent", digest("u"), 0);
    assert WindowOf(10, 0.0) == 0;
    var s1 := Idle(0.0).(reading := multiset{k});
    var s2 := Idle(0.0).(reading := multiset{k, k});
    var last;
    events, last := FirstOfTwo(digest, k, s2);
    Prepend(digest, 10, s1, ReadClock("agent", "u"), s2, events, last);
    events := [ReadClock("agent", "u")] + events;
    Prepend(digest, 10, Idle(0.0), ReadClock("agent", "u"), s1, events, last);
    events := [ReadClock("agent", "u")] + events;
  }

  lemma FirstCounted(digest: string -> string, k: Key, s: State, t: State)
    requires s == Idle(0.0).(reading := multiset{k, k})
    requires t == State(0.0, map[k := Counter(1, Some(10.0))], multiset{k}, multiset{}, [Entry(k, 0.0, 1)])
    ensures k in Counted(s, k).setting && Apply(digest, 10, Counted(s, k), SetExpiry(k)) == t
  {
    var s1 := Counted(s, k);
    assert s1.store[k] == Counter(1, None) && s1.log == [Entry(k, 0.0, 1)];
    assert multiset{k, k} - multiset{k} == multiset{k};
    assert s1.setting == multiset{k};
  }

  /** Of two that have read the same window, the first increments and sets the time to live. */
  lemma FirstOfTwo(digest: string -> string, k: Key, s: State) returns (events: seq<Event>, last: State)
    requires s == Idle(0.0).(reading := multiset{k, k})
    ensures IsRun(digest, 10, s, events) && After(digest, 10, s, events) == last
    ensures last.log == [Entry(k, 0.0, 1), Entry(k, 10.0, 1)]
  {
    var s1 := Counted(s, k);
    var s2 := State(0.0, map[k := Counter(1, Some(10.0))], multiset{k}, multiset{}, [Entry(k, 0.0, 1)]);
    FirstCounted(digest, k, s, s2);
    events, last := Straggler(digest, k, s2);
    Prepend(digest, 10, s1, SetExpiry(k), s2, events, last);
    events := [SetExpiry(k)] + events;
    Prepend(digest, 10, s, Increment(k), s1, events, last);
    events := [Increment(k)] + events;
  }

  /** The counter expires at the end of the window, and the late increment starts afresh. */
  lemma Straggler(digest: string -> string, k: Key, s: State) returns (events: seq<Event>, last: State)
    requires s == State(0.0, map[k := Counter(1, Some(10.0))], multiset{k}, multiset{}, [Entry(k, 0.0, 1)])
    ensures IsRun(digest, 10, s, events) && After(digest, 10, s, events) == last
    ensures last.log == [Entry(k, 0.0, 1), Entry(k, 10.0, 1)]
  {
    var s1 := s.(now := 10.0);
    last := Apply(digest, 10, s1, Increment(k));
    Prepend(digest, 10, s1, Increment(k), last, [], last);
    Prepend(digest, 10, s, Advance(10.0), s1, [Increment(k)], last);
    events := [Advance(10.0)] + [Increment(k)];
  }

  // ---- who shares a counter ----

  function IntText(n: int): string {
    if n < 0 then "-" + NatText(-n) else NatText(n)
  }

  /** The key as Redis sees it. */
  function KeyText(key: Key): string {
    "ratelimit:" + (key.scope + ":" + key.digest + ":" + IntText(key.window))
  }

  predicate NoColon(s: string) {
    forall i :: 0 <= i < |s| ==> s[i] != ':'
  }

  lemma NoLaterColon(a: string, b: string, k: nat)
    requires NoColon(b) && |a| < k <= |a| + |b|
    ensures (a + ":" + b)[k] != ':'
  {
    assert (a + ":" + b)[k] == b[k - |a| - 1];
  }

  /** A text is cut at its last colon in one way. */
  lemma LastColon(a: string, b: string, c: string, d: string)
    requires NoColon(b) && NoColon(d) && a + ":" + b == c + ":" + d
    ensures a == c && b == d
  {
    var s := a + ":" + b;
    if |a| < |c| { NoLaterColon(a, b, |c|); }
    if |c| < |a| { NoLaterColon(c, d, |a|); }
    assert s[|a|] == ':' && (c + ":" + d)[|c|] == ':';
    assert a == s[..|a|] && c == s[..|c|] && b == s[|a| + 1..] && d == s[|c| + 1..];
  }

  lemma IntTextTells(n: int, m: int)
    ensures NoColon(IntText(n)) && (IntText(n) == IntText(m) <==> n == m)
  {
    ValueOfNatText(if n < 0 then -n else n);
    ValueOfNatText(if m < 0 then -m else m);
    assert n < 0 ==> IntText(n)[0] == '-' && IntText(n)[1..] == NatText(-n);
    assert m < 0 ==> IntText(m)[0] == '-' && IntText(m)[1..] == NatText(-m);
  }

  /** Different keys have different texts, whatever the scopes are called. */
  lemma KeyTextTells(a: Key, b: Key)
    requires NoColon(a.digest) && NoColon(b.digest)
    ensures KeyText(a) == KeyText(b) <==> a == b
  {
    if KeyText(a) == KeyText(b) {
      var (x, y) := (a.scope + ":" + a.digest, b.scope + ":" + b.digest);
      IntTextTells(a.window, b.window);
      IntTextTells(b.window, a.window);
      assert KeyText(a)[|"ratelimit:"|..] == x + ":" + IntText(a.window);
      assert KeyText(b)[|"ratelimit:"|..] == y + ":" + IntText(b.window);
      LastColon(x, IntText(a.window), y, IntText(b.window));
      LastColon(a.scope, a.digest, b.scope, b.digest);
    }
  }

  ghost predicate Telling(digest: string -> string) {
    (forall x, y :: digest(x) == digest(y) ==> x == y) && forall x :: NoColon(digest(x))
  }

  predicate InWindow(seconds: nat, t: real, w: int) {
    WindowStart(seconds, w) <= t < WindowEnd(seconds, w)
  }

  ghost predicate SameWindow(seconds: nat, t: real, u: real) {
    exists w :: InWindow(seconds, t, w) && InWindow(seconds, u, w)
  }

  lemma WindowIsUnique(seconds: nat, t: real, w: int)
    requires seconds > 0
    ensures InWindow(seconds, t, w) <==> WindowOf(seconds, t) == w
  {
    var v := WindowOf(seconds, t);
    WindowHolds(seconds, t);
    WindowsMeet(seconds, v);
    WindowsMeet(seconds, w);
    if v < w { LaterWindow(seconds, v + 1, w); }
    if w < v { LaterWindow(seconds, w + 1, v); }
  }

  /** Two requests count on the same counter if and only if they are of the same scope and the same
      identity, and read the clock in the same window. */
  lemma SharesCounterIff(digest: string -> string, seconds: nat, scope: string, identity: string, t: real,
                         scope': string, identity': string, t': real)
    requires seconds > 0 && Telling(digest)
    ensures var (a, b) := (KeyOf(digest, scope, identity, seconds, t), KeyOf(digest, scope', identity', seconds, t'));
      KeyText(a) == KeyText(b) <==> scope == scope' && identity == identity' && SameWindow(seconds, t, t')
  {
    KeyTextTells(KeyOf(digest, scope, identity, seconds, t), KeyOf(digest, scope', identity', seconds, t'));
    WindowIsUnique(seconds, t, WindowOf(seconds, t));
    WindowIsUnique(seconds, t', WindowOf(seconds, t));
    if SameWindow(seconds, t, t') {
      var w :| InWindow(seconds, t, w) && InWindow(seconds, t', w);
      WindowIsUnique(seconds, t, w);
      WindowIsUnique(seconds, t', w);
    }
  }

  // ---- when Redis cannot be reached ----

  /** Signing in, sessions and requests without a scope of their own stay open, with the whole limit
      remaining; everything else is refused, with the wait the recovery suggests. */
  lemma OpenExactlyFor(scope: string, limit: nat, retry: nat)
    ensures var d := UnavailableDecision(scope, limit, retry);
      && (d.allowed <==> scope == "auth" || scope == "session" || scope == "default")
      && (d.status.Degraded? <==> d.allowed) && (d.status.Unavailable? <==> !d.allowed)
      && d.remaining == (if d.allowed then limit else 0) && d.retryAfter == (if d.allowed then 0 else retry)
  {
  }
}
