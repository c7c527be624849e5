/** What becomes of each request: none is counted twice, and each creation of a counter has its time to
    live to set once. */
module RateLimitRequests {
  import opened RateLimits
  import opened RateLimitLaws

  function One(b: bool): nat {
    if b then 1 else 0
  }

  /** How many requests came in that read the clock in this key's window. */
  function Arrivals(digest: string -> string, seconds: nat, now: real, events: seq<Event>, key: Key): nat
    requires seconds > 0
    decreases |events|
  {
    if events == [] then 0
    else Arrivals(digest, seconds, TimeAfter(now, events[0]), events[1..], key)
         + Arrives(digest, seconds, now, events[0], key)
  }

  function TimeAfter(now: real, e: Event): real {
    if e.Advance? then e.to else now
  }

  function Arrives(digest: string -> string, seconds: nat, now: real, e: Event, key: Key): nat
    requires seconds > 0
  {
    match e
    case ReadClock(scope, identity) => One(KeyOf(digest, scope, identity, seconds, now) == key)
    case _ => 0
  }

  /** How many of them ended before they were counted … */
  function Lost(events: seq<Event>, key: Key): nat
    decreases |events|
  {
    if events == [] then 0 else Lost(events[1..], key) + One(events[0] == Lose(key))
  }

  /** … and how many came to set a time to live, or ended before. */
  function Settled(events: seq<Event>, key: Key): nat
    decreases |events|
  {
    if events == [] then 0
    else Settled(events[1..], key) + One(events[0] == SetExpiry(key) || events[0] == Abandon(key))
  }

  lemma LogGrows(log: seq<Entry>, e: Entry, key: Key)
    ensures Carried(log + [e], key) == Carried(log, key) + One(e.key == key)
    ensures Creations(log + [e], key) == Creations(log, key) + One(e.key == key && e.number == 1)
  {
    assert (log + [e])[..|log|] == log;
  }

  ghost predicate Balanced(s: State, t: State, arrived: nat, lost: nat, settled: nat, key: Key) {
    && s.reading[key] + Carried(s.log, key) + arrived == t.reading[key] + Carried(t.log, key) + lost
    && s.setting[key] + Creations(t.log, key) == t.setting[key] + Creations(s.log, key) + settled
  }

  lemma StepBalances(digest: string -> string, seconds: nat, s: State, e: Event, key: Key)
    requires seconds > 0 && Enabled(s, e)
    ensures Balanced(s, Apply(digest, seconds, s, e), Arrives(digest, seconds, s.now, e, key), One(e == Lose(key)),
                     One(e == SetExpiry(key) || e == Abandon(key)), key)
    ensures Apply(digest, seconds, s, e).now == TimeAfter(s.now, e)
  {
    if e.Increment? { LogGrows(s.log, Entry(e.key, s.now, CountAt(s.store, e.key, s.now) + 1), key); }
  }

  lemma {:induction false} RunBalances(digest: string -> string, seconds: nat, s: State, events: seq<Event>, key: Key)
    requires seconds > 0 && IsRun(digest, seconds, s, events)
    ensures Balanced(s, After(digest, seconds, s, events), Arrivals(digest, seconds, s.now, events, key),
                     Lost(events, key), Settled(events, key), key)
    decreases |events|
  {
    if events != [] {
      StepBalances(digest, seconds, s, events[0], key);
      RunBalances(digest, seconds, Apply(digest, seconds, s, events[0]), events[1..], key);
    }
  }

  /** In every run each request is still on its way, has been counted once, or was lost before; and
      each creation of a counter has its time to live still to be set, or was dealt with once. */
  lemma EveryRequestOnce(digest: string -> string, seconds: nat, start: real, events: seq<Event>, key: Key)
    requires seconds > 0 && IsRun(digest, seconds, Idle(start), events)
    ensures var s := After(digest, seconds, Idle(start), events);
      && Arrivals(digest, seconds, start, events, key) == s.reading[key] + Carried(s.log, key) + Lost(events, key)
      && Creations(s.log, key) == s.setting[key] + Settled(events, key)
  {
    RunBalances(digest, seconds, Idle(start), events, key);
  }
}
