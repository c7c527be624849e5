/** What the leases promise in every run: the limits, the returned waits, and the bounded wait of a
    caller. */
module AgentLeaseLaws {
  import opened Options
  import opened AgentLeases

  // ---- what the leases promise ----

  /** Over every run from the empty store: both limits hold for the live leases, the live
      global set is the disjoint union of the live user sets with equal scores, and no
      key can expire while it holds a live member. */
  lemma LimitsHoldOnEveryRun(start: int, c: Config, events: seq<Event>)
    requires ValidConfig(c) && IsRun(Store(start, Empty, map[], map[]), c, events)
    ensures var s := After(Store(start, Empty, map[], map[]), c, events);
      && |LiveGlobal(s)| <= c.globalLimit
      && (forall user :: |LiveOf(s, user)| <= c.userLimit)
      && (forall user :: LiveOf(s, user) == OwnedBy(s, user))
      && (forall id :: id in LiveGlobal(s) ==> id in s.issued)
      && (KeyExpired(s.global, s.now) ==> LiveGlobal(s) == map[])
      && (forall user :: KeyExpired(UserSet(s.users, user), s.now) ==> LiveOf(s, user) == map[])
  {
    InitInv(start, c);
    RunKeepsInv(Store(start, Empty, map[], map[]), c, events);
    var s := After(Store(start, Empty, map[], map[]), c, events);
    forall user
      ensures |LiveOf(s, user)| <= c.userLimit
      ensures LiveOf(s, user) == OwnedBy(s, user)
      ensures KeyExpired(UserSet(s.users, user), s.now) ==> LiveOf(s, user) == map[]
    {
      assert UserOk(s, c, user);
    }
  }

  /** The live global leases issued to one user. */
  ghost function OwnedBy(s: Store, user: User): map<Id, int> {
    map id | id in LiveGlobal(s) && id in s.issued && s.issued[id] == user :: LiveGlobal(s)[id]
  }

  /** The script grants a lease if and only if both live counts are below their limits, a
      refusal names the user's limit first; a grant adds one lease that is live for the
      whole ttl, a refusal changes no live set, and no other user is touched. */
  lemma GrantedIffBothBelowLimit(s: Store, c: Config, user: User, id: Id)
    requires ValidConfig(c)
    ensures var (t, reply) := Acquired(s, c, user, id);
      && (reply.Granted? <==> |LiveOf(s, user)| < c.userLimit && |LiveGlobal(s)| < c.globalLimit)
      && (reply.UserBusy? <==> |LiveOf(s, user)| >= c.userLimit)
      && (reply.Granted? ==>
            && LiveGlobal(t) == LiveGlobal(s)[id := s.now + c.ttl]
            && LiveOf(t, user) == LiveOf(s, user)[id := s.now + c.ttl])
      && (!reply.Granted? ==> LiveGlobal(t) == LiveGlobal(s) && LiveOf(t, user) == LiveOf(s, user))
      && (forall other :: other != user ==> UserSet(t.users, other) == UserSet(s.users, other))
  {
    AcquireIsPurgeThenAdd(s, c, user, id);
    PurgedLive(s, user, user);
    LeaseIsLive(Purged(s, user), c, user, id);
    LiveOfPurged(s.global, s.now);
    LiveOfPurged(UserSet(s.users, user), s.now);
  }

  lemma LeaseIsLive(p: Store, c: Config, user: User, id: Id)
    requires c.ttl > 0
    ensures LiveGlobal(WithLease(p, c, user, id)) == LiveGlobal(p)[id := p.now + c.ttl]
    ensures LiveOf(WithLease(p, c, user, id), user) == LiveOf(p, user)[id := p.now + c.ttl]
  {
    LiveOfAdded(p.global, id, p.now + c.ttl, p.now);
    LiveOfAdded(UserSet(p.users, user), id, p.now + c.ttl, p.now);
  }

  lemma PurgedLive(s: Store, user: User, other: User)
    ensures LiveGlobal(Purged(s, user)) == LiveGlobal(s)
    ensures LiveOf(Purged(s, user), other) == LiveOf(s, other)
  {
    LiveOfPurged(s.global, s.now);
    LiveOfPurged(UserSet(s.users, user), s.now);
  }

  /** Releasing what was just acquired gives back every live set as it was before. */
  lemma ReleaseUndoesAcquire(s: Store, c: Config, user: User, id: Id, other: User)
    requires id !in s.global.scores && id !in UserSet(s.users, user).scores
    requires Acquired(s, c, user, id).1.Granted?
    ensures var t := Released(Acquired(s, c, user, id).0, user, id);
      LiveGlobal(t) == LiveGlobal(s) && LiveOf(t, other) == LiveOf(s, other)
  {
    var p := Purged(s, user);
    AcquireIsPurgeThenAdd(s, c, user, id);
    PurgedLive(s, user, other);
    LiveOfPurged(s.global, s.now);
    LiveOfPurged(UserSet(s.users, user), s.now);
    ReleaseUndoesWithLease(p, c, user, id, other);
  }

  lemma ReleaseUndoesWithLease(p: Store, c: Config, user: User, id: Id, other: User)
    requires id !in p.global.scores && id !in UserSet(p.users, user).scores
    ensures var t := Released(WithLease(p, c, user, id), user, id);
      LiveGlobal(t) == LiveGlobal(p) && LiveOf(t, other) == LiveOf(p, other)
  {
    var at := p.now + c.ttl;
    RemoveUndoesAdd(p.global, id, at, p.now);
    RemoveUndoesAdd(UserSet(p.users, user), id, at, p.now);
    var t := Released(WithLease(p, c, user, id), user, id);
    assert UserSet(t.users, other) == if other == user
      then Remove(ExpireAt(Add(UserSet(p.users, user), id, at), at), id) else UserSet(p.users, other);
  }

  lemma RemoveUndoesAdd(z: ZSet, id: Id, at: int, now: int)
    requires id !in z.scores
    ensures Live(Remove(ExpireAt(Add(z, id, at), at), id), now) == Live(z, now)
  {
    assert z.scores[id := at] - {id} == z.scores;
  }

  // ---- the returned wait ----

  ghost predicate Quiet(events: seq<Event>) {
    forall i :: 0 <= i < |events| ==> !events[i].Acquire?
  }

  lemma {:induction false} QuietRunShrinks(s: Store, c: Config, events: seq<Event>)
    requires ValidConfig(c) && Inv(s, c) && IsRun(s, c, events) && Quiet(events)
    ensures Inv(After(s, c, events), c) && OnlyShrinks(s, After(s, c, events))
    decreases |events|
  {
    if events != [] {
      StepKeepsInv(s, c, events[0]);
      QuietRunShrinks(Apply(s, c, events[0]), c, events[1..]);
      ShrinkTransitive(s, Apply(s, c, events[0]), After(s, c, events));
    }
  }

  /** One member that has died in between leaves room. */
  lemma DeadMemberLeavesRoom(before: ZSet, now: int, after: ZSet, later: int, first: Id)
    requires Shrinks(before, now, after, later)
    requires first in before.scores && now < before.scores[first] <= later
    ensures |Live(after, later)| < |Live(before, now)|
  {
    assert first in Live(before, now) && first !in Live(after, later);
    SubmapSize(Live(after, later), Live(before, now));
  }

  ghost predicate Refused(reply: Reply, retry: int) {
    reply == UserBusy(retry) || reply == GlobalBusy(retry)
  }

  /** The member whose expiry the returned wait points at. */
  lemma RefusalNamesFirst(s: Store, c: Config, user: User, id: Id) returns (first: Id)
    requires ValidConfig(c) && Inv(s, c) && !Acquired(s, c, user, id).1.Granted?
    ensures var (p, reply) := Acquired(s, c, user, id);
      var z := if reply.UserBusy? then UserSet(p.users, user).scores else p.global.scores;
      && p == Purged(s, user) && IsFirst(z, first) && z[first] > s.now && z[first] == s.now + reply.retryMs
      && |z| >= (if reply.UserBusy? then c.userLimit else c.globalLimit)
  {
    AcquireIsPurgeThenAdd(s, c, user, id);
    PurgeKeepsInv(s, c, user);
    var (p, reply) := Acquired(s, c, user, id);
    var z := if reply.UserBusy? then UserSet(p.users, user).scores else p.global.scores;
    first :| IsFirst(z, first) && z[first] == FirstScore(z);
  }

  /** For either refusal: if nobody else acquires meanwhile, an acquire after the returned
      wait succeeds. A user refusal needs the partition: the user's first lease is also
      one of the global ones, so its death makes room in both sets. */
  lemma WaitingSuffices(s: Store, c: Config, user: User, id: Id, retry: int, events: seq<Event>)
    requires ValidConfig(c) && Inv(s, c) && id !in s.issued
    requires Refused(Acquired(s, c, user, id).1, retry)
    requires IsRun(Acquired(s, c, user, id).0, c, events) && Quiet(events)
    requires After(Acquired(s, c, user, id).0, c, events).now >= s.now + retry
    ensures Acquired(After(Acquired(s, c, user, id).0, c, events), c, user, id).1.Granted?
  {
    var (p, reply) := Acquired(s, c, user, id);
    var first := RefusalNamesFirst(s, c, user, id);
    AcquireKeepsInv(s, c, user, id);
    QuietRunShrinks(p, c, events);
    var t := After(p, c, events);
    assert UserOk(p, c, user);
    assert Shrinks(UserSet(p.users, user), p.now, UserSet(t.users, user), t.now);
    if reply.UserBusy? {
      DeadMemberLeavesRoom(UserSet(p.users, user), p.now, UserSet(t.users, user), t.now, first);
      assert first in p.global.scores;
    } else {
      AcquireIsPurgeThenAdd(s, c, user, id);
      PurgeKeepsInv(s, c, user);
      ShrinkSize(UserSet(p.users, user), p.now, UserSet(t.users, user), t.now);
    }
    DeadMemberLeavesRoom(p.global, p.now, t.global, t.now, first);
    AcquireIsPurgeThenAdd(t, c, user, id);
  }

  ghost predicate OnlyTimePasses(events: seq<Event>) {
    forall i :: 0 <= i < |events| ==> !events[i].Acquire? && !events[i].Release?
  }

  /** Members whose score is still ahead of the clock survive. */
  ghost predicate Survive(before: ZSet, after: ZSet, later: int) {
    forall id :: id in before.scores && before.scores[id] > later ==>
      id in after.scores && after.scores[id] == before.scores[id]
  }

  lemma {:induction false} TimeAloneKeepsMembers(s: Store, c: Config, user: User, events: seq<Event>)
    requires ValidConfig(c) && Inv(s, c) && IsRun(s, c, events) && OnlyTimePasses(events)
    ensures var t := After(s, c, events);
      && s.now <= t.now && Survive(s.global, t.global, t.now)
      && Survive(UserSet(s.users, user), UserSet(t.users, user), t.now)
    decreases |events|
  {
    if events != [] {
      var e := events[0];
      StepKeepsInv(s, c, e);
      TimeAloneKeepsMembers(Apply(s, c, e), c, user, events[1..]);
      assert UserOk(s, c, user);
    }
  }

  /** As long as the first member is ahead of the clock, all are. */
  lemma StillFull(before: ZSet, after: ZSet, later: int, first: Id)
    requires Survive(before, after, later) && IsFirst(before.scores, first) && before.scores[first] > later
    ensures |Live(after, later)| >= |before.scores|
  {
    SubmapSize(before.scores, Live(after, later));
  }

  /** The wait is exact: without a release or an acquire, every earlier retry is refused. */
  lemma WaitingLessIsRefused(s: Store, c: Config, user: User, id: Id, retry: int, events: seq<Event>)
    requires ValidConfig(c) && Inv(s, c) && id !in s.issued
    requires Refused(Acquired(s, c, user, id).1, retry)
    requires IsRun(Acquired(s, c, user, id).0, c, events) && OnlyTimePasses(events)
    requires After(Acquired(s, c, user, id).0, c, events).now < s.now + retry
    ensures !Acquired(After(Acquired(s, c, user, id).0, c, events), c, user, id).1.Granted?
  {
    var (p, reply) := Acquired(s, c, user, id);
    var first := RefusalNamesFirst(s, c, user, id);
    AcquireKeepsInv(s, c, user, id);
    TimeAloneKeepsMembers(p, c, user, events);
    var t := After(p, c, events);
    AcquireIsPurgeThenAdd(t, c, user, id);
    if reply.UserBusy? {
      StillFull(UserSet(p.users, user), UserSet(t.users, user), t.now, first);
    } else {
      StillFull(p.global, t.global, t.now, first);
    }
  }

  /** `max(1, math.ceil(retry_ms / 1000))`: the client's wait in whole seconds. */
  function RetrySeconds(retryMs: int): int {
    var up := (retryMs + 999) / 1000;
    if up > 1 then up else 1
  }

  /** Rounding up keeps the guarantee of `WaitingSuffices` and overshoots by under a second. */
  lemma RoundingKeepsTheWait(retryMs: int)
    requires retryMs >= 1
    ensures RetrySeconds(retryMs) >= 1
    ensures retryMs <= 1000 * RetrySeconds(retryMs) < retryMs + 1000
  {
  }

  /** A key that reaches its deadline is dropped as a whole, and no live set loses anything by it. */
  lemma ExpiredKeyIsDropped(s: Store, c: Config, user: User)
    requires Inv(s, c)
    ensures s.global.deadline == Some(s.now) ==> Enabled(s, GlobalKeyExpires)
    ensures UserSet(s.users, user).deadline == Some(s.now) ==> Enabled(s, UserKeyExpires(user))
    ensures Enabled(s, GlobalKeyExpires) ==> var t := Apply(s, c, GlobalKeyExpires);
      t.global == Empty && t.users == s.users && LiveGlobal(t) == LiveGlobal(s)
    ensures Enabled(s, UserKeyExpires(user)) ==> var t := Apply(s, c, UserKeyExpires(user));
      UserSet(t.users, user) == Empty && t.global == s.global && LiveOf(t, user) == LiveOf(s, user)
  {
    if Enabled(s, GlobalKeyExpires) { GlobalExpiryKeepsInv(s, c); }
    if Enabled(s, UserKeyExpires(user)) { UserExpiryKeepsInv(s, c, user); }
  }

  // ---- the bounded wait of `acquire` and `acquire_async` ----

  /** One sleep of the waiting caller, which may last longer than asked for. The contract leaves room
      for anything that other callers and key expiry may do meanwhile; they cannot use the caller's
      own lease id. */
  method Sleep(store: LeaseStore, c: Config, ms: nat, ghost mine: Id) returns (ghost late: nat)
    requires Inv(store.View(), c) && mine !in store.issued
    modifies store
    ensures Inv(store.View(), c) && mine !in store.issued
    ensures store.now == old(store.now) + ms + late
  {
    late := 0;
    TickKeepsInv(store.View(), c, ms);
    store.now := store.now + ms;
  }

  /** How one attempt goes: its script is answered, or there is no client, or the attempt ends with
      an error although the script may have been carried out. */
  datatype Attempt = Answered | NoClient | Fails(landed: bool)

  /** How `acquire` ends: with a lease, with `AgentBusyError`, or with
      `AgentProtectionUnavailableError`. */
  datatype Exit = Lease(expiresAt: int) | Busy(retryAfter: int) | Unavailable

  /** The lease is held: live in the user's set and in the global one. */
  ghost predicate Holds(s: Store, user: User, id: Id, expiresAt: int) {
    && id in s.issued && s.issued[id] == user
    && id in LiveOf(s, user) && LiveOf(s, user)[id] == expiresAt
    && id in LiveGlobal(s) && LiveGlobal(s)[id] == expiresAt
  }

  /** The id holds no lease, and an attempt at this moment would be refused with this wait. */
  ghost predicate RefusedNow(s: Store, c: Config, user: User, id: Id, retry: int) {
    id !in s.issued && Acquired(s, c, user, id).0 == s && Refused(Acquired(s, c, user, id).1, retry)
  }

  /** The first member of a set does not depend on how it was found. */
  lemma RefusedAgain(s: Store, c: Config, user: User, id: Id)
    requires ValidConfig(c) && !Acquired(s, c, user, id).1.Granted?
    ensures Acquired(Acquired(s, c, user, id).0, c, user, id) == Acquired(s, c, user, id)
  {
    LiveOfPurged(s.global, s.now);
    LiveOfPurged(UserSet(s.users, user), s.now);
    var p := Acquired(s, c, user, id).0;
    assert Purge(p.global, p.now) == p.global && Purge(UserSet(p.users, user), p.now) == UserSet(p.users, user);
    assert p.users[user := UserSet(p.users, user)] == p.users;
  }

  lemma AttemptKeepsInv(s: Store, c: Config, user: User, id: Id)
    requires ValidConfig(c) && Inv(s, c) && id !in s.issued
    ensures Inv(Acquired(s, c, user, id).0, c)
    ensures var (t, reply) := Acquired(s, c, user, id);
      if reply.Granted? then Holds(t, user, id, reply.expiresAt) && reply.expiresAt == s.now + c.ttl
      else RefusedNow(t, c, user, id, reply.retryMs) && reply.retryMs >= 1
  {
    AcquireKeepsInv(s, c, user, id);
    GrantedIffBothBelowLimit(s, c, user, id);
    var (t, reply) := Acquired(s, c, user, id);
    if !reply.Granted? {
      RefusedAgain(s, c, user, id);
      var first := RefusalNamesFirst(s, c, user, id);
    }
  }

  /** `_try_acquire`; None is the error that Redis cannot protect the limits. */
  method TryAcquire(store: LeaseStore, c: Config, user: User, id: Id, attempt: Attempt) returns (reply: Option<Reply>)
    requires ValidConfig(c) && Inv(store.View(), c) && id !in store.issued
    modifies store
    ensures reply.Some? <==> attempt.Answered?
    ensures store.now == old(store.now) && Inv(store.View(), c)
    ensures reply.Some? && reply.value.Granted? ==>
      Holds(store.View(), user, id, reply.value.expiresAt) && reply.value.expiresAt == store.now + c.ttl
    ensures reply.Some? && !reply.value.Granted? ==>
      reply.value.retryMs >= 1 && RefusedNow(store.View(), c, user, id, reply.value.retryMs)
    ensures reply.None? && id in store.issued ==>
      attempt == Fails(true) && Holds(store.View(), user, id, store.now + c.ttl)
  {
    AttemptKeepsInv(store.View(), c, user, id);
    reply := None;
    match attempt {
      case Answered =>
        var answer := store.AcquireScript(c, user, id);
        reply := Some(answer);
      case Fails(true) =>
        var answer := store.AcquireScript(c, user, id);
      case _ =>
    }
  }

  /** An attempt at this moment would be refused with a wait that comes to so many whole seconds. */
  ghost predicate BusyFor(s: Store, c: Config, user: User, id: Id, seconds: int) {
    exists retry :: RefusedNow(s, c, user, id, retry) && retry <= 1000 * seconds < retry + 1000
  }

  /** What the caller knows at the end. Busy is said only when the script was refused at or after the
      end of the window, so that another attempt at that very moment would be refused too. After
      an error there is no lease, unless that of a script whose answer was lost; it takes up its
      slot until its time is over. */
  ghost predicate ExitOk(s: Store, c: Config, user: User, id: Id, deadline: int, attempt: Attempt, exit: Exit) {
    && (exit.Unavailable? <==> !attempt.Answered?)
    && match exit
       case Lease(expiresAt) => Holds(s, user, id, expiresAt) && expiresAt == s.now + c.ttl
       case Busy(retryAfter) => s.now >= deadline && BusyFor(s, c, user, id, retryAfter)
       case Unavailable => id in s.issued ==> attempt == Fails(true) && Holds(s, user, id, s.now + c.ttl)
  }

  /** Before its deadline a refused caller tries again after the polling interval, or at the deadline
      if that comes first, and later only by what its sleep was late. */
  ghost predicate IsNext(time: int, next: int, deadline: int, pollMs: nat, late: nat) {
    && time < deadline
    && next - late <= deadline && next - late <= time + pollMs
    && (next - late == deadline || next - late == time + pollMs)
  }

  ghost predicate AreAttempts(times: seq<int>, late: seq<nat>, start: int, deadline: int, pollMs: nat) {
    && |times| == |late| + 1 && times[0] == start
    && forall k :: 0 <= k < |late| ==> IsNext(times[k], times[k + 1], deadline, pollMs, late[k])
  }

  ghost predicate AllAnswered(attempts: nat -> Attempt, n: nat) {
    forall k :: 0 <= k < n ==> attempts(k).Answered?
  }

  lemma OneMoreAnswered(attempts: nat -> Attempt, n: nat)
    requires AllAnswered(attempts, n) && attempts(n).Answered?
    ensures AllAnswered(attempts, n + 1)
  {
  }

  lemma NextAttempt(times: seq<int>, late: seq<nat>, start: int, deadline: int, pollMs: nat, next: int, overslept: nat)
    returns (times': seq<int>, late': seq<nat>)
    requires AreAttempts(times, late, start, deadline, pollMs)
    requires IsNext(times[|late|], next, deadline, pollMs, overslept) && pollMs > 0
    ensures |late'| == |late| + 1
    ensures AreAttempts(times', late', start, deadline, pollMs) && times'[|late'|] == next
    ensures times[|late|] < next && times[|late|] < deadline
  {
    times', late' := times + [next], late + [overslept];
  }

  /** One turn of the loop. */
  method Poll(store: LeaseStore, c: Config, user: User, id: Id, deadline: int, pollMs: nat, attempt: Attempt)
    returns (exit: Option<Exit>, ghost late: nat)
    requires ValidConfig(c) && Inv(store.View(), c) && id !in store.issued && pollMs > 0
    modifies store
    ensures Inv(store.View(), c)
    ensures exit.Some? ==> ExitOk(store.View(), c, user, id, deadline, attempt, exit.value)
    ensures exit.Some? ==> store.now == old(store.now)
    ensures exit.None? ==>
      attempt.Answered? && id !in store.issued && IsNext(old(store.now), store.now, deadline, pollMs, late)
  {
    late := 0;
    var reply := TryAcquire(store, c, user, id, attempt);
    if reply.None? {
      return Some(Unavailable), 0;
    }
    if reply.value.Granted? {
      return Some(Lease(reply.value.expiresAt)), 0;
    }
    var remaining := deadline - store.now;
    if remaining <= 0 {
      RoundingKeepsTheWait(reply.value.retryMs);
      return Some(Busy(RetrySeconds(reply.value.retryMs))), 0;
    }
    late := Sleep(store, c, if pollMs < remaining then pollMs else remaining, id);
    exit := None;
  }

  /** Polls until a lease is granted, the window has passed, or an attempt ends with an error. */
  method AcquireWithin(store: LeaseStore, c: Config, user: User, id: Id, waitMs: nat, pollMs: nat,
                       attempts: nat -> Attempt)
    returns (exit: Exit, ghost times: seq<int>, ghost late: seq<nat>)
    requires ValidConfig(c) && Inv(store.View(), c) && id !in store.issued && pollMs > 0
    modifies store
    ensures Inv(store.View(), c)
    ensures AreAttempts(times, late, old(store.now), old(store.now) + waitMs, pollMs)
    ensures store.now == times[|late|]
    ensures ExitOk(store.View(), c, user, id, old(store.now) + waitMs, attempts(|late|), exit)
    ensures AllAnswered(attempts, |late|)
  {
    var deadline := store.now + waitMs;
    times, late := [store.now], [];
    var n := 0;
    while true
      invariant Inv(store.View(), c) && id !in store.issued
      invariant AreAttempts(times, late, deadline - waitMs, deadline, pollMs) && store.now == times[|late|]
      invariant n == |late| && AllAnswered(attempts, n)
      decreases if store.now < deadline then deadline - store.now else 0
    {
      var end;
      ghost var overslept;
      end, overslept := Poll(store, c, user, id, deadline, pollMs, attempts(n));
      if end.Some? {
        return end.value, times, late;
      }
      times, late := NextAttempt(times, late, deadline - waitMs, deadline, pollMs, store.now, overslept);
      OneMoreAnswered(attempts, n);
      n := n + 1;
    }
  }

  /** A caller that is told to come back in so many seconds and does so, while nobody else acquires,
      gets a lease … */
  lemma ObeyingSuffices(s: Store, c: Config, user: User, id: Id, seconds: int, events: seq<Event>)
    requires ValidConfig(c) && Inv(s, c) && BusyFor(s, c, user, id, seconds)
    requires IsRun(s, c, events) && Quiet(events) && After(s, c, events).now >= s.now + 1000 * seconds
    ensures Acquired(After(s, c, events), c, user, id).1.Granted?
  {
    var retry :| RefusedNow(s, c, user, id, retry) && retry <= 1000 * seconds < retry + 1000;
    WaitingSuffices(s, c, user, id, retry, events);
  }

  /** … which needs nothing but that the time passes … */
  lemma WaitingIsEnough(s: Store, c: Config, user: User, id: Id, seconds: int)
    requires ValidConfig(c) && Inv(s, c) && BusyFor(s, c, user, id, seconds) && seconds >= 0
    ensures Enabled(s, Tick(1000 * seconds))
    ensures Acquired(Apply(s, c, Tick(1000 * seconds)), c, user, id).1.Granted?
  {
    var wait := [Tick(1000 * seconds)];
    assert After(Apply(s, c, wait[0]), c, wait[1..]) == Apply(s, c, wait[0]);
    ObeyingSuffices(s, c, user, id, seconds, wait);
  }

  /** … and a whole second less would not do, if only time passes. */
  lemma ASecondLessIsRefused(s: Store, c: Config, user: User, id: Id, seconds: int, events: seq<Event>)
    requires ValidConfig(c) && Inv(s, c) && BusyFor(s, c, user, id, seconds)
    requires IsRun(s, c, events) && OnlyTimePasses(events)
    requires After(s, c, events).now <= s.now + 1000 * (seconds - 1)
    ensures !Acquired(After(s, c, events), c, user, id).1.Granted?
  {
    var retry :| RefusedNow(s, c, user, id, retry) && retry <= 1000 * seconds < retry + 1000;
    WaitingLessIsRefused(s, c, user, id, retry, events);
  }
}
