/** The Redis concurrency leases: two Lua scripts over one global sorted set and one
    sorted set per user (`agent_lease.py`).

    A script is one atomic step. Between scripts the Redis clock may advance and a key may
    expire as a whole. Lease ids are fresh (uuid4) and a lease is released under the subject
    that acquired it. An absent key is the empty sorted set. */
module AgentLeases {
  import opened Options

  type Id = nat
  type User = nat

  datatype ZSet = ZSet(scores: map<Id, int>, deadline: Option<int>)

  const Empty := ZSet(map[], None)

  datatype Config = Config(globalLimit: nat, userLimit: nat, ttl: int)

  ghost predicate ValidConfig(c: Config) {
    c.globalLimit > 0 && c.userLimit > 0 && c.ttl > 0
  }

  // ---- Redis commands ----

  /** A sorted set that loses its last member is deleted, with its deadline. */
  function Rebuilt(z: ZSet, scores: map<Id, int>): ZSet {
    if scores == map[] then Empty else z.(scores := scores)
  }

  function Live(z: ZSet, now: int): map<Id, int> {
    map id | id in z.scores && z.scores[id] > now :: z.scores[id]
  }

  /** ZREMRANGEBYSCORE key -inf now */
  function Purge(z: ZSet, now: int): ZSet {
    Rebuilt(z, Live(z, now))
  }

  /** ZREM */
  function Remove(z: ZSet, id: Id): ZSet {
    Rebuilt(z, z.scores - {id})
  }

  /** ZADD */
  function Add(z: ZSet, id: Id, score: int): ZSet {
    z.(scores := z.scores[id := score])
  }

  /** PEXPIRE */
  function ExpireAt(z: ZSet, at: int): ZSet {
    z.(deadline := Some(at))
  }

  lemma EmptyIsDeleted(z: ZSet, id: Id)
    ensures |Remove(z, id).scores| == 0 ==> Remove(z, id) == Empty
  {
  }

  ghost predicate IsFirst(scores: map<Id, int>, id: Id) {
    id in scores && forall k :: k in scores ==> scores[id] <= scores[k]
  }

  lemma {:induction false} FirstExists(scores: map<Id, int>)
    requires scores != map[]
    ensures exists id :: IsFirst(scores, id)
    decreases |scores|
  {
    var id :| id in scores;
    var rest := scores - {id};
    if rest == map[] {
      assert forall k :: k in scores && k != id ==> k in rest;
      assert IsFirst(scores, id);
    } else {
      assert rest.Keys < scores.Keys;
      assert |rest.Keys| < |scores.Keys|;
      FirstExists(rest);
      var r :| IsFirst(rest, r);
      var best := if scores[id] <= scores[r] then id else r;
      forall k | k in scores ensures scores[best] <= scores[k] {
        if k != id { assert k in rest; }
      }
      assert IsFirst(scores, best);
    }
  }

  /** The score that ZRANGE key 0 0 WITHSCORES reports. */
  ghost function FirstScore(scores: map<Id, int>): (score: int)
    requires scores != map[]
    ensures exists id :: IsFirst(scores, id) && scores[id] == score
  {
    FirstExists(scores);
    var id :| IsFirst(scores, id);
    scores[id]
  }

  // ---- abstract state and the two scripts ----

  /** `issued` remembers the subject of every lease id ever granted. */
  datatype Store = Store(now: int, global: ZSet, users: map<User, ZSet>, issued: map<Id, User>)

  function UserSet(users: map<User, ZSet>, user: User): ZSet {
    if user in users then users[user] else Empty
  }

  datatype Reply = Granted(expiresAt: int) | UserBusy(retryMs: int) | GlobalBusy(retryMs: int)

  ghost function RetryMs(z: ZSet, now: int, ttl: int): int {
    if z.scores == map[] then ttl
    else var wait := FirstScore(z.scores) - now; if wait > 1 then wait else 1
  }

  ghost function Acquired(s: Store, c: Config, user: User, id: Id): (Store, Reply) {
    var g := Purge(s.global, s.now);
    var u := Purge(UserSet(s.users, user), s.now);
    var purged := s.(global := g, users := s.users[user := u]);
    if |u.scores| >= c.userLimit then (purged, UserBusy(RetryMs(u, s.now, c.ttl)))
    else if |g.scores| >= c.globalLimit then (purged, GlobalBusy(RetryMs(g, s.now, c.ttl)))
    else
      var at := s.now + c.ttl;
      (s.(global := ExpireAt(Add(g, id, at), at),
          users := s.users[user := ExpireAt(Add(u, id, at), at)],
          issued := s.issued[id := user]),
       Granted(at))
  }

  ghost function Released(s: Store, user: User, id: Id): Store {
    s.(global := Remove(s.global, id), users := s.users[user := Remove(UserSet(s.users, user), id)])
  }

  /** The mutable store as Redis holds it; `issued` exists only in the specification. */
  class LeaseStore {
    var now: int
    var global: ZSet
    var users: map<User, ZSet>
    ghost var issued: map<Id, User>

    ghost function View(): Store
      reads this
    {
      Store(now, global, users, issued)
    }

    constructor (start: int)
      ensures View() == Store(start, Empty, map[], map[])
    {
      now, global, users, issued := start, Empty, map[], map[];
    }

    /** `_ACQUIRE_SCRIPT`. */
    method AcquireScript(c: Config, user: User, id: Id) returns (reply: Reply)
      modifies this
      ensures (View(), reply) == Acquired(old(View()), c, user, id)
    {
      var expiresAt := now + c.ttl;
      PurgeExpired(user);
      if |users[user].scores| >= c.userLimit {
        var retry := FirstWait(users[user], c.ttl);
        return UserBusy(retry);
      }
      if |global.scores| >= c.globalLimit {
        var retry := FirstWait(global, c.ttl);
        return GlobalBusy(retry);
      }
      AddMember(user, id, expiresAt);
      reply := Granted(expiresAt);
      ghost var purged := Purge(UserSet(old(users), user), now);
      assert users == old(users)[user := ExpireAt(Add(purged, id, expiresAt), expiresAt)];
    }

    method PurgeExpired(user: User)
      modifies this`global, this`users
      ensures global == Purge(old(global), now)
      ensures users == old(users)[user := Purge(UserSet(old(users), user), now)]
    {
      global := Purge(global, now);
      users := users[user := Purge(UserSet(users, user), now)];
    }

    method AddMember(user: User, id: Id, expiresAt: int)
      requires user in users
      modifies this`global, this`users, this`issued
      ensures global == ExpireAt(Add(old(global), id, expiresAt), expiresAt)
      ensures users == old(users)[user := ExpireAt(Add(old(users)[user], id, expiresAt), expiresAt)]
      ensures issued == old(issued)[id := user]
    {
      global := Add(global, id, expiresAt);
      users := users[user := Add(users[user], id, expiresAt)];
      global := ExpireAt(global, expiresAt);
      users := users[user := ExpireAt(users[user], expiresAt)];
      issued := issued[id := user];
    }

    /** `retry_ms`: the wait until the first member of a key expires. */
    method FirstWait(z: ZSet, ttl: int) returns (wait: int)
      ensures wait == RetryMs(z, now, ttl)
    {
      if z.scores == map[] {
        return ttl;
      }
      FirstExists(z.scores);
      var first :| first in z.scores && forall k :: k in z.scores ==> z.scores[first] <= z.scores[k];
      wait := z.scores[first] - now;
      if wait < 1 {
        wait := 1;
      }
    }

    /** `_RELEASE_SCRIPT`: how many of the two sets held the member. */
    method ReleaseScript(user: User, id: Id) returns (removed: nat)
      modifies this
      ensures View() == Released(old(View()), user, id)
      ensures removed == (if id in old(global).scores then 1 else 0)
                       + (if id in UserSet(old(users), user).scores then 1 else 0)
    {
      removed := 0;
      if id in global.scores {
        removed := 1;
      }
      if id in UserSet(users, user).scores {
        removed := removed + 1;
      }
      EmptyIsDeleted(global, id);
      EmptyIsDeleted(UserSet(users, user), id);
      ghost var left := Remove(UserSet(users, user), id);
      global := Remove(global, id);
      users := users[user := Remove(UserSet(users, user), id)];
      if |global.scores| == 0 {
        global := Empty;
      }
      if |users[user].scores| == 0 {
        users := users[user := Empty];
      }
      assert users == old(users)[user := left];
    }
  }

  // ---- runs ----

  datatype Event =
    | Acquire(user: User, id: Id)
    | Release(user: User, id: Id)
    | Tick(elapsed: nat)
    | GlobalKeyExpires
    | UserKeyExpires(user: User)

  ghost predicate KeyExpired(z: ZSet, now: int) {
    z.deadline.Some? && z.deadline.value <= now
  }

  ghost predicate Enabled(s: Store, e: Event) {
    match e
    case Acquire(_, id) => id !in s.issued
    case Release(user, id) => id in s.issued && s.issued[id] == user
    case Tick(_) => true
    case GlobalKeyExpires => KeyExpired(s.global, s.now)
    case UserKeyExpires(user) => KeyExpired(UserSet(s.users, user), s.now)
  }

  ghost function Apply(s: Store, c: Config, e: Event): Store {
    match e
    case Acquire(user, id) => Acquired(s, c, user, id).0
    case Release(user, id) => Released(s, user, id)
    case Tick(elapsed) => s.(now := s.now + elapsed)
    case GlobalKeyExpires => s.(global := Empty)
    case UserKeyExpires(user) => s.(users := s.users[user := Empty])
  }

  ghost predicate IsRun(s: Store, c: Config, events: seq<Event>)
    decreases |events|
  {
    events == [] || (Enabled(s, events[0]) && IsRun(Apply(s, c, events[0]), c, events[1..]))
  }

  ghost function After(s: Store, c: Config, events: seq<Event>): Store
    decreases |events|
  {
    if events == [] then s else After(Apply(s, c, events[0]), c, events[1..])
  }

  // ---- the invariant ----

  ghost predicate DeadlineCovers(z: ZSet, now: int, ttl: int) {
    forall id :: id in z.scores ==>
      z.deadline.Some? && z.scores[id] <= z.deadline.value && z.scores[id] <= now + ttl
  }

  ghost function LiveGlobal(s: Store): map<Id, int> {
    Live(s.global, s.now)
  }

  ghost function LiveOf(s: Store, user: User): map<Id, int> {
    Live(UserSet(s.users, user), s.now)
  }

  /** A user's set: every member belongs to that user, the live ones are also live in the
      global set with the same score, and their number is within the user limit. */
  ghost predicate UserSetOk(z: ZSet, g: ZSet, now: int, issued: map<Id, User>, c: Config, user: User) {
    && DeadlineCovers(z, now, c.ttl)
    && |Live(z, now)| <= c.userLimit
    && (forall id :: id in z.scores ==> id in issued && issued[id] == user)
    && (forall id :: id in z.scores && z.scores[id] > now ==> id in g.scores && g.scores[id] == z.scores[id])
  }

  ghost predicate UserOk(s: Store, c: Config, user: User) {
    UserSetOk(UserSet(s.users, user), s.global, s.now, s.issued, c, user)
  }

  /** A global member is also in its owner's set, with the same score. */
  ghost predicate Mirrored(g: ZSet, users: map<User, ZSet>, issued: map<Id, User>, id: Id)
    requires id in g.scores && id in issued
  {
    var z := UserSet(users, issued[id]);
    id in z.scores && z.scores[id] == g.scores[id]
  }

  ghost predicate GlobalSetOk(g: ZSet, now: int, issued: map<Id, User>, c: Config) {
    && DeadlineCovers(g, now, c.ttl)
    && |Live(g, now)| <= c.globalLimit
    && forall id :: id in g.scores ==> id in issued
  }

  /** The global set: within its limit, and every live member is mirrored. */
  ghost predicate GlobalOk(s: Store, c: Config) {
    && GlobalSetOk(s.global, s.now, s.issued, c)
    && forall id :: id in s.global.scores && s.global.scores[id] > s.now ==>
         Mirrored(s.global, s.users, s.issued, id)
  }

  /** Users may still hold expired members that the global set has already purged. */
  ghost predicate Inv(s: Store, c: Config) {
    GlobalOk(s, c) && forall user :: UserOk(s, c, user)
  }

  // ---- the commands on one sorted set ----

  lemma LiveOfPurged(z: ZSet, now: int)
    ensures Purge(z, now).scores == Live(z, now)
    ensures Live(Purge(z, now), now) == Live(z, now)
  {
  }

  lemma LiveOfAdded(z: ZSet, id: Id, at: int, now: int)
    requires at > now
    ensures Live(ExpireAt(Add(z, id, at), at), now) == Live(z, now)[id := at]
  {
  }

  lemma LiveOfRemoved(z: ZSet, id: Id, now: int)
    ensures Live(Remove(z, id), now) == Live(z, now) - {id}
    ensures Remove(z, id).scores == z.scores - {id}
  {
  }

  /** Dropping an expired key drops no live member: its deadline covers every score. */
  lemma ExpiredKeyHasNoLiveMember(z: ZSet, now: int, ttl: int)
    requires DeadlineCovers(z, now, ttl) && KeyExpired(z, now)
    ensures Live(z, now) == map[] == Live(Empty, now)
  {
  }

  /** A map whose keys are all in another one is no larger. */
  lemma SubmapSize(a: map<Id, int>, b: map<Id, int>)
    requires a.Keys <= b.Keys
    ensures |a| <= |b|
    ensures (exists id :: id in b && id !in a) ==> |a| < |b|
  {
    var extra := b.Keys - a.Keys;
    assert a.Keys + extra == b.Keys;
    assert |a.Keys| + |extra| == |b.Keys|;
    if id :| id in b && id !in a { assert id in extra; }
  }

  // ---- every step keeps the invariant ----

  lemma InitInv(start: int, c: Config)
    requires ValidConfig(c)
    ensures Inv(Store(start, Empty, map[], map[]), c)
  {
    assert Live(Empty, start) == map[];
  }

  /** The live sets may only lose members; the scores that stay are unchanged. */
  ghost predicate Shrinks(before: ZSet, now: int, after: ZSet, later: int) {
    forall id :: id in after.scores && after.scores[id] > later ==>
      id in before.scores && before.scores[id] == after.scores[id] && before.scores[id] > now
  }

  ghost predicate OnlyShrinks(s: Store, t: Store) {
    && s.now <= t.now && t.issued == s.issued
    && Shrinks(s.global, s.now, t.global, t.now)
    && forall user :: Shrinks(UserSet(s.users, user), s.now, UserSet(t.users, user), t.now)
  }

  lemma ShrinkSize(before: ZSet, now: int, after: ZSet, later: int)
    requires Shrinks(before, now, after, later)
    ensures |Live(after, later)| <= |Live(before, now)|
  {
    SubmapSize(Live(after, later), Live(before, now));
  }

  lemma ShrinkTransitive(s: Store, t: Store, u: Store)
    requires OnlyShrinks(s, t) && OnlyShrinks(t, u)
    ensures OnlyShrinks(s, u)
  {
    forall user ensures Shrinks(UserSet(s.users, user), s.now, UserSet(u.users, user), u.now) {
      assert Shrinks(UserSet(s.users, user), s.now, UserSet(t.users, user), t.now);
      assert Shrinks(UserSet(t.users, user), t.now, UserSet(u.users, user), u.now);
    }
  }

  ghost function Purged(s: Store, user: User): Store {
    s.(global := Purge(s.global, s.now), users := s.users[user := Purge(UserSet(s.users, user), s.now)])
  }

  lemma PurgeKeepsInv(s: Store, c: Config, user: User)
    requires Inv(s, c)
    ensures Inv(Purged(s, user), c)
    ensures LiveGlobal(Purged(s, user)) == LiveGlobal(s) == Purged(s, user).global.scores
    ensures LiveOf(Purged(s, user), user) == LiveOf(s, user) == UserSet(Purged(s, user).users, user).scores
  {
    var t := Purged(s, user);
    LiveOfPurged(s.global, s.now);
    LiveOfPurged(UserSet(s.users, user), s.now);
    forall other ensures UserOk(t, c, other) {
      assert UserOk(s, c, other);
      assert UserSet(t.users, other)
          == if other == user then Purge(UserSet(s.users, user), s.now) else UserSet(s.users, other);
    }
    forall id | id in t.global.scores ensures Mirrored(t.global, t.users, t.issued, id) {
      assert Mirrored(s.global, s.users, s.issued, id);
    }
  }

  /** ZADD and PEXPIRE of a fresh lease into both sets. */
  ghost function WithLease(s: Store, c: Config, user: User, id: Id): Store {
    var at := s.now + c.ttl;
    s.(global := ExpireAt(Add(s.global, id, at), at),
       users := s.users[user := ExpireAt(Add(UserSet(s.users, user), id, at), at)],
       issued := s.issued[id := user])
  }

  lemma AddKeepsUserSet(z: ZSet, g: ZSet, now: int, issued: map<Id, User>, c: Config, owner: User, user: User, id: Id)
    requires ValidConfig(c) && id !in issued && id !in g.scores
    requires UserSetOk(z, g, now, issued, c, owner)
    requires owner == user ==> |Live(z, now)| < c.userLimit
    ensures var at := now + c.ttl;
      var z' := if owner == user then ExpireAt(Add(z, id, at), at) else z;
      UserSetOk(z', ExpireAt(Add(g, id, at), at), now, issued[id := user], c, owner)
  {
    LiveOfAdded(z, id, now + c.ttl, now);
  }

  lemma WithLeaseKeepsUsers(s: Store, c: Config, user: User, id: Id, other: User)
    requires ValidConfig(c) && Inv(s, c) && id !in s.issued && |LiveOf(s, user)| < c.userLimit
    ensures UserOk(WithLease(s, c, user, id), c, other)
  {
    assert UserOk(s, c, other);
    AddKeepsUserSet(UserSet(s.users, other), s.global, s.now, s.issued, c, other, user, id);
  }

  lemma AddKeepsGlobalSet(g: ZSet, now: int, issued: map<Id, User>, c: Config, user: User, id: Id)
    requires ValidConfig(c) && GlobalSetOk(g, now, issued, c) && id !in issued && |Live(g, now)| < c.globalLimit
    ensures GlobalSetOk(ExpireAt(Add(g, id, now + c.ttl), now + c.ttl), now, issued[id := user], c)
  {
    LiveOfAdded(g, id, now + c.ttl, now);
  }

  lemma WithLeaseKeepsGlobal(s: Store, c: Config, user: User, id: Id)
    requires ValidConfig(c) && GlobalOk(s, c) && id !in s.issued && |LiveGlobal(s)| < c.globalLimit
    ensures GlobalOk(WithLease(s, c, user, id), c)
  {
    var t := WithLease(s, c, user, id);
    AddKeepsGlobalSet(s.global, s.now, s.issued, c, user, id);
    forall k | k in t.global.scores && t.global.scores[k] > t.now
      ensures Mirrored(t.global, t.users, t.issued, k)
    {
      MirrorSurvivesAdd(s, c, user, id, k);
    }
  }

  lemma MirrorSurvivesAdd(s: Store, c: Config, user: User, id: Id, k: Id)
    requires id !in s.issued
    requires k != id ==> k in s.global.scores && k in s.issued && Mirrored(s.global, s.users, s.issued, k)
    ensures var t := WithLease(s, c, user, id); Mirrored(t.global, t.users, t.issued, k)
  {
  }

  lemma WithLeaseKeepsInv(s: Store, c: Config, user: User, id: Id)
    requires ValidConfig(c) && Inv(s, c) && id !in s.issued
    requires |LiveGlobal(s)| < c.globalLimit && |LiveOf(s, user)| < c.userLimit
    ensures Inv(WithLease(s, c, user, id), c)
  {
    WithLeaseKeepsGlobal(s, c, user, id);
    forall other ensures UserOk(WithLease(s, c, user, id), c, other) {
      WithLeaseKeepsUsers(s, c, user, id, other);
    }
  }

  lemma AddAfterPurge(s: Store, c: Config, user: User, id: Id)
    ensures var (g, u, at) := (Purge(s.global, s.now), Purge(UserSet(s.users, user), s.now), s.now + c.ttl);
      WithLease(Purged(s, user), c, user, id)
      == s.(global := ExpireAt(Add(g, id, at), at), users := s.users[user := ExpireAt(Add(u, id, at), at)],
            issued := s.issued[id := user])
  {
    var u := Purge(UserSet(s.users, user), s.now);
    var with := ExpireAt(Add(u, id, s.now + c.ttl), s.now + c.ttl);
    assert s.users[user := u][user := with] == s.users[user := with];
  }

  lemma AcquireIsPurgeThenAdd(s: Store, c: Config, user: User, id: Id)
    ensures var (t, reply) := Acquired(s, c, user, id);
      && (reply.Granted? <==> |LiveOf(s, user)| < c.userLimit && |LiveGlobal(s)| < c.globalLimit)
      && (reply.UserBusy? <==> |LiveOf(s, user)| >= c.userLimit)
      && t == (if reply.Granted? then WithLease(Purged(s, user), c, user, id) else Purged(s, user))
  {
    LiveOfPurged(s.global, s.now);
    LiveOfPurged(UserSet(s.users, user), s.now);
    AddAfterPurge(s, c, user, id);
  }

  lemma AcquireKeepsInv(s: Store, c: Config, user: User, id: Id)
    requires ValidConfig(c) && Inv(s, c) && id !in s.issued
    ensures Inv(Acquired(s, c, user, id).0, c)
  {
    AcquireIsPurgeThenAdd(s, c, user, id);
    PurgeKeepsInv(s, c, user);
    if Acquired(s, c, user, id).1.Granted? {
      WithLeaseKeepsInv(Purged(s, user), c, user, id);
    }
  }

  lemma RemoveKeepsUserSet(z: ZSet, g: ZSet, now: int, issued: map<Id, User>, c: Config,
                           owner: User, user: User, id: Id)
    requires id in issued && issued[id] == user && UserSetOk(z, g, now, issued, c, owner)
    ensures var z' := if owner == user then Remove(z, id) else z;
      UserSetOk(z', Remove(g, id), now, issued, c, owner) && Shrinks(z, now, z', now)
  {
    LiveOfRemoved(z, id, now);
    LiveOfRemoved(g, id, now);
    SubmapSize(Live(Remove(z, id), now), Live(z, now));
  }

  lemma ReleaseKeepsUsers(s: Store, c: Config, user: User, id: Id, other: User)
    requires UserOk(s, c, other) && id in s.issued && s.issued[id] == user
    ensures UserOk(Released(s, user, id), c, other)
    ensures Shrinks(UserSet(s.users, other), s.now, UserSet(Released(s, user, id).users, other), s.now)
  {
    RemoveKeepsUserSet(UserSet(s.users, other), s.global, s.now, s.issued, c, other, user, id);
  }

  lemma RemoveKeepsGlobalSet(g: ZSet, now: int, issued: map<Id, User>, c: Config, id: Id)
    requires GlobalSetOk(g, now, issued, c)
    ensures GlobalSetOk(Remove(g, id), now, issued, c) && Shrinks(g, now, Remove(g, id), now)
  {
    LiveOfRemoved(g, id, now);
    SubmapSize(Live(Remove(g, id), now), Live(g, now));
  }

  lemma ReleaseKeepsGlobal(s: Store, c: Config, user: User, id: Id)
    requires GlobalOk(s, c) && id in s.issued && s.issued[id] == user
    ensures GlobalOk(Released(s, user, id), c)
    ensures Shrinks(s.global, s.now, Released(s, user, id).global, s.now)
  {
    var t := Released(s, user, id);
    RemoveKeepsGlobalSet(s.global, s.now, s.issued, c, id);
    LiveOfRemoved(s.global, id, s.now);
    LiveOfRemoved(UserSet(s.users, user), id, s.now);
    forall k | k in t.global.scores && t.global.scores[k] > t.now
      ensures Mirrored(t.global, t.users, t.issued, k)
    {
      assert Mirrored(s.global, s.users, s.issued, k);
    }
  }

  lemma ReleaseKeepsInv(s: Store, c: Config, user: User, id: Id)
    requires Inv(s, c) && id in s.issued && s.issued[id] == user
    ensures Inv(Released(s, user, id), c) && OnlyShrinks(s, Released(s, user, id))
  {
    ReleaseKeepsGlobal(s, c, user, id);
    forall other
      ensures UserOk(Released(s, user, id), c, other)
      ensures Shrinks(UserSet(s.users, other), s.now, UserSet(Released(s, user, id).users, other), s.now)
    {
      assert UserOk(s, c, other);
      ReleaseKeepsUsers(s, c, user, id, other);
    }
  }

  lemma GlobalExpiryKeepsInv(s: Store, c: Config)
    requires Inv(s, c) && KeyExpired(s.global, s.now)
    ensures Inv(s.(global := Empty), c) && OnlyShrinks(s, s.(global := Empty))
    ensures LiveGlobal(s.(global := Empty)) == LiveGlobal(s)
  {
    var t := s.(global := Empty);
    ExpiredKeyHasNoLiveMember(s.global, s.now, c.ttl);
    forall user ensures UserOk(t, c, user) {
      assert UserOk(s, c, user);
    }
  }

  lemma UserExpiryKeepsInv(s: Store, c: Config, user: User)
    requires Inv(s, c) && KeyExpired(UserSet(s.users, user), s.now)
    ensures var t := s.(users := s.users[user := Empty]);
      Inv(t, c) && OnlyShrinks(s, t) && forall other :: LiveOf(t, other) == LiveOf(s, other)
  {
    var t := s.(users := s.users[user := Empty]);
    assert UserOk(s, c, user);
    ExpiredKeyHasNoLiveMember(UserSet(s.users, user), s.now, c.ttl);
    forall other
      ensures UserOk(t, c, other) && LiveOf(t, other) == LiveOf(s, other)
      ensures Shrinks(UserSet(s.users, other), s.now, UserSet(t.users, other), t.now)
    {
      assert UserOk(s, c, other);
      if other != user { assert UserSet(t.users, other) == UserSet(s.users, other); }
    }
    forall k | k in t.global.scores && t.global.scores[k] > t.now
      ensures Mirrored(t.global, t.users, t.issued, k)
    {
      assert Mirrored(s.global, s.users, s.issued, k);
      assert k !in Live(UserSet(s.users, user), s.now);
    }
  }

  lemma TickKeepsInv(s: Store, c: Config, elapsed: nat)
    requires Inv(s, c)
    ensures Inv(s.(now := s.now + elapsed), c) && OnlyShrinks(s, s.(now := s.now + elapsed))
  {
    var t := s.(now := s.now + elapsed);
    ShrinkSize(s.global, s.now, t.global, t.now);
    forall k | k in t.global.scores && t.global.scores[k] > t.now
      ensures Mirrored(t.global, t.users, t.issued, k)
    {
      assert Mirrored(s.global, s.users, s.issued, k);
    }
    forall user ensures UserOk(t, c, user) {
      assert UserOk(s, c, user);
      ShrinkSize(UserSet(s.users, user), s.now, UserSet(t.users, user), t.now);
    }
  }

  lemma ExpiryStep(s: Store, c: Config, e: Event)
    requires Inv(s, c) && Enabled(s, e) && (e.GlobalKeyExpires? || e.UserKeyExpires?)
    ensures Inv(Apply(s, c, e), c) && OnlyShrinks(s, Apply(s, c, e))
  {
    if e.GlobalKeyExpires? {
      GlobalExpiryKeepsInv(s, c);
    } else {
      UserExpiryKeepsInv(s, c, e.user);
    }
  }

  lemma TickStep(s: Store, c: Config, e: Event)
    requires Inv(s, c) && e.Tick?
    ensures Inv(Apply(s, c, e), c) && OnlyShrinks(s, Apply(s, c, e))
  {
    TickKeepsInv(s, c, e.elapsed);
  }

  lemma TimeStep(s: Store, c: Config, e: Event)
    requires Inv(s, c) && Enabled(s, e) && !e.Acquire? && !e.Release?
    ensures Inv(Apply(s, c, e), c) && OnlyShrinks(s, Apply(s, c, e))
  {
    if e.Tick? {
      TickStep(s, c, e);
    } else {
      ExpiryStep(s, c, e);
    }
  }

  lemma QuietStep(s: Store, c: Config, e: Event)
    requires Inv(s, c) && Enabled(s, e) && !e.Acquire?
    ensures Inv(Apply(s, c, e), c) && OnlyShrinks(s, Apply(s, c, e))
  {
    if e.Release? {
      ReleaseKeepsInv(s, c, e.user, e.id);
    } else {
      TimeStep(s, c, e);
    }
  }

  lemma StepKeepsInv(s: Store, c: Config, e: Event)
    requires ValidConfig(c) && Inv(s, c) && Enabled(s, e)
    ensures Inv(Apply(s, c, e), c)
    ensures !e.Acquire? ==> OnlyShrinks(s, Apply(s, c, e))
  {
    if e.Acquire? {
      AcquireKeepsInv(s, c, e.user, e.id);
    } else {
      QuietStep(s, c, e);
    }
  }

  lemma {:induction false} RunKeepsInv(s: Store, c: Config, events: seq<Event>)
    requires ValidConfig(c) && Inv(s, c) && IsRun(s, c, events)
    ensures Inv(After(s, c, events), c)
    decreases |events|
  {
    if events != [] {
      StepKeepsInv(s, c, events[0]);
      RunKeepsInv(Apply(s, c, events[0]), c, events[1..]);
    }
  }
}
