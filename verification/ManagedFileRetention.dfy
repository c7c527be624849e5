/** How long an uploaded file is kept: the retention counts from the moment its upload took the lock,
    and until it is over the file can only go by a deletion that its owner asked for. */
module ManagedFileRetention {
  import opened Options
  import opened UploadBatches
  import opened ManagedFiles

  /** What is remembered of a run: when each session took its lock, and which deletions were asked for. */
  datatype Past = Past(locks: map<nat, int>, asked: map<nat, Row>)

  const Nothing := Past(map[], map[])

  function Noted(s: State, p: Past, e: Event): Past {
    match e
    case TakeLock(i) => p.(locks := p.locks[i := s.now])
    case BeginDelete(_, row) => p.(asked := p.asked[|s.sessions| := row])
    case _ => p
  }

  ghost function PastOf(env: Env, s: State, p: Past, events: seq<Event>): Past
    requires IsRun(env, s, events)
    decreases |events|
  {
    if events == [] then p else PastOf(env, Apply(env, s, events[0]), Noted(s, p, events[0]), events[1..])
  }

  /** The row expires so long after its upload took the lock. */
  ghost predicate RowKept(env: Env, s: State, p: Past, r: Row) {
    && r.fileId in s.born && s.born[r.fileId].session in p.locks
    && r.expires == p.locks[s.born[r.fileId].session] + env.retention
  }

  ghost predicate SessionKept(env: Env, s: State, p: Past, i: nat)
    requires At(s, i)
  {
    match s.sessions[i].phase
    case Writing(_, rows, _, expires) =>
      && i in p.locks && expires == p.locks[i] + env.retention
      && forall k :: 0 <= k < |rows| ==> rows[k].expires == expires
    case Removing(refs) =>
      && (forall r :: r in refs ==> RowKept(env, s, p, r))
      && ((i in p.asked && refs == [p.asked[i]]) || forall r :: r in refs ==> r.expires <= s.now)
    case _ => true
  }

  ghost predicate Kept(env: Env, s: State, p: Past) {
    && (forall r :: r in s.rows ==> RowKept(env, s, p, r))
    && (forall i :: 0 <= i < |s.sessions| ==> SessionKept(env, s, p, i))
    && (forall i :: i in p.asked ==> i < |s.sessions|)
  }

  /** The session that takes part in an event. */
  predicate Acts(e: Event, j: nat) {
    !e.Tick? && !e.BeginUpload? && !e.BeginDelete? && !e.BeginCleanup? && e.i == j
  }

  lemma OthersStay(env: Env, s: State, e: Event, j: nat)
    requires Enabled(env, s, e) && At(s, j) && !Acts(e, j)
    ensures At(Apply(env, s, e), j) && Apply(env, s, e).sessions[j] == s.sessions[j]
  {
  }

  lemma ClockAndIds(env: Env, s: State, e: Event)
    requires Enabled(env, s, e)
    ensures Apply(env, s, e).now >= s.now && |s.sessions| <= |Apply(env, s, e).sessions| <= |s.sessions| + 1
    ensures forall id :: id in s.born ==> id in Apply(env, s, e).born && Apply(env, s, e).born[id] == s.born[id]
  {
  }

  /** A lock is not taken again by a session whose rows have been stored. */
  lemma StoredRowKept(env: Env, s: State, p: Past, e: Event, r: Row)
    requires Enabled(env, s, e) && RowKept(env, s, p, r) && Stores(s, s.born[r.fileId].session)
    ensures RowKept(env, Apply(env, s, e), Noted(s, p, e), r)
  {
    ClockAndIds(env, s, e);
  }

  lemma OtherSessionKept(env: Env, s: State, p: Past, e: Event, j: nat)
    requires Inv(env, s) && Kept(env, s, p) && Enabled(env, s, e) && At(s, j) && !Acts(e, j)
    ensures At(Apply(env, s, e), j) && SessionKept(env, Apply(env, s, e), Noted(s, p, e), j)
  {
    OthersStay(env, s, e, j);
    ClockAndIds(env, s, e);
    assert SessionKept(env, s, p, j) && SessionOk(env, s, j);
    if s.sessions[j].phase.Removing? {
      forall r | r in s.sessions[j].phase.refs ensures RowKept(env, Apply(env, s, e), Noted(s, p, e), r) {
        StoredRowKept(env, s, p, e, r);
      }
    }
  }

  lemma OwnSessionKept(env: Env, s: State, p: Past, e: Event, j: nat)
    requires Kept(env, s, p) && Enabled(env, s, e) && At(s, j) && Acts(e, j)
    ensures SessionKept(env, Apply(env, s, e), Noted(s, p, e), j)
  {
    assert SessionKept(env, s, p, j);
  }

  lemma NewSessionKept(env: Env, s: State, p: Past, e: Event)
    requires Kept(env, s, p) && Enabled(env, s, e) && At(Apply(env, s, e), |s.sessions|)
    ensures SessionKept(env, Apply(env, s, e), Noted(s, p, e), |s.sessions|)
  {
    if e.BeginCleanup? { CleanupReadsTheExpired(s.rows, e.user, s.now); }
    if e.BeginCleanup? || e.BeginDelete? {
      forall r | r in s.rows ensures RowKept(env, Apply(env, s, e), Noted(s, p, e), r) {
        assert RowKept(env, s, p, r);
      }
    }
  }

  lemma OldRowKept(env: Env, s: State, p: Past, e: Event, r: Row)
    requires Inv(env, s) && Kept(env, s, p) && Enabled(env, s, e) && r in s.rows
    ensures RowKept(env, Apply(env, s, e), Noted(s, p, e), r)
  {
    assert RowKept(env, s, p, r) && RowOk(env, s, r);
    StoredRowKept(env, s, p, e, r);
  }

  lemma NewRowKept(env: Env, s: State, p: Past, i: nat, r: Row)
    requires Inv(env, s) && Kept(env, s, p) && Enabled(env, s, Commit(i)) && r in s.sessions[i].phase.rows
    ensures RowKept(env, Apply(env, s, Commit(i)), p, r)
  {
    assert SessionKept(env, s, p, i) && SessionOk(env, s, i);
    var k :| 0 <= k < |s.sessions[i].phase.rows| && s.sessions[i].phase.rows[k] == r;
  }

  lemma RowsComeFrom(env: Env, s: State, e: Event, r: Row)
    requires Enabled(env, s, e) && r in Apply(env, s, e).rows
    ensures r in s.rows || (e.Commit? && r in s.sessions[e.i].phase.rows)
  {
    if e.CommitRemoval? { WithoutIsDifference(s.rows, s.sessions[e.i].phase.refs); }
  }

  lemma StepKeeps(env: Env, s: State, p: Past, e: Event)
    requires Inv(env, s) && Kept(env, s, p) && Enabled(env, s, e)
    ensures Kept(env, Apply(env, s, e), Noted(s, p, e))
  {
    var (t, q) := (Apply(env, s, e), Noted(s, p, e));
    ClockAndIds(env, s, e);
    forall r | r in t.rows ensures RowKept(env, t, q, r) {
      RowsComeFrom(env, s, e, r);
      if r in s.rows { OldRowKept(env, s, p, e, r); } else { NewRowKept(env, s, p, e.i, r); }
    }
    forall j | 0 <= j < |t.sessions| ensures SessionKept(env, t, q, j) {
      if j == |s.sessions| {
        NewSessionKept(env, s, p, e);
      } else if Acts(e, j) {
        OwnSessionKept(env, s, p, e, j);
      } else {
        OtherSessionKept(env, s, p, e, j);
      }
    }
  }

  lemma {:induction false} RunKeeps(env: Env, s: State, p: Past, events: seq<Event>)
    requires Inv(env, s) && Kept(env, s, p) && IsRun(env, s, events)
    ensures Inv(env, After(env, s, events)) && Kept(env, After(env, s, events), PastOf(env, s, p, events))
    decreases |events|
  {
    if events != [] {
      StepKeepsInv(env, s, events[0]);
      StepKeeps(env, s, p, events[0]);
      RunKeeps(env, Apply(env, s, events[0]), Noted(s, p, events[0]), events[1..]);
    }
  }

  lemma RunFromEmptyKeeps(env: Env, now: int, events: seq<Event>)
    requires IsRun(env, Empty(now), events)
    ensures Inv(env, After(env, Empty(now), events))
    ensures Kept(env, After(env, Empty(now), events), PastOf(env, Empty(now), Nothing, events))
  {
    EmptyIsFine(env, now);
    RunKeeps(env, Empty(now), Nothing, events);
  }

  /** The time until which the file of a row is kept: the retention after its upload took the lock. */
  ghost function KeptUntil(env: Env, s: State, p: Past, r: Row): int
    requires r.fileId in s.born && s.born[r.fileId].session in p.locks
  {
    p.locks[s.born[r.fileId].session] + env.retention
  }

  /** In every run, a stored row is read by a cleanup of its user, and refused to a deletion as
      expired, exactly from the time its upload took the lock plus the retention. */
  lemma KeptForTheRetention(env: Env, now: int, events: seq<Event>, r: Row, user: nat)
    requires IsRun(env, Empty(now), events) && r in After(env, Empty(now), events).rows
    ensures var (s, p) := (After(env, Empty(now), events), PastOf(env, Empty(now), Nothing, events));
      && r.fileId in s.born && s.born[r.fileId].session in p.locks
      && var t := Apply(env, s, BeginCleanup(user));
      && t.sessions[|s.sessions|].phase.Removing?
      && (r in t.sessions[|s.sessions|].phase.refs <==> user == r.user && s.now >= KeptUntil(env, s, p, r))
      && (Enabled(env, s, BeginDelete(user, r)) <==> user == r.user && s.now < KeptUntil(env, s, p, r))
  {
    RunFromEmptyKeeps(env, now, events);
    var s := After(env, Empty(now), events);
    assert RowKept(env, s, PastOf(env, Empty(now), Nothing, events), r);
    CleanupReadsTheExpired(s.rows, user, s.now);
  }

  lemma {:induction false} AskedWasBegun(env: Env, s: State, p: Past, events: seq<Event>, i: nat)
    requires IsRun(env, s, events) && i in PastOf(env, s, p, events).asked
    ensures var row := PastOf(env, s, p, events).asked[i];
      (i in p.asked && p.asked[i] == row) || BeginDelete(row.user, row) in events
    decreases |events|
  {
    if events != [] {
      AskedWasBegun(env, Apply(env, s, events[0]), Noted(s, p, events[0]), events[1..], i);
      assert events[0] in events && forall e :: e in events[1..] ==> e in events;
    }
  }

  lemma {:induction false} RemovedHasRef(rows: seq<Row>, refs: seq<Row>, r: Row) returns (q: Row)
    requires r in rows && r !in Without(rows, refs)
    ensures q in refs && q.fileId == r.fileId
  {
    WithoutIsDifference(rows, refs);
    q :| q in refs && q.fileId == r.fileId;
  }

  /** Until then the row leaves the table only by the deletion of its file that its owner asked for. */
  lemma EarlierOnlyOnRequest(env: Env, now: int, events: seq<Event>, e: Event, r: Row)
    requires IsRun(env, Empty(now), events) && Enabled(env, After(env, Empty(now), events), e)
    requires r in After(env, Empty(now), events).rows && r !in Apply(env, After(env, Empty(now), events), e).rows
    ensures var (s, p) := (After(env, Empty(now), events), PastOf(env, Empty(now), Nothing, events));
      && r.fileId in s.born && s.born[r.fileId].session in p.locks
      && (s.now < KeptUntil(env, s, p, r) ==>
            e.CommitRemoval? && exists q: Row :: BeginDelete(r.user, q) in events && q.fileId == r.fileId)
  {
    RunFromEmptyKeeps(env, now, events);
    var (s, p) := (After(env, Empty(now), events), PastOf(env, Empty(now), Nothing, events));
    assert RowKept(env, s, p, r);
    if s.now < KeptUntil(env, s, p, r) {
      LostRow(env, s, e, r);
      var q := RemovedHasRef(s.rows, s.sessions[e.i].phase.refs, r);
      assert SessionKept(env, s, p, e.i) && SessionOk(env, s, e.i);
      assert RowKept(env, s, p, q) && RowOk(env, s, r);
      AskedWasBegun(env, Empty(now), Nothing, events, e.i);
    }
  }

  lemma LostRow(env: Env, s: State, e: Event, r: Row)
    requires Enabled(env, s, e) && r in s.rows && r !in Apply(env, s, e).rows
    ensures e.CommitRemoval? && r !in Without(s.rows, s.sessions[e.i].phase.refs)
  {
  }
}
