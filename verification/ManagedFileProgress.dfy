/** Progress of the sessions on managed files: each comes to its end, waits only for the lock of its
    user, and an upload that is admitted can be stored. */
module ManagedFileProgress {
  import opened Options
  import opened UploadBatches
  import opened ManagedFiles
  import opened ManagedFileLaws
  import opened ManagedFileRetention

  // ---- every session comes to its end ----

  /** An upper bound of the steps a session still takes. */
  function StepsLeft(v: Session): int {
    match v.phase
    case Ready(items) => 3 * |items| + 5
    case Writing(items, rows, temp, _) => 3 * |items| - 2 * |rows| + 4 - (if temp.Some? then 1 else 0)
    case Undoing(paths) => |paths| + 1
    case Removing(refs) => |refs| + 2
    case Unlinking(paths) => |paths| + 1
    case Ended(_) => 0
  }

  ghost predicate WithinItems(v: Session) {
    v.phase.Writing? ==> |v.phase.rows| <= |v.phase.items|
  }

  lemma AllWithinItems(env: Env, s: State, i: nat)
    requires Inv(env, s) && At(s, i)
    ensures WithinItems(s.sessions[i])
  {
    assert SessionOk(env, s, i);
  }

  lemma OwnStepCounts(env: Env, s: State, e: Event, i: nat)
    requires Enabled(env, s, e) && At(s, i) && Acts(e, i) && WithinItems(s.sessions[i])
    ensures At(Apply(env, s, e), i)
    ensures 0 <= StepsLeft(Apply(env, s, e).sessions[i]) < StepsLeft(s.sessions[i])
  {
  }

  function OwnSteps(events: seq<Event>, i: nat): nat
    decreases |events|
  {
    if events == [] then 0 else (if Acts(events[0], i) then 1 else 0) + OwnSteps(events[1..], i)
  }

  /** A session takes no more steps than this, whatever fails and whatever others do. */
  lemma {:induction false} SessionIsBounded(env: Env, s: State, events: seq<Event>, i: nat)
    requires Inv(env, s) && At(s, i) && IsRun(env, s, events)
    ensures At(After(env, s, events), i)
    ensures OwnSteps(events, i) + StepsLeft(After(env, s, events).sessions[i]) <= StepsLeft(s.sessions[i])
    ensures StepsLeft(After(env, s, events).sessions[i]) >= 0
    decreases |events|
  {
    AllWithinItems(env, s, i);
    if events != [] {
      if Acts(events[0], i) { OwnStepCounts(env, s, events[0], i); } else { OthersStay(env, s, events[0], i); }
      StepKeepsInv(env, s, events[0]);
      SessionIsBounded(env, Apply(env, s, events[0]), events[1..], i);
    }
  }

  // ---- until then it can go on ----

  /** A step that goes well. */
  predicate Smooth(e: Event) {
    Gentle(e) && !e.WriteFails? && !e.CommitFails? && !e.Reject?
  }

  /** Another session of the same user holds the lock. */
  ghost predicate WaitsForLock(s: State, i: nat)
    requires At(s, i)
  {
    s.sessions[i].phase.Ready?
    && exists j :: 0 <= j < |s.sessions| && j != i && s.sessions[j].phase.Writing?
                   && s.sessions[j].user == s.sessions[i].user
  }

  lemma {:induction false} FreshId(ids: set<nat>) returns (id: nat)
    ensures forall k :: k in ids ==> k < id
  {
    if ids == {} {
      id := 0;
    } else {
      var k :| k in ids;
      var rest := FreshId(ids - {k});
      assert forall other :: other in ids ==> other == k || other in ids - {k};
      id := if rest <= k then k + 1 else rest;
    }
  }

  lemma NextWrite(env: Env, s: State, i: nat) returns (e: Event)
    requires Inv(env, s) && At(s, i) && s.sessions[i].phase.Writing?
    ensures Acts(e, i) && Smooth(e) && Enabled(env, s, e)
  {
    var v := s.sessions[i];
    AllWithinItems(env, s, i);
    assert SessionOk(env, s, i);
    if v.phase.temp.Some? {
      e := Replace(i);
    } else if |v.phase.rows| < |v.phase.items| {
      var id := FreshId(s.born.Keys);
      e := OpenTemp(i, id, []);
    } else {
      ConstraintsNeverFire(env, s, i);
      e := Commit(i);
    }
  }

  /** Until it has ended a session can take a step that goes well, unless it waits for the lock; and
      until it has ended it may also fail or die. */
  lemma SessionCanGoOn(env: Env, s: State, i: nat)
    requires Inv(env, s) && At(s, i) && !s.sessions[i].phase.Ended?
    ensures WaitsForLock(s, i) || exists e :: Acts(e, i) && Smooth(e) && Enabled(env, s, e)
    ensures Enabled(env, s, Crash(i))
    ensures s.sessions[i].phase.Ready? || s.sessions[i].phase.Removing? ==> Enabled(env, s, Reject(i))
  {
    var phase := s.sessions[i].phase;
    if phase.Writing? {
      var e := NextWrite(env, s, i);
    } else if phase.Ready? && LockFree(s, s.sessions[i].user) {
      assert Acts(TakeLock(i), i) && Smooth(TakeLock(i));
    } else if phase.Removing? {
      assert Acts(CommitRemoval(i), i) && Smooth(CommitRemoval(i));
    } else if phase.Undoing? {
      var e := if phase.paths == [] then Finish(i) else Undo(i, true);
      assert Acts(e, i) && Smooth(e) && Enabled(env, s, e);
    } else if phase.Unlinking? {
      var e := if phase.paths == [] then Finish(i) else Unlink(i, true);
      assert Acts(e, i) && Smooth(e) && Enabled(env, s, e);
    }
  }

  // ---- an admitted upload can be stored ----

  /** These rows store these items for the user. */
  ghost predicate StoreItems(s: State, rows: seq<Row>, user: nat, items: seq<Item>) {
    && |rows| == |items|
    && forall k :: 0 <= k < |items| ==>
         && rows[k].user == user && rows[k].name == items[k].name
         && rows[k].key in s.disk && s.disk[rows[k].key] == items[k].content
  }

  lemma CommitStores(env: Env, s: State, i: nat)
    requires Inv(env, s) && At(s, i) && AllWritten(s.sessions[i])
    ensures Enabled(env, s, Commit(i))
    ensures var (v, t) := (s.sessions[i], Apply(env, s, Commit(i)));
      t.rows == s.rows + v.phase.rows && StoreItems(t, v.phase.rows, v.user, v.phase.items)
      && t.sessions[i].phase == Ended(Success)
  {
    assert SessionOk(env, s, i);
    ConstraintsNeverFire(env, s, i);
    var rows := s.sessions[i].phase.rows;
    forall k | 0 <= k < |rows| ensures FileOf(env, s, rows[k]) { }
  }

  lemma {:induction false} WriteAndCommit(env: Env, s: State, i: nat) returns (events: seq<Event>, added: seq<Row>)
    requires Inv(env, s) && At(s, i) && s.sessions[i].phase.Writing?
    ensures IsRun(env, s, events) && After(env, s, events).rows == s.rows + added
    ensures StoreItems(After(env, s, events), added, s.sessions[i].user, s.sessions[i].phase.items)
    ensures At(After(env, s, events), i) && After(env, s, events).sessions[i].phase == Ended(Success)
    decreases StepsLeft(s.sessions[i])
  {
    AllWithinItems(env, s, i);
    if AllWritten(s.sessions[i]) {
      CommitStores(env, s, i);
      Prepend(env, s, Commit(i), []);
      events, added := [Commit(i)] + [], s.sessions[i].phase.rows;
    } else {
      var e := NextWrite(env, s, i);
      NextWriteWrites(env, s, i, e);
      OwnStepCounts(env, s, e, i);
      StepKeepsInv(env, s, e);
      events, added := WriteAndCommit(env, Apply(env, s, e), i);
      Prepend(env, s, e, events);
      events := [e] + events;
    }
  }

  lemma NextWriteWrites(env: Env, s: State, i: nat, e: Event)
    requires Enabled(env, s, e) && Acts(e, i) && Smooth(e) && At(s, i) && s.sessions[i].phase.Writing?
    requires !AllWritten(s.sessions[i])
    ensures var (v, t) := (s.sessions[i], Apply(env, s, e));
      && t.rows == s.rows && At(t, i)
      && t.sessions[i].user == v.user && t.sessions[i].phase.Writing? && t.sessions[i].phase.items == v.phase.items
  {
  }

  /** Whenever the lock of a user is free, a good batch that is admitted can be uploaded: there is a run
      that stores exactly its files. */
  lemma AdmittedCanBeStored(env: Env, s: State, user: nat, items: seq<Item>)
    returns (events: seq<Event>, added: seq<Row>)
    requires Inv(env, s) && LockFree(s, user) && GoodBatch(env, items) && Admitted(env, s.rows, user, items)
    ensures IsRun(env, s, events)
    ensures After(env, s, events).rows == s.rows + added && StoreItems(After(env, s, events), added, user, items)
    ensures At(After(env, s, events), |s.sessions|)
    ensures After(env, s, events).sessions[|s.sessions|].phase == Ended(Success)
  {
    var i := |s.sessions|;
    var begin := BeginUpload(user, items);
    var s1 := Apply(env, s, begin);
    StepKeepsInv(env, s, begin);
    var s2 := Apply(env, s1, TakeLock(i));
    StepKeepsInv(env, s1, TakeLock(i));
    events, added := WriteAndCommit(env, s2, i);
    Prepend(env, s1, TakeLock(i), events);
    events := [TakeLock(i)] + events;
    Prepend(env, s, begin, events);
    events := [begin] + events;
  }

  // ---- the outcome tells what happened ----

  ghost predicate Crashes(past: seq<Event>, i: nat) { Crash(i) in past }

  ghost predicate Commits(past: seq<Event>, i: nat) { Commit(i) in past }

  ghost predicate Removes(past: seq<Event>, i: nat) { CommitRemoval(i) in past }

  ghost predicate Fails(past: seq<Event>, i: nat) {
    CommitFails(i) in past || WriteFails(i, true) in past || WriteFails(i, false) in past
  }

  /** What has happened to a session, told by its phase. */
  ghost predicate Told(v: Session, i: nat, past: seq<Event>) {
    match v.phase
    case Undoing(_) => Fails(past, i) && !Commits(past, i) && !Removes(past, i) && !Crashes(past, i)
    case Unlinking(_) => Removes(past, i) && !Commits(past, i) && !Fails(past, i) && !Crashes(past, i)
    case Ended(outcome) => OutcomeFits(outcome, i, past)
    case _ => !Commits(past, i) && !Removes(past, i) && !Fails(past, i) && !Crashes(past, i)
  }

  ghost predicate OutcomeFits(outcome: Outcome, i: nat, past: seq<Event>) {
    && (outcome.Crashed? <==> Crashes(past, i))
    && (outcome.Success? <==> Commits(past, i))
    && (outcome.Failed? <==> Fails(past, i) && !Crashes(past, i))
    && (outcome.Removed? <==> Removes(past, i) && !Crashes(past, i))
  }

  ghost predicate AllTold(s: State, past: seq<Event>) {
    && (forall i :: 0 <= i < |s.sessions| ==> Told(s.sessions[i], i, past))
    && (forall e, i: nat :: e in past && Acts(e, i) ==> i < |s.sessions|)
  }

  lemma OwnStepTold(env: Env, s: State, past: seq<Event>, e: Event, i: nat)
    requires Enabled(env, s, e) && At(s, i) && Acts(e, i) && Told(s.sessions[i], i, past)
    ensures At(Apply(env, s, e), i) && Told(Apply(env, s, e).sessions[i], i, past + [e])
  {
  }

  lemma OtherStepTold(v: Session, past: seq<Event>, e: Event, i: nat)
    requires Told(v, i, past) && !Acts(e, i)
    ensures Told(v, i, past + [e])
  {
  }

  lemma StepTold(env: Env, s: State, past: seq<Event>, e: Event)
    requires Enabled(env, s, e) && AllTold(s, past)
    ensures AllTold(Apply(env, s, e), past + [e])
  {
    var t := Apply(env, s, e);
    forall i | 0 <= i < |t.sessions| ensures Told(t.sessions[i], i, past + [e]) {
      if !At(s, i) {
        NewSessionTold(env, s, past, e);
      } else if Acts(e, i) {
        OwnStepTold(env, s, past, e, i);
      } else {
        OthersStay(env, s, e, i);
        OtherStepTold(s.sessions[i], past, e, i);
      }
    }
  }

  lemma NewSessionTold(env: Env, s: State, past: seq<Event>, e: Event)
    requires Enabled(env, s, e) && AllTold(s, past) && At(Apply(env, s, e), |s.sessions|)
    ensures |Apply(env, s, e).sessions| == |s.sessions| + 1
    ensures Told(Apply(env, s, e).sessions[|s.sessions|], |s.sessions|, past + [e])
  {
    var i := |s.sessions|;
    forall f | f in past ensures !Acts(f, i) { }
  }

  lemma {:induction false} RunTold(env: Env, s: State, past: seq<Event>, events: seq<Event>)
    requires IsRun(env, s, events) && AllTold(s, past)
    ensures AllTold(After(env, s, events), past + events)
    decreases |events|
  {
    if events == [] {
      assert past + [] == past;
    } else {
      StepTold(env, s, past, events[0]);
      RunTold(env, Apply(env, s, events[0]), past + [events[0]], events[1..]);
      assert past + [events[0]] + events[1..] == past + events;
    }
  }

  /** A session that has ended was a success exactly if it committed, has failed exactly if a write or
      its commit did, has removed exactly if it committed a removal, unless its process died; and
      otherwise it was rejected. */
  lemma OutcomeIsTold(env: Env, now: int, events: seq<Event>, i: nat)
    requires IsRun(env, Empty(now), events) && At(After(env, Empty(now), events), i)
    requires After(env, Empty(now), events).sessions[i].phase.Ended?
    ensures OutcomeFits(After(env, Empty(now), events).sessions[i].phase.outcome, i, events)
  {
    RunTold(env, Empty(now), [], events);
    assert [] + events == events;
  }

  // ---- expired files can be removed ----

  /** Whenever the time of a stored file is over, a cleanup of its owner removes its row. */
  lemma ExpiredCanBeRemoved(env: Env, s: State, r: Row, later: int) returns (events: seq<Event>)
    requires Inv(env, s) && r in s.rows && later >= s.now && later >= r.expires
    ensures IsRun(env, s, events) && r !in After(env, s, events).rows && After(env, s, events).now == later
  {
    var i := |s.sessions|;
    var s1 := Apply(env, s, Tick(later));
    var s2 := Apply(env, s1, BeginCleanup(r.user));
    var s3 := Apply(env, s2, CommitRemoval(i));
    CleanupReadsTheExpired(s.rows, r.user, later);
    WithoutIsDifference(s.rows, Expired(s.rows, r.user, later));
    Prepend(env, s2, CommitRemoval(i), []);
    Prepend(env, s1, BeginCleanup(r.user), [CommitRemoval(i)] + []);
    events := [BeginCleanup(r.user)] + ([CommitRemoval(i)] + []);
    Prepend(env, s, Tick(later), events);
    events := [Tick(later)] + events;
  }
}
