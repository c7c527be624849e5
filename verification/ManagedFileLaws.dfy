/** What holds in every run of the managed files: rows and bytes agree, quotas hold, failed
    uploads leave nothing but what could not be removed, and nothing leaks. */
module ManagedFileLaws {
  import opened Options
  import opened UploadBatches
  import opened ManagedFiles

  /** In every state of every run: each row has its own file, which holds exactly the bytes that
      were uploaded under its id for its owner and name; size and hash of the row are those of
      the bytes; and reading the row gives these bytes. */
  lemma RowsHaveTheirBytes(env: Env, now: int, events: seq<Event>, r: Row)
    requires IsRun(env, Empty(now), events) && r in After(env, Empty(now), events).rows
    ensures var s := After(env, Empty(now), events);
      && r.fileId in s.born && r.user == s.born[r.fileId].user && r.name == s.born[r.fileId].item.name
      && ReadBytes(env, s.disk, r) == Ok(s.born[r.fileId].item.content)
      && (forall q :: q in s.rows && q != r ==> q.key != r.key)
  {
    EmptyIsFine(env, now);
    RunKeepsInv(env, Empty(now), events);
    var s := After(env, Empty(now), events);
    assert RowOk(env, s, r);
    forall q | q in s.rows && q != r ensures q.key != r.key { UniqueRows(s.rows, r, q); }
  }

  lemma {:induction false} UniqueRows(rows: seq<Row>, r: Row, q: Row)
    requires Unique(rows) && r in rows && q in rows && r != q
    ensures !Clash(r, q)
  {
    if r == rows[0] {
      assert q in rows[1..];
    } else if q == rows[0] {
      assert r in rows[1..] && !Clash(q, r);
    } else {
      UniqueRows(rows[1..], r, q);
    }
  }

  /** A row leaves the table only when a deletion or a cleanup of its own user is committed. */
  lemma RowsLeaveByTheirOwner(env: Env, now: int, events: seq<Event>, e: Event, r: Row)
    requires IsRun(env, Empty(now), events) && Enabled(env, After(env, Empty(now), events), e)
    requires r in After(env, Empty(now), events).rows && r !in Apply(env, After(env, Empty(now), events), e).rows
    ensures e.CommitRemoval? && r.user == After(env, Empty(now), events).sessions[e.i].user
  {
    EmptyIsFine(env, now);
    RunKeepsInv(env, Empty(now), events);
    var s := After(env, Empty(now), events);
    if e.CommitRemoval? {
      assert SessionOk(env, s, e.i) && RowOk(env, s, r);
      WithoutIsDifference(s.rows, s.sessions[e.i].phase.refs);
    }
  }

  /** In every state of every run every user is within the file count and the byte quota, and
      no two files of a user have the same content. */
  lemma QuotasHold(env: Env, now: int, events: seq<Event>, user: nat)
    requires Injective(env.hash) && IsRun(env, Empty(now), events)
    ensures var s := After(env, Empty(now), events);
      && Count(s.rows, user) <= env.userCount && Stored(s.rows, user) <= env.userBytes
      && forall r, q :: r in s.rows && q in s.rows && r != q && r.user == user && q.user == user ==>
           ReadBytes(env, s.disk, r) != ReadBytes(env, s.disk, q)
  {
    EmptyIsFine(env, now);
    RunKeepsInv(env, Empty(now), events);
    var s := After(env, Empty(now), events);
    assert Within(env, s.rows, user);
    forall r, q | r in s.rows && q in s.rows && r != q && r.user == user && q.user == user
      ensures ReadBytes(env, s.disk, r) != ReadBytes(env, s.disk, q)
    {
      UniqueRows(s.rows, r, q);
      assert RowOk(env, s, r) && RowOk(env, s, q);
    }
  }

  /** Whatever has happened to the disk, a read gives the bytes whose hash the row was made
      from, or an error. */
  lemma ReadsNeverLie(env: Env, disk: map<Path, Bytes>, r: Row, content: Bytes)
    requires Injective(env.hash) && r.sha == env.hash(content)
    ensures var bytes := ReadBytes(env, disk, r);
      bytes == Ok(content) || bytes == Err(StorageInvalid)
  {
  }

  /** In no run a commit runs into a unique column. */
  lemma CommitsNeverConflict(env: Env, now: int, events: seq<Event>, i: nat)
    requires IsRun(env, Empty(now), events)
    requires At(After(env, Empty(now), events), i) && AllWritten(After(env, Empty(now), events).sessions[i])
    ensures Enabled(env, After(env, Empty(now), events), Commit(i))
  {
    EmptyIsFine(env, now);
    RunKeepsInv(env, Empty(now), events);
    ConstraintsNeverFire(env, After(env, Empty(now), events), i);
  }

  /** A failed upload has added no row; the final files it leaves behind are exactly those it
      had still to remove when a removal failed, and a temporary file is left only as an orphan. */
  lemma FailedUploadsAddNothing(env: Env, now: int, events: seq<Event>, i: nat)
    requires IsRun(env, Empty(now), events)
    requires At(After(env, Empty(now), events), i)
    requires var phase := After(env, Empty(now), events).sessions[i].phase; phase.Ended? && phase.outcome.Failed?
    ensures var s := After(env, Empty(now), events); var left := s.sessions[i].phase.outcome.left;
      && (forall r :: r in s.rows ==> r.fileId in s.born && s.born[r.fileId].session != i)
      && (forall p :: p in s.disk && MadeBy(s, p, i) ==> if p.Final? then p in left else p in s.orphans)
      && (forall p :: p in left ==> p in s.disk && MadeBy(s, p, i))
  {
    EmptyIsFine(env, now);
    RunKeepsInv(env, Empty(now), events);
    var s := After(env, Empty(now), events);
    assert SessionOk(env, s, i);
    forall r | r in s.rows ensures r.fileId in s.born && s.born[r.fileId].session != i { assert RowOk(env, s, r); }
    forall p | p in s.disk && MadeBy(s, p, i) && p.Temp? ensures p in s.orphans { TempsAreClaimed(env, s, p); }
  }

  lemma RowFilesAreFinal(env: Env, s: State)
    requires FilesOk(env, s)
    ensures forall p :: p in Keys(s.rows) ==> p.Final?
  {
    forall r | r in s.rows ensures r.key.Final? { assert RowOk(env, s, r); }
  }

  /** A temporary file is in the hands of the session that drew its id, or an orphan. */
  lemma TempsAreClaimed(env: Env, s: State, p: Path)
    requires Inv(env, s) && p in s.disk && p.Temp?
    ensures p in s.orphans || s.sessions[s.born[p.id].session].phase.Writing?
  {
    assert Claimed(s, p);
    if p !in s.orphans {
      RowFilesAreFinal(env, s);
      var j :| 0 <= j < |s.sessions| && p in Hands(s.sessions[j]);
      assert SessionOk(env, s, j);
      if s.sessions[j].phase.Writing? { KeyListIsKeys(s.sessions[j].phase.rows); }
    }
  }

  /** Steps in which neither a process dies nor the removal of a file fails. */
  predicate Gentle(e: Event) {
    !e.Crash? && !(e.WriteFails? && e.tempStays) && !(e.Undo? && !e.ok) && !(e.Unlink? && !e.ok)
  }

  lemma {:induction false} GentleRunsLeaveNoOrphans(env: Env, s: State, events: seq<Event>)
    requires IsRun(env, s, events) && forall k :: 0 <= k < |events| ==> Gentle(events[k])
    ensures After(env, s, events).orphans == s.orphans
    decreases |events|
  {
    if events != [] {
      assert Gentle(events[0]);
      GentleRunsLeaveNoOrphans(env, Apply(env, s, events[0]), events[1..]);
    }
  }

  /** Nothing leaks: as long as no process dies and no removal fails, every file on disk belongs
      to a row or to a session still at work; between sessions the files are exactly the rows'. */
  lemma NothingLeaks(env: Env, now: int, events: seq<Event>)
    requires IsRun(env, Empty(now), events) && forall k :: 0 <= k < |events| ==> Gentle(events[k])
    ensures var s := After(env, Empty(now), events);
      && (forall p :: p in s.disk ==>
            p in Keys(s.rows) || exists i :: 0 <= i < |s.sessions| && p in Hands(s.sessions[i]))
      && ((forall i :: 0 <= i < |s.sessions| ==> s.sessions[i].phase.Ended?) ==> s.disk.Keys == Keys(s.rows))
  {
    EmptyIsFine(env, now);
    RunKeepsInv(env, Empty(now), events);
    GentleRunsLeaveNoOrphans(env, Empty(now), events);
    var s := After(env, Empty(now), events);
    forall p | p in s.disk
      ensures p in Keys(s.rows) || exists i :: 0 <= i < |s.sessions| && p in Hands(s.sessions[i])
    {
      assert Claimed(s, p);
    }
    forall p | p in Keys(s.rows) ensures p in s.disk {
      var r :| r in s.rows && r.key == p;
      assert RowOk(env, s, r);
    }
  }

  lemma {:induction false} EndedStays(env: Env, s: State, events: seq<Event>, i: nat)
    requires IsRun(env, s, events) && At(s, i) && s.sessions[i].phase.Ended?
    ensures At(After(env, s, events), i) && After(env, s, events).sessions[i] == s.sessions[i]
    ensures forall k, ok :: 0 <= k < |events| ==> events[k] != Undo(i, ok)
    decreases |events|
  {
    if events != [] {
      var t := Apply(env, s, events[0]);
      assert At(t, i) && t.sessions[i] == s.sessions[i];
      EndedStays(env, t, events[1..], i);
      forall k, ok | 0 <= k < |events| ensures events[k] != Undo(i, ok) {
        if k > 0 { assert events[k] == events[1..][k - 1]; }
      }
    }
  }

  lemma FailingStep(env: Env, s: State, e: Event, i: nat)
    requires Enabled(env, s, e) && At(Apply(env, s, e), i)
    requires At(s, i) ==> !s.sessions[i].phase.Ended?
    requires var phase := Apply(env, s, e).sessions[i].phase; phase.Ended? && phase.outcome.Failed?
    ensures Apply(env, s, e).sessions[i].phase.outcome.left == [] <==> e != Undo(i, false)
  {
  }

  /** A step that leaves a session going is none of its failing removals. */
  lemma GoingStep(env: Env, s: State, e: Event, i: nat)
    requires Enabled(env, s, e) && (At(Apply(env, s, e), i) ==> !Apply(env, s, e).sessions[i].phase.Ended?)
    ensures e != Undo(i, false)
  {
  }

  lemma TailEvents(events: seq<Event>, e: Event)
    requires events != []
    ensures (forall k :: 0 <= k < |events| ==> events[k] != e)
            <==> events[0] != e && forall k :: 0 <= k < |events[1..]| ==> events[1..][k] != e
  {
    assert forall k :: 0 < k < |events| ==> events[k] == events[1..][k - 1];
  }

  /** A failed upload leaves no final file exactly if none of its removals failed. */
  lemma {:induction false} LeftIffARemovalFailed(env: Env, s: State, events: seq<Event>, i: nat)
    requires IsRun(env, s, events) && At(After(env, s, events), i)
    requires At(s, i) ==> !s.sessions[i].phase.Ended?
    requires var phase := After(env, s, events).sessions[i].phase; phase.Ended? && phase.outcome.Failed?
    ensures After(env, s, events).sessions[i].phase.outcome.left == [] <==>
              forall k :: 0 <= k < |events| ==> events[k] != Undo(i, false)
    decreases |events|
  {
    assert events != [];
    var (e, t) := (events[0], Apply(env, s, events[0]));
    TailEvents(events, Undo(i, false));
    if At(t, i) && t.sessions[i].phase.Ended? {
      EndedStays(env, t, events[1..], i);
      FailingStep(env, s, e, i);
    } else {
      GoingStep(env, s, e, i);
      LeftIffARemovalFailed(env, t, events[1..], i);
    }
  }

  lemma Prepend(env: Env, s: State, e: Event, rest: seq<Event>)
    requires Enabled(env, s, e) && IsRun(env, Apply(env, s, e), rest)
    ensures IsRun(env, s, [e] + rest) && After(env, s, [e] + rest) == After(env, Apply(env, s, e), rest)
  {
    assert ([e] + rest)[0] == e && ([e] + rest)[1..] == rest;
  }

  /** The upload has failed, and this many of its final files are still on disk. */
  ghost predicate LeavesFiles(s: State, i: nat, n: nat) {
    && At(s, i) && s.sessions[i].phase.Ended? && s.sessions[i].phase.outcome.Failed?
    && var left := s.sessions[i].phase.outcome.left;
    && |left| == n
    && (forall p :: p in left ==> p.Final? && p in s.disk && MadeBy(s, p, i))
    && (forall a, b :: 0 <= a < b < n ==> left[a] != left[b])
  }

  /** In any state, a batch that is fully written leaves all its files behind if the commit fails
      and so does the first removal. */
  lemma RollbackMayLeaveAll(env: Env, s: State, i: nat)
    requires Inv(env, s) && At(s, i) && AllWritten(s.sessions[i])
    ensures IsRun(env, s, [CommitFails(i), Undo(i, false)])
    ensures LeavesFiles(After(env, s, [CommitFails(i), Undo(i, false)]), i, |s.sessions[i].phase.items|)
  {
    assert SessionOk(env, s, i);
    var s1 := Apply(env, s, CommitFails(i));
    StepKeepsInv(env, s, CommitFails(i));
    FailedUndoLeavesAll(env, s1, i);
    Prepend(env, s, CommitFails(i), [Undo(i, false)]);
    assert [CommitFails(i)] + [Undo(i, false)] == [CommitFails(i), Undo(i, false)];
  }

  lemma FailedUndoLeavesAll(env: Env, s: State, i: nat)
    requires Inv(env, s) && Enabled(env, s, Undo(i, false))
    ensures IsRun(env, s, [Undo(i, false)])
    ensures LeavesFiles(After(env, s, [Undo(i, false)]), i, |s.sessions[i].phase.paths|)
  {
    assert SessionOk(env, s, i);
    var t := Apply(env, s, Undo(i, false));
    Prepend(env, s, Undo(i, false), []);
    assert [Undo(i, false)] + [] == [Undo(i, false)];
  }

  lemma {:induction false} WriteOut(env: Env, s: State, items: seq<Item>) returns (events: seq<Event>)
    requires Inv(env, s) && |s.sessions| == 1 && s.sessions[0].phase.Writing?
    requires s.sessions[0].phase.items == items && s.sessions[0].phase.temp.None?
    requires |s.sessions[0].phase.rows| <= |items|
    requires forall id :: id in s.born ==> id < |s.sessions[0].phase.rows|
    ensures IsRun(env, s, events) && LeavesFiles(After(env, s, events), 0, |items|)
    decreases |items| - |s.sessions[0].phase.rows|
  {
    var written := |s.sessions[0].phase.rows|;
    if written == |items| {
      RollbackMayLeaveAll(env, s, 0);
      events := [CommitFails(0), Undo(0, false)];
    } else {
      var open := OpenTemp(0, written, []);
      var s1 := Apply(env, s, open);
      StepKeepsInv(env, s, open);
      StepKeepsInv(env, s1, Replace(0));
      events := WriteOut(env, Apply(env, s1, Replace(0)), items);
      Prepend(env, s1, Replace(0), events);
      events := [Replace(0)] + events;
      Prepend(env, s, open, events);
      events := [open] + events;
    }
  }

  /** A failed upload may leave final files: for every batch that is admitted, whatever its size,
      there is a run in which it fails and leaves the files of the whole batch on disk. */
  lemma FailedUploadMayLeaveAll(env: Env, now: int, user: nat, items: seq<Item>) returns (events: seq<Event>)
    requires GoodBatch(env, items) && |items| <= env.userCount && Total(items) <= env.userBytes
    ensures IsRun(env, Empty(now), events) && LeavesFiles(After(env, Empty(now), events), 0, |items|)
    ensures |items| > 0
  {
    EmptyIsFine(env, now);
    var begin := BeginUpload(user, items);
    var s1 := Apply(env, Empty(now), begin);
    StepKeepsInv(env, Empty(now), begin);
    StepKeepsInv(env, s1, TakeLock(0));
    events := WriteOut(env, Apply(env, s1, TakeLock(0)), items);
    Prepend(env, s1, TakeLock(0), events);
    events := [TakeLock(0)] + events;
    Prepend(env, Empty(now), begin, events);
    events := [begin] + events;
  }

  /** The file id belongs to a finished upload, and no row has it any more. */
  ghost predicate Gone(s: State, id: nat) {
    id in s.born && Stores(s, s.born[id].session) && !HasId(s.rows, id)
  }

  lemma CommitKeepsGone(env: Env, s: State, i: nat, id: nat)
    requires FilesOk(env, s) && Enabled(env, s, Commit(i)) && Gone(s, id)
    ensures Gone(Apply(env, s, Commit(i)), id)
  {
    assert SessionOk(env, s, i);
  }

  lemma StepKeepsGone(env: Env, s: State, e: Event, id: nat)
    requires FilesOk(env, s) && Enabled(env, s, e) && Gone(s, id)
    ensures Gone(Apply(env, s, e), id)
  {
    if e.Commit? {
      CommitKeepsGone(env, s, e.i, id);
    } else if e.CommitRemoval? {
      WithoutIsDifference(s.rows, s.sessions[e.i].phase.refs);
    }
  }

  /** A row that has been removed never comes back, and neither does another with its id. */
  lemma {:induction false} RemovedForGood(env: Env, s: State, events: seq<Event>, id: nat)
    requires Inv(env, s) && IsRun(env, s, events) && Gone(s, id)
    ensures Gone(After(env, s, events), id)
    decreases |events|
  {
    if events != [] {
      StepKeepsInv(env, s, events[0]);
      StepKeepsGone(env, s, events[0], id);
      RemovedForGood(env, Apply(env, s, events[0]), events[1..], id);
    }
  }
}
