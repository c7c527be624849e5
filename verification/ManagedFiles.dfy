/** Metadata rows and stored bytes of uploaded files (`managed_file_service.py`).

    Uploads, deletions and cleanups of expired files run in any number of sessions at once,
    each made of atomic steps: one database transaction or one file operation. Any step may
    fail, and a session may die between two steps. The row lock on the user is held from the
    quota check to the commit or the rollback. Under that lock the quota query is assumed to
    see every committed row, and a commit that reports an error to have stored nothing. */
module ManagedFiles {
  import opened Options
  import opened UploadBatches

  // ---- rows and files ----

  /** A stored file and the temporary file it is written to first; every upload of a file
      draws a new id. */
  datatype Path = Final(user: nat, id: nat, suffix: string) | Temp(user: nat, id: nat)

  datatype Row = Row(fileId: nat, user: nat, name: string, size: nat, sha: string, key: Path, expires: int)

  /** `_record_path` without the file system checks. */
  function RecordPath(env: Env, r: Row): Path {
    Final(r.user, r.fileId, env.suffixOf(r.name))
  }

  function NewRow(env: Env, user: nat, id: nat, item: Item, expires: int): Row {
    Row(id, user, item.name, |item.content|, env.hash(item.content), Final(user, id, env.suffixOf(item.name)), expires)
  }

  datatype ReadError = StorageInvalid

  /** `_read_bytes`, when the file system itself works. */
  function ReadBytes(env: Env, disk: map<Path, Bytes>, r: Row): Result<Bytes, ReadError> {
    if r.size == 0 || r.size > env.maxBytes || r.key != RecordPath(env, r) || r.key !in disk then Err(StorageInvalid)
    else
      var content := disk[r.key];
      if |content| != r.size || env.hash(content) != r.sha then Err(StorageInvalid) else Ok(content)
  }

  // ---- the table ----

  /** The unique columns: file id, storage key, and hash within a user. */
  predicate Clash(r: Row, q: Row) {
    r.fileId == q.fileId || r.key == q.key || (r.user == q.user && r.sha == q.sha)
  }

  predicate NoClash(r: Row, rows: seq<Row>) {
    forall q :: q in rows ==> !Clash(r, q)
  }

  predicate Unique(rows: seq<Row>) {
    rows == [] || (NoClash(rows[0], rows[1..]) && Unique(rows[1..]))
  }

  function Count(rows: seq<Row>, user: nat): nat {
    if rows == [] then 0 else (if rows[0].user == user then 1 else 0) + Count(rows[1..], user)
  }

  function Stored(rows: seq<Row>, user: nat): nat {
    if rows == [] then 0 else (if rows[0].user == user then rows[0].size else 0) + Stored(rows[1..], user)
  }

  predicate HasId(rows: seq<Row>, id: nat) {
    exists r :: r in rows && r.fileId == id
  }

  function Keys(rows: seq<Row>): set<Path> {
    set r | r in rows :: r.key
  }

  /** The table after these rows have been deleted from it. */
  function Without(rows: seq<Row>, gone: seq<Row>): seq<Row> {
    if rows == [] then []
    else (if HasId(gone, rows[0].fileId) then [] else [rows[0]]) + Without(rows[1..], gone)
  }

  function Expired(rows: seq<Row>, user: nat, now: int): seq<Row> {
    if rows == [] then []
    else (if rows[0].user == user && rows[0].expires <= now then [rows[0]] else []) + Expired(rows[1..], user, now)
  }

  // ---- sessions ----

  datatype Outcome =
    | Success                        // rows and files of the batch are stored
    | Removed
    | Rejected                       // nothing was done
    | Failed(left: seq<Path>)        // rolled back; these files could not be removed
    | Crashed

  datatype Phase =
    | Ready(items: seq<Item>)
    | Writing(items: seq<Item>, rows: seq<Row>, temp: Option<nat>, expires: int)   // holding the user's lock
    | Undoing(paths: seq<Path>)
    | Removing(refs: seq<Row>)       // rows that were read in order to be deleted
    | Unlinking(paths: seq<Path>)
    | Ended(outcome: Outcome)

  /** `made` are the final files the session has written so far. */
  datatype Session = Session(user: nat, phase: Phase, made: set<Path>)

  /** Which session drew a file id, for whom and for which file. */
  datatype Birth = Birth(session: nat, user: nat, item: Item)

  /** `orphans` are the files nobody will remove any more; `born` records the ids drawn. */
  datatype State = State(
    now: int, rows: seq<Row>, disk: map<Path, Bytes>, sessions: seq<Session>, born: map<nat, Birth>, orphans: set<Path>)

  datatype Event =
    | Tick(to: int)
    | BeginUpload(user: nat, items: seq<Item>)
    | BeginDelete(user: nat, row: Row)
    | BeginCleanup(user: nat)
    | Reject(i: nat)
    | TakeLock(i: nat)
    | OpenTemp(i: nat, id: nat, partial: Bytes)
    | Replace(i: nat)
    | WriteFails(i: nat, tempStays: bool)
    | Commit(i: nat)
    | CommitFails(i: nat)
    | Undo(i: nat, ok: bool)
    | CommitRemoval(i: nat)
    | Unlink(i: nat, ok: bool)
    | Finish(i: nat)
    | Crash(i: nat)

  predicate At(s: State, i: nat) {
    i < |s.sessions|
  }

  function Hashes(env: Env, items: seq<Item>): set<string> {
    set item | item in items :: env.hash(item.content)
  }

  /** The quota and duplicate checks under the lock. */
  predicate Admitted(env: Env, rows: seq<Row>, user: nat, items: seq<Item>) {
    && Count(rows, user) + |items| <= env.userCount
    && Stored(rows, user) + Total(items) <= env.userBytes
    && forall r :: r in rows && r.user == user ==> r.sha !in Hashes(env, items)
  }

  predicate LockFree(s: State, user: nat) {
    forall j :: 0 <= j < |s.sessions| && s.sessions[j].phase.Writing? ==> s.sessions[j].user != user
  }

  predicate AllWritten(v: Session) {
    v.phase.Writing? && |v.phase.rows| == |v.phase.items| && v.phase.temp.None?
  }

  predicate Enabled(env: Env, s: State, e: Event) {
    match e
    case Tick(to) => to >= s.now
    case BeginUpload(_, items) => GoodBatch(env, items)
    case BeginDelete(user, row) => row in s.rows && row.user == user && row.expires > s.now
    case BeginCleanup(_) => true
    case Reject(i) => At(s, i) && (s.sessions[i].phase.Ready? || s.sessions[i].phase.Removing?)
    case TakeLock(i) => At(s, i) && s.sessions[i].phase.Ready? && LockFree(s, s.sessions[i].user)
    case OpenTemp(i, id, _) =>
      At(s, i) && s.sessions[i].phase.Writing? && s.sessions[i].phase.temp.None?
      && |s.sessions[i].phase.rows| < |s.sessions[i].phase.items| && id !in s.born
    case Replace(i) =>
      At(s, i) && s.sessions[i].phase.Writing? && s.sessions[i].phase.temp.Some?
      && |s.sessions[i].phase.rows| < |s.sessions[i].phase.items|
    case WriteFails(i, _) =>
      At(s, i) && s.sessions[i].phase.Writing? && |s.sessions[i].phase.rows| < |s.sessions[i].phase.items|
    case Commit(i) => At(s, i) && AllWritten(s.sessions[i]) && Unique(s.rows + s.sessions[i].phase.rows)
    case CommitFails(i) => At(s, i) && AllWritten(s.sessions[i])
    case Undo(i, _) => At(s, i) && s.sessions[i].phase.Undoing? && s.sessions[i].phase.paths != []
    case CommitRemoval(i) => At(s, i) && s.sessions[i].phase.Removing?
    case Unlink(i, _) => At(s, i) && s.sessions[i].phase.Unlinking? && s.sessions[i].phase.paths != []
    case Finish(i) =>
      At(s, i) && (s.sessions[i].phase.Undoing? || s.sessions[i].phase.Unlinking?) && s.sessions[i].phase.paths == []
    case Crash(i) => At(s, i) && !s.sessions[i].phase.Ended?
  }

  /** The files of a session that no row speaks for. */
  function Hands(v: Session): set<Path> {
    match v.phase
    case Writing(_, rows, temp, _) => Keys(rows) + if temp.Some? then {Temp(v.user, temp.value)} else {}
    case Undoing(paths) => set p | p in paths
    case Unlinking(paths) => set p | p in paths
    case _ => {}
  }

  function PathsOf(env: Env, rows: seq<Row>): seq<Path> {
    seq(|rows|, i requires 0 <= i < |rows| => RecordPath(env, rows[i]))
  }

  function Moved(s: State, i: nat, phase: Phase): State
    requires At(s, i)
  {
    s.(sessions := s.sessions[i := s.sessions[i].(phase := phase)])
  }

  function Started(s: State, user: nat, phase: Phase): State {
    s.(sessions := s.sessions + [Session(user, phase, {})])
  }

  function Locked(env: Env, s: State, i: nat): State
    requires At(s, i) && s.sessions[i].phase.Ready?
  {
    var v := s.sessions[i];
    if Admitted(env, s.rows, v.user, v.phase.items)
    then Moved(s, i, Writing(v.phase.items, [], None, s.now + env.retention))
    else Moved(s, i, Ended(Rejected))
  }

  function Opened(s: State, i: nat, id: nat, partial: Bytes): State
    requires At(s, i) && s.sessions[i].phase.Writing? && |s.sessions[i].phase.rows| < |s.sessions[i].phase.items|
  {
    var v := s.sessions[i];
    Moved(s, i, v.phase.(temp := Some(id))).(
      disk := s.disk[Temp(v.user, id) := partial],
      born := s.born[id := Birth(i, v.user, v.phase.items[|v.phase.rows|])])
  }

  function Replaced(env: Env, s: State, i: nat): State
    requires Enabled(env, s, Replace(i))
  {
    var v := s.sessions[i];
    var item := v.phase.items[|v.phase.rows|];
    var row := NewRow(env, v.user, v.phase.temp.value, item, v.phase.expires);
    s.(disk := (s.disk - {Temp(v.user, v.phase.temp.value)})[row.key := item.content],
       sessions := s.sessions[
         i := Session(v.user, v.phase.(rows := v.phase.rows + [row], temp := None), v.made + {row.key})])
  }

  /** A failed write rolls back; the temporary file may resist its removal. */
  function WriteFailed(s: State, i: nat, tempStays: bool): State
    requires At(s, i) && s.sessions[i].phase.Writing?
  {
    var v := s.sessions[i];
    var t := Moved(s, i, Undoing(KeyList(v.phase.rows)));
    if v.phase.temp.None? then t
    else if tempStays then t.(orphans := t.orphans + {Temp(v.user, v.phase.temp.value)})
    else t.(disk := t.disk - {Temp(v.user, v.phase.temp.value)})
  }

  function KeyList(rows: seq<Row>): seq<Path> {
    seq(|rows|, i requires 0 <= i < |rows| => rows[i].key)
  }

  function Apply(env: Env, s: State, e: Event): State
    requires Enabled(env, s, e)
  {
    match e
    case Tick(to) => s.(now := to)
    case BeginUpload(user, items) => Started(s, user, Ready(items))
    case BeginDelete(user, row) => Started(s, user, Removing([row]))
    case BeginCleanup(user) => Started(s, user, Removing(Expired(s.rows, user, s.now)))
    case Reject(i) => Moved(s, i, Ended(Rejected))
    case TakeLock(i) => Locked(env, s, i)
    case OpenTemp(i, id, partial) => Opened(s, i, id, partial)
    case Replace(i) => Replaced(env, s, i)
    case WriteFails(i, tempStays) => WriteFailed(s, i, tempStays)
    case Commit(i) => Moved(s, i, Ended(Success)).(rows := s.rows + s.sessions[i].phase.rows)
    case CommitFails(i) => Moved(s, i, Undoing(KeyList(s.sessions[i].phase.rows)))
    case Undo(i, ok) =>
      var paths := s.sessions[i].phase.paths;
      if ok then Moved(s, i, Undoing(paths[1..])).(disk := s.disk - {paths[0]})
      else Moved(s, i, Ended(Failed(paths))).(orphans := s.orphans + (set p | p in paths))
    case CommitRemoval(i) =>
      var refs := s.sessions[i].phase.refs;
      Moved(s, i, Unlinking(PathsOf(env, refs))).(rows := Without(s.rows, refs))
    case Unlink(i, ok) =>
      var paths := s.sessions[i].phase.paths;
      var t := Moved(s, i, Unlinking(paths[1..]));
      if ok then t.(disk := s.disk - {paths[0]}) else t.(orphans := s.orphans + {paths[0]})
    case Finish(i) => Moved(s, i, Ended(if s.sessions[i].phase.Undoing? then Failed([]) else Removed))
    case Crash(i) => Moved(s, i, Ended(Crashed)).(orphans := s.orphans + Hands(s.sessions[i]))
  }

  ghost predicate IsRun(env: Env, s: State, events: seq<Event>)
    decreases |events|
  {
    events == [] || (Enabled(env, s, events[0]) && IsRun(env, Apply(env, s, events[0]), events[1..]))
  }

  ghost function After(env: Env, s: State, events: seq<Event>): State
    requires IsRun(env, s, events)
    decreases |events|
  {
    if events == [] then s else After(env, Apply(env, s, events[0]), events[1..])
  }

  function Empty(now: int): State {
    State(now, [], map[], [], map[], {})
  }

  // ---- the invariant: rows, sessions and files ----

  predicate Stores(s: State, i: nat) {
    At(s, i) && s.sessions[i].phase == Ended(Success)
  }

  /** The id of this path was drawn by this session. */
  predicate MadeBy(s: State, p: Path, i: nat) {
    p.id in s.born && s.born[p.id].session == i
  }

  /** The row names its owner and file as they were uploaded, and the path that belongs to them. */
  predicate NamedAsBorn(env: Env, s: State, r: Row) {
    r.fileId in s.born && r.user == s.born[r.fileId].user && r.name == s.born[r.fileId].item.name
    && r.key == RecordPath(env, r)
  }

  /** The file of a row holds the uploaded bytes, which the row describes. */
  predicate FileOf(env: Env, s: State, r: Row) {
    NamedAsBorn(env, s, r) && var content := s.born[r.fileId].item.content;
    && r.key in s.disk && s.disk[r.key] == content
    && r.size == |content| && r.sha == env.hash(content) && 0 < r.size <= env.maxBytes
  }

  ghost predicate RowOk(env: Env, s: State, r: Row) {
    FileOf(env, s, r) && Stores(s, s.born[r.fileId].session)
  }

  /** A file somebody is about to remove: no row has its id any more, and none ever will. */
  ghost predicate Doomed(s: State, p: Path) {
    p.Final? && p.id in s.born && Stores(s, s.born[p.id].session) && !HasId(s.rows, p.id)
  }

  ghost predicate RefOk(env: Env, s: State, r: Row) {
    NamedAsBorn(env, s, r) && Stores(s, s.born[r.fileId].session)
  }

  /** Of the files the session ever wrote exactly these are still there. */
  ghost predicate Remaining(s: State, i: nat, made: set<Path>, paths: seq<Path>) {
    && (forall p :: p in made ==> p.Final? && MadeBy(s, p, i))
    && (forall p :: p in made ==> (p in s.disk <==> p in paths))
    && (forall p :: p in paths ==> p in made)
    && (forall a, b :: 0 <= a < b < |paths| ==> paths[a] != paths[b])
  }

  ghost predicate WritingOk(env: Env, s: State, i: nat, v: Session)
    requires v.phase.Writing?
  {
    var (items, rows, temp) := (v.phase.items, v.phase.rows, v.phase.temp);
    && GoodBatch(env, items) && |rows| <= |items| && Unique(rows)
    && (forall k :: 0 <= k < |rows| ==>
          FileOf(env, s, rows[k]) && s.born[rows[k].fileId] == Birth(i, v.user, items[k]))
    && Remaining(s, i, v.made, KeyList(rows)) && (forall p :: p in v.made ==> p in KeyList(rows))
    && (temp.Some? ==> |rows| < |items| && temp.value in s.born && !HasId(rows, temp.value)
                       && s.born[temp.value] == Birth(i, v.user, items[|rows|]))
  }

  ghost predicate SessionOk(env: Env, s: State, i: nat)
    requires At(s, i)
  {
    var v := s.sessions[i];
    match v.phase
    case Ready(items) => GoodBatch(env, items) && v.made == {}
    case Writing(_, _, _, _) => WritingOk(env, s, i, v)
    case Undoing(paths) => Remaining(s, i, v.made, paths)
    case Removing(refs) => v.made == {} && forall r :: r in refs ==> RefOk(env, s, r) && r.user == v.user
    case Unlinking(paths) => v.made == {} && forall p :: p in paths ==> Doomed(s, p)
    case Ended(outcome) => outcome.Failed? ==> Remaining(s, i, v.made, outcome.left)
  }

  ghost predicate FilesOk(env: Env, s: State) {
    && (forall r :: r in s.rows ==> RowOk(env, s, r))
    && (forall i :: 0 <= i < |s.sessions| ==> SessionOk(env, s, i))
    && (forall id :: id in s.born ==> s.born[id].session < |s.sessions|)
  }

  /** Somebody speaks for this file. */
  ghost predicate Claimed(s: State, p: Path) {
    p in s.orphans || p in Keys(s.rows) || exists i :: 0 <= i < |s.sessions| && p in Hands(s.sessions[i])
  }

  ghost predicate AllClaimed(s: State) {
    forall p :: p in s.disk ==> Claimed(s, p)
  }

  // ---- a step of one session leaves the others alone ----

  ghost predicate SameFile(s: State, t: State, p: Path) {
    (p in s.disk <==> p in t.disk) && (p in s.disk ==> t.disk[p] == s.disk[p])
  }

  /** What session i may have changed on the way from s to t. */
  ghost predicate StepOf(s: State, t: State, i: nat) {
    && (At(s, i) ==> !s.sessions[i].phase.Ended?)
    && (|t.sessions| == |s.sessions| || (|t.sessions| == |s.sessions| + 1 && i == |s.sessions|))
    && (forall j :: 0 <= j < |s.sessions| && j != i ==> t.sessions[j] == s.sessions[j])
    && (forall id :: id in s.born ==> id in t.born && t.born[id] == s.born[id])
    && (forall id :: id in t.born && id !in s.born ==> t.born[id].session == i && At(t, i))
    && (forall p: Path :: p.id in s.born && !MadeBy(s, p, i) && !Doomed(s, p) ==> SameFile(s, t, p))
    && (forall r :: r in t.rows && r !in s.rows ==> r.fileId in s.born && s.born[r.fileId].session == i)
  }

  lemma FileRemains(env: Env, s: State, t: State, i: nat, r: Row)
    requires StepOf(s, t, i) && FileOf(env, s, r) && !MadeBy(s, r.key, i) && !Doomed(s, r.key)
    ensures FileOf(env, t, r)
  {
    assert SameFile(s, t, r.key);
  }

  lemma RemainingRemains(s: State, t: State, i: nat, j: nat, made: set<Path>, paths: seq<Path>)
    requires StepOf(s, t, i) && Remaining(s, j, made, paths) && j != i && At(s, j) && !Stores(s, j)
    ensures Remaining(t, j, made, paths)
  {
    forall p | p in made ensures MadeBy(t, p, j) && (p in t.disk <==> p in paths) {
      assert MadeBy(s, p, j) && !MadeBy(s, p, i) && !Doomed(s, p);
      assert SameFile(s, t, p);
    }
  }

  lemma OtherSession(env: Env, s: State, t: State, i: nat, j: nat)
    requires FilesOk(env, s) && StepOf(s, t, i) && At(s, j) && j != i
    ensures SessionOk(env, t, j)
  {
    var v := s.sessions[j];
    assert SessionOk(env, s, j);
    match v.phase
    case Ready(_) =>
    case Writing(items, rows, temp, _) =>
      RemainingRemains(s, t, i, j, v.made, KeyList(rows));
      forall k | 0 <= k < |rows| ensures FileOf(env, t, rows[k]) && t.born[rows[k].fileId] == s.born[rows[k].fileId] {
        FileRemains(env, s, t, i, rows[k]);
      }
    case Undoing(paths) => RemainingRemains(s, t, i, j, v.made, paths);
    case Removing(refs) =>
      assert forall r :: r in refs ==> RefOk(env, t, r);
    case Unlinking(paths) =>
      assert forall p :: p in paths ==> Doomed(t, p);
    case Ended(outcome) =>
      if outcome.Failed? { RemainingRemains(s, t, i, j, v.made, outcome.left); }
  }

  lemma StepKeepsFiles(env: Env, s: State, t: State, i: nat)
    requires FilesOk(env, s) && StepOf(s, t, i)
    requires At(t, i) ==> SessionOk(env, t, i)
    requires forall r :: r in t.rows && r !in s.rows ==> RowOk(env, t, r)
    ensures FilesOk(env, t)
  {
    forall r | r in t.rows ensures RowOk(env, t, r) { }
    forall j | 0 <= j < |t.sessions| ensures SessionOk(env, t, j) {
      if j != i { OtherSession(env, s, t, i, j); }
    }
  }

  // ---- every step keeps the rows and the files in order ----

  /** A cleanup reads exactly the expired rows of its user. */
  lemma {:induction false} CleanupReadsTheExpired(rows: seq<Row>, user: nat, now: int)
    ensures forall r :: r in Expired(rows, user, now) <==> r in rows && r.user == user && r.expires <= now
  {
    if rows != [] { CleanupReadsTheExpired(rows[1..], user, now); }
  }

  lemma WithoutIsDifference(rows: seq<Row>, gone: seq<Row>)
    ensures forall r :: r in Without(rows, gone) <==> r in rows && !HasId(gone, r.fileId)
  {
  }

  lemma BeginFiles(env: Env, s: State, e: Event)
    requires FilesOk(env, s) && Enabled(env, s, e) && (e.BeginUpload? || e.BeginDelete? || e.BeginCleanup? || e.Tick?)
    ensures FilesOk(env, Apply(env, s, e))
  {
    var t := Apply(env, s, e);
    if !e.Tick? { BegunSession(env, s, e); }
    StepKeepsFiles(env, s, t, |s.sessions|);
  }

  lemma BegunSession(env: Env, s: State, e: Event)
    requires FilesOk(env, s) && Enabled(env, s, e) && (e.BeginUpload? || e.BeginDelete? || e.BeginCleanup?)
    ensures At(Apply(env, s, e), |s.sessions|) && SessionOk(env, Apply(env, s, e), |s.sessions|)
  {
    var t := Apply(env, s, e);
    CleanupReadsTheExpired(s.rows, if e.BeginCleanup? then e.user else 0, s.now);
    forall r | r in s.rows ensures RefOk(env, t, r) { assert RowOk(env, s, r); }
  }

  lemma MoveFiles(env: Env, s: State, i: nat, phase: Phase)
    requires FilesOk(env, s) && At(s, i) && !s.sessions[i].phase.Ended?
    requires SessionOk(env, Moved(s, i, phase), i)
    ensures FilesOk(env, Moved(s, i, phase))
  {
    StepKeepsFiles(env, s, Moved(s, i, phase), i);
  }

  lemma LockFiles(env: Env, s: State, i: nat)
    requires FilesOk(env, s) && Enabled(env, s, TakeLock(i))
    ensures FilesOk(env, Locked(env, s, i))
  {
    assert SessionOk(env, s, i);
    var t := Locked(env, s, i);
    MoveFiles(env, s, i, t.sessions[i].phase);
  }

  lemma OpenRemaining(env: Env, s: State, i: nat, id: nat, partial: Bytes)
    requires FilesOk(env, s) && Enabled(env, s, OpenTemp(i, id, partial))
    ensures Remaining(Opened(s, i, id, partial), i, s.sessions[i].made, KeyList(s.sessions[i].phase.rows))
  {
    assert SessionOk(env, s, i);
    forall p | p in s.sessions[i].made ensures SameFile(s, Opened(s, i, id, partial), p) {
    }
  }

  lemma OpenSession(env: Env, s: State, i: nat, id: nat, partial: Bytes)
    requires FilesOk(env, s) && Enabled(env, s, OpenTemp(i, id, partial))
    ensures SessionOk(env, Opened(s, i, id, partial), i)
  {
    var (v, t) := (s.sessions[i], Opened(s, i, id, partial));
    assert SessionOk(env, s, i);
    forall k | 0 <= k < |v.phase.rows|
      ensures FileOf(env, t, v.phase.rows[k]) && t.born[v.phase.rows[k].fileId] == Birth(i, v.user, v.phase.items[k])
    {
    }
    OpenRemaining(env, s, i, id, partial);
  }

  lemma OpenStep(env: Env, s: State, i: nat, id: nat, partial: Bytes)
    requires Enabled(env, s, OpenTemp(i, id, partial))
    ensures StepOf(s, Opened(s, i, id, partial), i)
  {
  }

  lemma OpenFiles(env: Env, s: State, i: nat, id: nat, partial: Bytes)
    requires FilesOk(env, s) && Enabled(env, s, OpenTemp(i, id, partial))
    ensures FilesOk(env, Opened(s, i, id, partial))
  {
    OpenSession(env, s, i, id, partial);
    OpenStep(env, s, i, id, partial);
    StepKeepsFiles(env, s, Opened(s, i, id, partial), i);
  }

  lemma {:induction false} UniqueAppend(rows: seq<Row>, r: Row)
    requires Unique(rows) && NoClash(r, rows)
    ensures Unique(rows + [r])
  {
    if rows != [] {
      assert (rows + [r])[1..] == rows[1..] + [r];
      UniqueAppend(rows[1..], r);
      assert Clash(rows[0], r) ==> Clash(r, rows[0]);
    }
  }

  lemma ReplaceKeepsUnique(env: Env, s: State, i: nat)
    requires FilesOk(env, s) && Enabled(env, s, Replace(i))
    ensures Unique(Replaced(env, s, i).sessions[i].phase.rows)
  {
    var v := s.sessions[i];
    assert SessionOk(env, s, i);
    var item := v.phase.items[|v.phase.rows|];
    var row := NewRow(env, v.user, v.phase.temp.value, item, v.phase.expires);
    forall q | q in v.phase.rows ensures !Clash(row, q) {
      var k :| 0 <= k < |v.phase.rows| && q == v.phase.rows[k];
      assert q.sha == env.hash(v.phase.items[k].content);
    }
    UniqueAppend(v.phase.rows, row);
  }

  /** The new file is none of those the session wrote before, and these stay as they are. */
  lemma ReplaceIsNew(env: Env, s: State, i: nat)
    requires FilesOk(env, s) && Enabled(env, s, Replace(i))
    ensures var t := Replaced(env, s, i);
      forall p :: p in s.sessions[i].made ==>
        p.id != s.sessions[i].phase.temp.value && SameFile(s, t, p)
  {
    var v := s.sessions[i];
    assert SessionOk(env, s, i);
    forall p | p in v.made
      ensures p.id != v.phase.temp.value && SameFile(s, Replaced(env, s, i), p)
    {
      var k :| 0 <= k < |KeyList(v.phase.rows)| && KeyList(v.phase.rows)[k] == p;
      assert v.phase.rows[k].fileId != v.phase.temp.value;
    }
  }

  lemma ReplaceRows(env: Env, s: State, i: nat, k: nat)
    requires FilesOk(env, s) && Enabled(env, s, Replace(i)) && k <= |s.sessions[i].phase.rows|
    ensures var t := Replaced(env, s, i);
      var r := t.sessions[i].phase.rows[k];
      FileOf(env, t, r) && t.born[r.fileId] == Birth(i, s.sessions[i].user, s.sessions[i].phase.items[k])
  {
    var v := s.sessions[i];
    assert SessionOk(env, s, i);
    ReplaceIsNew(env, s, i);
    if k < |v.phase.rows| {
      assert KeyList(v.phase.rows)[k] == v.phase.rows[k].key;
      assert v.phase.rows[k].key in v.made;
    }
  }

  lemma ReplaceRemaining(env: Env, s: State, i: nat)
    requires FilesOk(env, s) && Enabled(env, s, Replace(i))
    ensures var t := Replaced(env, s, i);
      var w := t.sessions[i];
      Remaining(t, i, w.made, KeyList(w.phase.rows)) && forall p :: p in w.made ==> p in KeyList(w.phase.rows)
  {
    var (v, w) := (s.sessions[i], Replaced(env, s, i).sessions[i]);
    assert SessionOk(env, s, i);
    ReplaceIsNew(env, s, i);
    assert KeyList(w.phase.rows) == KeyList(v.phase.rows) + [w.phase.rows[|v.phase.rows|].key];
  }

  lemma ReplaceSession(env: Env, s: State, i: nat)
    requires FilesOk(env, s) && Enabled(env, s, Replace(i))
    ensures SessionOk(env, Replaced(env, s, i), i)
  {
    var (v, w) := (s.sessions[i], Replaced(env, s, i).sessions[i]);
    assert SessionOk(env, s, i);
    ReplaceKeepsUnique(env, s, i);
    ReplaceRemaining(env, s, i);
    forall k | 0 <= k < |w.phase.rows|
      ensures FileOf(env, Replaced(env, s, i), w.phase.rows[k])
              && Replaced(env, s, i).born[w.phase.rows[k].fileId] == Birth(i, v.user, v.phase.items[k])
    {
      ReplaceRows(env, s, i, k);
    }
  }

  lemma ReplaceStep(env: Env, s: State, i: nat)
    requires FilesOk(env, s) && Enabled(env, s, Replace(i))
    ensures StepOf(s, Replaced(env, s, i), i)
  {
    var id := s.sessions[i].phase.temp.value;
    assert SessionOk(env, s, i);
    assert forall p: Path :: p.id == id ==> MadeBy(s, p, i);
  }

  lemma ReplaceFiles(env: Env, s: State, i: nat)
    requires FilesOk(env, s) && Enabled(env, s, Replace(i))
    ensures FilesOk(env, Replaced(env, s, i))
  {
    ReplaceSession(env, s, i);
    ReplaceStep(env, s, i);
    StepKeepsFiles(env, s, Replaced(env, s, i), i);
  }

  lemma WriteFailsSession(env: Env, s: State, i: nat, tempStays: bool)
    requires FilesOk(env, s) && Enabled(env, s, WriteFails(i, tempStays))
    ensures SessionOk(env, WriteFailed(s, i, tempStays), i)
  {
    assert SessionOk(env, s, i);
    var t := WriteFailed(s, i, tempStays);
    assert Remaining(t, i, t.sessions[i].made, t.sessions[i].phase.paths);
  }

  lemma WriteFailsStep(env: Env, s: State, i: nat, tempStays: bool)
    requires FilesOk(env, s) && Enabled(env, s, WriteFails(i, tempStays))
    ensures StepOf(s, WriteFailed(s, i, tempStays), i)
  {
    assert SessionOk(env, s, i);
  }

  lemma WriteFailsFiles(env: Env, s: State, i: nat, tempStays: bool)
    requires FilesOk(env, s) && Enabled(env, s, WriteFails(i, tempStays))
    ensures FilesOk(env, WriteFailed(s, i, tempStays))
  {
    WriteFailsSession(env, s, i, tempStays);
    WriteFailsStep(env, s, i, tempStays);
    StepKeepsFiles(env, s, WriteFailed(s, i, tempStays), i);
  }

  lemma CommitRows(env: Env, s: State, i: nat, r: Row)
    requires FilesOk(env, s) && Enabled(env, s, Commit(i)) && r in s.sessions[i].phase.rows
    ensures RowOk(env, Apply(env, s, Commit(i)), r) && s.born[r.fileId].session == i
  {
    assert SessionOk(env, s, i);
    var k :| 0 <= k < |s.sessions[i].phase.rows| && r == s.sessions[i].phase.rows[k];
  }

  lemma CommitFiles(env: Env, s: State, i: nat)
    requires FilesOk(env, s) && Enabled(env, s, Commit(i))
    ensures FilesOk(env, Apply(env, s, Commit(i)))
  {
    var t := Apply(env, s, Commit(i));
    forall r | r in t.rows && r !in s.rows ensures RowOk(env, t, r) && s.born[r.fileId].session == i {
      CommitRows(env, s, i, r);
    }
    StepKeepsFiles(env, s, t, i);
  }

  lemma UndoSession(env: Env, s: State, i: nat, ok: bool)
    requires FilesOk(env, s) && Enabled(env, s, Undo(i, ok))
    ensures SessionOk(env, Apply(env, s, Undo(i, ok)), i) && MadeBy(s, s.sessions[i].phase.paths[0], i)
  {
    var (v, t) := (s.sessions[i], Apply(env, s, Undo(i, ok)));
    assert SessionOk(env, s, i);
    if ok {
      assert v.phase.paths == [v.phase.paths[0]] + v.phase.paths[1..];
      assert Remaining(t, i, v.made, v.phase.paths[1..]);
    }
  }

  lemma UndoFiles(env: Env, s: State, i: nat, ok: bool)
    requires FilesOk(env, s) && Enabled(env, s, Undo(i, ok))
    ensures FilesOk(env, Apply(env, s, Undo(i, ok)))
  {
    UndoSession(env, s, i, ok);
    StepKeepsFiles(env, s, Apply(env, s, Undo(i, ok)), i);
  }

  lemma CommitRemovalFiles(env: Env, s: State, i: nat)
    requires FilesOk(env, s) && Enabled(env, s, CommitRemoval(i))
    ensures FilesOk(env, Apply(env, s, CommitRemoval(i)))
  {
    var t := Apply(env, s, CommitRemoval(i));
    assert SessionOk(env, s, i);
    var refs := s.sessions[i].phase.refs;
    WithoutIsDifference(s.rows, refs);
    forall p | p in PathsOf(env, refs) ensures Doomed(t, p) {
      var k :| 0 <= k < |refs| && p == RecordPath(env, refs[k]);
      assert RefOk(env, s, refs[k]) && HasId(refs, p.id);
    }
    StepKeepsFiles(env, s, t, i);
  }

  lemma UnlinkFiles(env: Env, s: State, i: nat, ok: bool)
    requires FilesOk(env, s) && Enabled(env, s, Unlink(i, ok))
    ensures FilesOk(env, Apply(env, s, Unlink(i, ok)))
  {
    var t := Apply(env, s, Unlink(i, ok));
    assert SessionOk(env, s, i);
    var paths := s.sessions[i].phase.paths;
    assert Doomed(s, paths[0]);
    forall p | p in paths[1..] ensures Doomed(t, p) { assert Doomed(s, p); }
    StepKeepsFiles(env, s, t, i);
  }

  lemma FilesAreKept(env: Env, s: State, e: Event)
    requires FilesOk(env, s) && Enabled(env, s, e)
    ensures FilesOk(env, Apply(env, s, e))
  {
    match e
    case TakeLock(i) => LockFiles(env, s, i);
    case OpenTemp(i, id, partial) => OpenFiles(env, s, i, id, partial);
    case Replace(i) => ReplaceFiles(env, s, i);
    case WriteFails(i, tempStays) => WriteFailsFiles(env, s, i, tempStays);
    case Commit(i) => CommitFiles(env, s, i);
    case Undo(i, ok) => UndoFiles(env, s, i, ok);
    case CommitRemoval(i) => CommitRemovalFiles(env, s, i);
    case Unlink(i, ok) => UnlinkFiles(env, s, i, ok);
    case Reject(i) => MoveFiles(env, s, i, Ended(Rejected));
    case CommitFails(i) => CommitFailsFiles(env, s, i);
    case Finish(i) => FinishFiles(env, s, i);
    case Crash(i) => CrashFiles(env, s, i);
    case _ => BeginFiles(env, s, e);
  }

  lemma CommitFailsFiles(env: Env, s: State, i: nat)
    requires FilesOk(env, s) && Enabled(env, s, CommitFails(i))
    ensures FilesOk(env, Apply(env, s, CommitFails(i)))
  {
    assert SessionOk(env, s, i);
    var t := Apply(env, s, CommitFails(i));
    assert Remaining(t, i, t.sessions[i].made, t.sessions[i].phase.paths);
    MoveFiles(env, s, i, t.sessions[i].phase);
  }

  lemma FinishFiles(env: Env, s: State, i: nat)
    requires FilesOk(env, s) && Enabled(env, s, Finish(i))
    ensures FilesOk(env, Apply(env, s, Finish(i)))
  {
    assert SessionOk(env, s, i);
    MoveFiles(env, s, i, Apply(env, s, Finish(i)).sessions[i].phase);
  }

  lemma CrashFiles(env: Env, s: State, i: nat)
    requires FilesOk(env, s) && Enabled(env, s, Crash(i))
    ensures FilesOk(env, Apply(env, s, Crash(i)))
  {
    StepKeepsFiles(env, s, Apply(env, s, Crash(i)), i);
  }

  // ---- quotas and unique columns ----

  ghost predicate Within(env: Env, rows: seq<Row>, user: nat) {
    Count(rows, user) <= env.userCount && Stored(rows, user) <= env.userBytes
  }

  ghost predicate QuotaOk(env: Env, s: State) {
    && Unique(s.rows)
    && (forall u :: Within(env, s.rows, u))
    && (forall j :: 0 <= j < |s.sessions| && s.sessions[j].phase.Writing? ==>
          Admitted(env, s.rows, s.sessions[j].user, s.sessions[j].phase.items))
    && (forall j, k :: 0 <= j < k < |s.sessions| && s.sessions[j].phase.Writing? && s.sessions[k].phase.Writing? ==>
          s.sessions[j].user != s.sessions[k].user)
  }

  lemma {:induction false} CountJoin(a: seq<Row>, b: seq<Row>, user: nat)
    ensures Count(a + b, user) == Count(a, user) + Count(b, user)
    ensures Stored(a + b, user) == Stored(a, user) + Stored(b, user)
  {
    if a == [] {
      assert a + b == b;
    } else {
      assert (a + b)[1..] == a[1..] + b;
      CountJoin(a[1..], b, user);
    }
  }

  lemma {:induction false} CountOfBatch(rows: seq<Row>, items: seq<Item>, user: nat, u: nat)
    requires |rows| == |items|
    requires forall k :: 0 <= k < |rows| ==> rows[k].user == user && rows[k].size == |items[k].content|
    ensures Count(rows, u) == (if u == user then |items| else 0)
    ensures Stored(rows, u) == (if u == user then Total(items) else 0)
    decreases |rows|
  {
    if rows != [] {
      var last := |rows| - 1;
      CountOfBatch(rows[..last], items[..last], user, u);
      assert rows == rows[..last] + [rows[last]];
      CountJoin(rows[..last], [rows[last]], u);
    }
  }

  lemma {:induction false} WithoutShrinks(rows: seq<Row>, gone: seq<Row>, user: nat)
    ensures Count(Without(rows, gone), user) <= Count(rows, user)
    ensures Stored(Without(rows, gone), user) <= Stored(rows, user)
  {
    if rows != [] {
      WithoutShrinks(rows[1..], gone, user);
      var head := if HasId(gone, rows[0].fileId) then [] else [rows[0]];
      CountJoin(head, Without(rows[1..], gone), user);
    }
  }

  lemma {:induction false} WithoutKeepsUnique(rows: seq<Row>, gone: seq<Row>)
    requires Unique(rows)
    ensures Unique(Without(rows, gone))
  {
    if rows != [] {
      WithoutKeepsUnique(rows[1..], gone);
      WithoutIsDifference(rows[1..], gone);
      var rest := Without(rows[1..], gone);
      assert forall q :: q in rest ==> q in rows[1..];
      assert NoClash(rows[0], rest) && ([rows[0]] + rest)[1..] == rest && [] + rest == rest;
    }
  }

  lemma {:induction false} UniqueJoin(a: seq<Row>, b: seq<Row>)
    requires Unique(a) && Unique(b) && forall r :: r in a ==> NoClash(r, b)
    ensures Unique(a + b)
  {
    if a == [] {
      assert a + b == b;
    } else {
      assert (a + b)[1..] == a[1..] + b && a[0] in a;
      assert NoClash(a[0], a[1..] + b);
      UniqueJoin(a[1..], b);
    }
  }

  /** When the files of a batch have been written, no unique column stands in the way of its
      commit: the lock and the checks under it exclude every conflict. */
  lemma ConstraintsNeverFire(env: Env, s: State, i: nat)
    requires FilesOk(env, s) && QuotaOk(env, s) && At(s, i) && AllWritten(s.sessions[i])
    ensures Unique(s.rows + s.sessions[i].phase.rows)
  {
    var (v, rows) := (s.sessions[i], s.sessions[i].phase.rows);
    assert SessionOk(env, s, i);
    forall r | r in s.rows ensures NoClash(r, rows) {
      assert RowOk(env, s, r);
      forall q | q in rows ensures !Clash(r, q) {
        var k :| 0 <= k < |rows| && q == rows[k];
        assert FileOf(env, s, q) && v.phase.items[k] in v.phase.items;
        assert q.sha in Hashes(env, v.phase.items);
      }
    }
    UniqueJoin(s.rows, rows);
  }

  /** What a commit adds for each user. */
  lemma CommitCounts(env: Env, s: State, i: nat, u: nat)
    requires FilesOk(env, s) && Enabled(env, s, Commit(i))
    ensures var (v, rows) := (s.sessions[i], s.rows + s.sessions[i].phase.rows);
      && Count(rows, u) == Count(s.rows, u) + (if u == v.user then |v.phase.items| else 0)
      && Stored(rows, u) == Stored(s.rows, u) + (if u == v.user then Total(v.phase.items) else 0)
    ensures forall r :: r in s.sessions[i].phase.rows ==> r.user == s.sessions[i].user
  {
    var v := s.sessions[i];
    assert SessionOk(env, s, i);
    CountJoin(s.rows, v.phase.rows, u);
    CountOfBatch(v.phase.rows, v.phase.items, v.user, u);
  }

  lemma CommitKeepsAdmitted(env: Env, s: State, i: nat, j: nat)
    requires FilesOk(env, s) && QuotaOk(env, s) && Enabled(env, s, Commit(i))
    requires j != i && At(s, j) && s.sessions[j].phase.Writing?
    ensures Admitted(env, s.rows + s.sessions[i].phase.rows, s.sessions[j].user, s.sessions[j].phase.items)
  {
    CommitCounts(env, s, i, s.sessions[j].user);
    assert s.sessions[j].user != s.sessions[i].user;
  }

  lemma CommitQuota(env: Env, s: State, i: nat)
    requires FilesOk(env, s) && QuotaOk(env, s) && Enabled(env, s, Commit(i))
    ensures QuotaOk(env, Apply(env, s, Commit(i)))
  {
    var t := Apply(env, s, Commit(i));
    forall u ensures Within(env, t.rows, u) {
      assert Within(env, s.rows, u);
      CommitCounts(env, s, i, u);
    }
    forall j | 0 <= j < |t.sessions| && t.sessions[j].phase.Writing?
      ensures Admitted(env, t.rows, t.sessions[j].user, t.sessions[j].phase.items)
    {
      CommitKeepsAdmitted(env, s, i, j);
    }
  }

  lemma RemovalQuota(env: Env, s: State, i: nat)
    requires QuotaOk(env, s) && Enabled(env, s, CommitRemoval(i))
    ensures QuotaOk(env, Apply(env, s, CommitRemoval(i)))
  {
    var (refs, t) := (s.sessions[i].phase.refs, Apply(env, s, CommitRemoval(i)));
    WithoutKeepsUnique(s.rows, refs);
    WithoutIsDifference(s.rows, refs);
    forall u ensures Count(t.rows, u) <= Count(s.rows, u) && Stored(t.rows, u) <= Stored(s.rows, u) {
      WithoutShrinks(s.rows, refs, u);
    }
    forall u ensures Within(env, t.rows, u) { assert Within(env, s.rows, u); }
  }

  lemma QuotaIsKept(env: Env, s: State, e: Event)
    requires FilesOk(env, s) && QuotaOk(env, s) && Enabled(env, s, e)
    ensures QuotaOk(env, Apply(env, s, e))
  {
    match e
    case Commit(i) => CommitQuota(env, s, i);
    case CommitRemoval(i) => RemovalQuota(env, s, i);
    case TakeLock(_) =>
    case _ => QuietQuota(env, s, e);
  }

  /** Nobody writes who did not write before, and nobody else's batch. */
  ghost predicate SameWriters(s: State, t: State) {
    |s.sessions| <= |t.sessions| && forall j :: 0 <= j < |t.sessions| && t.sessions[j].phase.Writing? ==>
      && j < |s.sessions| && s.sessions[j].phase.Writing?
      && s.sessions[j].user == t.sessions[j].user && s.sessions[j].phase.items == t.sessions[j].phase.items
  }

  lemma SameWritersQuota(env: Env, s: State, t: State)
    requires QuotaOk(env, s) && SameWriters(s, t) && t.rows == s.rows
    ensures QuotaOk(env, t)
  {
    forall u ensures Within(env, t.rows, u) { assert Within(env, s.rows, u); }
  }

  /** The steps that neither touch the table nor take a lock. */
  lemma QuietQuota(env: Env, s: State, e: Event)
    requires QuotaOk(env, s) && Enabled(env, s, e) && !e.Commit? && !e.CommitRemoval? && !e.TakeLock?
    ensures QuotaOk(env, Apply(env, s, e))
  {
    assert SameWriters(s, Apply(env, s, e));
    SameWritersQuota(env, s, Apply(env, s, e));
  }

  // ---- every file has somebody who answers for it ----

  lemma ClaimRemains(env: Env, s: State, t: State, i: nat, p: Path)
    requires Claimed(s, p) && |s.sessions| <= |t.sessions| && s.orphans <= t.orphans
    requires forall j :: 0 <= j < |s.sessions| && j != i ==> t.sessions[j] == s.sessions[j]
    requires p in Keys(s.rows) ==> Claimed(t, p)
    requires At(s, i) && p in Hands(s.sessions[i]) ==> Claimed(t, p)
    ensures Claimed(t, p)
  {
    if p !in s.orphans && p !in Keys(s.rows) {
      var j :| 0 <= j < |s.sessions| && p in Hands(s.sessions[j]);
      assert j != i ==> p in Hands(t.sessions[j]);
    }
  }

  lemma RemovalClaims(env: Env, s: State, i: nat, p: Path)
    requires FilesOk(env, s) && Enabled(env, s, CommitRemoval(i)) && p in Keys(s.rows)
    ensures Claimed(Apply(env, s, CommitRemoval(i)), p)
  {
    var t := Apply(env, s, CommitRemoval(i));
    var refs := s.sessions[i].phase.refs;
    assert SessionOk(env, s, i);
    WithoutIsDifference(s.rows, refs);
    var r :| r in s.rows && r.key == p;
    assert RowOk(env, s, r);
    if HasId(refs, r.fileId) {
      var k :| 0 <= k < |refs| && refs[k].fileId == r.fileId;
      assert RefOk(env, s, refs[k]) && PathsOf(env, refs)[k] == p;
      assert p in Hands(t.sessions[i]);
    }
  }

  lemma CommitClaims(env: Env, s: State, i: nat, p: Path)
    requires Enabled(env, s, Commit(i)) && p in Keys(s.rows) + Hands(s.sessions[i])
    ensures Claimed(Apply(env, s, Commit(i)), p)
  {
    var t := Apply(env, s, Commit(i));
    var r :| r in t.rows && r.key == p;
  }

  lemma HandsPassOn(env: Env, s: State, e: Event, i: nat, p: Path)
    requires Enabled(env, s, e) && At(s, i) && p in Hands(s.sessions[i]) && p in Apply(env, s, e).disk
    requires e in {Replace(i), CommitFails(i), Crash(i), Finish(i)} || (e.WriteFails? && e.i == i)
             || (e.Undo? && e.i == i) || (e.Unlink? && e.i == i) || (e.OpenTemp? && e.i == i)
    ensures p in Hands(Apply(env, s, e).sessions[i]) + Apply(env, s, e).orphans
  {
    var (v, t) := (s.sessions[i], Apply(env, s, e));
    match e
    case WriteFails(_, _) => KeyListIsKeys(v.phase.rows);
    case CommitFails(_) => KeyListIsKeys(v.phase.rows);
    case Undo(_, _) => assert v.phase.paths == [v.phase.paths[0]] + v.phase.paths[1..];
    case Unlink(_, _) => assert v.phase.paths == [v.phase.paths[0]] + v.phase.paths[1..];
    case Replace(_) => assert forall r :: r in v.phase.rows ==> r in t.sessions[i].phase.rows;
    case _ =>
  }

  lemma KeyListIsKeys(rows: seq<Row>)
    ensures (set p | p in KeyList(rows)) == Keys(rows)
  {
    assert forall k :: 0 <= k < |rows| ==> KeyList(rows)[k] == rows[k].key && rows[k] in rows;
    forall p | p in Keys(rows) ensures p in KeyList(rows) {
      var k :| 0 <= k < |rows| && rows[k].key == p;
      assert KeyList(rows)[k] == p;
    }
  }

  /** The steps that neither touch the table nor pass files on. */
  lemma IdleClaims(env: Env, s: State, e: Event, i: nat, p: Path)
    requires AllClaimed(s) && Enabled(env, s, e) && p in s.disk
    requires if e.Reject? || e.TakeLock? then i == e.i else i == |s.sessions|
    requires e.Tick? || e.BeginUpload? || e.BeginDelete? || e.BeginCleanup? || e.Reject? || e.TakeLock?
    ensures Claimed(Apply(env, s, e), p)
  {
    ClaimRemains(env, s, Apply(env, s, e), i, p);
  }

  /** The steps in which a session passes its files on. */
  lemma HeldClaims(env: Env, s: State, e: Event, i: nat, p: Path)
    requires AllClaimed(s) && Enabled(env, s, e) && p in Apply(env, s, e).disk && p in s.disk
    requires e in {Replace(i), CommitFails(i), Crash(i), Finish(i)} || (e.WriteFails? && e.i == i)
             || (e.Undo? && e.i == i) || (e.Unlink? && e.i == i) || (e.OpenTemp? && e.i == i)
    ensures Claimed(Apply(env, s, e), p)
  {
    if p in Hands(s.sessions[i]) { HandsPassOn(env, s, e, i, p); }
    ClaimRemains(env, s, Apply(env, s, e), i, p);
  }

  lemma CommitKeepsClaims(env: Env, s: State, i: nat, p: Path)
    requires AllClaimed(s) && Enabled(env, s, Commit(i)) && p in s.disk
    ensures Claimed(Apply(env, s, Commit(i)), p)
  {
    if p in Keys(s.rows) + Hands(s.sessions[i]) { CommitClaims(env, s, i, p); }
    ClaimRemains(env, s, Apply(env, s, Commit(i)), i, p);
  }

  lemma RemovalKeepsClaims(env: Env, s: State, i: nat, p: Path)
    requires FilesOk(env, s) && AllClaimed(s) && Enabled(env, s, CommitRemoval(i)) && p in s.disk
    ensures Claimed(Apply(env, s, CommitRemoval(i)), p)
  {
    if p in Keys(s.rows) { RemovalClaims(env, s, i, p); }
    ClaimRemains(env, s, Apply(env, s, CommitRemoval(i)), i, p);
  }

  lemma ClaimsAreKept(env: Env, s: State, e: Event, p: Path)
    requires FilesOk(env, s) && AllClaimed(s) && Enabled(env, s, e) && p in Apply(env, s, e).disk && p in s.disk
    ensures Claimed(Apply(env, s, e), p)
  {
    match e
    case Commit(i) => CommitKeepsClaims(env, s, i, p);
    case CommitRemoval(i) => RemovalKeepsClaims(env, s, i, p);
    case Reject(i) => IdleClaims(env, s, e, i, p);
    case TakeLock(i) => IdleClaims(env, s, e, i, p);
    case Tick(_) => IdleClaims(env, s, e, |s.sessions|, p);
    case BeginUpload(_, _) => IdleClaims(env, s, e, |s.sessions|, p);
    case BeginDelete(_, _) => IdleClaims(env, s, e, |s.sessions|, p);
    case BeginCleanup(_) => IdleClaims(env, s, e, |s.sessions|, p);
    case _ => HeldClaims(env, s, e, e.i, p);
  }

  lemma NewFilesAreClaimed(env: Env, s: State, e: Event, p: Path)
    requires FilesOk(env, s) && Enabled(env, s, e) && p in Apply(env, s, e).disk && p !in s.disk
    ensures Claimed(Apply(env, s, e), p)
  {
    var t := Apply(env, s, e);
    match e
    case OpenTemp(i, id, _) => assert p in Hands(t.sessions[i]);
    case Replace(i) =>
      assert t.sessions[i].phase.rows[|s.sessions[i].phase.rows|].key == p;
      assert p in Hands(t.sessions[i]);
    case _ =>
  }

  // ---- all runs ----

  /** Final files are on disk only if their session has made them. */
  ghost predicate MadeOk(s: State) {
    forall p :: p in s.disk ==> p.id in s.born && At(s, s.born[p.id].session)
                                && (p.Final? ==> p in s.sessions[s.born[p.id].session].made)
  }

  ghost predicate Inv(env: Env, s: State) {
    FilesOk(env, s) && QuotaOk(env, s) && AllClaimed(s) && MadeOk(s)
  }

  lemma NoFileAppears(env: Env, s: State, e: Event)
    requires Enabled(env, s, e) && !e.Replace? && !e.OpenTemp?
    ensures Apply(env, s, e).disk.Keys <= s.disk.Keys && Apply(env, s, e).born == s.born
  {
  }

  lemma MadeGrowsWithReplace(env: Env, s: State, e: Event)
    requires Enabled(env, s, e) && !e.Replace?
    ensures |s.sessions| <= |Apply(env, s, e).sessions|
    ensures forall j :: 0 <= j < |s.sessions| ==> Apply(env, s, e).sessions[j].made == s.sessions[j].made
  {
  }

  lemma OpenMade(env: Env, s: State, i: nat, id: nat, partial: Bytes)
    requires MadeOk(s) && Enabled(env, s, OpenTemp(i, id, partial))
    ensures MadeOk(Opened(s, i, id, partial))
  {
  }

  lemma ReplaceMade(env: Env, s: State, i: nat)
    requires FilesOk(env, s) && MadeOk(s) && Enabled(env, s, Replace(i))
    ensures MadeOk(Replaced(env, s, i))
  {
    assert SessionOk(env, s, i);
  }

  lemma MadeIsKept(env: Env, s: State, e: Event)
    requires FilesOk(env, s) && MadeOk(s) && Enabled(env, s, e)
    ensures MadeOk(Apply(env, s, e))
  {
    match e
    case Replace(i) => ReplaceMade(env, s, i);
    case OpenTemp(i, id, partial) => OpenMade(env, s, i, id, partial);
    case _ =>
      NoFileAppears(env, s, e);
      MadeGrowsWithReplace(env, s, e);
  }

  lemma StepKeepsInv(env: Env, s: State, e: Event)
    requires Inv(env, s) && Enabled(env, s, e)
    ensures Inv(env, Apply(env, s, e))
  {
    FilesAreKept(env, s, e);
    QuotaIsKept(env, s, e);
    MadeIsKept(env, s, e);
    forall p | p in Apply(env, s, e).disk ensures Claimed(Apply(env, s, e), p) {
      if p in s.disk { ClaimsAreKept(env, s, e, p); } else { NewFilesAreClaimed(env, s, e, p); }
    }
  }

  lemma {:induction false} RunKeepsInv(env: Env, s: State, events: seq<Event>)
    requires Inv(env, s) && IsRun(env, s, events)
    ensures Inv(env, After(env, s, events))
    decreases |events|
  {
    if events != [] {
      StepKeepsInv(env, s, events[0]);
      RunKeepsInv(env, Apply(env, s, events[0]), events[1..]);
    }
  }

  lemma EmptyIsFine(env: Env, now: int)
    ensures Inv(env, Empty(now))
  {
    forall u ensures Within(env, Empty(now).rows, u) { }
  }
}
