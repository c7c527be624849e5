/** Where the answers of the invocations come from, told from a diary of the events: who asked what,
    what the ledgers were used for, and what the graph returned. */
module AnswerOrigins {
  import opened Options
  import opened CacheKeys
  import opened FieldJoins
  import opened HexTexts
  import opened RunBudgets
  import opened AnswerCache

  datatype Reply = NoReply | Reply(answer: string, complete: bool)

  /** What happened to one invocation. */
  datatype Entry = Entry(actor: nat, query: string, ledgers: seq<seq<Op>>, reply: Reply)

  function Noted(diary: seq<Entry>, e: Event): seq<Entry> {
    match e
    case Begin(actor, query) => diary + [Entry(actor, query, [], NoReply)]
    case OpenLedger(i) =>
      if i < |diary| then diary[i := diary[i].(ledgers := diary[i].ledgers + [[]])] else diary
    case UseLedger(i, j, op) =>
      if i < |diary| && j < |diary[i].ledgers|
      then diary[i := diary[i].(ledgers := diary[i].ledgers[j := diary[i].ledgers[j] + [op]])]
      else diary
    case Returns(i, answer, complete) =>
      if i < |diary| then diary[i := diary[i].(reply := Reply(answer, complete))] else diary
    case _ => diary
  }

  function Diary(diary: seq<Entry>, events: seq<Event>): seq<Entry>
    decreases |events|
  {
    if events == [] then diary else Diary(Noted(diary, events[0]), events[1..])
  }

  /** The invocation is the one the diary tells of: it asks for that actor and query, its ledgers were
      used as noted, and an answer in its hands that is no hit is the one the graph returned. */
  predicate Matches(v: Invocation, entry: Entry) {
    && v.actor == entry.actor && v.query == entry.query && v.histories == entry.ledgers
    && (v.complete ==> entry.reply.Reply? && entry.reply.complete)
    && (v.wrote.Some? ==> entry.reply.Reply? && v.wrote.value == entry.reply.answer)
    && match v.phase
       case Checking(answer) => !v.hit && entry.reply == Reply(answer, v.complete)
       case Writing(answer) => !v.hit && entry.reply == Reply(answer, v.complete)
       case Done(answer) => v.hit || (entry.reply.Reply? && entry.reply.answer == answer)
       case Failed => true
       case _ => !v.hit && entry.reply.NoReply? && !v.complete
  }

  ghost predicate AllMatch(s: System, diary: seq<Entry>) {
    |s.invocations| == |diary| && forall i :: 0 <= i < |diary| ==> Matches(s.invocations[i], diary[i])
  }

  lemma EntryMatches(env: Env, s: System, diary: seq<Entry>, e: Event, k: nat)
    requires |s.invocations| == |diary| && Enabled(s, e) && k < |Noted(diary, e)|
    requires k < |diary| ==> Matches(s.invocations[k], diary[k])
    ensures k < |Apply(env, s, e).invocations| && Matches(Apply(env, s, e).invocations[k], Noted(diary, e)[k])
  {
  }

  lemma StepMatches(env: Env, s: System, diary: seq<Entry>, e: Event)
    requires AllMatch(s, diary) && Enabled(s, e)
    ensures AllMatch(Apply(env, s, e), Noted(diary, e))
  {
    forall k | 0 <= k < |Noted(diary, e)|
      ensures k < |Apply(env, s, e).invocations| && Matches(Apply(env, s, e).invocations[k], Noted(diary, e)[k])
    {
      EntryMatches(env, s, diary, e, k);
    }
    assert |Apply(env, s, e).invocations| == |Noted(diary, e)|;
  }

  lemma {:induction false} RunMatches(env: Env, s: System, diary: seq<Entry>, events: seq<Event>)
    requires AllMatch(s, diary) && IsRun(env, s, events)
    ensures AllMatch(After(env, s, events), Diary(diary, events))
    decreases |events|
  {
    if events != [] {
      StepMatches(env, s, diary, events[0]);
      RunMatches(env, Apply(env, s, events[0]), Noted(diary, events[0]), events[1..]);
    }
  }

  /** In every run every invocation works for the actor and the query it was begun with, and ends,
      unless by a hit, with the very answer the graph returned to it, whatever the ledgers said. */
  lemma AnswersAreOwn(env: Env, events: seq<Event>, i: nat)
    requires IsRun(env, Nothing, events) && i < |After(env, Nothing, events).invocations|
    ensures var (s, diary) := (After(env, Nothing, events), Diary([], events));
      && |diary| == |s.invocations|
      && s.invocations[i].actor == diary[i].actor && s.invocations[i].query == diary[i].query
      && (s.invocations[i].phase.Done? && !s.invocations[i].hit ==>
            diary[i].reply.Reply? && s.invocations[i].phase.answer == diary[i].reply.answer)
  {
    RunMatches(env, Nothing, [], events);
    assert Matches(After(env, Nothing, events).invocations[i], Diary([], events)[i]);
  }

  /** At some point the uses of the ledger were those of a clean run. */
  ghost predicate UsedCleanly(env: Env, ops: seq<Op>) {
    exists k :: 0 <= k <= |ops| && CleanRun(env.modelLimit, ops[..k])
  }

  ghost predicate CleanLedgers(env: Env, entry: Entry) {
    entry.ledgers != [] && forall j :: 0 <= j < |entry.ledgers| ==> UsedCleanly(env, entry.ledgers[j])
  }

  /** The invocation was begun for the actor and the query, used its ledgers cleanly, and got the
      answer from the graph, complete. */
  ghost predicate Earned(env: Env, entry: Entry, actor: nat, query: string, answer: string) {
    entry.actor == actor && entry.query == query && entry.reply == Reply(answer, true) && CleanLedgers(env, entry)
  }

  lemma AuthorEarned(env: Env, v: Invocation, entry: Entry, answer: string)
    requires Matches(v, entry) && Author(env, v, answer)
    ensures Earned(env, entry, v.actor, v.query, answer)
  {
    forall j | 0 <= j < |entry.ledgers| ensures UsedCleanly(env, entry.ledgers[j]) {
      assert entry.ledgers[j][..|v.evidence[j]|] == v.evidence[j];
    }
  }

  /** In every run what the cache holds for an actor and a query was returned by the graph, complete,
      to an invocation begun for that very actor and query, every ledger of which was used cleanly. */
  lemma EntriesWereEarned(env: Env, events: seq<Event>, actor: nat, query: string)
    requires ValidEnv(env) && IsRun(env, Nothing, events)
    requires CacheKey(env.hash, env.config, actor, query) in After(env, Nothing, events).cache
    ensures var answer := After(env, Nothing, events).cache[CacheKey(env.hash, env.config, actor, query)];
      exists i :: 0 <= i < |Diary([], events)| && Earned(env, Diary([], events)[i], actor, query, answer)
  {
    EntriesHaveCleanAuthors(env, events, actor, query);
    RunMatches(env, Nothing, [], events);
    var (s, diary) := (After(env, Nothing, events), Diary([], events));
    var answer := s.cache[CacheKey(env.hash, env.config, actor, query)];
    var i :| 0 <= i < |s.invocations| && s.invocations[i].actor == actor && s.invocations[i].query == query
             && Author(env, s.invocations[i], answer);
    AuthorEarned(env, s.invocations[i], diary[i], answer);
  }

  /** What was stored is found: the next lookup for the same actor and query, before anything else
      happens to the entry, is a hit with that answer. */
  lemma StoredAnswerIsFound(env: Env, s: System, i: nat, ends: bool, k: nat)
    requires Inv(env, s) && Enabled(s, Store(i, true, ends))
    requires k != i && Enabled(s, Lookup(k))
    requires s.invocations[k].actor == s.invocations[i].actor && s.invocations[k].query == s.invocations[i].query
    ensures var t := Apply(env, s, Store(i, true, ends));
      && Enabled(t, Lookup(k))
      && Apply(env, t, Lookup(k)).invocations[k].hit
      && Apply(env, t, Lookup(k)).invocations[k].phase == Done(s.invocations[i].phase.answer)
  {
    assert InvocationOk(env, s, s.invocations[i]);
  }

  /** Without an entry the graph runs, and an entry that is too long is an error. */
  lemma LookupIsExact(env: Env, s: System, i: nat)
    requires Enabled(s, Lookup(i))
    ensures var (v, t) := (s.invocations[i], Apply(env, s, Lookup(i)));
      var key := CacheKey(env.hash, env.config, v.actor, v.query);
      && (t.invocations[i].phase.Running? <==> key !in s.cache)
      && (t.invocations[i].phase.Done? ==> key in s.cache && t.invocations[i].phase == Done(s.cache[key]))
      && (t.invocations[i].phase.Failed? <==> key in s.cache && |s.cache[key]| > env.maxChars)
      && t.cache == s.cache
  {
  }

  // ---- queries that bypass the cache ----

  ghost predicate Mentions(query: string, part: string) {
    exists before, after :: query == before + part + after
  }

  lemma UuidIsGrouped(s: string)
    requires |s| == 36
    ensures UuidAt(s, 0) <==> IsGrouped(s, AnyHex)
  {
    GroupedAt(s, AnyHex);
    forall c ensures IsHex(c) <==> c in AnyHex { AnyHexRanges(c); }
  }

  lemma MentionedIffAt(query: string, part: string)
    requires part != ""
    ensures Mentions(query, part) <==> exists i :: 0 <= i < |query| && PartAt(query, part, i)
  {
    if Mentions(query, part) {
      var before, after :| query == before + part + after;
      assert PartAt(query, part, |before|);
    }
    if i :| 0 <= i < |query| && PartAt(query, part, i) {
      assert query == query[..i] + part + query[i + |part|..];
    }
  }

  lemma UuidAtIff(query: string, i: nat)
    ensures UuidAt(query, i) <==> i + 36 <= |query| && IsGrouped(query[i..i + 36], AnyHex)
  {
    if i + 36 <= |query| {
      var id := query[i..i + 36];
      UuidIsGrouped(id);
      assert forall j :: 0 <= j < 36 ==> id[j] == query[i + j];
      assert UuidAt(query, i) ==> UuidAt(id, 0);
      forall j | i <= j < i + 36 && UuidAt(id, 0) ensures UuidChar(query[j], j - i) {
        assert UuidChar(id[j - i], j - i);
      }
    }
  }

  lemma UuidMentioned(query: string, i: nat)
    requires UuidAt(query, i)
    ensures i + 36 <= |query| && IsGrouped(query[i..i + 36], AnyHex) && Mentions(query, query[i..i + 36])
  {
    UuidAtIff(query, i);
    var id := query[i..i + 36];
    assert query == query[..i] + id + query[i + 36..];
  }

  lemma MentionedIsUuid(query: string, id: string) returns (i: nat)
    requires IsGrouped(id, AnyHex) && Mentions(query, id)
    ensures i < |query| && UuidAt(query, i)
  {
    var before, after :| query == before + id + after;
    i := |before|;
    assert query[i..i + 36] == id;
    UuidAtIff(query, i);
  }

  ghost predicate MentionsUuid(query: string) {
    exists id :: IsGrouped(id, AnyHex) && Mentions(query, id)
  }

  /** A query bypasses the cache exactly if it mentions the marker of a managed file, or a UUID. */
  lemma BypassIff(query: string)
    ensures Bypasses(query) <==> Mentions(query, "__managed_file_v1__") || MentionsUuid(query)
  {
    MentionedIffAt(query, "__managed_file_v1__");
    UuidsAreMentioned(query);
  }

  lemma UuidsAreMentioned(query: string)
    ensures MentionsUuid(query) <==> exists i :: 0 <= i < |query| && UuidAt(query, i)
  {
    if i :| 0 <= i < |query| && UuidAt(query, i) { UuidMentioned(query, i); }
    if id :| IsGrouped(id, AnyHex) && Mentions(query, id) { var i := MentionedIsUuid(query, id); }
  }
}
