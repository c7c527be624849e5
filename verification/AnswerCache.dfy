/** Which answers enter the answer cache and who gets them back (`AgentService.ainvoke`).

    Any number of invocations run at once. An invocation collects the ledger of every graph
    run it starts; branches may use these ledgers at any time. Only what the ledgers say
    decides whether the answer is stored. The hash of the cache key is any injective one. */
module AnswerCache {
  import opened Options
  import opened CacheKeys
  import opened FieldJoins
  import opened RunBudgets

  // ---- queries that bypass the cache ----

  predicate IsHex(c: char) {
    '0' <= c <= '9' || 'a' <= c <= 'f' || 'A' <= c <= 'F'
  }

  /** The k-th character of a UUID: hyphens after 8, 4, 4 and 4 hexadecimal digits. */
  predicate UuidChar(c: char, k: nat) {
    if k in {8, 13, 18, 23} then c == '-' else IsHex(c)
  }

  predicate UuidAt(s: string, i: nat) {
    i + 36 <= |s| && forall j :: i <= j < i + 36 ==> UuidChar(s[j], j - i)
  }

  /** `_has_managed_file_reference`. */
  predicate Bypasses(query: string) {
    || (exists i :: 0 <= i < |query| && PartAt(query, "__managed_file_v1__", i))
    || (exists i :: 0 <= i < |query| && UuidAt(query, i))
  }

  // ---- invocations ----

  datatype Env = Env(hash: string -> string, config: KeyConfig, modelLimit: nat, toolLimit: nat, maxChars: nat)

  ghost predicate ValidEnv(env: Env) {
    Injective(env.hash)
  }

  datatype Phase =
    | Looking                                     // about to read the cache
    | Running                                     // the graph runs
    | Checking(answer: string)                    // asking the ledgers one after the other
    | Writing(answer: string)
    | Done(answer: string)
    | Failed

  /** `histories` are the ledgers collected so far; `evidence` is what those already asked
      looked like when they were asked; `complete` tells whether the graph ended with a complete
      final message; `wrote` is the answer it tried to store. */
  datatype Invocation = Invocation(
    actor: nat, query: string, phase: Phase, histories: seq<seq<Op>>, evidence: seq<seq<Op>>, complete: bool,
    hit: bool, wrote: Option<string>)

  datatype System = System(invocations: seq<Invocation>, cache: map<string, string>)

  datatype Event =
    | Begin(actor: nat, query: string)
    | Lookup(i: nat)
    | OpenLedger(i: nat)
    | UseLedger(i: nat, j: nat, op: Op)
    | Returns(i: nat, answer: string, complete: bool)
    | Fails(i: nat)
    | AskLedger(i: nat)
    | Decide(i: nat)
    | Store(i: nat, landed: bool, ends: bool)
    | Evict(key: string)

  function KeyOf(env: Env, v: Invocation): string {
    CacheKey(env.hash, env.config, v.actor, v.query)
  }

  predicate Enabled(s: System, e: Event) {
    match e
    case Begin(actor, _) => actor > 0
    case Lookup(i) => i < |s.invocations| && s.invocations[i].phase.Looking?
    case OpenLedger(i) => i < |s.invocations| && s.invocations[i].phase.Running?
    case UseLedger(i, j, _) => i < |s.invocations| && j < |s.invocations[i].histories|
    case Returns(i, _, _) => i < |s.invocations| && s.invocations[i].phase.Running?
    case Fails(i) => i < |s.invocations| && !s.invocations[i].phase.Done?
    case AskLedger(i) =>
      && i < |s.invocations| && s.invocations[i].phase.Checking?
      && |s.invocations[i].evidence| < |s.invocations[i].histories|
    case Decide(i) =>
      && i < |s.invocations| && s.invocations[i].phase.Checking?
      && |s.invocations[i].evidence| == |s.invocations[i].histories|
    case Store(i, _, _) => i < |s.invocations| && s.invocations[i].phase.Writing?
    case Evict(_) => true
  }

  function LookedUp(env: Env, cache: map<string, string>, v: Invocation): Invocation {
    if KeyOf(env, v) !in cache then v.(phase := Running)
    else if |cache[KeyOf(env, v)]| > env.maxChars then v.(phase := Failed)
    else v.(phase := Done(cache[KeyOf(env, v)]), hit := true)
  }

  function Returned(env: Env, v: Invocation, answer: string, complete: bool): Invocation {
    if |answer| > env.maxChars then v.(phase := Failed)
    else if Bypasses(v.query) then v.(phase := Done(answer))
    else v.(phase := Checking(answer), complete := complete)
  }

  /** One more ledger is asked; the first that refuses ends the matter. */
  function Asked(env: Env, v: Invocation): Invocation
    requires v.phase.Checking? && |v.evidence| < |v.histories|
  {
    var history := v.histories[|v.evidence|];
    if AllowsCache(Replay(Fresh(env.modelLimit, env.toolLimit), history)) then v.(evidence := v.evidence + [history])
    else v.(phase := Done(v.phase.answer))
  }

  function Decided(v: Invocation): Invocation
    requires v.phase.Checking?
  {
    if v.histories != [] && v.complete then v.(phase := Writing(v.phase.answer))
    else v.(phase := Done(v.phase.answer))
  }

  /** A write to the cache may land or not, and independently of that the invocation may still
      be cancelled while it waits for the outcome. */
  function Stored(v: Invocation, ends: bool): Invocation
    requires v.phase.Writing?
  {
    v.(phase := if ends then Done(v.phase.answer) else Failed, wrote := Some(v.phase.answer))
  }

  function Update(s: System, i: nat, v: Invocation): System
    requires i < |s.invocations|
  {
    s.(invocations := s.invocations[i := v])
  }

  function Apply(env: Env, s: System, e: Event): System
    requires Enabled(s, e)
  {
    match e
    case Begin(actor, query) =>
      s.(invocations := s.invocations
           + [Invocation(actor, query, if Bypasses(query) then Running else Looking, [], [], false, false, None)])
    case Lookup(i) => Update(s, i, LookedUp(env, s.cache, s.invocations[i]))
    case OpenLedger(i) => Update(s, i, s.invocations[i].(histories := s.invocations[i].histories + [[]]))
    case UseLedger(i, j, op) =>
      var v := s.invocations[i];
      Update(s, i, v.(histories := v.histories[j := v.histories[j] + [op]]))
    case Returns(i, answer, complete) => Update(s, i, Returned(env, s.invocations[i], answer, complete))
    case Fails(i) => Update(s, i, s.invocations[i].(phase := Failed))
    case AskLedger(i) => Update(s, i, Asked(env, s.invocations[i]))
    case Decide(i) => Update(s, i, Decided(s.invocations[i]))
    case Store(i, landed, ends) =>
      var v := s.invocations[i];
      var t := Update(s, i, Stored(v, ends));
      if landed then t.(cache := t.cache[KeyOf(env, v) := v.phase.answer]) else t
    case Evict(key) => s.(cache := s.cache - {key})
  }

  ghost predicate IsRun(env: Env, s: System, events: seq<Event>)
    decreases |events|
  {
    events == [] || (Enabled(s, events[0]) && IsRun(env, Apply(env, s, events[0]), events[1..]))
  }

  ghost function After(env: Env, s: System, events: seq<Event>): System
    requires IsRun(env, s, events)
    decreases |events|
  {
    if events == [] then s else After(env, Apply(env, s, events[0]), events[1..])
  }

  /** Admission is exact: an invocation goes on past a ledger exactly if that ledger's run was
      clean, and it comes to store its answer exactly if it collected some ledger, has asked
      them all, and its final message was complete. */
  lemma AdmissionIsExact(env: Env, v: Invocation)
    requires v.phase.Checking?
    ensures |v.evidence| < |v.histories| ==>
              (Asked(env, v).phase.Checking? <==> CleanRun(env.modelLimit, v.histories[|v.evidence|]))
    ensures Decided(v).phase.Writing? <==> v.histories != [] && v.complete
    ensures !Decided(v).phase.Writing? ==> Decided(v).phase == Done(v.phase.answer)
  {
    if |v.evidence| < |v.histories| {
      CacheAllowedIffCleanRun(env.modelLimit, env.toolLimit, v.histories[|v.evidence|]);
    }
  }

  // ---- the invariant ----

  /** Every ledger of the run was asked and, when it was asked, belonged to a clean run. */
  ghost predicate FullEvidence(env: Env, v: Invocation) {
    && v.histories != [] && |v.evidence| == |v.histories|
    && forall j :: 0 <= j < |v.evidence| ==> CleanRun(env.modelLimit, v.evidence[j]) && v.evidence[j] <= v.histories[j]
  }

  ghost predicate EvidenceSoFar(env: Env, v: Invocation) {
    && |v.evidence| <= |v.histories|
    && forall j :: 0 <= j < |v.evidence| ==> CleanRun(env.modelLimit, v.evidence[j]) && v.evidence[j] <= v.histories[j]
  }

  /** The invocation stored this answer, on full evidence. */
  ghost predicate Author(env: Env, v: Invocation, answer: string) {
    v.wrote == Some(answer) && v.complete && FullEvidence(env, v) && !Bypasses(v.query) && |answer| <= env.maxChars
  }

  ghost predicate HasAuthor(env: Env, s: System, key: string, answer: string) {
    exists i :: 0 <= i < |s.invocations| && KeyOf(env, s.invocations[i]) == key && Author(env, s.invocations[i], answer)
  }

  ghost predicate InvocationOk(env: Env, s: System, v: Invocation) {
    && EvidenceSoFar(env, v)
    && (v.phase.Looking? || v.phase.Checking? || v.phase.Writing? ==> !Bypasses(v.query))
    && (v.phase.Checking? || v.phase.Writing? ==> |v.phase.answer| <= env.maxChars)
    && (v.phase.Writing? ==> v.complete && FullEvidence(env, v))
    && (v.wrote.Some? ==> (v.phase.Done? || v.phase.Failed?) && Author(env, v, v.wrote.value))
    && (v.hit ==> v.phase.Done? && !Bypasses(v.query) && HasAuthor(env, s, KeyOf(env, v), v.phase.answer))
  }

  ghost predicate Inv(env: Env, s: System) {
    && (forall i :: 0 <= i < |s.invocations| ==> InvocationOk(env, s, s.invocations[i]))
    && (forall key :: key in s.cache ==> HasAuthor(env, s, key, s.cache[key]))
  }

  /** A later state in which every author is still there. */
  ghost predicate KeepsAuthors(env: Env, s: System, t: System) {
    && |s.invocations| <= |t.invocations|
    && forall i :: 0 <= i < |s.invocations| && s.invocations[i].wrote.Some? ==>
         && KeyOf(env, t.invocations[i]) == KeyOf(env, s.invocations[i])
         && forall answer :: Author(env, s.invocations[i], answer) ==> Author(env, t.invocations[i], answer)
  }

  /** Replacing one invocation by one that is as good keeps the invariant. */
  lemma UpdateKeepsInv(env: Env, s: System, i: nat, v: Invocation)
    requires Inv(env, s) && i < |s.invocations|
    requires v.actor == s.invocations[i].actor && v.query == s.invocations[i].query
    requires forall answer :: Author(env, s.invocations[i], answer) ==> Author(env, v, answer)
    requires InvocationOk(env, s, v)
    ensures Inv(env, Update(s, i, v)) && KeepsAuthors(env, s, Update(s, i, v))
  {
    var t := Update(s, i, v);
    assert KeepsAuthors(env, s, t);
    forall k | 0 <= k < |t.invocations| ensures InvocationOk(env, t, t.invocations[k]) { }
    forall key | key in t.cache ensures HasAuthor(env, t, key, t.cache[key]) { }
  }

  lemma UseLedgerKeepsInv(env: Env, s: System, i: nat, j: nat, op: Op)
    requires Inv(env, s) && i < |s.invocations| && j < |s.invocations[i].histories|
    ensures Inv(env, Apply(env, s, UseLedger(i, j, op)))
  {
    var v := s.invocations[i];
    var w := v.(histories := v.histories[j := v.histories[j] + [op]]);
    forall k | 0 <= k < |v.evidence| && v.evidence[k] <= v.histories[k] ensures w.evidence[k] <= w.histories[k] {
    }
    UpdateKeepsInv(env, s, i, w);
  }

  lemma AskKeepsInv(env: Env, s: System, i: nat)
    requires Inv(env, s) && Enabled(s, AskLedger(i))
    ensures Inv(env, Apply(env, s, AskLedger(i)))
  {
    var v := s.invocations[i];
    CacheAllowedIffCleanRun(env.modelLimit, env.toolLimit, v.histories[|v.evidence|]);
    UpdateKeepsInv(env, s, i, Asked(env, v));
  }

  lemma StoreKeepsInv(env: Env, s: System, i: nat, landed: bool, ends: bool)
    requires Inv(env, s) && Enabled(s, Store(i, landed, ends))
    ensures Inv(env, Apply(env, s, Store(i, landed, ends)))
  {
    var v := s.invocations[i];
    var w := Stored(v, ends);
    UpdateKeepsInv(env, s, i, w);
    var t := Apply(env, s, Store(i, landed, ends));
    if landed {
      assert t.invocations[i] == w && Author(env, w, v.phase.answer) && KeyOf(env, w) == KeyOf(env, v);
      assert HasAuthor(env, t, KeyOf(env, v), v.phase.answer);
      var u := Update(s, i, w);
      forall k | 0 <= k < |t.invocations| ensures InvocationOk(env, t, t.invocations[k]) {
        assert InvocationOk(env, u, u.invocations[k]);
      }
      forall key | key in t.cache ensures HasAuthor(env, t, key, t.cache[key]) {
        if key != KeyOf(env, v) { assert HasAuthor(env, u, key, u.cache[key]); }
      }
    }
  }

  lemma BeginKeepsInv(env: Env, s: System, actor: nat, query: string)
    requires Inv(env, s) && actor > 0
    ensures Inv(env, Apply(env, s, Begin(actor, query)))
  {
    var t := Apply(env, s, Begin(actor, query));
    assert KeepsAuthors(env, s, t);
    forall k | 0 <= k < |t.invocations| ensures InvocationOk(env, t, t.invocations[k]) {
      if k < |s.invocations| { assert InvocationOk(env, s, s.invocations[k]); }
    }
    forall key | key in t.cache ensures HasAuthor(env, t, key, t.cache[key]) {
    }
  }

  lemma LookupKeepsInv(env: Env, s: System, i: nat)
    requires Inv(env, s) && Enabled(s, Lookup(i))
    ensures Inv(env, Apply(env, s, Lookup(i)))
  {
    UpdateKeepsInv(env, s, i, LookedUp(env, s.cache, s.invocations[i]));
  }

  lemma ReturnsKeepsInv(env: Env, s: System, i: nat, answer: string, complete: bool)
    requires Inv(env, s) && Enabled(s, Returns(i, answer, complete))
    ensures Inv(env, Apply(env, s, Returns(i, answer, complete)))
  {
    UpdateKeepsInv(env, s, i, Returned(env, s.invocations[i], answer, complete));
  }

  lemma OpenKeepsInv(env: Env, s: System, i: nat)
    requires Inv(env, s) && Enabled(s, OpenLedger(i))
    ensures Inv(env, Apply(env, s, OpenLedger(i)))
  {
    UpdateKeepsInv(env, s, i, s.invocations[i].(histories := s.invocations[i].histories + [[]]));
  }

  lemma StepKeepsInv(env: Env, s: System, e: Event)
    requires Inv(env, s) && Enabled(s, e)
    ensures Inv(env, Apply(env, s, e))
  {
    match e
    case Begin(actor, query) => BeginKeepsInv(env, s, actor, query);
    case Lookup(i) => LookupKeepsInv(env, s, i);
    case OpenLedger(i) => OpenKeepsInv(env, s, i);
    case UseLedger(i, j, op) => UseLedgerKeepsInv(env, s, i, j, op);
    case Returns(i, answer, complete) => ReturnsKeepsInv(env, s, i, answer, complete);
    case Fails(i) => UpdateKeepsInv(env, s, i, s.invocations[i].(phase := Failed));
    case AskLedger(i) => AskKeepsInv(env, s, i);
    case Decide(i) => UpdateKeepsInv(env, s, i, Decided(s.invocations[i]));
    case Store(i, landed, ends) => StoreKeepsInv(env, s, i, landed, ends);
    case Evict(_) =>
  }

  lemma {:induction false} RunKeepsInv(env: Env, s: System, events: seq<Event>)
    requires Inv(env, s) && IsRun(env, s, events)
    ensures Inv(env, After(env, s, events))
    decreases |events|
  {
    if events != [] {
      StepKeepsInv(env, s, events[0]);
      RunKeepsInv(env, Apply(env, s, events[0]), events[1..]);
    }
  }

  const Nothing := System([], map[])

  /** In every run, whatever the cache holds for an actor and a query was stored by an
      invocation of that very actor and query, every ledger of which had been found clean:
      no refusal, no tool request, at least one model result, all of them complete. */
  lemma EntriesHaveCleanAuthors(env: Env, events: seq<Event>, actor: nat, query: string)
    requires ValidEnv(env) && IsRun(env, Nothing, events)
    requires CacheKey(env.hash, env.config, actor, query) in After(env, Nothing, events).cache
    ensures var s := After(env, Nothing, events);
      var answer := s.cache[CacheKey(env.hash, env.config, actor, query)];
      && !Bypasses(query) && |answer| <= env.maxChars
      && exists i :: 0 <= i < |s.invocations| && s.invocations[i].actor == actor && s.invocations[i].query == query
                     && Author(env, s.invocations[i], answer)
  {
    RunKeepsInv(env, Nothing, events);
    var s := After(env, Nothing, events);
    var key := CacheKey(env.hash, env.config, actor, query);
    assert HasAuthor(env, s, key, s.cache[key]);
    AuthorAsked(env, s, actor, query, s.cache[key]);
  }

  lemma AuthorAsked(env: Env, s: System, actor: nat, query: string, answer: string)
    requires ValidEnv(env) && HasAuthor(env, s, CacheKey(env.hash, env.config, actor, query), answer)
    ensures !Bypasses(query) && |answer| <= env.maxChars
    ensures exists i :: 0 <= i < |s.invocations| && s.invocations[i].actor == actor && s.invocations[i].query == query
                        && Author(env, s.invocations[i], answer)
  {
    var key := CacheKey(env.hash, env.config, actor, query);
    var i :| 0 <= i < |s.invocations| && KeyOf(env, s.invocations[i]) == key && Author(env, s.invocations[i], answer);
    var author := s.invocations[i];
    KeySeparatesTenantsAndQueries(env.hash, env.config, actor, query, author.actor, author.query);
  }

  /** A cache hit returns only an answer that a clean run of the same actor and query produced. */
  lemma HitsReturnOwnAnswers(env: Env, events: seq<Event>, k: nat)
    requires ValidEnv(env) && IsRun(env, Nothing, events)
    requires k < |After(env, Nothing, events).invocations| && After(env, Nothing, events).invocations[k].hit
    ensures var s := After(env, Nothing, events); var v := s.invocations[k];
      && v.phase.Done? && !Bypasses(v.query)
      && exists i :: 0 <= i < |s.invocations| && s.invocations[i].actor == v.actor && s.invocations[i].query == v.query
                     && Author(env, s.invocations[i], v.phase.answer)
  {
    RunKeepsInv(env, Nothing, events);
    var s := After(env, Nothing, events);
    var v := s.invocations[k];
    assert InvocationOk(env, s, v);
    var i :| 0 <= i < |s.invocations| && KeyOf(env, s.invocations[i]) == KeyOf(env, v)
             && Author(env, s.invocations[i], v.phase.answer);
    var author := s.invocations[i];
    KeySeparatesTenantsAndQueries(env.hash, env.config, v.actor, v.query, author.actor, author.query);
  }
}
