/** Progress of the answer cache: answered invocations come to an end, clean runs are stored, and what
    is evicted is forgotten. */
module AnswerProgress {
  import opened Options
  import opened CacheKeys
  import opened RunBudgets
  import opened AnswerCache

  // ---- answered invocations come to an end ----

  /** The graph has answered, or the matter is over. */
  predicate Answered(v: Invocation) {
    v.phase.Checking? || v.phase.Writing? || v.phase.Done? || v.phase.Failed?
  }

  /** Steps an invocation still has to take: asking the ledgers, the decision, the write. */
  function StepsLeft(v: Invocation): int {
    match v.phase
    case Checking(_) => |v.histories| - |v.evidence| + 2
    case Writing(_) => 1
    case _ => 0
  }

  predicate IsStepOf(e: Event, i: nat) {
    e == AskLedger(i) || e == Decide(i) || (e.Store? && e.i == i)
  }

  lemma StepCounts(env: Env, s: System, e: Event, i: nat)
    requires Inv(env, s) && Enabled(s, e) && i < |s.invocations| && Answered(s.invocations[i])
    ensures i < |Apply(env, s, e).invocations| && Answered(Apply(env, s, e).invocations[i])
    ensures 0 <= StepsLeft(Apply(env, s, e).invocations[i])
    ensures StepsLeft(Apply(env, s, e).invocations[i]) + (if IsStepOf(e, i) then 1 else 0)
         <= StepsLeft(s.invocations[i])
  {
    StepKeepsInv(env, s, e);
    assert InvocationOk(env, s, s.invocations[i]);
    if e.Begin? || e.Evict? || e.i != i {
      assert Apply(env, s, e).invocations[i] == s.invocations[i];
    }
  }

  function Steps(events: seq<Event>, i: nat): nat
    decreases |events|
  {
    if events == [] then 0 else (if IsStepOf(events[0], i) then 1 else 0) + Steps(events[1..], i)
  }

  /** Once the graph has answered, at most one step for each ledger and two more bring the invocation
      to its end, whatever others do; until then one of these steps is possible. */
  lemma {:induction false} AnsweredComesToAnEnd(env: Env, s: System, events: seq<Event>, i: nat)
    requires Inv(env, s) && IsRun(env, s, events) && i < |s.invocations| && Answered(s.invocations[i])
    ensures var t := After(env, s, events);
      && i < |t.invocations|
      && Steps(events, i) + StepsLeft(t.invocations[i]) <= StepsLeft(s.invocations[i])
      && StepsLeft(s.invocations[i]) <= |s.invocations[i].histories| + 2
      && (t.invocations[i].phase.Done? || t.invocations[i].phase.Failed? || exists e :: IsStepOf(e, i) && Enabled(t, e))
    decreases |events|
  {
    assert InvocationOk(env, s, s.invocations[i]);
    if events == [] {
      var v := s.invocations[i];
      if v.phase.Checking? || v.phase.Writing? {
        var e := if v.phase.Writing? then Store(i, true, true)
                 else if |v.evidence| < |v.histories| then AskLedger(i) else Decide(i);
        assert IsStepOf(e, i) && Enabled(s, e);
      }
    } else {
      StepKeepsInv(env, s, events[0]);
      StepCounts(env, s, events[0], i);
      AnsweredComesToAnEnd(env, Apply(env, s, events[0]), events[1..], i);
    }
  }

  /** An answer is refused exactly if it is too long; until it is done an invocation may fail. */
  lemma AnswerFailsIffTooLong(env: Env, s: System, i: nat, answer: string, complete: bool)
    requires Enabled(s, Returns(i, answer, complete))
    ensures Apply(env, s, Returns(i, answer, complete)).invocations[i].phase.Failed? <==> |answer| > env.maxChars
    ensures Answered(Apply(env, s, Returns(i, answer, complete)).invocations[i])
  {
  }

  lemma MayFailUntilDone(env: Env, s: System, i: nat)
    requires i < |s.invocations|
    ensures Enabled(s, Fails(i)) <==> !s.invocations[i].phase.Done?
    ensures Enabled(s, Fails(i)) ==> Apply(env, s, Fails(i)).invocations[i].phase.Failed?
    ensures Enabled(s, Fails(i)) ==> Apply(env, s, Fails(i)).cache == s.cache
  {
  }

  // ---- what is evicted ----

  /** Any entry may be evicted, and then the next lookup for its key is a miss. */
  lemma EvictedIsMissed(env: Env, s: System, i: nat)
    requires Enabled(s, Lookup(i))
    ensures Enabled(s, Evict(KeyOf(env, s.invocations[i])))
    ensures var t := Apply(env, s, Evict(KeyOf(env, s.invocations[i])));
      && Enabled(t, Lookup(i)) && Apply(env, t, Lookup(i)).invocations[i].phase.Running?
      && forall key :: key != KeyOf(env, s.invocations[i]) ==>
           (key in t.cache <==> key in s.cache) && (key in s.cache ==> t.cache[key] == s.cache[key])
  {
  }

  // ---- clean runs are stored ----

  lemma Prepend(env: Env, s: System, e: Event, t: System, rest: seq<Event>, last: System)
    requires Enabled(s, e) && Apply(env, s, e) == t && IsRun(env, t, rest) && After(env, t, rest) == last
    ensures IsRun(env, s, [e] + rest) && After(env, s, [e] + rest) == last
  {
    assert ([e] + rest)[0] == e && ([e] + rest)[1..] == rest;
  }

  /** One invocation alone, running, with one ledger and this much of its history. */
  function Alone(actor: nat, query: string, history: seq<Op>): System {
    System([Invocation(actor, query, Running, [history], [], false, false, None)], map[])
  }

  lemma {:induction false} LedgerIsUsed(env: Env, actor: nat, query: string, history: seq<Op>, n: nat, rest: seq<Event>,
                                        last: System)
    returns (events: seq<Event>)
    requires n <= |history|
    requires IsRun(env, Alone(actor, query, history), rest) && After(env, Alone(actor, query, history), rest) == last
    ensures IsRun(env, Alone(actor, query, history[..n]), events)
    ensures After(env, Alone(actor, query, history[..n]), events) == last
    decreases |history| - n
  {
    if n == |history| {
      assert history[..n] == history;
      events := rest;
    } else {
      events := LedgerIsUsed(env, actor, query, history, n + 1, rest, last);
      assert history[..n] + [history[n]] == history[..n + 1];
      var (s, t) := (Alone(actor, query, history[..n]), Alone(actor, query, history[..n + 1]));
      var v := s.invocations[0];
      assert v.histories[0 := v.histories[0] + [history[n]]] == t.invocations[0].histories;
      assert Apply(env, s, UseLedger(0, 0, history[n])).invocations == t.invocations;
      Prepend(env, s, UseLedger(0, 0, history[n]), t, events, last);
      events := [UseLedger(0, 0, history[n])] + events;
    }
  }

  /** The end of such a run: the answer is checked and stored. */
  lemma CleanLedgerIsAdmitted(env: Env, actor: nat, query: string, history: seq<Op>, answer: string)
    returns (events: seq<Event>, last: System)
    requires CleanRun(env.modelLimit, history) && !Bypasses(query) && |answer| <= env.maxChars
    ensures IsRun(env, Alone(actor, query, history), events)
    ensures After(env, Alone(actor, query, history), events) == last
    ensures last.cache == map[CacheKey(env.hash, env.config, actor, query) := answer]
    ensures |last.invocations| == 1 && last.invocations[0].phase == Done(answer)
  {
    CacheAllowedIffCleanRun(env.modelLimit, env.toolLimit, history);
    var v := Invocation(actor, query, Checking(answer), [history], [], true, false, None);
    var w := v.(evidence := [history]);
    var s1, s2, s3 := System([v], map[]), System([w], map[]), System([w.(phase := Writing(answer))], map[]);
    last := System([w.(phase := Done(answer), wrote := Some(answer))],
                   map[CacheKey(env.hash, env.config, actor, query) := answer]);
    assert Asked(env, v) == w by { assert [] + [history] == [history]; }
    Prepend(env, s3, Store(0, true, true), last, [], last);
    events := [Store(0, true, true)] + [];
    Prepend(env, s2, Decide(0), s3, events, last);
    events := [Decide(0)] + events;
    Prepend(env, s1, AskLedger(0), s2, events, last);
    events := [AskLedger(0)] + events;
    Prepend(env, Alone(actor, query, history), Returns(0, answer, true), s1, events, last);
    events := [Returns(0, answer, true)] + events;
  }

  /** Every clean history of a ledger, every query that does not bypass the cache and every complete
      answer that is not too long: there is a run that ends with this answer stored for this actor
      and query. */
  lemma CleanAnswersAreStored(env: Env, actor: nat, query: string, history: seq<Op>, answer: string)
    returns (events: seq<Event>)
    requires actor > 0 && CleanRun(env.modelLimit, history) && !Bypasses(query) && |answer| <= env.maxChars
    ensures IsRun(env, Nothing, events)
    ensures After(env, Nothing, events).cache == map[CacheKey(env.hash, env.config, actor, query) := answer]
    ensures |After(env, Nothing, events).invocations| == 1
    ensures After(env, Nothing, events).invocations[0].phase == Done(answer)
  {
    var last;
    events, last := CleanLedgerIsAdmitted(env, actor, query, history, answer);
    events := LedgerIsUsed(env, actor, query, history, 0, events, last);
    var v := Invocation(actor, query, Looking, [], [], false, false, None);
    var s1, s2 := System([v], map[]), System([v.(phase := Running)], map[]);
    assert history[..0] == [] && [] + [[]] == [history[..0]];
    Prepend(env, s2, OpenLedger(0), Alone(actor, query, history[..0]), events, last);
    events := [OpenLedger(0)] + events;
    Prepend(env, s1, Lookup(0), s2, events, last);
    events := [Lookup(0)] + events;
    assert [] + [v] == [v];
    Prepend(env, Nothing, Begin(actor, query), s1, events, last);
    events := [Begin(actor, query)] + events;
  }
}
