/** The ledger that every branch of one Agent run shares (`agent_budget.py`). Each method of
    the ledger runs under its lock, so a run is some interleaving of these operations, and
    a history is the sequence in which they took the lock. */
module RunBudgets {
  import opened Options

  datatype Kind = Model | Tool

  /** What a reservation is asked for; any other string is an error of the caller. */
  datatype Request = Known(kind: Kind) | Unknown

  datatype Reply = Granted | Refused(kind: Kind) | UnknownKind

  /** One message of a model response, as far as cache admission looks at it. */
  datatype ModelMessage = ModelMessage(isAi: bool, finishReason: string, toolCalls: nat, invalidToolCalls: nat)

  predicate FinalMessage(m: ModelMessage) {
    m.isAi && m.finishReason == "stop" && m.toolCalls == 0 && m.invalidToolCalls == 0
  }

  /** `result` of a response: not a list at all, or its messages. */
  predicate CompleteResult(messages: Option<seq<ModelMessage>>) {
    messages.Some? && messages.value != [] && forall i :: 0 <= i < |messages.value| ==> FinalMessage(messages.value[i])
  }

  const Stopped := ModelMessage(true, "stop", 0, 0)

  /** A complete result is a nonempty list of answers that stopped by themselves and ask for no tool. */
  lemma CompleteIffStopped(messages: seq<ModelMessage>)
    ensures CompleteResult(Some(messages)) <==> messages != [] && forall m :: m in messages ==> m == Stopped
    ensures !CompleteResult(None)
  {
    forall m: ModelMessage ensures FinalMessage(m) <==> m == Stopped {}
    assert forall i :: 0 <= i < |messages| ==> messages[i] in messages;
  }

  datatype Ledger = Ledger(
    modelLimit: nat, toolLimit: nat, models: nat, tools: nat,
    failure: Option<Kind>, observed: bool, cacheSafe: bool, completed: bool)

  function Fresh(modelLimit: nat, toolLimit: nat): Ledger {
    Ledger(modelLimit, toolLimit, 0, 0, None, false, true, false)
  }

  function Used(l: Ledger, kind: Kind): nat {
    if kind.Model? then l.models else l.tools
  }

  function Limit(l: Ledger, kind: Kind): nat {
    if kind.Model? then l.modelLimit else l.toolLimit
  }

  function Reserved(l: Ledger, request: Request): (Ledger, Reply) {
    if l.failure.Some? then (l, Refused(l.failure.value))
    else
      match request
      case Unknown => (l, UnknownKind)
      case Known(kind) =>
        if Used(l, kind) >= Limit(l, kind) then (l.(failure := Some(kind)), Refused(kind))
        else if kind.Model? then (l.(models := l.models + 1), Granted)
        else (l.(tools := l.tools + 1), Granted)
  }

  predicate AllowsCache(l: Ledger) {
    l.completed && l.observed && l.cacheSafe && l.failure.None? && l.tools == 0
  }

  class RunBudget {
    const modelLimit: nat
    const toolLimit: nat
    var modelRequests: nat
    var toolCalls: nat
    var failure: Option<Kind>
    var modelObserved: bool
    var cacheSafe: bool
    var completed: bool

    ghost function View(): Ledger
      reads this
    {
      Ledger(modelLimit, toolLimit, modelRequests, toolCalls, failure, modelObserved, cacheSafe, completed)
    }

    /** No counter is beyond its limit, and the one that caused the refusal has reached its own. */
    ghost predicate Valid()
      reads this
    {
      && modelRequests <= modelLimit && toolCalls <= toolLimit
      && (failure.Some? ==> Used(View(), failure.value) == Limit(View(), failure.value))
    }

    constructor (models: nat, tools: nat)
      ensures Valid() && View() == Fresh(models, tools)
    {
      modelLimit, toolLimit, modelRequests, toolCalls := models, tools, 0, 0;
      failure, modelObserved, cacheSafe, completed := None, false, true, false;
    }

    method ObserveModelResult(messages: Option<seq<ModelMessage>>)
      modifies this
      ensures old(Valid()) ==> Valid()
      ensures View() == old(View()).(observed := true, cacheSafe := old(cacheSafe) && CompleteResult(messages))
    {
      var complete := messages.Some? && messages.value != [];
      if complete {
        var i := 0;
        while i < |messages.value|
          invariant 0 <= i <= |messages.value|
          invariant complete <==> forall j :: 0 <= j < i ==> FinalMessage(messages.value[j])
        {
          complete := complete && FinalMessage(messages.value[i]);
          i := i + 1;
        }
      }
      modelObserved := true;
      cacheSafe := cacheSafe && complete;
    }

    method InvalidateCache()
      modifies this
      ensures old(Valid()) ==> Valid()
      ensures View() == old(View()).(cacheSafe := false)
    {
      cacheSafe := false;
    }

    method Finish(success: bool)
      modifies this
      ensures old(Valid()) ==> Valid()
      ensures View() == old(View()).(completed := success)
    {
      completed := success;
    }

    method AllowsAnswerCache() returns (allowed: bool)
      ensures allowed == AllowsCache(View())
    {
      allowed := completed && modelObserved && cacheSafe && failure.None? && toolCalls == 0;
    }

    /** `check`: the refusal it raises, if any. */
    method Check() returns (refusal: Option<Kind>)
      ensures refusal == View().failure
    {
      refusal := failure;
    }

    /** Grants what is below its limit while nothing has been refused, and counts exactly that;
        a refusal is the answer to every later request too. */
    method Reserve(request: Request) returns (reply: Reply)
      requires Valid()
      modifies this
      ensures Valid()
      ensures reply.Granted? <==>
        old(failure).None? && request.Known? && Used(old(View()), request.kind) < Limit(View(), request.kind)
      ensures forall kind ::
        Used(View(), kind) == Used(old(View()), kind) + if reply.Granted? && kind == request.kind then 1 else 0
      ensures reply.Refused? ==> forall other :: Reserved(View(), other) == (View(), reply)
      ensures reply.UnknownKind? ==> request.Unknown? && View() == old(View())
      ensures (View(), reply) == Reserved(old(View()), request)
    {
      if failure.Some? {
        return Refused(failure.value);
      }
      match request {
        case Known(Model) =>
          if modelRequests >= modelLimit {
            failure := Some(Model);
          } else {
            modelRequests := modelRequests + 1;
          }
        case Known(Tool) =>
          if toolCalls >= toolLimit {
            failure := Some(Tool);
          } else {
            toolCalls := toolCalls + 1;
          }
        case Unknown => return UnknownKind;
      }
      reply := if failure.Some? then Refused(failure.value) else Granted;
    }

    /** The exit of `hold_run_budget` when no branch runs between its two locked sections. */
    method ExitHold(body: Body) returns (exit: HoldExit)
      modifies this
      ensures old(Valid()) ==> Valid()
      ensures exit == HoldOutcome(body, old(failure))
      ensures View() == old(View()).(completed := exit.Succeeded?)
    {
      exit := ExitError(body);
      if !body.Interrupt? {
        var refusal := Check();
        exit := if refusal.Some? then BudgetError(refusal.value) else exit;
      }
      Finish(exit.Succeeded?);
    }
  }

  // ---- the exit of `hold_run_budget` ----

  /** How the body of the `with` block ended: normally, with an Exception, or with a
      BaseException such as a cancellation. */
  datatype Body = Finishes | Raises | Interrupt

  datatype HoldExit = Succeeded | BodyError | BudgetError(kind: Kind)

  function ExitError(body: Body): HoldExit {
    if body.Finishes? then Succeeded else BodyError
  }

  /** `failure` is the ledger's refusal at the exit check. */
  function HoldOutcome(body: Body, failure: Option<Kind>): HoldExit {
    if failure.Some? && !body.Interrupt? then BudgetError(failure.value) else ExitError(body)
  }

  // ---- histories ----

  datatype Op =
    | Reserve(request: Request)
    | Observe(messages: Option<seq<ModelMessage>>)
    | Invalidate
    | Finish(success: bool)

  function Step(l: Ledger, op: Op): Ledger {
    match op
    case Reserve(request) => Reserved(l, request).0
    case Observe(messages) => l.(observed := true, cacheSafe := l.cacheSafe && CompleteResult(messages))
    case Invalidate => l.(cacheSafe := false)
    case Finish(success) => l.(completed := success)
  }

  function Replay(start: Ledger, ops: seq<Op>): Ledger {
    if ops == [] then start else Step(Replay(start, ops[..|ops| - 1]), ops[|ops| - 1])
  }

  /** The reply the i-th operation of a history got, if it was a reservation. */
  function ReplyAt(start: Ledger, ops: seq<Op>, i: nat): Option<Reply>
    requires i < |ops|
  {
    if ops[i].Reserve? then Some(Reserved(Replay(start, ops[..i]), ops[i].request).1) else None
  }

  /** Reservations of one kind that were granted. */
  function Grants(start: Ledger, ops: seq<Op>, kind: Kind): nat {
    if ops == [] then 0
    else
      var last := |ops| - 1;
      Grants(start, ops[..last], kind)
      + if ops[last] == Reserve(Known(kind)) && ReplyAt(start, ops, last) == Some(Granted) then 1 else 0
  }

  /** Reservations of one kind that were asked for. */
  function Requests(ops: seq<Op>, kind: Kind): nat {
    if ops == [] then 0
    else Requests(ops[..|ops| - 1], kind) + if ops[|ops| - 1] == Reserve(Known(kind)) then 1 else 0
  }

  lemma PrefixOfPrefix(ops: seq<Op>, n: nat, m: nat)
    requires m <= n <= |ops|
    ensures ops[..n][..m] == ops[..m]
  {
  }

  /** Under every interleaving the counters are the granted reservations and never exceed
      the limits, which never change. */
  lemma {:induction false} CountersAreGrants(modelLimit: nat, toolLimit: nat, ops: seq<Op>)
    ensures var l := Replay(Fresh(modelLimit, toolLimit), ops);
      && l.models == Grants(Fresh(modelLimit, toolLimit), ops, Model) <= modelLimit
      && l.tools == Grants(Fresh(modelLimit, toolLimit), ops, Tool) <= toolLimit
      && l.modelLimit == modelLimit && l.toolLimit == toolLimit
    decreases |ops|
  {
    if ops != [] { CountersAreGrants(modelLimit, toolLimit, ops[..|ops| - 1]); }
  }

  lemma {:induction false} RefusedStandsStill(start: Ledger, ops: seq<Op>, n: nat)
    requires n <= |ops| && Replay(start, ops[..n]).failure.Some?
    ensures var before, after := Replay(start, ops[..n]), Replay(start, ops);
      after.failure == before.failure && after.models == before.models && after.tools == before.tools
    decreases |ops|
  {
    if n < |ops| {
      PrefixOfPrefix(ops, |ops| - 1, n);
      RefusedStandsStill(start, ops[..|ops| - 1], n);
    } else {
      assert ops[..n] == ops;
    }
  }

  /** The first refusal fixes the error for good: afterwards every reservation, of any kind,
      is refused with that kind, and the counters stand still. */
  lemma FirstRefusalSticks(start: Ledger, ops: seq<Op>, n: nat)
    requires n <= |ops| && Replay(start, ops[..n]).failure.Some?
    ensures var before, after := Replay(start, ops[..n]), Replay(start, ops);
      && after.failure == before.failure && after.models == before.models && after.tools == before.tools
      && forall i :: n <= i < |ops| && ops[i].Reserve? ==> ReplyAt(start, ops, i) == Some(Refused(before.failure.value))
  {
    RefusedStandsStill(start, ops, n);
    var failure := Replay(start, ops[..n]).failure.value;
    forall i | n <= i < |ops| && ops[i].Reserve? ensures ReplyAt(start, ops, i) == Some(Refused(failure)) {
      PrefixOfPrefix(ops, i, n);
      RefusedStandsStill(start, ops[..i], n);
    }
  }

  /** A run has been refused exactly if more reservations of some kind were asked for than
      its limit allows; otherwise every request was granted. */
  lemma {:induction false} RefusedIffOverLimit(modelLimit: nat, toolLimit: nat, ops: seq<Op>)
    ensures Replay(Fresh(modelLimit, toolLimit), ops).failure.None? <==>
              Requests(ops, Model) <= modelLimit && Requests(ops, Tool) <= toolLimit
    ensures Replay(Fresh(modelLimit, toolLimit), ops).failure.None? ==>
              Replay(Fresh(modelLimit, toolLimit), ops).models == Requests(ops, Model)
              && Replay(Fresh(modelLimit, toolLimit), ops).tools == Requests(ops, Tool)
    decreases |ops|
  {
    if ops != [] {
      var front := ops[..|ops| - 1];
      RefusedIffOverLimit(modelLimit, toolLimit, front);
      CountersAreGrants(modelLimit, toolLimit, front);
    }
  }

  /** `hold_run_budget` never ends as a success once a reservation was refused before its
      exit check, whatever the body swallowed or replaced; and it ends as a success exactly
      if the body finished and nothing had been refused. Branches may still use the ledger
      between the exit check and the final bookkeeping (`late`). */
  lemma HoldNeverHidesARefusal(modelLimit: nat, toolLimit: nat, body: Body, ops: seq<Op>, late: seq<Op>)
    ensures var atCheck := Replay(Fresh(modelLimit, toolLimit), ops);
      var exit := HoldOutcome(body, atCheck.failure);
      && (exit.Succeeded? <==> body.Finishes? && Requests(ops, Model) <= modelLimit && Requests(ops, Tool) <= toolLimit)
      && (atCheck.failure.Some? && !body.Interrupt? ==> exit == BudgetError(atCheck.failure.value))
      && (!exit.Succeeded? ==>
            !AllowsCache(Replay(Fresh(modelLimit, toolLimit), ops + late + [Finish(exit.Succeeded?)])))
  {
    RefusedIffOverLimit(modelLimit, toolLimit, ops);
    var exit := HoldOutcome(body, Replay(Fresh(modelLimit, toolLimit), ops).failure);
    var all := ops + late + [Finish(exit.Succeeded?)];
    assert all[..|all| - 1] == ops + late;
  }

  // ---- cache admission ----

  ghost predicate LastFinishSucceeded(ops: seq<Op>) {
    exists i :: 0 <= i < |ops| && ops[i] == Finish(true) && forall j :: i < j < |ops| ==> !ops[j].Finish?
  }

  /** A run that may feed the answer cache: it ended as a success, asked for no tool at all
      and for no more model requests than allowed, saw at least one model result, saw only
      complete ones, and nothing vetoed it. */
  ghost predicate CleanRun(modelLimit: nat, ops: seq<Op>) {
    && LastFinishSucceeded(ops)
    && (exists i :: 0 <= i < |ops| && ops[i].Observe?)
    && (forall i :: 0 <= i < |ops| && ops[i].Observe? ==> CompleteResult(ops[i].messages))
    && (forall i :: 0 <= i < |ops| ==> ops[i] != Invalidate)
    && (forall i :: 0 <= i < |ops| ==> ops[i] != Reserve(Known(Tool)))
    && Requests(ops, Model) <= modelLimit
  }

  ghost predicate LedgerTellsHistory(l: Ledger, ops: seq<Op>) {
    && (l.completed <==> LastFinishSucceeded(ops))
    && (l.observed <==> exists i :: 0 <= i < |ops| && ops[i].Observe?)
    && (l.cacheSafe <==> (forall i :: 0 <= i < |ops| && ops[i].Observe? ==> CompleteResult(ops[i].messages))
                         && (forall i :: 0 <= i < |ops| ==> ops[i] != Invalidate))
  }

  lemma FinishAppend(ops: seq<Op>, op: Op)
    ensures LastFinishSucceeded(ops + [op]) <==> if op.Finish? then op.success else LastFinishSucceeded(ops)
  {
    var all := ops + [op];
    assert all[|ops|] == op;
    if LastFinishSucceeded(ops) && !op.Finish? {
      var i :| 0 <= i < |ops| && ops[i] == Finish(true) && forall j :: i < j < |ops| ==> !ops[j].Finish?;
      assert all[i] == Finish(true);
    }
    if LastFinishSucceeded(all) && !op.Finish? {
      var i :| 0 <= i < |all| && all[i] == Finish(true) && forall j :: i < j < |all| ==> !all[j].Finish?;
      assert ops[i] == Finish(true) && forall j :: i < j < |ops| ==> ops[j] == all[j];
    }
  }

  lemma ObserveAppend(ops: seq<Op>, op: Op)
    ensures (exists i :: 0 <= i < |ops + [op]| && (ops + [op])[i].Observe?)
            <==> op.Observe? || exists i :: 0 <= i < |ops| && ops[i].Observe?
  {
    var all := ops + [op];
    assert all[|ops|] == op;
    if i :| 0 <= i < |ops| && ops[i].Observe? { assert all[i].Observe?; }
  }

  lemma {:induction false} FlagsTellHistory(start: Ledger, ops: seq<Op>)
    requires !start.completed && !start.observed && start.cacheSafe
    ensures LedgerTellsHistory(Replay(start, ops), ops)
    decreases |ops|
  {
    if ops != [] {
      var last := |ops| - 1;
      var front := ops[..last];
      FlagsTellHistory(start, front);
      FinishAppend(front, ops[last]);
      ObserveAppend(front, ops[last]);
      assert ops == front + [ops[last]];
    }
  }

  lemma {:induction false} NoToolRequests(ops: seq<Op>)
    ensures Requests(ops, Tool) == 0 <==> forall i :: 0 <= i < |ops| ==> ops[i] != Reserve(Known(Tool))
    decreases |ops|
  {
    if ops != [] {
      NoToolRequests(ops[..|ops| - 1]);
      assert forall i :: 0 <= i < |ops| - 1 ==> ops[..|ops| - 1][i] == ops[i];
    }
  }

  /** The five fields the ledger keeps admit an answer exactly for the clean runs. */
  lemma CacheAllowedIffCleanRun(modelLimit: nat, toolLimit: nat, ops: seq<Op>)
    ensures AllowsCache(Replay(Fresh(modelLimit, toolLimit), ops)) <==> CleanRun(modelLimit, ops)
  {
    var l := Replay(Fresh(modelLimit, toolLimit), ops);
    FlagsTellHistory(Fresh(modelLimit, toolLimit), ops);
    RefusedIffOverLimit(modelLimit, toolLimit, ops);
    NoToolRequests(ops);
  }
}
