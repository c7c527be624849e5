/** The cost ceiling of the model pilot (`verify_real_model.py`), in exact arithmetic. */
module PilotCosts {
  import opened Options

  const MAX_OUTPUT_TOKENS := 512

  /** Prices for a million tokens, as the price file was accepted. */
  datatype Prices = Prices(input: real, output: real, cachedInput: Option<real>)

  predicate Accepted(p: Prices) {
    p.input > 0.0 && p.output > 0.0 && (p.cachedInput.Some? ==> 0.0 <= p.cachedInput.value <= p.input)
  }

  /** The tokens of one answer; the cached ones are among those of the prompt. */
  datatype Usage = Usage(prompt: nat, cached: nat, completion: nat)

  predicate Consistent(u: Usage) {
    u.cached <= u.prompt
  }

  /** What came of one case: no request because the total time was over, a request without
      anything that tells its usage, or an answer with usage. The pilot is broken off after
      some of the errors. */
  datatype Reply = TooLate | NoUsage(breaksOff: bool) | Answered(usage: Usage, breaksOff: bool)

  function InputBound(promptBytes: nat): nat {
    8 * promptBytes + 1024
  }

  /** The ceiling for one request, in millionths. */
  function CaseCeiling(p: Prices, promptBytes: nat): real {
    InputBound(promptBytes) as real * p.input + MAX_OUTPUT_TOKENS as real * p.output
  }

  function UpperCost(p: Prices, cases: seq<nat>): real {
    if cases == [] then 0.0
    else UpperCost(p, cases[..|cases| - 1]) + CaseCeiling(p, cases[|cases| - 1]) / 1000000.0
  }

  function TariffCost(p: Prices, u: Usage): real {
    var cachedRate := if p.cachedInput.Some? then p.cachedInput.value else p.input;
    ((u.prompt - u.cached) as real * p.input + u.cached as real * cachedRate + u.completion as real * p.output)
      / 1000000.0
  }

  function Plus(u: Usage, v: Usage): Usage {
    Usage(u.prompt + v.prompt, u.cached + v.cached, u.completion + v.completion)
  }

  /** The tariff is fixed by this: costs add up, and a million tokens cost their price, cached ones
      the cached price, if there is one. */
  lemma TariffIsExact(p: Prices, u: Usage, v: Usage)
    requires Consistent(u) && Consistent(v)
    ensures TariffCost(p, Plus(u, v)) == TariffCost(p, u) + TariffCost(p, v)
    ensures TariffCost(p, Usage(1_000_000, 0, 0)) == p.input
    ensures TariffCost(p, Usage(0, 0, 1_000_000)) == p.output
    ensures TariffCost(p, Usage(1_000_000, 1_000_000, 0))
         == if p.cachedInput.Some? then p.cachedInput.value else p.input
  {
    var rate := if p.cachedInput.Some? then p.cachedInput.value else p.input;
    Distributes((u.prompt - u.cached) as real, (v.prompt - v.cached) as real, p.input);
    Distributes(u.cached as real, v.cached as real, rate);
    Distributes(u.completion as real, v.completion as real, p.output);
  }

  lemma Distributes(a: real, b: real, c: real)
    ensures (a + b) * c == a * c + b * c
  {
  }

  /** Usage within the bounds the ceiling was computed with. */
  predicate Within(promptBytes: nat, u: Usage) {
    u.prompt <= InputBound(promptBytes) && u.completion <= MAX_OUTPUT_TOKENS
  }

  lemma Times(a: real, b: real, c: real) returns (x: real, y: real)
    requires a <= b && c >= 0.0
    ensures x == a * c && y == b * c && x <= y
  {
    x, y := a * c, b * c;
    assert y - x == (b - a) * c;
    assert (b - a) * c >= 0.0;
  }

  /** Within its bounds a request costs no more than its part of the ceiling. */
  lemma CostWithinCeiling(p: Prices, promptBytes: nat, u: Usage)
    requires Accepted(p) && Consistent(u) && Within(promptBytes, u)
    ensures 0.0 <= TariffCost(p, u) <= CaseCeiling(p, promptBytes) / 1000000.0
  {
    var rate := if p.cachedInput.Some? then p.cachedInput.value else p.input;
    var (plain, cached, out) := ((u.prompt - u.cached) as real, u.cached as real, u.completion as real);
    var cachedCost, cachedAtFull := Times(rate, p.input, cached);
    var nothing, plainCost := Times(0.0, plain, p.input);
    var promptCost, inputCost := Times(u.prompt as real, InputBound(promptBytes) as real, p.input);
    var outCost, outCeiling := Times(out, MAX_OUTPUT_TOKENS as real, p.output);
    var nothing', outCost' := Times(0.0, out, p.output);
    var nothing'', cachedCost' := Times(0.0, cached, rate);
    assert plain * p.input + cached * p.input == (plain + cached) * p.input;
    assert cached * rate == rate * cached && cached * p.input == p.input * cached;
    Divide(plainCost + cachedCost + outCost, inputCost + outCeiling);
  }

  lemma Divide(a: real, b: real)
    requires 0.0 <= a <= b
    ensures 0.0 <= a / 1000000.0 <= b / 1000000.0
  {
  }

  /** A price list is accepted exactly if input and output cost something, and caching tokens never costs
      more than not caching them and never earns anything. */
  lemma AcceptedIff(p: Prices)
    ensures Accepted(p) <==>
              && TariffCost(p, Usage(1, 0, 0)) > 0.0 && TariffCost(p, Usage(0, 0, 1)) > 0.0
              && forall u :: Consistent(u) ==> 0.0 <= TariffCost(p, u) <= TariffCost(p, u.(cached := 0))
  {
    UnitCosts(p);
    if Accepted(p) {
      forall u | Consistent(u) ensures 0.0 <= TariffCost(p, u) <= TariffCost(p, u.(cached := 0)) {
        CachingIsCheaper(p, u);
      }
    } else if forall u :: Consistent(u) ==> 0.0 <= TariffCost(p, u) <= TariffCost(p, u.(cached := 0)) {
      var cachedOne := Usage(1, 1, 0);
      assert Consistent(cachedOne) && cachedOne.(cached := 0) == Usage(1, 0, 0);
    }
  }

  lemma UnitCosts(p: Prices)
    ensures TariffCost(p, Usage(1, 0, 0)) == p.input / 1000000.0
    ensures TariffCost(p, Usage(0, 0, 1)) == p.output / 1000000.0
    ensures TariffCost(p, Usage(1, 1, 0))
         == (if p.cachedInput.Some? then p.cachedInput.value else p.input) / 1000000.0
  {
  }

  lemma CachingIsCheaper(p: Prices, u: Usage)
    requires Accepted(p) && Consistent(u)
    ensures 0.0 <= TariffCost(p, u) <= TariffCost(p, u.(cached := 0))
  {
    var rate := if p.cachedInput.Some? then p.cachedInput.value else p.input;
    var (plain, cached, out) := ((u.prompt - u.cached) as real, u.cached as real, u.completion as real);
    var cachedCost, cachedAtFull := Times(rate, p.input, cached);
    var nothing, plainCost := Times(0.0, plain, p.input);
    var nothing', outCost := Times(0.0, out, p.output);
    var nothing'', cachedCost' := Times(0.0, cached, rate);
    Distributes(plain, cached, p.input);
    assert cached * rate == rate * cached && cached * p.input == p.input * cached;
    assert plain + cached == u.prompt as real && (u.prompt - 0) as real == u.prompt as real;
    NoneCached(p, u.(cached := 0));
    Divide(plainCost + cachedCost + outCost, u.prompt as real * p.input + outCost);
  }

  lemma NoneCached(p: Prices, u: Usage)
    requires u.cached == 0
    ensures TariffCost(p, u) == (u.prompt as real * p.input + u.completion as real * p.output) / 1000000.0
  {
    var rate := if p.cachedInput.Some? then p.cachedInput.value else p.input;
    assert 0.0 * rate == 0.0;
  }

  /** The ceiling of a case is no more than it must be: it is the cost of the dearest answer within the
      bounds, which are a basic allowance and eight tokens more for each byte of the prompt. */
  lemma CeilingIsReached(p: Prices, promptBytes: nat)
    ensures var u := Usage(InputBound(promptBytes), 0, MAX_OUTPUT_TOKENS);
      Consistent(u) && Within(promptBytes, u) && TariffCost(p, u) == CaseCeiling(p, promptBytes) / 1000000.0
    ensures InputBound(promptBytes + 1) == InputBound(promptBytes) + 8 && InputBound(0) == 1024
  {
    var rate := if p.cachedInput.Some? then p.cachedInput.value else p.input;
    assert 0 as real * rate == 0.0;
  }

  /** The ceiling of all cases is the sum of theirs, in whatever groups they are taken. */
  lemma {:induction false} CeilingsAddUp(p: Prices, a: seq<nat>, b: seq<nat>)
    ensures UpperCost(p, a + b) == UpperCost(p, a) + UpperCost(p, b)
    ensures forall n :: UpperCost(p, [n]) == CaseCeiling(p, n) / 1000000.0
    decreases |b|
  {
    forall n ensures UpperCost(p, [n]) == CaseCeiling(p, n) / 1000000.0 { assert [n][..0] == []; }
    if b == [] {
      assert a + b == a;
    } else {
      CeilingsAddUp(p, a, b[..|b| - 1]);
      assert (a + b)[..|a + b| - 1] == a + b[..|b| - 1];
    }
  }

  /** The estimate for the first so many replies. */
  function Estimate(p: Prices, replies: seq<Reply>): real {
    if replies == [] then 0.0
    else
      var last := replies[|replies| - 1];
      Estimate(p, replies[..|replies| - 1]) + if last.Answered? then TariffCost(p, last.usage) else 0.0
  }

  /** The estimate adds up, and one answer counts as what it costs. */
  lemma {:induction false} EstimatesAddUp(p: Prices, a: seq<Reply>, b: seq<Reply>)
    ensures Estimate(p, a + b) == Estimate(p, a) + Estimate(p, b)
    ensures forall r: Reply :: Estimate(p, [r]) == match r case Answered(u, _) => TariffCost(p, u) case _ => 0.0
    decreases |b|
  {
    forall r: Reply ensures Estimate(p, [r]) == match r case Answered(u, _) => TariffCost(p, u) case _ => 0.0 {
      assert [r][..0] == [];
    }
    if b == [] {
      assert a + b == a;
    } else {
      EstimatesAddUp(p, a, b[..|b| - 1]);
      assert (a + b)[..|a + b| - 1] == a + b[..|b| - 1];
    }
  }

  predicate Exceeds(promptBytes: nat, r: Reply) {
    r.Answered? && !Within(promptBytes, r.usage)
  }

  predicate BreaksOff(promptBytes: nat, r: Reply) {
    Exceeds(promptBytes, r) || (!r.TooLate? && r.breaksOff)
  }

  lemma CeilingNonnegative(p: Prices, promptBytes: nat)
    requires Accepted(p)
    ensures CaseCeiling(p, promptBytes) >= 0.0
  {
    var a, b := Times(0.0, InputBound(promptBytes) as real, p.input);
    var c, d := Times(0.0, MAX_OUTPUT_TOKENS as real, p.output);
  }

  lemma {:induction false} UpperCostGrows(p: Prices, cases: seq<nat>, n: nat)
    requires Accepted(p) && n <= |cases|
    ensures UpperCost(p, cases[..n]) <= UpperCost(p, cases)
    decreases |cases|
  {
    if n < |cases| {
      var front := cases[..|cases| - 1];
      UpperCostGrows(p, front, n);
      assert front[..n] == cases[..n];
      CeilingNonnegative(p, cases[|cases| - 1]);
      Divide(0.0, CaseCeiling(p, cases[|cases| - 1]));
    } else {
      assert cases[..n] == cases;
    }
  }

  /** The accounting loop of `evaluate`: nothing is sent if the ceiling is above the limit.
      Otherwise the cases are taken one after the other until one breaks the pilot off; the
      estimate covers exactly the replies received, no reply but the last exceeds its bounds,
      and unless the last one does, the estimate stays within the limit. */
  method Evaluate(p: Prices, limit: real, cases: seq<nat>, replies: seq<Reply>)
    returns (blocked: bool, done: nat, estimate: real)
    requires Accepted(p) && |replies| == |cases|
    requires forall i :: 0 <= i < |replies| && replies[i].Answered? ==> Consistent(replies[i].usage)
    ensures blocked <==> UpperCost(p, cases) > limit
    ensures blocked ==> done == 0
    ensures done <= |cases| && estimate == Estimate(p, replies[..done])
    ensures forall i :: 0 <= i < done - 1 ==> !BreaksOff(cases[i], replies[i])
    ensures !blocked && done < |cases| ==> done > 0 && BreaksOff(cases[done - 1], replies[done - 1])
    ensures !blocked && done > 0 ==> Estimate(p, replies[..done - 1]) <= limit
    ensures !blocked && (done == 0 || !Exceeds(cases[done - 1], replies[done - 1])) ==>
              estimate <= UpperCost(p, cases) <= limit
  {
    done, estimate := 0, 0.0;
    blocked := UpperCost(p, cases) > limit;
    if blocked { return; }
    UpperCostGrows(p, cases, 0);
    while done < |cases|
      invariant 0 <= done <= |cases| && estimate == Estimate(p, replies[..done]) <= UpperCost(p, cases[..done])
      invariant forall i :: 0 <= i < done ==> !BreaksOff(cases[i], replies[i])
      invariant done > 0 ==> Estimate(p, replies[..done - 1]) <= UpperCost(p, cases[..done - 1])
    {
      var (bytes, reply) := (cases[done], replies[done]);
      assert replies[..done + 1][..done] == replies[..done] && cases[..done + 1][..done] == cases[..done];
      CeilingNonnegative(p, bytes);
      Divide(0.0, CaseCeiling(p, bytes));
      UpperCostGrows(p, cases, done);
      UpperCostGrows(p, cases, done + 1);
      if reply.Answered? {
        estimate := estimate + TariffCost(p, reply.usage);
        if !Exceeds(bytes, reply) { CostWithinCeiling(p, bytes, reply.usage); }
      }
      done := done + 1;
      if BreaksOff(bytes, reply) {
        return;
      }
    }
    assert cases[..done] == cases;
    if done > 0 { UpperCostGrows(p, cases, done - 1); }
  }
}
