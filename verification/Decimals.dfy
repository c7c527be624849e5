/** The exact decimal arithmetic of the statistics pipeline (`file_statistics.py`): Python's
    `Decimal`, the bounds `_decimal` imposes, and addition at a given precision. */
module Decimals {
  import opened Digits

  datatype Decimal = Decimal(negative: bool, coefficient: nat, exponent: int)

  const Zero := Decimal(false, 0, 0)

  // ---- the number a Decimal denotes ----

  function Signed(negative: bool, n: int): int {
    if negative then -n else n
  }

  /** The signed integer `number * 10^k`. */
  function Scaled(d: Decimal, k: nat): int
    requires d.exponent + k >= 0
  {
    Shift(Signed(d.negative, d.coefficient), d.exponent + k)
  }

  /** A scale at which the number is an integer. */
  function Scale(d: Decimal): nat {
    if d.exponent < 0 then -d.exponent else 0
  }

  predicate SameNumber(a: Decimal, b: Decimal) {
    var k := Scale(a) + Scale(b);
    Scaled(a, k) == Scaled(b, k)
  }

  /** Numeric order, as `<` on Decimals. */
  predicate Less(a: Decimal, b: Decimal) {
    var k := Scale(a) + Scale(b);
    Scaled(a, k) < Scaled(b, k)
  }

  lemma ScaledShift(d: Decimal, k: nat, more: nat)
    requires d.exponent + k >= 0
    ensures Scaled(d, k + more) == Shift(Scaled(d, k), more)
  {
    ShiftTwice(Signed(d.negative, d.coefficient), d.exponent + k, more);
  }

  /** The comparisons do not depend on the scale. */
  lemma CompareAtAnyScale(a: Decimal, b: Decimal, k: nat)
    requires a.exponent + k >= 0 && b.exponent + k >= 0
    ensures SameNumber(a, b) <==> Scaled(a, k) == Scaled(b, k)
    ensures Less(a, b) <==> Scaled(a, k) < Scaled(b, k)
  {
    var s := Scale(a) + Scale(b);
    ScaledShift(a, k, s);
    ScaledShift(b, k, s);
    ScaledShift(a, s, k);
    ScaledShift(b, s, k);
    assert k + s == s + k;
    ShiftOrder(Scaled(a, k), Scaled(b, k), s);
    ShiftOrder(Scaled(a, s), Scaled(b, s), k);
  }

  lemma SameNumberSymmetric(a: Decimal, b: Decimal)
    ensures SameNumber(a, b) <==> SameNumber(b, a)
  {
    CompareAtAnyScale(b, a, Scale(a) + Scale(b));
  }

  lemma SameNumberTransitive(a: Decimal, b: Decimal, c: Decimal)
    requires SameNumber(a, b) && SameNumber(b, c)
    ensures SameNumber(a, c)
  {
    var k := Scale(a) + Scale(b) + Scale(c);
    CompareAtAnyScale(a, b, k);
    CompareAtAnyScale(b, c, k);
    CompareAtAnyScale(a, c, k);
  }

  // ---- the bounds of `_decimal` ----

  function Adjusted(d: Decimal): int {
    d.exponent + |NatText(d.coefficient)| - 1
  }

  predicate InRange(d: Decimal) {
    |NatText(d.coefficient)| <= 38 && Adjusted(d) < 38 && d.exponent >= -18
  }

  /** Every accepted number is an integer of at most 56 digits at scale 18. */
  lemma InRangeBound(d: Decimal)
    requires InRange(d)
    ensures -Pow10(56) < Scaled(d, 18) < Pow10(56)
  {
    var digits := |NatText(d.coefficient)|;
    NatTextLength(d.coefficient, digits);
    ShiftOrder(d.coefficient, Pow10(digits), d.exponent + 18);
    ShiftTwice(1, digits, d.exponent + 18);
    ShiftGrows(1, digits + d.exponent + 18, 56);
    ShiftNegates(d.coefficient, d.exponent + 18);
    ShiftGrows(d.coefficient, 0, d.exponent + 18);
  }

  /** Accepted are exactly the numbers below 10^38 in size with at most 38 digits and 18 decimal places;
      a zero is judged as if its last digit were a one. */
  lemma InRangeIff(d: Decimal)
    ensures InRange(d) <==>
              && d.coefficient < Pow10(38) && d.exponent + 18 >= 0
              && Shift(if d.coefficient == 0 then 1 else d.coefficient, d.exponent + 18) < Pow10(38 + 18)
  {
    NatTextLength(d.coefficient, 38);
    if -18 <= d.exponent < 38 {
      NatTextLength(d.coefficient, 38 - d.exponent);
      var last := if d.coefficient == 0 then 1 else d.coefficient;
      ShiftGrows(1, 0, 38 - d.exponent);
      ShiftTwice(1, 38 - d.exponent, d.exponent + 18);
      ShiftOrder(last, Pow10(38 - d.exponent), d.exponent + 18);
    } else if d.exponent >= 38 {
      ShiftGrows(1, 56, d.exponent + 18);
      ShiftOrder(1, d.coefficient, d.exponent + 18);
    }
  }

  // ---- addition at a precision ----

  function DropDigits(n: nat, k: nat): nat {
    if k == 0 then n else DropDigits(n / 10, k - 1)
  }

  /** The quotient by `10^drop`, rounded half even. */
  function Rounded(n: nat, drop: nat): nat
    requires drop >= 1
  {
    var kept := DropDigits(n, drop);
    var rest := n - Shift(kept, drop);
    var half := Shift(5, drop - 1);
    if rest > half || (rest == half && kept % 2 == 1) then kept + 1 else kept
  }

  /** Round to `precision` digits, as the decimal context does. */
  function Fix(negative: bool, coefficient: nat, exponent: int, precision: nat): Decimal
    requires precision >= 1
  {
    var length := |NatText(coefficient)|;
    if length <= precision then Decimal(negative, coefficient, exponent)
    else
      var drop := length - precision;
      var rounded := Rounded(coefficient, drop);
      if |NatText(rounded)| > precision then Decimal(negative, rounded / 10, exponent + drop + 1)
      else Decimal(negative, rounded, exponent + drop)
  }

  lemma {:induction false} DroppedDigits(n: nat, k: nat)
    ensures Shift(DropDigits(n, k), k) <= n < Shift(DropDigits(n, k) + 1, k)
    decreases k
  {
    if k > 0 {
      DroppedDigits(n / 10, k - 1);
      ShiftTwice(DropDigits(n, k), k - 1, 1);
      ShiftTwice(DropDigits(n, k) + 1, k - 1, 1);
    }
  }

  /** Rounding keeps the sign, leaves at most `precision` digits, changes nothing that fits,
      and otherwise moves the number by at most half a unit of the last kept digit. */
  lemma FixIsNearest(negative: bool, coefficient: nat, exponent: int, precision: nat)
    requires precision >= 1
    ensures var r := Fix(negative, coefficient, exponent, precision);
      && r.negative == negative && |NatText(r.coefficient)| <= precision && r.exponent >= exponent
      && (|NatText(coefficient)| <= precision ==> r == Decimal(negative, coefficient, exponent))
      && (|NatText(coefficient)| > precision ==>
            var error := Shift(r.coefficient, r.exponent - exponent) - coefficient;
            -Pow10(|NatText(coefficient)| - precision) <= 2 * error <= Pow10(|NatText(coefficient)| - precision))
  {
    if |NatText(coefficient)| > precision { LongFix(negative, coefficient, exponent, precision); }
  }

  /** The same for a number that has too many digits. */
  lemma LongFix(negative: bool, coefficient: nat, exponent: int, precision: nat)
    requires precision >= 1 && |NatText(coefficient)| > precision
    ensures var (r, drop) := (Fix(negative, coefficient, exponent, precision), |NatText(coefficient)| - precision);
      && r.negative == negative && |NatText(r.coefficient)| <= precision && r.exponent >= exponent
      && Shift(r.coefficient, r.exponent - exponent) == Shift(Rounded(coefficient, drop), drop)
    ensures var drop := |NatText(coefficient)| - precision;
      -Pow10(drop) <= 2 * (Shift(Rounded(coefficient, drop), drop) - coefficient) <= Pow10(drop)
  {
    var drop := |NatText(coefficient)| - precision;
    var rounded := Rounded(coefficient, drop);
    LongRounds(coefficient, precision);
    if |NatText(rounded)| > precision {
      CarryDropsAZero(rounded, precision);
      ShiftTwice(rounded / 10, 1, drop);
    }
  }

  lemma LongRounds(coefficient: nat, precision: nat)
    requires precision >= 1 && |NatText(coefficient)| > precision
    ensures var drop := |NatText(coefficient)| - precision;
      && Rounded(coefficient, drop) <= Pow10(precision)
      && -Pow10(drop) <= 2 * (Shift(Rounded(coefficient, drop), drop) - coefficient) <= Pow10(drop)
  {
    var drop := |NatText(coefficient)| - precision;
    NatTextLength(coefficient, precision + drop);
    ShiftTwice(1, precision, drop);
    RoundedIsNearest(coefficient, drop, Pow10(precision));
  }

  /** Rounding up to one more digit leaves a power of ten, so dropping its last zero is exact. */
  lemma CarryDropsAZero(rounded: nat, precision: nat)
    requires precision >= 1 && rounded <= Pow10(precision) && |NatText(rounded)| > precision
    ensures |NatText(rounded / 10)| <= precision && Shift(rounded / 10, 1) == rounded
  {
    NatTextLength(rounded, precision);
    ShiftGrows(1, precision - 1, precision);
    NatTextLength(rounded / 10, precision);
    assert Pow10(precision) == 10 * Pow10(precision - 1);
  }

  /** The rounded quotient is within half a unit, and a number below `bound` units rounds
      to at most `bound`. */
  lemma RoundedIsNearest(n: nat, drop: nat, bound: int)
    requires drop >= 1 && n < Shift(bound, drop)
    ensures Rounded(n, drop) <= bound
    ensures -Pow10(drop) <= 2 * (Shift(Rounded(n, drop), drop) - n) <= Pow10(drop)
  {
    var kept := DropDigits(n, drop);
    DroppedDigits(n, drop);
    ShiftOrder(kept, bound, drop);
    ShiftAdds(kept, 1, drop);
    HalfUnit(drop);
  }

  /** A number halfway between two is rounded to the even one. */
  lemma TiesGoToEven(n: nat, drop: nat)
    requires drop >= 1
    ensures var error := Shift(Rounded(n, drop), drop) - n;
      2 * error == Pow10(drop) || 2 * error == -Pow10(drop) ==> Rounded(n, drop) % 2 == 0
  {
    var kept := DropDigits(n, drop);
    DroppedDigits(n, drop);
    ShiftAdds(kept, 1, drop);
    HalfUnit(drop);
  }

  lemma HalfUnit(drop: nat)
    requires drop >= 1
    ensures 2 * Shift(5, drop - 1) == Pow10(drop)
  {
    ShiftAdds(5, 5, drop - 1);
    ShiftTwice(1, 1, drop - 1);
  }

  function MinInt(a: int, b: int): int { if a <= b then a else b }

  /** The exact sum of the two operands, as an integer at their smaller exponent. */
  function AlignedSum(a: Decimal, b: Decimal): int {
    var e := MinInt(a.exponent, b.exponent);
    Shift(Signed(a.negative, a.coefficient), a.exponent - e) + Shift(Signed(b.negative, b.coefficient), b.exponent - e)
  }

  function Add(a: Decimal, b: Decimal, precision: nat): Decimal
    requires precision >= 1
  {
    var sum := AlignedSum(a, b);
    var negative := sum < 0 || (sum == 0 && a.negative && b.negative);
    Fix(negative, if sum < 0 then -sum else sum, MinInt(a.exponent, b.exponent), precision)
  }

  /** An addition whose exact sum has at most `precision` digits is exact. */
  lemma AddIsExact(a: Decimal, b: Decimal, precision: nat, k: nat)
    requires precision >= 1 && a.exponent + k >= 0 && b.exponent + k >= 0
    requires -Pow10(precision) < Scaled(a, k) + Scaled(b, k) < Pow10(precision)
    ensures var r := Add(a, b, precision);
      && r.exponent == MinInt(a.exponent, b.exponent)
      && Scaled(r, k) == Scaled(a, k) + Scaled(b, k)
  {
    var e := MinInt(a.exponent, b.exponent);
    AlignedSumScales(a, b, k);
    SmallSumFits(AlignedSum(a, b), e + k, precision);
  }

  lemma AlignedSumScales(a: Decimal, b: Decimal, k: nat)
    requires a.exponent + k >= 0 && b.exponent + k >= 0
    ensures Shift(AlignedSum(a, b), MinInt(a.exponent, b.exponent) + k) == Scaled(a, k) + Scaled(b, k)
  {
    var e := MinInt(a.exponent, b.exponent);
    var (x, y) := (Signed(a.negative, a.coefficient), Signed(b.negative, b.coefficient));
    ShiftTwice(x, a.exponent - e, e + k);
    ShiftTwice(y, b.exponent - e, e + k);
    ShiftAdds(Shift(x, a.exponent - e), Shift(y, b.exponent - e), e + k);
  }

  /** A sum of few digits at some scale has few digits itself. */
  lemma SmallSumFits(sum: int, k: nat, precision: nat)
    requires precision >= 1 && -Pow10(precision) < Shift(sum, k) < Pow10(precision)
    ensures |NatText(if sum < 0 then -sum else sum)| <= precision
    ensures Shift(Signed(sum < 0, if sum < 0 then -sum else sum), k) == Shift(sum, k)
  {
    var size := if sum < 0 then -sum else sum;
    ShiftNegates(sum, k);
    ShiftGrows(size, 0, k);
    NatTextLength(size, precision);
  }

  // ---- the running total ----

  ghost predicate AllInRange(values: seq<Decimal>) {
    forall i :: 0 <= i < |values| ==> InRange(values[i])
  }

  /** The loop's total, starting from `Decimal(0)`. */
  function Total(values: seq<Decimal>, precision: nat): Decimal
    requires precision >= 1
  {
    if values == [] then Zero
    else Add(Total(values[..|values| - 1], precision), values[|values| - 1], precision)
  }

  /** The exact sum at scale 18. */
  ghost function ExactSum(values: seq<Decimal>): int
    requires AllInRange(values)
  {
    if values == [] then 0 else ExactSum(values[..|values| - 1]) + Scaled(values[|values| - 1], 18)
  }

  const MAX_ROWS := 50_000
  const PRECISION := 80

  lemma {:induction false} SumBound(values: seq<Decimal>)
    requires AllInRange(values)
    ensures -Shift(|values|, 56) <= ExactSum(values) <= Shift(|values|, 56)
    decreases |values|
  {
    if values != [] {
      SumBound(values[..|values| - 1]);
      InRangeBound(values[|values| - 1]);
      ShiftAdds(|values| - 1, 1, 56);
    } else {
      ShiftOrder(0, 1, 56);
      ShiftGrows(0, 0, 56);
    }
  }

  lemma RowsFit(n: nat)
    requires n <= MAX_ROWS
    ensures 0 <= Shift(n, 56) < Pow10(61) < Pow10(PRECISION)
  {
    assert Pow10(5) == 100_000 by { assert Pow10(2) == 100; assert Pow10(4) == 10_000; }
    ShiftOrder(n, Pow10(5), 56);
    ShiftTwice(1, 5, 56);
    ShiftGrows(1, 61, 80);
    ShiftGrows(n, 0, 56);
  }

  /** For every accepted column the running total equals the exact sum after every row:
      its coefficient stays below 10^61 and its exponent in [-18, 0], so 80 digits never
      round. */
  lemma {:induction false} TotalIsExact(values: seq<Decimal>)
    requires |values| <= MAX_ROWS && AllInRange(values)
    ensures var t := Total(values, PRECISION);
      && -18 <= t.exponent <= 0
      && t.coefficient < Pow10(61)
      && Scaled(t, 18) == ExactSum(values)
    decreases |values|
  {
    RowsFit(|values|);
    SumBound(values);
    if values == [] {
      ShiftAdds(0, 0, 18);
    } else {
      var front := values[..|values| - 1];
      TotalIsExact(front);
      AddIsExact(Total(front, PRECISION), values[|values| - 1], PRECISION, 18);
      CoefficientBound(Total(values, PRECISION));
    }
  }

  lemma CoefficientBound(t: Decimal)
    requires -18 <= t.exponent
    ensures t.coefficient <= if Scaled(t, 18) < 0 then -Scaled(t, 18) else Scaled(t, 18)
  {
    ShiftGrows(t.coefficient, 0, t.exponent + 18);
    ShiftNegates(t.coefficient, t.exponent + 18);
  }
}
