/** The independent printer of the release drill: digits of a rational by long division
    (`decimal_text` in `verify_controlled_analysis_chat.py`), against the Decimal printer. */
module LongDivision {
  import opened Options
  import opened Digits
  import opened Decimals
  import opened NumberText

  /** `d` is the number `numerator / denominator`. */
  ghost predicate IsFraction(d: Decimal, numerator: int, denominator: int) {
    Shift(numerator, Scale(d)) == denominator * Scaled(d, Scale(d))
  }

  // ---- multiplication by the denominator ----

  lemma Distributes(m: int, x: int, y: int)
    ensures m * (x + y) == m * x + m * y
    ensures m * (10 * x) == 10 * (m * x)
    ensures m * -x == -(m * x)
  {
  }

  lemma {:induction false} ShiftOfProduct(m: int, x: int, k: nat)
    ensures Shift(m * x, k) == m * Shift(x, k)
    decreases k
  {
    if k > 0 {
      ShiftOfProduct(m, x, k - 1);
      Distributes(m, Shift(x, k - 1), 0);
    }
  }

  lemma MultipleOrder(m: int, x: int, y: int)
    requires m >= 1
    ensures x < y ==> m * x + m <= m * y
    ensures x == y <==> m * x == m * y
  {
    if x < y { Gap(m, x, y); } else if y < x { Gap(m, y, x); }
  }

  lemma {:induction false} Gap(m: int, x: int, y: int)
    requires m >= 1 && x < y
    ensures m * x + m <= m * y
    decreases y - x
  {
    Distributes(m, y - 1, 1);
    if x < y - 1 { Gap(m, x, y - 1); }
  }

  lemma SameFraction(a: Decimal, b: Decimal, numerator: int, denominator: int)
    requires denominator >= 1 && IsFraction(a, numerator, denominator) && IsFraction(b, numerator, denominator)
    ensures SameNumber(a, b)
  {
    var j, k := Scale(a), Scale(b);
    ShiftOfProduct(denominator, Scaled(a, j), k);
    ShiftOfProduct(denominator, Scaled(b, k), j);
    ShiftTwice(numerator, j, k);
    ShiftTwice(numerator, k, j);
    ScaledShift(a, j, k);
    ScaledShift(b, k, j);
    assert j + k == k + j;
    MultipleOrder(denominator, Scaled(a, j + k), Scaled(b, j + k));
  }

  // ---- one step of the division ----

  /** After `digits` the remainder is what is left of the numerator shifted that far. */
  ghost predicate Divided(start: int, denominator: int, digits: string, remainder: int) {
    && AllDigits(digits) && NoTrailingZeroUnless(remainder, digits)
    && 0 <= remainder < denominator
    && Shift(start, |digits|) == denominator * Value(digits) + remainder
  }

  ghost predicate NoTrailingZeroUnless(remainder: int, digits: string) {
    remainder == 0 ==> NoTrailingZero(digits)
  }

  lemma DivisionStep(start: int, denominator: int, digits: string, remainder: int, digit: nat, next: int)
    requires Divided(start, denominator, digits, remainder) && remainder > 0
    requires 10 * remainder == denominator * digit + next && 0 <= next < denominator
    ensures digit < 10 && Divided(start, denominator, digits + [Digit(digit)], next)
  {
    MultipleOrder(denominator, 9, digit);
    Distributes(denominator, 9, 1);
    Distributes(denominator, Value(digits), digit);
    Distributes(denominator, 10 * Value(digits), digit);
    var longer := digits + [Digit(digit)];
    assert longer[..|longer| - 1] == digits;
    if next == 0 && digit == 0 { Distributes(denominator, 0, 0); }
  }

  lemma QuotientOf(n: int, m: int)
    requires m >= 1
    ensures n == m * (n / m) + n % m && 0 <= n % m < m
    ensures n >= 0 ==> n / m >= 0
  {
    if n >= 0 && n / m < 0 { MultipleOrder(m, n / m, 0); }
  }

  /** The number the printed parts denote is the fraction. */
  lemma PartsAreTheFraction(numerator: nat, denominator: int, whole: nat, fraction: string, remainder: int)
    requires denominator >= 1 && numerator == denominator * whole + remainder
    requires Divided(remainder, denominator, fraction, 0)
    ensures AllDigits(NatText(whole) + fraction)
    ensures Shift(numerator, |fraction|) == denominator * Value(NatText(whole) + fraction)
  {
    var k := |fraction|;
    ValueOfNatText(whole);
    ValueConcat(NatText(whole), fraction);
    ShiftAdds(denominator * whole, remainder, k);
    ShiftOfProduct(denominator, whole, k);
    Distributes(denominator, Shift(whole, k), Value(fraction));
  }

  lemma SignedFraction(d: Decimal, size: nat, denominator: int, k: nat)
    requires d.exponent == 0 - k && Shift(size, k) == denominator * d.coefficient
    ensures IsFraction(d, Signed(d.negative, size), denominator)
  {
    ShiftNegates(size, k);
    Distributes(denominator, d.coefficient, 0);
  }

  /** The fraction has an expansion of at most 100 digits. */
  ghost predicate Terminates(numerator: int, denominator: int) {
    exists q :: Shift(numerator, 100) == denominator * q
  }

  lemma RemainderRefutes(size: nat, denominator: int, whole: nat, start: int, digits: string, remainder: int)
    requires denominator >= 1 && size == denominator * whole + start
    requires Divided(start, denominator, digits, remainder) && |digits| == 100 && remainder > 0
    ensures !Terminates(size, denominator)
  {
    ShiftAdds(denominator * whole, start, 100);
    ShiftOfProduct(denominator, whole, 100);
    var v := Shift(whole, 100) + Value(digits);
    Distributes(denominator, Shift(whole, 100), Value(digits));
    assert Shift(size, 100) == denominator * v + remainder;
    forall q ensures Shift(size, 100) != denominator * q {
      MultipleOrder(denominator, v, q);
      MultipleOrder(denominator, q, v);
    }
  }

  lemma ExpansionTerminates(size: nat, denominator: int, digits: string, n: int)
    requires Shift(size, |digits|) == denominator * n && |digits| <= 100
    ensures Terminates(size, denominator)
  {
    var more := 100 - |digits|;
    ShiftTwice(size, |digits|, more);
    ShiftOfProduct(denominator, n, more);
    assert Shift(size, 100) == denominator * Shift(n, more);
  }

  /** The text is in the language, is read as the fraction, and is what `_decimal_text` prints for
      every Decimal of that value. */
  ghost predicate Denotes(text: string, numerator: int, denominator: int)
    requires denominator >= 1
  {
    && IsDecimalText(text) && ReadNumber(text).Some? && IsFraction(ReadNumber(text).value, numerator, denominator)
    && forall d: Decimal :: IsFraction(d, numerator, denominator) ==> text == DecimalText(d)
  }

  /** Prints the fraction exactly, or gives up if and only if it has no expansion of at
      most 100 digits. On every number that is also a Decimal it prints the same text as
      `_decimal_text`. */
  method PrintFraction(numerator: int, denominator: int) returns (text: Option<string>)
    requires denominator >= 1
    ensures text.Some? <==> Terminates(if numerator < 0 then -numerator else numerator, denominator)
    ensures text.Some? ==> Denotes(text.value, numerator, denominator)
  {
    var negative := numerator < 0;
    var size: nat := if negative then -numerator else numerator;
    QuotientOf(size, denominator);
    var whole: nat, remainder := size / denominator, size % denominator;
    ghost var start := remainder;
    var digits := "";
    while remainder != 0
      invariant Divided(start, denominator, digits, remainder)
      invariant |digits| <= 100
      decreases 101 - |digits|
    {
      QuotientOf(10 * remainder, denominator);
      var digit: nat := 10 * remainder / denominator;
      if |digits| == 100 {
        RemainderRefutes(size, denominator, whole, start, digits, remainder);
        return None;
      }
      DivisionStep(start, denominator, digits, remainder, digit, 10 * remainder % denominator);
      digits := digits + [Digit(digit)];
      remainder := 10 * remainder % denominator;
    }
    text := Some(Minus(negative) + (NatText(whole) + PointAnd(digits)));
    PrintedFraction(numerator, denominator, size, whole, digits, start);
  }

  lemma PrintedFraction(numerator: int, denominator: int, size: nat, whole: nat, digits: string, start: int)
    requires denominator >= 1 && size == (if numerator < 0 then -numerator else numerator)
    requires size == denominator * whole + start && Divided(start, denominator, digits, 0) && |digits| <= 100
    ensures Denotes(Plain(numerator < 0, NatText(whole), digits), numerator, denominator)
    ensures Terminates(size, denominator)
  {
    var r := PrintedParts(numerator < 0, size, denominator, whole, digits, start);
    ReadMeansDenotes(Plain(numerator < 0, NatText(whole), digits), r, numerator, denominator);
  }

  lemma ReadMeansDenotes(text: string, r: Decimal, numerator: int, denominator: int)
    requires denominator >= 1 && IsDecimalText(text) && ReadNumber(text) == Some(r)
    requires IsFraction(r, numerator, denominator)
    ensures Denotes(text, numerator, denominator)
  {
    forall d: Decimal | IsFraction(d, numerator, denominator) ensures text == DecimalText(d) {
      SameFractionSameText(text, r, d, numerator, denominator);
    }
  }

  /** The parts make up a text of the language that denotes the fraction. */
  lemma PrintedParts(negative: bool, size: nat, denominator: int, whole: nat, digits: string, start: int)
    returns (r: Decimal)
    requires denominator >= 1 && (negative ==> size > 0)
    requires size == denominator * whole + start && Divided(start, denominator, digits, 0) && |digits| <= 100
    ensures var text := Plain(negative, NatText(whole), digits); IsDecimalText(text) && ReadNumber(text) == Some(r)
    ensures IsFraction(r, Signed(negative, size), denominator)
    ensures Terminates(size, denominator)
  {
    ValueOfNatText(whole);
    PartsAreTheFraction(size, denominator, whole, digits, start);
    r := PlainIsRead(negative, NatText(whole), digits);
    ExpansionTerminates(size, denominator, digits, r.coefficient);
    SignedFraction(r, size, denominator, |digits|);
    NotZeroText(size, denominator, whole, digits);
    PlainIsInLanguage(negative, NatText(whole), digits);
  }

  lemma NotZeroText(size: nat, denominator: int, whole: nat, digits: string)
    requires AllDigits(digits) && AllDigits(NatText(whole) + digits)
    requires Shift(size, |digits|) == denominator * Value(NatText(whole) + digits)
    ensures size > 0 ==> !(NatText(whole) == "0" && digits == "")
  {
    if NatText(whole) == "0" && digits == "" {
      assert NatText(whole) + digits == "0";
      assert Value("0") == 0 by { assert "0"[..0] == ""; }
      Distributes(denominator, 0, 0);
    }
  }

  lemma SameFractionSameText(text: string, r: Decimal, d: Decimal, numerator: int, denominator: int)
    requires denominator >= 1 && IsDecimalText(text) && ReadNumber(text) == Some(r)
    requires IsFraction(r, numerator, denominator) && IsFraction(d, numerator, denominator)
    ensures text == DecimalText(d)
  {
    var p := TextIsExact(d);
    SameFraction(r, d, numerator, denominator);
    SameNumberSymmetric(p, d);
    SameNumberTransitive(r, d, p);
    LanguageIsCanonical(text, DecimalText(d));
  }
}
