/** Decimal digit strings: their value, their printing, and when two of them are equal. */
module Digits {

  /** `x * 10^k`, multiplied out one ten at a time. */
  function Shift(x: int, k: nat): int {
    if k == 0 then x else 10 * Shift(x, k - 1)
  }

  function Pow10(k: nat): int {
    Shift(1, k)
  }

  predicate IsDigit(c: char) {
    '0' <= c <= '9'
  }

  predicate AllDigits(s: string) {
    forall i :: 0 <= i < |s| ==> IsDigit(s[i])
  }

  function DigitValue(c: char): (d: nat)
    requires IsDigit(c)
    ensures d < 10
  {
    c as int - '0' as int
  }

  function Digit(d: nat): (c: char)
    requires d < 10
    ensures IsDigit(c) && DigitValue(c) == d
  {
    ('0' as int + d) as char
  }

  function Value(s: string): nat
    requires AllDigits(s)
  {
    if s == "" then 0 else 10 * Value(s[..|s| - 1]) + DigitValue(s[|s| - 1])
  }

  /** The decimal text of a natural number, as `str` prints it. */
  function NatText(n: nat): (s: string)
    ensures s != "" && AllDigits(s)
  {
    if n < 10 then [Digit(n)] else NatText(n / 10) + [Digit(n % 10)]
  }

  function Zeros(k: nat): (s: string)
    ensures |s| == k && AllDigits(s)
  {
    if k == 0 then "" else Zeros(k - 1) + "0"
  }

  predicate NoLeadingZero(s: string) {
    s != "" && (s == "0" || s[0] != '0')
  }

  predicate NoTrailingZero(s: string) {
    s == "" || s[|s| - 1] != '0'
  }

  // ---- shifting by powers of ten ----

  lemma {:induction false} ShiftTwice(x: int, a: nat, b: nat)
    ensures Shift(Shift(x, a), b) == Shift(x, a + b)
    decreases b
  {
    if b > 0 { ShiftTwice(x, a, b - 1); }
  }

  lemma {:induction false} ShiftAdds(x: int, y: int, k: nat)
    ensures Shift(x + y, k) == Shift(x, k) + Shift(y, k)
    decreases k
  {
    if k > 0 { ShiftAdds(x, y, k - 1); }
  }

  lemma {:induction false} ShiftNegates(x: int, k: nat)
    ensures Shift(-x, k) == -Shift(x, k)
    decreases k
  {
    if k > 0 { ShiftNegates(x, k - 1); }
  }

  lemma {:induction false} ShiftOrder(x: int, y: int, k: nat)
    ensures x < y <==> Shift(x, k) < Shift(y, k)
    ensures x == y <==> Shift(x, k) == Shift(y, k)
    decreases k
  {
    if k > 0 { ShiftOrder(x, y, k - 1); }
  }

  lemma {:induction false} ShiftGrows(x: nat, j: nat, k: nat)
    requires j <= k
    ensures x <= Shift(x, j) <= Shift(x, k)
    ensures x > 0 && j < k ==> Shift(x, j) < Shift(x, k)
    decreases k
  {
    if j < k { ShiftGrows(x, j, k - 1); } else if k > 0 { ShiftGrows(x, j - 1, k - 1); }
  }

  // ---- values ----

  lemma {:induction false} ValueBound(s: string)
    requires AllDigits(s)
    ensures Value(s) < Pow10(|s|)
    decreases |s|
  {
    if s != "" { ValueBound(s[..|s| - 1]); }
  }

  lemma {:induction false} ValueConcat(a: string, b: string)
    requires AllDigits(a) && AllDigits(b)
    ensures AllDigits(a + b) && Value(a + b) == Shift(Value(a), |b|) + Value(b)
    decreases |b|
  {
    if b == "" {
      assert a + b == a;
    } else {
      var front := b[..|b| - 1];
      ValueConcat(a, front);
      assert (a + b)[..|a + b| - 1] == a + front;
      assert (a + b)[|a + b| - 1] == b[|b| - 1];
    }
  }

  lemma {:induction false} ValueZeros(k: nat)
    ensures Value(Zeros(k)) == 0
  {
    if k > 0 {
      ValueZeros(k - 1);
      assert Zeros(k)[..k - 1] == Zeros(k - 1);
    }
  }

  lemma {:induction false} ValueOfNatText(n: nat)
    ensures Value(NatText(n)) == n && NoLeadingZero(NatText(n))
  {
    if n < 10 {
      assert NatText(n)[..0] == "";
    } else {
      ValueOfNatText(n / 10);
      assert NatText(n)[..|NatText(n)| - 1] == NatText(n / 10);
      assert NatText(n / 10) != "0" by { assert Value("0") == 0 by { assert "0"[..0] == ""; } }
    }
  }

  lemma {:induction false} SameLengthSameValue(a: string, b: string)
    requires AllDigits(a) && AllDigits(b) && |a| == |b| && Value(a) == Value(b)
    ensures a == b
    decreases |a|
  {
    if a != "" {
      var fa, fb := a[..|a| - 1], b[..|b| - 1];
      SameLengthSameValue(fa, fb);
      assert a == fa + [a[|a| - 1]] && b == fb + [b[|b| - 1]];
    }
  }

  /** A digit string with a nonzero first digit is at least the power of ten of its length. */
  lemma {:induction false} LeadingDigitBound(s: string)
    requires AllDigits(s) && s != "" && s[0] != '0'
    ensures Pow10(|s| - 1) <= Value(s)
    decreases |s|
  {
    if |s| > 1 {
      LeadingDigitBound(s[..|s| - 1]);
    } else {
      assert s[..0] == "";
    }
  }

  /** Numerals without leading zeros are determined by their value. */
  lemma CanonicalNumeral(a: string, b: string)
    requires AllDigits(a) && AllDigits(b) && NoLeadingZero(a) && NoLeadingZero(b) && Value(a) == Value(b)
    ensures a == b
  {
    if |a| == |b| {
      SameLengthSameValue(a, b);
    } else if |a| < |b| {
      ShorterIsSmaller(a, b);
    } else {
      ShorterIsSmaller(b, a);
    }
  }

  lemma ShorterIsSmaller(a: string, b: string)
    requires AllDigits(a) && AllDigits(b) && NoLeadingZero(b) && 0 < |a| < |b|
    ensures Value(a) < Value(b)
  {
    ValueBound(a);
    ShiftGrows(1, |a|, |b| - 1);
    LeadingDigitBound(b);
  }

  /** The number of digits says how large the number is, and conversely. */
  lemma NatTextLength(n: nat, k: nat)
    requires k >= 1
    ensures |NatText(n)| <= k <==> n < Pow10(k)
  {
    ValueOfNatText(n);
    var s := NatText(n);
    ValueBound(s);
    if |s| <= k {
      ShiftGrows(1, |s|, k);
    } else {
      LeadingDigitBound(s);
      ShiftGrows(1, k, |s| - 1);
    }
  }

  lemma LastDigit(s: string)
    requires AllDigits(s) && s != ""
    ensures Value(s) % 10 == DigitValue(s[|s| - 1])
  {
  }

  /** A fraction written without a trailing zero has no more fractional digits than any
      other way to write the same number. `m` and `n` are all digits, whole part included. */
  lemma TerminatingLength(m: string, n: string, j: nat, k: nat)
    requires AllDigits(m) && AllDigits(n) && n != "" && n[|n| - 1] != '0'
    requires Shift(Value(m), k) == Shift(Value(n), j)
    ensures k <= j
  {
    if j < k {
      ShiftTwice(Value(m), k - j, j);
      ShiftOrder(Shift(Value(m), k - j), Value(n), j);
      LastDigit(n);
    }
  }
}
