/** The numerals of `_NUMBER`, built up from their parts: which texts `_decimal` reads, and as which
    numbers, exponent notation and plus signs included. */
module Numerals {
  import opened Options
  import opened Digits
  import opened Decimals
  import opened NumberText

  datatype Sign = NoSign | Plus | Negative

  datatype Exponent = NoExponent | Exponent(upper: bool, sign: Sign, digits: string)

  datatype Numeral = Numeral(sign: Sign, whole: string, fraction: string, exponent: Exponent)

  predicate WellFormed(n: Numeral) {
    && AllDigits(n.whole) && n.whole != "" && AllDigits(n.fraction)
    && (n.exponent.Exponent? ==> AllDigits(n.exponent.digits) && n.exponent.digits != "")
  }

  function SignText(sign: Sign): string {
    match sign
    case NoSign => ""
    case Plus => "+"
    case Negative => "-"
  }

  function ExponentText(e: Exponent): string {
    match e
    case NoExponent => ""
    case Exponent(upper, sign, digits) => [if upper then 'E' else 'e'] + (SignText(sign) + digits)
  }

  function Unsigned(n: Numeral): string {
    n.whole + (PointAnd(n.fraction) + ExponentText(n.exponent))
  }

  function NumeralText(n: Numeral): string {
    SignText(n.sign) + Unsigned(n)
  }

  /** By how many places the exponent moves the point to the right. */
  function Places(e: Exponent): int
    requires e.Exponent? ==> AllDigits(e.digits)
  {
    match e
    case NoExponent => 0
    case Exponent(_, sign, digits) =>
      var places: int := Value(digits);
      if sign.Negative? then -places else places
  }

  lemma AppendDigits(a: string, b: string)
    requires AllDigits(a) && AllDigits(b)
    ensures AllDigits(a + b)
  {
  }

  /** The number a numeral denotes: its digits, with the point moved. */
  function Denoted(n: Numeral): Decimal
    requires WellFormed(n)
  {
    AppendDigits(n.whole, n.fraction);
    Decimal(n.sign.Negative?, Value(n.whole + n.fraction), Places(n.exponent) - |n.fraction|)
  }

  // ---- every numeral is read as the number it denotes ----

  lemma SignIsSplit(sign: Sign, rest: string)
    requires rest != "" && IsDigit(rest[0])
    ensures SplitSign(SignText(sign) + rest) == (sign.Negative?, rest)
  {
    var s := SignText(sign) + rest;
    if sign.NoSign? { assert s == rest; } else { assert s[1..] == rest; }
  }

  lemma ExponentIsRead(e: Exponent)
    requires e.Exponent? ==> AllDigits(e.digits) && e.digits != ""
    ensures ReadExponent(ExponentText(e)) == Some(Places(e))
  {
    if e.Exponent? {
      var s := ExponentText(e);
      assert s[1..] == SignText(e.sign) + e.digits;
      SignIsSplit(e.sign, e.digits);
      DigitRunStops(e.digits, "");
      assert e.digits + "" == e.digits && e.digits[..|e.digits|] == e.digits;
    }
  }

  lemma RunSplits(s: string, digits: string, tail: string)
    requires s == digits + tail && AllDigits(digits) && (tail == "" || !IsDigit(tail[0]))
    ensures DigitRun(s) == |digits| && s[..DigitRun(s)] == digits && s[DigitRun(s)..] == tail
  {
    DigitRunStops(digits, tail);
  }

  lemma WholeIsSplit(s: string, whole: string, tail: string)
    requires s == whole + tail && AllDigits(whole) && (tail == "" || (!IsDigit(tail[0]) && tail[0] != '.'))
    ensures SplitNumeral(s) == (whole, "", tail)
  {
    RunSplits(s, whole, tail);
  }

  lemma FractionIsSplit(s: string, whole: string, fraction: string, tail: string)
    requires s == whole + ("." + (fraction + tail)) && AllDigits(whole) && AllDigits(fraction) && fraction != ""
    requires tail == "" || !IsDigit(tail[0])
    ensures SplitNumeral(s) == (whole, fraction, tail)
  {
    var after := "." + (fraction + tail);
    RunSplits(s, whole, after);
    assert after[1..] == fraction + tail;
    RunSplits(after[1..], fraction, tail);
  }

  lemma PartsAreSplit(whole: string, fraction: string, tail: string)
    requires AllDigits(whole) && whole != "" && AllDigits(fraction)
    requires tail == "" || (!IsDigit(tail[0]) && tail[0] != '.')
    ensures SplitNumeral(whole + (PointAnd(fraction) + tail)) == (whole, fraction, tail)
  {
    if fraction == "" {
      assert "" + tail == tail;
      WholeIsSplit(whole + (PointAnd(fraction) + tail), whole, tail);
    } else {
      assert "." + fraction + tail == "." + (fraction + tail);
      FractionIsSplit(whole + (PointAnd(fraction) + tail), whole, fraction, tail);
    }
  }

  lemma ReadFromParts(s: string, n: Numeral, rest: string, tail: string)
    requires WellFormed(n) && SplitSign(s) == (n.sign.Negative?, rest)
    requires SplitNumeral(rest) == (n.whole, n.fraction, tail) && ReadExponent(tail) == Some(Places(n.exponent))
    ensures ReadNumber(s) == Some(Denoted(n))
  {
  }

  lemma NumeralSplits(n: Numeral)
    requires WellFormed(n)
    ensures SplitSign(NumeralText(n)) == (n.sign.Negative?, Unsigned(n))
    ensures SplitNumeral(Unsigned(n)) == (n.whole, n.fraction, ExponentText(n.exponent))
  {
    assert Unsigned(n)[0] == n.whole[0];
    SignIsSplit(n.sign, Unsigned(n));
    PartsAreSplit(n.whole, n.fraction, ExponentText(n.exponent));
  }

  lemma NumeralIsRead(n: Numeral)
    requires WellFormed(n)
    ensures ReadNumber(NumeralText(n)) == Some(Denoted(n))
  {
    NumeralSplits(n);
    ExponentIsRead(n.exponent);
    ReadFromParts(NumeralText(n), n, Unsigned(n), ExponentText(n.exponent));
  }

  // ---- and nothing else is read ----

  lemma SignOf(s: string) returns (sign: Sign)
    ensures var (negative, rest) := SplitSign(s); sign.Negative? == negative && s == SignText(sign) + rest
  {
    sign := if s != "" && s[0] == '-' then Negative else if s != "" && s[0] == '+' then Plus else NoSign;
    var (negative, rest) := SplitSign(s);
    if sign.NoSign? { assert s == "" + s; } else { assert s == [s[0]] + s[1..]; }
  }

  lemma ExponentOf(s: string) returns (e: Exponent)
    requires ReadExponent(s).Some?
    ensures s == ExponentText(e) && (e.Exponent? ==> AllDigits(e.digits) && e.digits != "")
  {
    if s == "" { return NoExponent; }
    var sign := SignOf(s[1..]);
    var (negative, digits) := SplitSign(s[1..]);
    assert digits[..DigitRun(digits)] == digits;
    e := Exponent(s[0] == 'E', sign, digits);
    assert s == [s[0]] + s[1..];
  }

  lemma PartsOf(s: string)
    ensures var (whole, fraction, tail) := SplitNumeral(s); s == whole + (PointAnd(fraction) + tail)
  {
    var n := DigitRun(s);
    var rest := s[n..];
    var m := if rest != "" && rest[0] == '.' then DigitRun(rest[1..]) else 0;
    assert s == s[..n] + rest;
    if m > 0 {
      PointSplits(rest, m);
    } else {
      assert PointAnd("") + rest == rest;
    }
  }

  lemma PointSplits(rest: string, m: nat)
    requires rest != "" && rest[0] == '.' && 0 < m < |rest|
    ensures rest == PointAnd(rest[1..][..m]) + rest[1..][m..]
  {
    assert rest == "." + rest[1..] && rest[1..] == rest[1..][..m] + rest[1..][m..];
  }

  lemma NumeralOf(s: string) returns (n: Numeral)
    requires ReadNumber(s).Some?
    ensures WellFormed(n) && NumeralText(n) == s
  {
    var sign := SignOf(s);
    var (_, rest) := SplitSign(s);
    var (whole, fraction, tail) := SplitNumeral(rest);
    PartsOf(rest);
    var e := ExponentOf(tail);
    n := Numeral(sign, whole, fraction, e);
  }

  /** A text is read if and only if it is a numeral, and then as the number that denotes. */
  lemma ReadIffNumeral(s: string)
    ensures ReadNumber(s).Some? <==> exists n :: WellFormed(n) && NumeralText(n) == s
    ensures forall n :: WellFormed(n) && NumeralText(n) == s ==> ReadNumber(s) == Some(Denoted(n))
  {
    forall n | WellFormed(n) && NumeralText(n) == s ensures ReadNumber(s) == Some(Denoted(n)) { NumeralIsRead(n); }
    if ReadNumber(s).Some? { var n := NumeralOf(s); }
  }

  /** What `_decimal` makes of a text: a number of at most 128 characters within its bounds, or the
      error for one out of bounds, or the error for what is no number at all. */
  lemma AcceptsNumerals(s: string, d: Decimal)
    ensures AcceptText(s) == Ok(d) <==>
              |s| <= 128 && InRange(d) && exists n :: WellFormed(n) && NumeralText(n) == s && Denoted(n) == d
    ensures AcceptText(s) == Err(NonNumeric) <==>
              |s| > 128 || !exists n :: WellFormed(n) && NumeralText(n) == s
  {
    ReadIffNumeral(s);
  }

  // ---- the exponent moves the point ----

  /** With an exponent the number is that of the digits before it, times ten to the exponent, in the
      direction of its sign; a plus sign changes nothing anywhere. */
  lemma ExponentMovesThePoint(n: Numeral, k: nat)
    requires WellFormed(n) && n.exponent.Exponent?
    requires Denoted(n).exponent + k >= 0 && Denoted(n.(exponent := NoExponent)).exponent + k >= 0
    ensures var (moved, plain, places) := (Denoted(n), Denoted(n.(exponent := NoExponent)), Value(n.exponent.digits));
      if n.exponent.sign.Negative? then Shift(Scaled(moved, k), places) == Scaled(plain, k)
      else Scaled(moved, k) == Shift(Scaled(plain, k), places)
  {
    var (moved, plain, places) := (Denoted(n), Denoted(n.(exponent := NoExponent)), Value(n.exponent.digits));
    if n.exponent.sign.Negative? {
      ScaledMoves(plain, moved, k, places);
    } else {
      ScaledMoves(moved, plain, k, places);
    }
  }

  lemma ScaledMoves(more: Decimal, less: Decimal, k: nat, places: nat)
    requires more == less.(exponent := less.exponent + places) && less.exponent + k >= 0
    ensures Scaled(more, k) == Shift(Scaled(less, k), places)
  {
    ShiftTwice(Signed(less.negative, less.coefficient), less.exponent + k, places);
  }

  lemma PlusChangesNothing(n: Numeral)
    requires WellFormed(n) && n.sign.NoSign?
    ensures Denoted(n.(sign := Plus)) == Denoted(n)
    ensures n.exponent.Exponent? && n.exponent.sign.NoSign? ==>
              Denoted(n.(exponent := n.exponent.(sign := Plus, upper := !n.exponent.upper))) == Denoted(n)
  {
  }
}
