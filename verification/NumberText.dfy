/** Reading and printing exact numbers as text: the numeral syntax of `_decimal`, the text
    of `_decimal_text` and the language that `statistics-result.ts` accepts. */
module NumberText {
  import opened Options
  import opened Digits
  import opened Decimals

  // ---- reading: `_NUMBER` and `Decimal(value)` ----

  /** The length of the longest prefix of digits. */
  function DigitRun(s: string): (n: nat)
    ensures n <= |s| && AllDigits(s[..n])
  {
    if s == "" || !IsDigit(s[0]) then 0
    else
      var n := 1 + DigitRun(s[1..]);
      assert s[..n] == [s[0]] + s[1..][..n - 1];
      n
  }

  function SplitSign(s: string): (bool, string) {
    if s != "" && s[0] == '-' then (true, s[1..])
    else if s != "" && s[0] == '+' then (false, s[1..])
    else (false, s)
  }

  function ReadExponent(s: string): Option<int> {
    if s == "" then Some(0)
    else if s[0] != 'e' && s[0] != 'E' then None
    else
      var (negative, digits) := SplitSign(s[1..]);
      if digits == "" || DigitRun(digits) != |digits| then None
      else Some(Signed(negative, Value(digits[..DigitRun(digits)])))
  }

  /** The digits before the point, those after it, and what follows. */
  function SplitNumeral(s: string): (r: (string, string, string))
    ensures AllDigits(r.0) && AllDigits(r.1)
  {
    var n := DigitRun(s);
    var tail := s[n..];
    var m := if tail != "" && tail[0] == '.' then DigitRun(tail[1..]) else 0;
    if m > 0 then (s[..n], tail[1..][..m], tail[1..][m..]) else (s[..n], "", tail)
  }

  function ReadNumber(s: string): Option<Decimal> {
    var (negative, rest) := SplitSign(s);
    var (whole, fraction, tail) := SplitNumeral(rest);
    if whole == "" then None
    else
      match ReadExponent(tail)
      case None => None
      case Some(exponent) => Some(Decimal(negative, Value(whole + fraction), exponent - |fraction|))
  }

  // ---- printing: `_decimal_text` ----

  function RStrip(s: string, c: char): string {
    if s != "" && s[|s| - 1] == c then RStrip(s[..|s| - 1], c) else s
  }

  /** The digits of the coefficient, padded so that at least one stands before the point. */
  function Padded(d: Decimal): (s: string)
    requires d.exponent < 0
    ensures AllDigits(s) && |s| > -d.exponent
  {
    var digits := NatText(d.coefficient);
    if |digits| > -d.exponent then digits else Zeros(-d.exponent - |digits| + 1) + digits
  }

  function Minus(negative: bool): string {
    if negative then "-" else ""
  }

  /** `format(number, "f")`. */
  function FixedText(d: Decimal): string {
    Minus(d.negative) +
    if d.exponent >= 0 then NatText(d.coefficient) + Zeros(d.exponent)
    else
      var s := Padded(d);
      s[..|s| + d.exponent] + "." + s[|s| + d.exponent..]
  }

  function DecimalText(d: Decimal): string {
    if d.coefficient == 0 then "0"
    else Stripped(FixedText(d))
  }

  /** `value.rstrip("0").rstrip(".") if "." in value else value`. */
  function Stripped(s: string): string {
    if '.' in s then RStrip(RStrip(s, '0'), '.') else s
  }

  // ---- the validator's language ----

  /** `(?:0|[1-9][0-9]*)(?:\.[0-9]*[1-9])?` */
  predicate IsUnsignedText(body: string) {
    var n := DigitRun(body);
    && n > 0 && NoLeadingZero(body[..n])
    && (n == |body|
        || (body[n] == '.' && |body| > n + 1 && DigitRun(body[n + 1..]) == |body| - n - 1 && body[|body| - 1] != '0'))
  }

  /** `^-?(?:0|[1-9][0-9]*)(?:\.[0-9]*[1-9])?$` without "-0". */
  predicate IsDecimalText(s: string) {
    && IsUnsignedText(if s != "" && s[0] == '-' then s[1..] else s)
    && s != "-0"
  }

  function PointAnd(fraction: string): string {
    if fraction == "" then "" else "." + fraction
  }

  /** A text in its three parts. */
  function Plain(negative: bool, whole: string, fraction: string): string {
    Minus(negative) + (whole + PointAnd(fraction))
  }

  predicate PlainParts(negative: bool, whole: string, fraction: string) {
    && AllDigits(whole) && NoLeadingZero(whole)
    && AllDigits(fraction) && NoTrailingZero(fraction)
    && !(negative && whole == "0" && fraction == "")
  }

  // ---- the three parts and the whole text ----

  lemma {:induction false} DigitRunStops(digits: string, tail: string)
    requires AllDigits(digits) && (tail == "" || !IsDigit(tail[0]))
    ensures DigitRun(digits + tail) == |digits|
    decreases |digits|
  {
    if digits == "" {
      assert digits + tail == tail;
    } else {
      assert (digits + tail)[1..] == digits[1..] + tail;
      DigitRunStops(digits[1..], tail);
    }
  }

  lemma NumeralSplits(whole: string, fraction: string)
    requires AllDigits(whole) && whole != "" && AllDigits(fraction)
    ensures DigitRun(whole + PointAnd(fraction)) == |whole|
    ensures SplitNumeral(whole + PointAnd(fraction)) == (whole, fraction, "")
  {
    var tail := PointAnd(fraction);
    DigitRunStops(whole, tail);
    assert (whole + tail)[..|whole|] == whole && (whole + tail)[|whole|..] == tail;
    if fraction != "" {
      DigitRunStops(fraction, "");
      assert fraction + "" == fraction;
      assert tail[1..] == fraction && fraction[..|fraction|] == fraction && fraction[|fraction|..] == "";
    }
  }

  lemma SignSplits(negative: bool, whole: string, fraction: string)
    requires AllDigits(whole) && whole != ""
    ensures var s := Plain(negative, whole, fraction);
      && SplitSign(s) == (negative, whole + PointAnd(fraction))
      && s != "" && (s[0] == '-') == negative
      && (negative ==> s[1..] == whole + PointAnd(fraction))
  {
    var body := whole + PointAnd(fraction);
    assert body[0] == whole[0];
    assert !negative ==> Plain(negative, whole, fraction) == body;
    assert negative ==> Plain(negative, whole, fraction)[1..] == body;
  }

  /** A text of digits with an optional point is read as its digits at its scale. */
  lemma PlainIsRead(negative: bool, whole: string, fraction: string) returns (r: Decimal)
    requires AllDigits(whole) && whole != "" && AllDigits(fraction)
    ensures AllDigits(whole + fraction) && ReadNumber(Plain(negative, whole, fraction)) == Some(r)
    ensures r.negative == negative && r.coefficient == Value(whole + fraction) && r.exponent == -|fraction|
  {
    r := Decimal(negative, Value(whole + fraction), -|fraction|);
    SignSplits(negative, whole, fraction);
    NumeralSplits(whole, fraction);
  }

  lemma UnsignedPlain(whole: string, fraction: string)
    requires AllDigits(whole) && NoLeadingZero(whole) && AllDigits(fraction) && NoTrailingZero(fraction)
    ensures IsUnsignedText(whole + PointAnd(fraction))
    ensures whole + PointAnd(fraction) == "0" ==> whole == "0" && fraction == ""
  {
    var body := whole + PointAnd(fraction);
    NumeralSplits(whole, fraction);
    assert body[..|whole|] == whole;
    assert body[0] == whole[0];
    if fraction == "" {
      assert body == whole;
    } else {
      DigitRunStops(fraction, "");
      assert fraction + "" == fraction;
      assert body[|whole| + 1..] == fraction;
      assert body[|body| - 1] == fraction[|fraction| - 1];
    }
  }

  /** With canonical parts it is in the language. */
  lemma PlainIsInLanguage(negative: bool, whole: string, fraction: string)
    requires PlainParts(negative, whole, fraction)
    ensures IsDecimalText(Plain(negative, whole, fraction))
  {
    SignSplits(negative, whole, fraction);
    UnsignedPlain(whole, fraction);
    assert "-0"[1..] == "0";
    if !negative { assert Plain(negative, whole, fraction) == whole + PointAnd(fraction); }
  }

  /** Every text of the language has three such parts. */
  lemma LanguageIsPlain(s: string) returns (negative: bool, whole: string, fraction: string)
    requires IsDecimalText(s)
    ensures s == Plain(negative, whole, fraction) && PlainParts(negative, whole, fraction)
  {
    negative := s != "" && s[0] == '-';
    var body := if negative then s[1..] else s;
    whole, fraction := UnsignedIsPlain(body);
    assert s == Minus(negative) + body;
    assert whole == "0" && fraction == "" ==> Minus(true) + body == "-0";
  }

  lemma UnsignedIsPlain(body: string) returns (whole: string, fraction: string)
    requires IsUnsignedText(body)
    ensures body == whole + PointAnd(fraction)
    ensures AllDigits(whole) && NoLeadingZero(whole) && AllDigits(fraction) && NoTrailingZero(fraction)
  {
    var n := DigitRun(body);
    whole := body[..n];
    if n == |body| {
      fraction := "";
    } else {
      fraction := body[n + 1..];
      assert fraction[..|fraction|] == fraction;
      assert body[n..] == "." + fraction;
      assert body == body[..n] + body[n..];
      assert fraction[|fraction| - 1] == body[|body| - 1];
    }
  }

  /** The language is canonical: two of its texts that are read as the same number are equal. */
  lemma LanguageIsCanonical(s: string, t: string)
    requires IsDecimalText(s) && IsDecimalText(t)
    requires ReadNumber(s).Some? && ReadNumber(t).Some? && SameNumber(ReadNumber(s).value, ReadNumber(t).value)
    ensures s == t
  {
    var neg, whole, fraction := LanguageIsPlain(s);
    var neg', whole', fraction' := LanguageIsPlain(t);
    var a := PlainIsRead(neg, whole, fraction);
    var b := PlainIsRead(neg', whole', fraction');
    assert a == Decimal(neg, Value(whole + fraction), -|fraction|);
    assert b == Decimal(neg', Value(whole' + fraction'), -|fraction'|);
    PlainPartsSameNumber(neg, whole, fraction, neg', whole', fraction');
  }

  /** A plain zero is not negative, so equal numbers have equal signs. */
  lemma SignOfPlain(negative: bool, whole: string, fraction: string)
    requires PlainParts(negative, whole, fraction) && AllDigits(whole + fraction) && Value(whole + fraction) == 0
    ensures !negative
  {
    ValueConcat(whole, fraction);
    ShiftGrows(Value(whole), 0, |fraction|);
    if whole[0] != '0' { LeadingDigitBound(whole); ShiftGrows(1, 0, |whole| - 1); }
    if fraction != "" { LastDigit(fraction); }
  }

  lemma PlainPartsSameNumber(neg: bool, whole: string, fraction: string, neg': bool, whole': string, fraction': string)
    requires PlainParts(neg, whole, fraction) && PlainParts(neg', whole', fraction')
    requires AllDigits(whole + fraction) && AllDigits(whole' + fraction')
    requires SameNumber(Decimal(neg, Value(whole + fraction), -|fraction|),
                        Decimal(neg', Value(whole' + fraction'), -|fraction'|))
    ensures neg == neg' && whole == whole' && fraction == fraction'
  {
    var a, b := whole + fraction, whole' + fraction';
    var m, m' := Value(a), Value(b);
    var j, j' := |fraction|, |fraction'|;
    CompareAtAnyScale(Decimal(neg, m, -j), Decimal(neg', m', -j'), j + j');
    ShiftNegates(m, j');
    ShiftNegates(m', j);
    ShiftGrows(m, 0, j');
    ShiftGrows(m', 0, j);
    if m == 0 { SignOfPlain(neg, whole, fraction); ShiftAdds(0, 0, j'); }
    if m' == 0 { SignOfPlain(neg', whole', fraction'); ShiftAdds(0, 0, j); }
    assert neg == neg' && Shift(m, j') == Shift(m', j);
    if j < j' { assert b[|b| - 1] == fraction'[|fraction'| - 1]; TerminatingLength(a, b, j, j'); }
    if j' < j { assert a[|a| - 1] == fraction[|fraction| - 1]; TerminatingLength(b, a, j', j); }
    ShiftOrder(m, m', j);
    SplitValue(whole, fraction, whole', fraction');
  }

  /** Equal values with equally long fractions have equal whole parts and fractions. */
  lemma SplitValue(whole: string, fraction: string, whole': string, fraction': string)
    requires AllDigits(whole) && AllDigits(fraction) && AllDigits(whole') && AllDigits(fraction')
    requires NoLeadingZero(whole) && NoLeadingZero(whole') && |fraction| == |fraction'|
    requires AllDigits(whole + fraction) && AllDigits(whole' + fraction')
    requires Value(whole + fraction) == Value(whole' + fraction')
    ensures whole == whole' && fraction == fraction'
  {
    var k := |fraction|;
    ValueConcat(whole, fraction);
    ValueConcat(whole', fraction');
    ValueBound(fraction);
    ValueBound(fraction');
    if Value(whole) < Value(whole') {
      WholePartDominates(Value(whole), Value(whole'), k);
    } else if Value(whole') < Value(whole) {
      WholePartDominates(Value(whole'), Value(whole), k);
    }
    CanonicalNumeral(whole, whole');
    SameLengthSameValue(fraction, fraction');
  }

  lemma WholePartDominates(x: nat, y: nat, k: nat)
    requires x < y
    ensures Shift(x, k) + Pow10(k) <= Shift(y, k)
  {
    ShiftAdds(x, 1, k);
    ShiftOrder(y, x + 1, k);
  }

  // ---- the printed text ----

  lemma {:induction false} RStripAfterPoint(prefix: string, fraction: string)
    requires AllDigits(fraction)
    ensures RStrip(prefix + "." + fraction, '0') == prefix + "." + RStrip(fraction, '0')
    decreases |fraction|
  {
    var s := prefix + "." + fraction;
    if fraction == "" {
      assert s == prefix + ".";
    } else {
      var front := fraction[..|fraction| - 1];
      assert s[|s| - 1] == fraction[|fraction| - 1];
      assert s[..|s| - 1] == prefix + "." + front;
      RStripAfterPoint(prefix, front);
    }
  }

  lemma {:induction false} RStripZeros(s: string) returns (k: nat)
    requires AllDigits(s)
    ensures AllDigits(RStrip(s, '0')) && NoTrailingZero(RStrip(s, '0')) && s == RStrip(s, '0') + Zeros(k)
    decreases |s|
  {
    if s != "" && s[|s| - 1] == '0' {
      k := RStripZeros(s[..|s| - 1]);
      k := k + 1;
      assert s == s[..|s| - 1] + "0";
      assert RStrip(s, '0') + Zeros(k - 1) + "0" == RStrip(s, '0') + (Zeros(k - 1) + "0");
    } else {
      k := 0;
      assert s + "" == s;
    }
  }

  lemma NonzeroNumeral(n: nat)
    requires n > 0
    ensures NatText(n)[0] != '0' && Value(NatText(n)) == n
  {
    ValueOfNatText(n);
    assert Value("0") == 0 by { assert "0"[..0] == ""; }
  }

  /** A number without fractional digits prints as its digits followed by zeros. */
  lemma IntegerText(d: Decimal) returns (whole: string)
    requires d.coefficient > 0 && d.exponent >= 0
    ensures DecimalText(d) == Plain(d.negative, whole, "") && PlainParts(d.negative, whole, "")
    ensures Value(whole) == Shift(d.coefficient, d.exponent)
  {
    NonzeroNumeral(d.coefficient);
    whole := NatText(d.coefficient) + Zeros(d.exponent);
    AppendZeros(NatText(d.coefficient), d.exponent);
    assert whole[0] == NatText(d.coefficient)[0];
    assert whole + "" == whole;
    assert '.' !in FixedText(d);
  }

  lemma PaddedValue(d: Decimal)
    requires d.coefficient > 0 && d.exponent < 0
    ensures Value(Padded(d)) == d.coefficient
    ensures NoLeadingZero(Padded(d)[..|Padded(d)| + d.exponent])
  {
    var s, k := Padded(d), -d.exponent;
    var digits := NatText(d.coefficient);
    NonzeroNumeral(d.coefficient);
    if |digits| > k {
      assert s[..|s| - k][0] == digits[0];
    } else {
      ValueConcat(Zeros(k - |digits| + 1), digits);
      ValueZeros(k - |digits| + 1);
      ShiftAdds(0, 0, |digits|);
      LeadingZeros(k - |digits|);
      assert s[..1] == "0";
    }
  }

  lemma {:induction false} LeadingZeros(k: nat)
    ensures Zeros(k + 1)[0] == '0'
  {
    if k > 0 { LeadingZeros(k - 1); }
  }

  /** A digit string cut at a point, with the trailing zeros of its fraction dropped. */
  lemma CutDigits(p: string, k: nat, whole: string, digits: string) returns (dropped: nat)
    requires AllDigits(p) && k <= |p| && whole == p[..|p| - k] && digits == p[|p| - k..]
    ensures var fraction := RStrip(digits, '0');
      && AllDigits(fraction) && NoTrailingZero(fraction) && AllDigits(whole + fraction)
      && |fraction| + dropped == k
      && Shift(Value(whole + fraction), dropped) == Value(p)
  {
    dropped := RStripZeros(digits);
    var fraction := RStrip(digits, '0');
    assert p == whole + digits;
    AppendZeros(whole + fraction, dropped);
    assert whole + (fraction + Zeros(dropped)) == (whole + fraction) + Zeros(dropped);
  }

  lemma AppendZeros(s: string, k: nat)
    requires AllDigits(s)
    ensures AllDigits(s + Zeros(k)) && Value(s + Zeros(k)) == Shift(Value(s), k)
  {
    ValueConcat(s, Zeros(k));
    ValueZeros(k);
  }

  /** Stripping a text with a point leaves the point only in front of a nonempty fraction. */
  lemma StrippedText(sign: string, whole: string, digits: string)
    requires AllDigits(whole) && whole != "" && AllDigits(digits) && AllDigits(RStrip(digits, '0'))
    ensures Stripped(sign + (whole + "." + digits)) == sign + (whole + PointAnd(RStrip(digits, '0')))
  {
    var prefix := sign + whole;
    Regroup(sign, whole, ".", digits);
    assert prefix[|prefix| - 1] == whole[|whole| - 1];
    StrippedPrefix(sign + (whole + "." + digits), prefix, digits, RStrip(digits, '0'));
    Regroup(sign, whole, PointAnd(RStrip(digits, '0')), "");
  }

  lemma Regroup(a: string, b: string, c: string, d: string)
    ensures a + (b + c + d) == a + b + c + d
    ensures a + (b + c) == a + b + c
  {
  }

  lemma StrippedPrefix(s: string, prefix: string, digits: string, kept: string)
    requires prefix != "" && IsDigit(prefix[|prefix| - 1]) && s == prefix + "." + digits
    requires AllDigits(digits) && kept == RStrip(digits, '0') && AllDigits(kept)
    ensures Stripped(s) == prefix + PointAnd(kept)
  {
    assert s[|prefix|] == '.';
    RStripAfterPoint(prefix, digits);
    StripPoint(prefix, kept);
  }

  /** A number with fractional digits prints without the trailing zeros of its fraction. */
  lemma FractionText(d: Decimal) returns (whole: string, fraction: string, dropped: nat)
    requires d.coefficient > 0 && d.exponent < 0
    ensures AllDigits(whole) && NoLeadingZero(whole) && AllDigits(fraction) && NoTrailingZero(fraction)
    ensures AllDigits(whole + fraction) && |fraction| + dropped == -d.exponent
    ensures DecimalText(d) == Plain(d.negative, whole, fraction)
    ensures Shift(Value(whole + fraction), dropped) == d.coefficient
  {
    var p := Padded(d);
    var digits: string;
    whole, digits := p[..|p| + d.exponent], p[|p| + d.exponent..];
    PaddedValue(d);
    dropped := CutDigits(p, -d.exponent, whole, digits);
    fraction := RStrip(digits, '0');
    TextOfParts(d, whole, digits, fraction);
  }

  lemma TextOfParts(d: Decimal, whole: string, digits: string, fraction: string)
    requires d.coefficient > 0 && d.exponent < 0
    requires var p := Padded(d); whole == p[..|p| + d.exponent] && digits == p[|p| + d.exponent..]
    requires AllDigits(whole) && AllDigits(digits) && fraction == RStrip(digits, '0') && AllDigits(fraction)
    ensures DecimalText(d) == Plain(d.negative, whole, fraction)
  {
    StrippedText(Minus(d.negative), whole, digits);
  }

  lemma StripPoint(prefix: string, fraction: string)
    requires prefix != "" && prefix[|prefix| - 1] != '.' && AllDigits(fraction)
    ensures RStrip(prefix + "." + fraction, '.') == prefix + PointAnd(fraction)
  {
    var s := prefix + "." + fraction;
    if fraction == "" {
      assert s[..|s| - 1] == prefix;
      assert prefix + "" == prefix;
    } else {
      assert s[|s| - 1] == fraction[|fraction| - 1];
      assert s == prefix + ("." + fraction);
    }
  }

  /** `r` shows the digits of `d` with `dropped` final zeros fewer. */
  ghost predicate ShowsDigits(r: Decimal, d: Decimal, dropped: nat) {
    && r.negative == d.negative && r.exponent + Scale(d) == dropped
    && Shift(r.coefficient, dropped) == Shift(d.coefficient, d.exponent + Scale(d))
  }

  lemma ShownNumber(r: Decimal, d: Decimal, dropped: nat)
    requires ShowsDigits(r, d, dropped)
    ensures SameNumber(r, d)
  {
    var k := Scale(d);
    ShiftNegates(r.coefficient, dropped);
    ShiftNegates(d.coefficient, d.exponent + k);
    CompareAtAnyScale(r, d, k);
  }

  lemma NotMinusZero(whole: string, fraction: string, dropped: nat)
    requires AllDigits(whole + fraction) && Shift(Value(whole + fraction), dropped) > 0
    ensures !(whole == "0" && fraction == "")
  {
    assert Value("0") == 0 by { assert "0"[..0] == ""; }
    ShiftAdds(0, 0, dropped);
    assert whole == "0" && fraction == "" ==> whole + fraction == "0";
  }

  /** The printed text is read as the digits it shows. */
  lemma NonzeroReads(d: Decimal) returns (r: Decimal, dropped: nat)
    requires d.coefficient > 0
    ensures IsDecimalText(DecimalText(d))
    ensures ReadNumber(DecimalText(d)) == Some(r) && ShowsDigits(r, d, dropped) && r.exponent <= 0
  {
    var whole, fraction, k := NonzeroText(d);
    dropped := k;
    PlainIsInLanguage(d.negative, whole, fraction);
    r := PlainIsRead(d.negative, whole, fraction);
  }

  /** The printed text denotes exactly the number, is in the validator's language and is
      therefore never "-0". */
  lemma TextIsExact(d: Decimal) returns (r: Decimal)
    ensures IsDecimalText(DecimalText(d))
    ensures ReadNumber(DecimalText(d)) == Some(r) && SameNumber(r, d)
  {
    if d.coefficient == 0 {
      ZeroText();
      ZeroIsZero(d);
      r := Zero;
    } else {
      var dropped;
      r, dropped := NonzeroReads(d);
      ShownNumber(r, d, dropped);
    }
  }

  lemma NonzeroText(d: Decimal) returns (whole: string, fraction: string, dropped: nat)
    requires d.coefficient > 0
    ensures DecimalText(d) == Plain(d.negative, whole, fraction) && PlainParts(d.negative, whole, fraction)
    ensures AllDigits(whole + fraction) && |fraction| + dropped == Scale(d)
    ensures Shift(Value(whole + fraction), dropped) == Shift(d.coefficient, d.exponent + Scale(d))
  {
    if d.exponent >= 0 {
      whole := IntegerText(d);
      fraction, dropped := "", 0;
      assert whole + "" == whole;
    } else {
      whole, fraction, dropped := FractionText(d);
      NotMinusZero(whole, fraction, dropped);
    }
  }

  lemma ZeroText()
    ensures IsDecimalText("0") && ReadNumber("0") == Some(Zero)
  {
    assert Plain(false, "0", "") == "0";
    PlainIsInLanguage(false, "0", "");
    var r := PlainIsRead(false, "0", "");
    assert "0" + "" == "0" && Value("0") == 0 by { assert "0"[..0] == ""; }
  }

  lemma ZeroIsZero(d: Decimal)
    requires d.coefficient == 0
    ensures SameNumber(Zero, d)
  {
    var k := Scale(d);
    CompareAtAnyScale(Zero, d, k);
    ShiftAdds(0, 0, k);
    ShiftAdds(0, 0, d.exponent + k);
  }

  /** Two numbers print the same text if and only if they are equal. */
  lemma SameTextIffSameNumber(a: Decimal, b: Decimal)
    ensures DecimalText(a) == DecimalText(b) <==> SameNumber(a, b)
  {
    var x := TextIsExact(a);
    var y := TextIsExact(b);
    SameNumberSymmetric(x, a);
    SameNumberSymmetric(y, b);
    if SameNumber(a, b) {
      SameNumberTransitive(x, a, b);
      SameNumberTransitive(x, b, y);
      LanguageIsCanonical(DecimalText(a), DecimalText(b));
    }
    if DecimalText(a) == DecimalText(b) {
      SameNumberTransitive(a, x, b);
    }
  }

  /** The accepted language is exactly what the printer prints. */
  lemma LanguageIsTheImage(s: string)
    ensures IsDecimalText(s) <==> exists d :: DecimalText(d) == s
  {
    if IsDecimalText(s) {
      var negative, whole, fraction := LanguageIsPlain(s);
      var d := PlainIsRead(negative, whole, fraction);
      var r := TextIsExact(d);
      LanguageIsCanonical(DecimalText(d), s);
    }
    if d :| DecimalText(d) == s { var r := TextIsExact(d); }
  }

  // ---- what `_decimal` accepts ----

  datatype NumberError = NonNumeric | NumericRange

  function AcceptDecimal(d: Decimal): Result<Decimal, NumberError> {
    if InRange(d) then Ok(d) else Err(NumericRange)
  }

  /** `_decimal` on a string. */
  function AcceptText(s: string): Result<Decimal, NumberError> {
    if |s| > 128 then Err(NonNumeric)
    else
      match ReadNumber(s)
      case None => Err(NonNumeric)
      case Some(d) => AcceptDecimal(d)
  }

  /** Dropping zeros keeps the coefficient within 38 digits. */
  lemma CoefficientFits(d: Decimal, n: nat, dropped: nat)
    requires InRange(d) && d.coefficient > 0
    requires Shift(n, dropped) == Shift(d.coefficient, d.exponent + Scale(d))
    ensures n < Pow10(38)
  {
    var digits, shift := |NatText(d.coefficient)|, d.exponent + Scale(d);
    NatTextLength(d.coefficient, digits);
    ShiftOrder(d.coefficient, Pow10(digits), shift);
    ShiftTwice(1, digits, shift);
    ShiftGrows(1, digits + shift, 38);
    ShiftGrows(n, 0, dropped);
  }

  lemma ShownInRange(r: Decimal, d: Decimal, dropped: nat)
    requires InRange(d) && d.coefficient > 0 && ShowsDigits(r, d, dropped) && r.exponent <= 0
    ensures InRange(r)
  {
    CoefficientFits(d, r.coefficient, dropped);
    NatTextLength(r.coefficient, 38);
  }

  lemma WholePartFits(whole: string, fraction: string)
    requires AllDigits(whole) && NoLeadingZero(whole)
    requires AllDigits(whole + fraction) && Value(whole + fraction) < Pow10(38)
    ensures |whole| <= 38
  {
    if |whole| > 38 {
      LeadingDigitBound(whole + fraction);
      ShiftGrows(1, 38, |whole + fraction| - 1);
    }
  }

  lemma TextLength(d: Decimal)
    requires InRange(d)
    ensures |DecimalText(d)| <= 58
  {
    if d.coefficient > 0 {
      var whole, fraction, dropped := NonzeroText(d);
      CoefficientFits(d, Value(whole + fraction), dropped);
      WholePartFits(whole, fraction);
    }
  }

  /** Round trip: what is printed for an accepted number is accepted again, as that number. */
  lemma PrintedIsAcceptedAgain(d: Decimal) returns (r: Decimal)
    requires InRange(d)
    ensures AcceptText(DecimalText(d)) == Ok(r) && SameNumber(r, d)
  {
    TextLength(d);
    if d.coefficient == 0 {
      ZeroText();
      ZeroIsZero(d);
      r := Zero;
    } else {
      var dropped;
      r, dropped := NonzeroReads(d);
      ShownInRange(r, d, dropped);
      ShownNumber(r, d, dropped);
    }
  }
}
