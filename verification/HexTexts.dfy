/** Texts of hexadecimal digits: UUIDs and digests. */
module HexTexts {
  const LowerHex := "0123456789abcdef"

  const AnyHex := "0123456789abcdefABCDEF"

  predicate AllIn(s: string, digits: string) {
    forall i :: 0 <= i < |s| ==> s[i] in digits
  }

  /** Groups of 8, 4, 4, 4 and 12 digits with hyphens between them. */
  predicate IsGrouped(s: string, digits: string) {
    && |s| == 36
    && s == s[..8] + "-" + s[9..13] + "-" + s[14..18] + "-" + s[19..23] + "-" + s[24..]
    && AllIn(s[..8], digits) && AllIn(s[9..13], digits) && AllIn(s[14..18], digits) && AllIn(s[19..23], digits)
    && AllIn(s[24..], digits)
  }

  lemma LowerHexRanges(c: char)
    ensures c in LowerHex <==> '0' <= c <= '9' || 'a' <= c <= 'f'
  {
    var code := c as int;
    if '0' <= c <= '9' { assert LowerHex[code - '0' as int] == c; }
    else if 'a' <= c <= 'f' { assert LowerHex[10 + code - 'a' as int] == c; }
  }

  lemma AnyHexRanges(c: char)
    ensures c in AnyHex <==> '0' <= c <= '9' || 'a' <= c <= 'f' || 'A' <= c <= 'F'
  {
    var code := c as int;
    if '0' <= c <= '9' { assert AnyHex[code - '0' as int] == c; }
    else if 'a' <= c <= 'f' { assert AnyHex[10 + code - 'a' as int] == c; }
    else if 'A' <= c <= 'F' { assert AnyHex[16 + code - 'A' as int] == c; }
  }

  /** Told by position instead of by group. */
  lemma GroupedAt(s: string, digits: string)
    requires |s| == 36
    ensures IsGrouped(s, digits) <==>
              forall k :: 0 <= k < 36 ==> if k in {8, 13, 18, 23} then s[k] == '-' else s[k] in digits
  {
  }
}
