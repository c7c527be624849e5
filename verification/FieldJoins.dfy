/** Texts that are joined by separators, and when they can be told apart again.

    Every separator is a line break followed by the name of the next field. */
module FieldJoins {

  predicate PartAt(s: string, part: string, i: nat) {
    i + |part| <= |s| && s[i..i + |part|] == part
  }

  predicate Has(s: string, part: string) {
    exists i :: 0 <= i <= |s| && PartAt(s, part, i)
  }

  predicate IsSeparator(sep: string) {
    sep != "" && sep[0] == '\n' && forall i :: 0 < i < |sep| ==> sep[i] != '\n'
  }

  predicate AreSeparators(seps: seq<string>) {
    forall k :: 0 <= k < |seps| ==> IsSeparator(seps[k])
  }

  /** The fields 0 to `k`, each but the first behind its separator. */
  function Joined(fields: seq<string>, seps: seq<string>, k: nat): string
    requires k < |fields| && k <= |seps|
  {
    if k == 0 then fields[0] else Joined(fields, seps, k - 1) + seps[k - 1] + fields[k]
  }

  /** A separator occurs in one of the two fields it stands between. */
  predicate Strays(fields: seq<string>, seps: seq<string>, k: nat)
    requires k < |seps| && k + 1 < |fields|
  {
    Has(fields[k], seps[k]) || Has(fields[k + 1], seps[k])
  }

  predicate SameText(fields: seq<string>, other: seq<string>, seps: seq<string>)
    requires |fields| == |other| == |seps| + 1
  {
    Joined(other, seps, |seps|) == Joined(fields, seps, |seps|)
  }

  ghost predicate Ambiguous(fields: seq<string>, seps: seq<string>)
    requires |fields| == |seps| + 1
  {
    exists other :: |other| == |fields| && other != fields && SameText(fields, other, seps)
  }

  /** Two separators in one text do not overlap: a later one begins behind the earlier one. */
  lemma NoOverlap(text: string, a: string, i: nat, b: string, j: nat)
    requires IsSeparator(a) && IsSeparator(b) && PartAt(text, a, i) && PartAt(text, b, j) && i < j
    ensures i + |a| <= j
  {
    assert text[j..j + |b|][0] == text[j];
    forall k | i < k < i + |a| ensures text[k] != '\n' { assert text[i..i + |a|][k - i] == text[k]; }
  }

  lemma PartOfTail(head: string, tail: string, part: string, i: nat)
    requires |head| <= i && PartAt(head + tail, part, i)
    ensures Has(tail, part)
  {
    assert (head + tail)[i..i + |part|] == tail[i - |head|..i - |head| + |part|];
    assert PartAt(tail, part, i - |head|);
  }

  lemma PartOfHead(head: string, tail: string, part: string, i: nat)
    requires i + |part| <= |head| && PartAt(head + tail, part, i)
    ensures PartAt(head, part, i)
  {
    assert (head + tail)[i..i + |part|] == head[i..i + |part|];
  }

  /** Where the last separator of joined fields stands. */
  lemma LastSeparator(fields: seq<string>, seps: seq<string>, k: nat)
    requires 0 < k < |fields| && k <= |seps|
    ensures PartAt(Joined(fields, seps, k), seps[k - 1], |Joined(fields, seps, k - 1)|)
    ensures Joined(fields, seps, k - 1) <= Joined(fields, seps, k)
  {
    var (front, sep) := (Joined(fields, seps, k - 1), seps[k - 1]);
    assert (front + sep + fields[k])[|front|..|front| + |sep|] == sep;
  }

  lemma PartOfLonger(s: string, text: string, part: string, i: nat)
    requires s <= text && PartAt(s, part, i)
    ensures PartAt(text, part, i)
  {
    assert text[i..i + |part|] == s[i..i + |part|];
  }

  /** Where the other fields come to their k-th separator sooner, one of the first separators
      occurs in the field before it. */
  lemma {:induction false} SoonerMeansStray(fields: seq<string>, other: seq<string>, seps: seq<string>, k: nat)
    returns (j: nat)
    requires |fields| == |other| == |seps| + 1 && k < |seps| && AreSeparators(seps)
    requires Joined(other, seps, k) <= Joined(fields, seps, k)
    requires PartAt(Joined(fields, seps, k), seps[k], |Joined(other, seps, k)|)
    ensures j <= k && Has(fields[j], seps[j])
    decreases k
  {
    var (text, at) := (Joined(fields, seps, k), |Joined(other, seps, k)|);
    if k == 0 {
      return 0;
    }
    var (front, sep) := (Joined(fields, seps, k - 1), seps[k - 1]);
    var at' := |Joined(other, seps, k - 1)|;
    LastSeparator(fields, seps, k);
    LastSeparator(other, seps, k);
    if at >= |front| + |sep| {
      PartOfTail(front + sep, fields[k], seps[k], at);
      return k;
    }
    if |front| < at { NoOverlap(text, sep, |front|, seps[k], at); }
    PartOfLonger(Joined(other, seps, k), text, sep, at');
    PartOfHead(front, sep + fields[k], sep, at') by { assert front + (sep + fields[k]) == text; }
    assert Joined(other, seps, k - 1) == text[..at'] == front[..at'];
    j := SoonerMeansStray(fields, other, seps, k - 1);
  }

  /** A second copy of a separator stands wholly behind it, or wholly before it. */
  lemma LaterMeansStray(front: string, sep: string, last: string, at: nat)
    requires IsSeparator(sep) && |front| < at && PartAt(front + sep + last, sep, at)
    ensures Has(last, sep)
  {
    assert (front + sep + last)[|front|..|front| + |sep|] == sep;
    NoOverlap(front + sep + last, sep, |front|, sep, at);
    PartOfTail(front + sep, last, sep, at);
  }

  lemma SoonerInFront(front: string, sep: string, last: string, at: nat)
    requires IsSeparator(sep) && at < |front| && PartAt(front + sep + last, sep, at)
    ensures PartAt(front, sep, at)
  {
    assert (front + sep + last)[|front|..|front| + |sep|] == sep;
    NoOverlap(front + sep + last, sep, at, sep, |front|);
    assert front + (sep + last) == front + sep + last;
    PartOfHead(front, sep + last, sep, at);
  }

  /** Fields that differ but are joined to the same text hold a stray separator. */
  lemma {:induction false} DifferenceMeansStray(fields: seq<string>, other: seq<string>, seps: seq<string>, k: nat)
    returns (j: nat)
    requires |fields| == |other| == |seps| + 1 && k <= |seps| && AreSeparators(seps)
    requires Joined(fields, seps, k) == Joined(other, seps, k)
    requires exists i :: 0 <= i <= k && fields[i] != other[i]
    ensures j < k && Strays(fields, seps, j)
    decreases k
  {
    assert k > 0;
    var text := Joined(fields, seps, k);
    var (front, front', sep) := (Joined(fields, seps, k - 1), Joined(other, seps, k - 1), seps[k - 1]);
    LastSeparator(fields, seps, k);
    LastSeparator(other, seps, k);
    if |front| == |front'| {
      assert front == text[..|front|] == front';
      assert fields[k] == text[|front| + |sep|..] == other[k];
      j := DifferenceMeansStray(fields, other, seps, k - 1);
    } else if |front| < |front'| {
      LaterMeansStray(front, sep, fields[k], |front'|);
      j := k - 1;
    } else {
      SoonerInFront(front, sep, fields[k], |front'|);
      assert front' == text[..|front'|] == front[..|front'|];
      j := SoonerMeansStray(fields, other, seps, k - 1);
    }
  }

  lemma {:induction false} SameBefore(fields: seq<string>, other: seq<string>, seps: seq<string>, k: nat)
    requires |fields| == |other| == |seps| + 1 && k <= |seps|
    requires forall i :: 0 <= i <= k ==> fields[i] == other[i]
    ensures Joined(fields, seps, k) == Joined(other, seps, k)
  {
    if k > 0 { SameBefore(fields, other, seps, k - 1); }
  }

  lemma {:induction false} SameAfter(fields: seq<string>, other: seq<string>, seps: seq<string>, k: nat, n: nat)
    requires |fields| == |other| == |seps| + 1 && k <= n <= |seps|
    requires Joined(fields, seps, k) == Joined(other, seps, k)
    requires forall i :: k < i <= n ==> fields[i] == other[i]
    ensures Joined(fields, seps, n) == Joined(other, seps, n)
    decreases n
  {
    if k < n { SameAfter(fields, other, seps, k, n - 1); }
  }

  /** Two neighbouring fields may be replaced by two others with the same text around their
      separator. */
  lemma Replacing(fields: seq<string>, seps: seq<string>, k: nat, a: string, b: string)
    requires |fields| == |seps| + 1 && k < |seps|
    requires a + seps[k] + b == fields[k] + seps[k] + fields[k + 1] && a != fields[k]
    ensures Ambiguous(fields, seps)
  {
    var other := fields[k := a][k + 1 := b];
    assert other[k] != fields[k];
    if k > 0 {
      SameBefore(fields, other, seps, k - 1);
      var head := Joined(fields, seps, k - 1) + seps[k - 1];
      assert head + fields[k] + seps[k] + fields[k + 1] == head + (fields[k] + seps[k] + fields[k + 1]);
      assert head + a + seps[k] + b == head + (a + seps[k] + b);
    }
    SameAfter(fields, other, seps, k + 1, |seps|);
    assert SameText(fields, other, seps);
  }

  /** Such a separator can be taken for the real one. */
  lemma StrayMeansAmbiguous(fields: seq<string>, seps: seq<string>, k: nat)
    requires |fields| == |seps| + 1 && k < |seps| && AreSeparators(seps) && Strays(fields, seps, k)
    ensures Ambiguous(fields, seps)
  {
    var (f, g, sep) := (fields[k], fields[k + 1], seps[k]);
    if Has(f, sep) {
      var i: nat :| i <= |f| && PartAt(f, sep, i);
      var (u, v) := (f[..i], f[i + |sep|..]);
      assert f == u + sep + v;
      assert u + sep + (v + sep + g) == f + sep + g;
      Replacing(fields, seps, k, u, v + sep + g);
    } else {
      var i: nat :| i <= |g| && PartAt(g, sep, i);
      var (u, v) := (g[..i], g[i + |sep|..]);
      assert g == u + sep + v;
      assert (f + sep + u) + sep + v == f + sep + g;
      Replacing(fields, seps, k, f + sep + u, v);
    }
  }

  /** Other fields are joined to the same text if and only if some separator occurs in one of the
      two fields it stands between. */
  lemma AmbiguousIffStray(fields: seq<string>, seps: seq<string>)
    requires |fields| == |seps| + 1 && AreSeparators(seps)
    ensures Ambiguous(fields, seps) <==> exists k :: 0 <= k < |seps| && Strays(fields, seps, k)
  {
    if Ambiguous(fields, seps) {
      var other :| |other| == |fields| && other != fields && SameText(fields, other, seps);
      var j := DifferenceMeansStray(fields, other, seps, |seps|);
    }
    if k: nat :| k < |seps| && Strays(fields, seps, k) { StrayMeansAmbiguous(fields, seps, k); }
  }
}
