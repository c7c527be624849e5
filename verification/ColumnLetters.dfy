/** Column numbers and their letters in a spreadsheet (`excel_op.py`): A, …, Z, AA, AB, … */
module ColumnLetters {

  function Letter(d: nat): char
    requires d < 26
  {
    'A' + d as char
  }

  predicate IsLetter(c: char) {
    'A' <= c <= 'Z'
  }

  predicate IsColumn(s: string) {
    s != "" && forall i :: 0 <= i < |s| ==> IsLetter(s[i])
  }

  /** The number of a column, counted from 0: its letters are digits from 1 to 26. */
  function Index(s: string): nat
    requires IsColumn(s)
  {
    var last := (s[|s| - 1] - 'A') as nat;
    if |s| == 1 then last else (Index(s[..|s| - 1]) + 1) * 26 + last
  }

  function Reversed(s: string): string {
    if s == "" then "" else Reversed(s[1..]) + [s[0]]
  }

  lemma {:induction false} ReversedAppend(s: string, c: char)
    ensures Reversed(s + [c]) == [c] + Reversed(s)
  {
    if s == "" {
      assert Reversed([c]) == Reversed([c][1..]) + [c];
    } else {
      assert (s + [c])[1..] == s[1..] + [c];
      ReversedAppend(s[1..], c);
    }
  }

  /** The column with this number. */
  function Letters(n: nat): (s: string)
    ensures IsColumn(s)
  {
    (if n < 26 then "" else Letters(n / 26 - 1)) + [Letter(n % 26)]
  }

  lemma LastLetter(n: nat)
    ensures Letters(n) == (if n < 26 then "" else Letters(n / 26 - 1)) + [Letter(n % 26)]
    ensures n / 26 == 0 <==> n < 26
  {
  }

  /** Every number is the number of its letters … */
  lemma {:induction false} IndexOfLetters(n: nat)
    ensures Index(Letters(n)) == n
  {
    var s := Letters(n);
    if n >= 26 {
      IndexOfLetters(n / 26 - 1);
      assert s[..|s| - 1] == Letters(n / 26 - 1);
    }
  }

  /** … and every column has the letters of its number. */
  lemma {:induction false} LettersOfIndex(s: string)
    requires IsColumn(s)
    ensures Letters(Index(s)) == s
    decreases |s|
  {
    var (front, last) := (s[..|s| - 1], s[|s| - 1]);
    var d := (last - 'A') as nat;
    assert s == front + [last] && last == Letter(d);
    if front == "" {
      LastLetter(d);
      assert "" + [last] == s;
    } else {
      LettersOfIndex(front);
      NextLetter(Index(front), d);
    }
  }

  lemma NextLetter(front: nat, d: nat)
    requires d < 26
    ensures Letters((front + 1) * 26 + d) == Letters(front) + [Letter(d)]
  {
    var n := (front + 1) * 26 + d;
    assert n / 26 == front + 1 && n % 26 == d;
    LastLetter(n);
  }

  /** One turn of the loop moves the last letter from what is left to what is done. */
  lemma MoveLetter(n: nat, tail: string)
    ensures n / 26 == 0 ==> Letters(n) + tail == [Letter(n % 26)] + tail
    ensures n / 26 > 0 ==> Letters(n) + tail == Letters(n / 26 - 1) + ([Letter(n % 26)] + tail)
  {
    LastLetter(n);
    if n < 26 { assert "" + [Letter(n % 26)] == [Letter(n % 26)]; }
  }

  /** The loop of `index_to_col_letter`; the letters come last first. */
  method LettersBackwards(index: nat) returns (result: string)
    ensures Reversed(result) == Letters(index)
  {
    var n := index;
    result := "";
    while true
      invariant Letters(index) == Letters(n) + Reversed(result)
      decreases n
    {
      MoveLetter(n, Reversed(result));
      var (q, r) := (n / 26, n % 26);
      ReversedAppend(result, Letter(r));
      result := result + [Letter(r)];
      if q == 0 {
        break;
      }
      n := q - 1;
    }
  }

  /** `index_to_col_letter`: the letters of the column with this number. A negative number
      would keep the loop going for ever (`LoopEndsIffNotNegative`). */
  method IndexToColLetter(index: nat) returns (letters: string)
    ensures IsColumn(letters) && Index(letters) == index
  {
    var result := LettersBackwards(index);
    letters := Reversed(result);
    IndexOfLetters(index);
  }

  /** Columns stand in the order of their length, and within a length in that of their letters. */
  ghost predicate Before(s: string, t: string)
    requires |s| == |t|
  {
    exists k :: 0 <= k < |s| && s[..k] == t[..k] && s[k] < t[k]
  }

  lemma {:induction false} LongerIsLater(s: string, t: string)
    requires IsColumn(s) && IsColumn(t) && |s| < |t|
    ensures Index(s) < Index(t)
    decreases |s|
  {
    if |s| > 1 { LongerIsLater(s[..|s| - 1], t[..|t| - 1]); }
  }

  lemma {:induction false} OrderWithinLength(s: string, t: string)
    requires IsColumn(s) && IsColumn(t) && |s| == |t|
    ensures Before(s, t) <==> Index(s) < Index(t)
    decreases |s|
  {
    var (f, g, last) := (s[..|s| - 1], t[..|t| - 1], |s| - 1);
    assert s == f + [s[last]] && t == g + [t[last]];
    if |s| > 1 {
      OrderWithinLength(f, g);
      BeforeByFront(s, t);
      if f != g { SameLengthDiffers(f, g); }
    } else {
      assert s[..0] == t[..0];
      assert Before(s, t) <==> s[0] < t[0];
    }
  }

  lemma BeforeByFront(s: string, t: string)
    requires |s| == |t| > 1
    ensures var last := |s| - 1;
      Before(s, t) <==> Before(s[..last], t[..last]) || (s[..last] == t[..last] && s[last] < t[last])
  {
    var last := |s| - 1;
    var (f, g) := (s[..last], t[..last]);
    assert forall k :: 0 <= k < last ==> f[..k] == s[..k] && g[..k] == t[..k] && f[k] == s[k] && g[k] == t[k];
  }

  lemma SameLengthDiffers(f: string, g: string)
    requires IsColumn(f) && IsColumn(g) && f != g
    ensures Index(f) != Index(g)
  {
    LettersOfIndex(f);
    LettersOfIndex(g);
  }

  /** The loop, started with any number, has ended after at most `k` turns. */
  predicate EndsWithin(n: int, k: nat)
    decreases k
  {
    k > 0 && (n / 26 == 0 || EndsWithin(n / 26 - 1, k - 1))
  }

  lemma {:induction false} OneTurnPerLetter(n: nat, k: nat)
    ensures EndsWithin(n, k) <==> k >= |Letters(n)|
  {
    LastLetter(n);
    if k > 0 && n >= 26 { OneTurnPerLetter(n / 26 - 1, k - 1); }
  }

  lemma {:induction false} NegativeNumbersGoOn(n: int, k: nat)
    requires n < 0
    ensures !EndsWithin(n, k)
    decreases k
  {
    if k > 0 { NegativeNumbersGoOn(n / 26 - 1, k - 1); }
  }

  /** The loop ends if and only if the number is not negative, and then takes one turn for each
      letter. */
  lemma LoopEndsIffNotNegative(n: int)
    ensures (exists k :: EndsWithin(n, k)) <==> n >= 0
    ensures n >= 0 ==> forall k: nat :: EndsWithin(n, k) <==> k >= |Letters(n)|
  {
    if n >= 0 {
      OneTurnPerLetter(n, |Letters(n)|);
      forall k: nat ensures EndsWithin(n, k) <==> k >= |Letters(n)| { OneTurnPerLetter(n, k); }
    } else {
      forall k: nat ensures !EndsWithin(n, k) { NegativeNumbersGoOn(n, k); }
    }
  }
}
