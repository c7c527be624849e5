/** What the parts of a statistics result mean: the kinds of its columns, its count of duplicates, its
    warnings, and which cells count as formulas. */
module StatisticsLaws {
  import opened Options
  import opened Decimals
  import opened NumberText
  import opened Numerals
  import opened FileStatistics

  // ---- kinds ----

  /** The text of a number within bounds. */
  ghost predicate ShowsNumber(s: string) {
    |s| <= 128 && exists n :: WellFormed(n) && NumeralText(n) == s && InRange(Denoted(n))
  }

  /** A cell is of the kind its JSON type says, and a text is a number exactly if it is a numeral of at
      most 128 characters within the bounds; a nested value makes the table invalid. */
  lemma KindsAreTold(c: Cell)
    ensures KindOf(c) == Ok(BooleanKind) <==> c.Boolean?
    ensures KindOf(c) == Ok(NumberKind) <==> c.Number? || (c.Text? && ShowsNumber(c.s))
    ensures KindOf(c) == Ok(StringKind) <==> c.Text? && !ShowsNumber(c.s)
    ensures KindOf(c).Err? ==> KindOf(c) == Err(InvalidTable)
  {
    if c.Text? { TextIsNumberIff(c.s); }
  }

  lemma TextIsNumberIff(s: string)
    ensures AcceptText(s).Ok? <==> ShowsNumber(s)
  {
    ReadIffNumeral(s);
    if ReadNumber(s).Some? {
      var n :| WellFormed(n) && NumeralText(n) == s;
      assert ReadNumber(s) == Some(Denoted(n));
    }
  }

  /** The kinds of a column are listed once each, in the order of their names. */
  lemma KindsAreSorted(kinds: set<Kind>)
    ensures forall k :: k in SortedKinds(kinds) <==> k in kinds
    ensures SortedUnique(SortedKinds(kinds))
  {
    var booleans := if BooleanKind in kinds then [BooleanKind] else [];
    var numbers := if NumberKind in kinds then [NumberKind] else [];
    var strings := if StringKind in kinds then [StringKind] else [];
    forall k ensures k in SortedKinds(kinds) <==> k in kinds {
      assert k == BooleanKind || k == NumberKind || k == StringKind;
      assert k in booleans + numbers + strings <==> k in booleans || k in numbers || k in strings;
    }
  }

  // ---- duplicates ----

  predicate SameRow(a: Row, b: Row) {
    |a| == |b| && forall i :: 0 <= i < |a| ==> SameTyped(a[i], b[i])
  }

  /** Two rows have one key exactly if they are equal cell by cell, with their types. */
  lemma RowKeysTell(a: Row, b: Row)
    ensures RowKey(a) == RowKey(b) <==> SameRow(a, b)
  {
    forall i | 0 <= i < |a| && i < |b| ensures CellKey(a[i]) == CellKey(b[i]) <==> SameTyped(a[i], b[i]) {
      KeyIsTypedEquality(a[i], b[i]);
    }
    if RowKey(a) == RowKey(b) {
      assert |RowKey(a)| == |a| && |RowKey(b)| == |b|;
      forall i | 0 <= i < |a| ensures SameTyped(a[i], b[i]) { assert RowKey(a)[i] == RowKey(b)[i]; }
    }
  }

  ghost predicate SeenBefore(rows: seq<Row>, row: Row) {
    exists j :: 0 <= j < |rows| && SameRow(rows[j], row)
  }

  /** How many rows repeat an earlier one. */
  ghost function Repeated(rows: seq<Row>): nat {
    if rows == [] then 0
    else
      var front := rows[..|rows| - 1];
      Repeated(front) + if SeenBefore(front, rows[|rows| - 1]) then 1 else 0
  }

  lemma {:induction false} KeysCountTheRest(rows: seq<Row>)
    ensures |Keys(rows)| + Repeated(rows) == |rows|
    decreases |rows|
  {
    if rows != [] {
      var (front, row) := (rows[..|rows| - 1], rows[|rows| - 1]);
      assert rows == front + [row];
      KeysCountTheRest(front);
      KeysAppend(front, row);
      SeenMeansKnown(front, row);
      if RowKey(row) in Keys(front) { assert Keys(front) + {RowKey(row)} == Keys(front); }
    }
  }

  lemma SeenMeansKnown(rows: seq<Row>, row: Row)
    ensures SeenBefore(rows, row) <==> RowKey(row) in Keys(rows)
  {
    forall r ensures RowKey(r) == RowKey(row) <==> SameRow(r, row) { RowKeysTell(r, row); }
    if RowKey(row) in Keys(rows) {
      var r :| r in rows && RowKey(r) == RowKey(row);
      var j :| 0 <= j < |rows| && rows[j] == r;
      assert SameRow(rows[j], row);
    }
  }

  // ---- the result ----

  lemma TypesAreTold(column: Column, name: string, rows: seq<Row>, c: nat, kind: Kind)
    requires DescribesColumn(column, name, rows, c)
    ensures kind in column.types <==> Occurs(kind, rows, c)
  {
    KindsAreSorted(set k: Kind | k in {BooleanKind, NumberKind, StringKind} && Occurs(k, rows, c));
  }

  /** A described result counts as duplicates the rows that repeat an earlier one; it warns of the
      missing unit always, of missing values and of duplicates exactly if there are any, in this
      order; and every column lists exactly the kinds that occur in it. */
  lemma ResultIsTold(s: Statistics, names: seq<string>, rows: seq<Row>, selected: nat)
    requires selected < |names| && Describes(s, names, rows, selected)
    ensures s.duplicates == Repeated(rows)
    ensures s.warnings == [UnitUnspecified] + (if s.missingCount > 0 then [MissingExcluded] else [])
                          + (if s.duplicates > 0 then [DuplicatesIncluded] else [])
    ensures forall c, k :: 0 <= c < |names| ==> (k in s.columns[c].types <==> Occurs(k, rows, c))
  {
    KeysCountTheRest(rows);
    forall c, k | 0 <= c < |names| ensures k in s.columns[c].types <==> Occurs(k, rows, c) {
      TypesAreTold(s.columns[c], names[c], rows, c, k);
    }
  }

  // ---- formulas ----

  ghost predicate StartsAt(s: string, i: int) {
    0 <= i < |s| && !IsSpace(s[i]) && forall j :: 0 <= j < i ==> IsSpace(s[j])
  }

  lemma {:induction false} StripsTo(s: string)
    ensures |LStrip(s)| <= |s|
    ensures forall j :: 0 <= j < |s| - |LStrip(s)| ==> IsSpace(s[j])
    ensures LStrip(s) == s[|s| - |LStrip(s)|..] && (LStrip(s) != "" ==> !IsSpace(LStrip(s)[0]))
    decreases |s|
  {
    if s != "" && IsSpace(s[0]) {
      StripsTo(s[1..]);
      assert forall j :: 0 < j < |s| ==> s[j] == s[1..][j - 1];
    }
  }

  /** A cell is refused as a formula exactly if its first character that is no space is one of `=+-@`. */
  lemma FormulasAreTold(s: string)
    ensures IsFormula(Text(s)) <==> exists i :: StartsAt(s, i) && s[i] in "=+-@"
  {
    StripsTo(s);
    var k := |s| - |LStrip(s)|;
    assert LStrip(s) != "" ==> LStrip(s)[0] == s[k] && StartsAt(s, k);
    assert forall i :: StartsAt(s, i) ==> i >= k;
    forall i | StartsAt(s, i) ensures i == k && LStrip(s) != "" { }
    assert forall c: char :: c in "=+-@" <==> c in {'=', '+', '-', '@'};
  }
}
