/** The statistics of a column of numerals, told from their digits, signs and exponents. */
module NumeralColumns {
  import opened Options
  import opened Digits
  import opened Decimals
  import opened NumberText
  import opened Numerals
  import opened FileStatistics

  /** A numeral that `_decimal` accepts. */
  predicate Acceptable(n: Numeral) {
    WellFormed(n) && |NumeralText(n)| <= 128 && InRange(Denoted(n))
  }

  /** Its value in units of the eighteenth decimal place. */
  function Units(n: Numeral): int
    requires Acceptable(n)
  {
    AppendDigits(n.whole, n.fraction);
    var digits: int := Shift(Value(n.whole + n.fraction), 18 + Places(n.exponent) - |n.fraction|);
    if n.sign.Negative? then -digits else digits
  }

  /** The cells of a column: missing, or the text of a numeral. */
  ghost predicate CellShows(row: Row, c: nat, cell: Option<Numeral>) {
    c < |row| && match cell
      case None => IsMissing(row[c])
      case Some(n) => Acceptable(n) && row[c] == Text(NumeralText(n))
  }

  ghost predicate ColumnShows(rows: seq<Row>, c: nat, cells: seq<Option<Numeral>>) {
    |rows| == |cells| && forall i :: 0 <= i < |rows| ==> CellShows(rows[i], c, cells[i])
  }

  function UnitsSum(cells: seq<Option<Numeral>>): int
    requires forall i :: 0 <= i < |cells| && cells[i].Some? ==> Acceptable(cells[i].value)
  {
    if cells == [] then 0
    else
      var last := cells[|cells| - 1];
      UnitsSum(cells[..|cells| - 1]) + if last.Some? then Units(last.value) else 0
  }

  lemma NumeralIsAccepted(n: Numeral)
    requires Acceptable(n)
    ensures NumeralText(n) != "" && AcceptText(NumeralText(n)) == Ok(Denoted(n))
  {
    NumeralIsRead(n);
    assert Unsigned(n)[0] == n.whole[0];
  }

  lemma UnitsAreScaled(n: Numeral)
    requires Acceptable(n)
    ensures Scaled(Denoted(n), 18) == Units(n)
  {
    ShiftNegates(Denoted(n).coefficient, 18 + Denoted(n).exponent);
  }

  lemma CellIsValued(row: Row, c: nat, cell: Option<Numeral>)
    requires CellShows(row, c, cell)
    ensures HasValue(row, c) <==> cell.Some?
    ensures cell.Some? ==> ScaledValue(row, c) == Units(cell.value)
  {
    if cell.Some? {
      NumeralIsAccepted(cell.value);
      UnitsAreScaled(cell.value);
    }
  }

  lemma {:induction false} SumIsOfUnits(rows: seq<Row>, c: nat, cells: seq<Option<Numeral>>)
    requires ColumnShows(rows, c, cells)
    ensures Sum(ValueAt(c), rows) == UnitsSum(cells)
    decreases |rows|
  {
    if rows != [] {
      var last := |rows| - 1;
      SumIsOfUnits(rows[..last], c, cells[..last]);
      CellIsValued(rows[last], c, cells[last]);
    }
  }

  /** The i-th cell holds the least, or greatest, numeral of the column. */
  ghost predicate IsBoundAt(cells: seq<Option<Numeral>>, i: nat, least: bool)
    requires forall i :: 0 <= i < |cells| && cells[i].Some? ==> Acceptable(cells[i].value)
  {
    && i < |cells| && cells[i].Some?
    && forall j :: 0 <= j < |cells| && cells[j].Some? ==> Bounds(Units(cells[i].value), Units(cells[j].value), least)
  }

  ghost predicate ShowsBound(text: string, cells: seq<Option<Numeral>>, least: bool)
    requires forall i :: 0 <= i < |cells| && cells[i].Some? ==> Acceptable(cells[i].value)
  {
    exists i: nat :: IsBoundAt(cells, i, least) && text == DecimalText(OfScaled(Units(cells[i].value)))
  }

  lemma BoundCell(m: int, rows: seq<Row>, c: nat, cells: seq<Option<Numeral>>, least: bool) returns (i: nat)
    requires ColumnShows(rows, c, cells) && IsBound(m, rows, c, least)
    ensures IsBoundAt(cells, i, least) && Units(cells[i].value) == m
  {
    var row :| row in rows && HasValue(row, c) && ScaledValue(row, c) == m;
    i :| i < |rows| && rows[i] == row;
    CellIsValued(rows[i], c, cells[i]);
    forall j | 0 <= j < |cells| && cells[j].Some? ensures Bounds(m, Units(cells[j].value), least) {
      UnitsAreBounded(m, rows, c, cells, least, j);
    }
  }

  lemma BoundIsOfUnits(text: string, rows: seq<Row>, c: nat, cells: seq<Option<Numeral>>, least: bool)
    requires ColumnShows(rows, c, cells) && DescribesBound(text, rows, c, least)
    ensures ShowsBound(text, cells, least)
  {
    var m :| IsBound(m, rows, c, least) && text == DecimalText(OfScaled(m));
    var i := BoundCell(m, rows, c, cells, least);
  }

  lemma UnitsAreBounded(m: int, rows: seq<Row>, c: nat, cells: seq<Option<Numeral>>, least: bool, j: nat)
    requires ColumnShows(rows, c, cells) && IsBound(m, rows, c, least) && j < |cells| && cells[j].Some?
    ensures Bounds(m, Units(cells[j].value), least)
  {
    CellIsValued(rows[j], c, cells[j]);
    assert rows[j] in rows;
  }

  /** The reported sum, minimum and maximum of such a column are those of the numbers the numerals
      denote, and the counts are those of its cells. */
  lemma ColumnOfNumerals(s: Statistics, names: seq<string>, rows: seq<Row>, selected: nat,
                         cells: seq<Option<Numeral>>)
    requires selected < |names| && Describes(s, names, rows, selected) && ColumnShows(rows, selected, cells)
    ensures s.value == DecimalText(OfScaled(UnitsSum(cells)))
    ensures ShowsBound(s.minimum, cells, true) && ShowsBound(s.maximum, cells, false)
  {
    SumIsOfUnits(rows, selected, cells);
    BoundIsOfUnits(s.minimum, rows, selected, cells, true);
    BoundIsOfUnits(s.maximum, rows, selected, cells, false);
  }
}
