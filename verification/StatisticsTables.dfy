/** Which tables are calculated, told from their cells, and what the browser's checks pin down. */
module StatisticsTables {
  import opened Options
  import opened Digits
  import opened Decimals
  import opened NumberText
  import opened FileStatistics
  import opened StatisticsLaws

  // ---- texts ----

  /** White space as `str.isspace` sees it. */
  const SPACES := "\t\n\U{b}\U{c}\r\U{1c}\U{1d}\U{1e}\U{1f} \U{85}\U{a0}\U{1680}\U{2000}\U{2001}\U{2002}\U{2003}"
                  + "\U{2004}\U{2005}\U{2006}\U{2007}\U{2008}\U{2009}\U{200a}\U{2028}\U{2029}\U{202f}\U{205f}\U{3000}"

  lemma SpacesAreListed(c: char)
    ensures IsSpace(c) <==> c in SPACES
  {
    assert SPACES == ['\t', '\n', '\U{b}', '\U{c}', '\r', '\U{1c}', '\U{1d}', '\U{1e}', '\U{1f}', ' ', '\U{85}',
                      '\U{a0}', '\U{1680}', '\U{2000}', '\U{2001}', '\U{2002}', '\U{2003}', '\U{2004}', '\U{2005}',
                      '\U{2006}', '\U{2007}', '\U{2008}', '\U{2009}', '\U{200a}', '\U{2028}', '\U{2029}',
                      '\U{202f}', '\U{205f}', '\U{3000}'];
  }

  /** The first character that is no white space is one of `=+-@`. */
  ghost predicate BeginsFormula(s: string) {
    exists i :: StartsAt(s, i) && s[i] in "=+-@"
  }

  /** A name with something to read in it, not too long, and without control characters. */
  predicate Readable(name: string) {
    && 0 < |name| <= 128
    && (exists i :: 0 <= i < |name| && name[i] !in SPACES)
    && forall i :: 0 <= i < |name| ==> name[i] >= ' ' && name[i] != '\U{7f}'
  }

  lemma {:induction false} BlankIffAllAre(s: string, spaces: string)
    requires forall c :: IsSpace(c) <==> c in spaces
    ensures IsBlank(s) <==> forall i :: 0 <= i < |s| ==> s[i] in spaces
    decreases |s|
  {
    if s != "" {
      BlankIffAllAre(s[1..], spaces);
      assert s == [s[0]] + s[1..];
    }
  }

  lemma BlankIffSpaces(s: string)
    ensures IsBlank(s) <==> forall i :: 0 <= i < |s| ==> s[i] in SPACES
  {
    forall c ensures IsSpace(c) <==> c in SPACES { SpacesAreListed(c); }
    BlankIffAllAre(s, SPACES);
  }

  lemma NameIsReadable(name: string)
    ensures Readable(name) <==> !IsBlank(name) && |name| <= 128 && !HasControl(name)
  {
    BlankIffSpaces(name);
  }

  // ---- rows ----

  ghost predicate HoldsNumber(c: Cell) {
    (c.Number? && InRange(c.d)) || (c.Text? && ShowsNumber(c.s))
  }

  ghost predicate NumberAt(row: TableRow, column: nat) {
    row.Cells? && column < |row.cells| && HoldsNumber(row.cells[column])
  }

  ghost predicate GoodCell(c: Cell, csv: bool) {
    !c.Nested? && (csv && c.Text? ==> !BeginsFormula(c.s))
  }

  /** A row of the right width, without nested values and formulas, whose cell in the chosen column is
      missing or a number. */
  ghost predicate GoodRow(row: TableRow, width: nat, csv: bool, selected: nat)
    requires selected < width
  {
    row.Cells? && |row.cells| == width
    && (forall i :: 0 <= i < width ==> GoodCell(row.cells[i], csv))
    && (row.cells[selected] == Null || row.cells[selected] == Text("") || HoldsNumber(row.cells[selected]))
  }

  lemma CellIsNumber(c: Cell)
    ensures DecimalOf(c).Ok? <==> HoldsNumber(c)
  {
    if c.Text? { TextIsNumberIff(c.s); }
  }

  lemma CellIsGood(c: Cell, csv: bool)
    ensures GoodCell(c, csv) <==> !c.Nested? && !(csv && IsFormula(c))
  {
    if c.Text? { FormulasAreTold(c.s); }
  }

  lemma RowPassesIff(row: TableRow, index: nat, width: nat, csv: bool, selected: nat)
    requires selected < width
    ensures RowFault(row, index, width, csv, selected) == None <==>
              index < 50_000 && (index + 1) * width <= 250_000 && GoodRow(row, width, csv, selected)
  {
    if row.Cells? && |row.cells| == width {
      CellIsNumber(row.cells[selected]);
      forall i | 0 <= i < width
        ensures GoodCell(row.cells[i], csv) <==> !row.cells[i].Nested? && !(csv && IsFormula(row.cells[i]))
      {
        CellIsGood(row.cells[i], csv);
      }
    }
  }

  lemma FewerCells(a: nat, b: nat, width: nat)
    requires a <= b
    ensures a * width <= b * width
  {
  }

  /** The rows pass, one after the other, exactly if there are not too many of them and of their cells,
      and each is good. */
  lemma RowsPassIff(rows: seq<TableRow>, width: nat, csv: bool, selected: nat)
    requires selected < width
    ensures NoFaults(rows, width, csv, selected) <==>
              && |rows| <= 50_000 && |rows| * width <= 250_000
              && forall i :: 0 <= i < |rows| ==> GoodRow(rows[i], width, csv, selected)
  {
    forall i | 0 <= i < |rows|
      ensures RowFault(rows[i], i, width, csv, selected) == None <==>
                i < 50_000 && (i + 1) * width <= 250_000 && GoodRow(rows[i], width, csv, selected)
    {
      RowPassesIff(rows[i], i, width, csv, selected);
    }
    if NoFaults(rows, width, csv, selected) {
      if rows != [] { assert RowFault(rows[|rows| - 1], |rows| - 1, width, csv, selected) == None; }
    } else if |rows| * width <= 250_000 {
      forall i | 0 <= i < |rows|
        ensures RowFault(rows[i], i, width, csv, selected) == None <==>
                  i < 50_000 && GoodRow(rows[i], width, csv, selected)
      {
        FewerCells(i + 1, |rows|, width);
      }
    }
  }

  // ---- tables ----

  ghost predicate GoodNames(names: seq<string>, csv: bool) {
    && 1 <= |names| <= 64
    && (forall i :: 0 <= i < |names| ==> Readable(names[i]) && (csv ==> !BeginsFormula(names[i])))
    && forall i, j :: 0 <= i < j < |names| ==> names[i] != names[j]
  }

  lemma NamesPassIff(names: seq<string>, csv: bool)
    ensures GoodNames(names, csv) <==>
              CheckColumns(names) == None && !(csv && exists i :: 0 <= i < |names| && IsFormula(Text(names[i])))
  {
    forall i | 0 <= i < |names|
      ensures Readable(names[i]) <==> !IsBlank(names[i]) && |names[i]| <= 128 && !HasControl(names[i])
      ensures IsFormula(Text(names[i])) <==> BeginsFormula(names[i])
    {
      NameIsReadable(names[i]);
      FormulasAreTold(names[i]);
    }
  }

  /** A table leads to a result if and only if it is small enough, its names are good, the column is one
      of them, every row is good, and some row has a number in that column. */
  lemma CalculableIff(size: nat, csv: bool, names: seq<string>, rows: seq<TableRow>, column: string)
    ensures Calculable(size, csv, names, rows, column) <==>
              && size <= 5 * 1024 * 1024 && GoodNames(names, csv) && column in names
              && |rows| <= 50_000 && |rows| * |names| <= 250_000
              && var selected := IndexOf(names, column);
              && (forall i :: 0 <= i < |rows| ==> GoodRow(rows[i], |names|, csv, selected))
              && exists i :: 0 <= i < |rows| && NumberAt(rows[i], selected)
  {
    NamesPassIff(names, csv);
    if column in names {
      var selected := IndexOf(names, column);
      RowsPassIff(rows, |names|, csv, selected);
      if forall i :: 0 <= i < |rows| ==> GoodRow(rows[i], |names|, csv, selected) {
        SomeNumber(rows, |names|, csv, selected);
      }
    }
  }

  lemma SomeNumber(rows: seq<TableRow>, width: nat, csv: bool, selected: nat)
    requires selected < width && forall i :: 0 <= i < |rows| ==> GoodRow(rows[i], width, csv, selected)
    ensures SomeValue(rows, selected) <==> exists i :: 0 <= i < |rows| && NumberAt(rows[i], selected)
  {
    forall i | 0 <= i < |rows|
      ensures HasValue(rows[i].cells, selected) <==> NumberAt(rows[i], selected)
    {
      CellIsNumber(rows[i].cells[selected]);
      EmptyIsNoNumber();
    }
  }

  lemma EmptyIsNoNumber()
    ensures !HoldsNumber(Text("")) && !HoldsNumber(Null)
  {
    CellIsNumber(Text(""));
  }

  // ---- which error is reported ----

  ghost predicate FormulaIn(row: Row) {
    exists i :: 0 <= i < |row| && row[i].Text? && BeginsFormula(row[i].s)
  }

  /** The limits come before the width, that before formulas, and the number in the column comes last;
      whatever else is wrong makes the table invalid. */
  lemma RowErrorIsTold(row: TableRow, index: nat, width: nat, csv: bool, selected: nat)
    requires selected < width
    ensures var (fault, within) := (RowFault(row, index, width, csv, selected),
                                    index < 50_000 && (index + 1) * width <= 250_000);
      && (fault == Some(TableLimit) <==> row.Cells? && !within)
      && (fault == Some(UnsafeFormula) <==>
            row.Cells? && within && |row.cells| == width && csv && FormulaIn(row.cells))
      && (fault.Some? && fault.value.Numeric? <==>
            row.Cells? && within && |row.cells| == width && (forall i :: 0 <= i < width ==> GoodCell(row.cells[i], csv))
            && !GoodRow(row, width, csv, selected))
      && (fault.Some? ==> fault.value in {TableLimit, UnsafeFormula, InvalidTable} || fault.value.Numeric?)
  {
    if row.Cells? && |row.cells| == width {
      CellIsNumber(row.cells[selected]);
      forall i | 0 <= i < width
        ensures GoodCell(row.cells[i], csv) <==> !row.cells[i].Nested? && !(csv && IsFormula(row.cells[i]))
        ensures IsFormula(row.cells[i]) <==> row.cells[i].Text? && BeginsFormula(row.cells[i].s)
      {
        CellIsGood(row.cells[i], csv);
        CellIsGood(row.cells[i], true);
        if row.cells[i].Text? { FormulasAreTold(row.cells[i].s); }
      }
    }
  }

  /** Before the rows: the size, the column asked for, the length of a JSON table, the names, formulas in
      them, and whether the column is one of them, in this order. */
  lemma RequestErrorIsTold(size: nat, csv: bool, names: seq<string>, rows: seq<TableRow>, column: string)
    ensures var fault := CheckRequest(size, csv, names, rows, column);
      var asked := size <= 5 * 1024 * 1024 && 1 <= |column| <= 128;
      var parsed := asked && (csv || 0 < |rows| <= 50_000);
      && (fault == Some(InvalidColumn) <==> size <= 5 * 1024 * 1024 && !(1 <= |column| <= 128))
      && (fault == Some(InvalidTable) <==> asked && !csv && rows == [])
      && (fault == Some(TableLimit) <==>
            || size > 5 * 1024 * 1024 || (asked && !csv && |rows| > 50_000) || (parsed && !(1 <= |names| <= 64)))
      && (fault == Some(ColumnNotFound) <==> parsed && GoodNames(names, csv) && column !in names)
      && (fault == Some(UnsafeFormula) <==>
            parsed && GoodNames(names, false) && csv && exists i :: 0 <= i < |names| && BeginsFormula(names[i]))
      && (fault == Some(InvalidColumns) <==> parsed && 1 <= |names| <= 64 && !GoodNames(names, false))
      && (fault == None <==> parsed && GoodNames(names, csv) && column in names)
  {
    NamesPassIff(names, csv);
    NamesPassIff(names, false);
    forall i | 0 <= i < |names| ensures IsFormula(Text(names[i])) <==> BeginsFormula(names[i]) {
      FormulasAreTold(names[i]);
    }
  }

  /** After the rows: without any the table is invalid, and otherwise there is no number in the column. */
  lemma WithoutValuesIsTold(rows: seq<TableRow>)
    ensures WithoutValues(rows) == InvalidTable <==> |rows| == 0
    ensures WithoutValues(rows) == NoNumericValues <==> |rows| > 0
  {
  }

  // ---- what a result says of its rows ----

  /** The sentence of a described result, in the figures of its rows. */
  lemma SentenceIsTold(s: Statistics, names: seq<string>, rows: seq<Row>, selected: nat)
    requires selected < |names| && Describes(s, names, rows, selected)
    ensures s.summary
         == "完整文件共 " + NatText(|rows|) + " 行；列「" + names[selected] + "」的 " + NatText(|rows| - s.missingCount)
            + " 个有效数值之和为 " + DecimalText(OfScaled(Sum(ValueAt(selected), rows)))
            + "，缺失 " + NatText(s.missingCount) + " 行；重复行 " + NatText(Repeated(rows)) + " 行，保留参与计算；单位未指定。"
  {
    ResultIsTold(s, names, rows, selected);
  }

  // ---- what the browser's checks pin down ----

  /** Of an accepted result the counts of the selected column, the warnings and the sentence follow from
      the rest: nobody can alter them without being refused. */
  lemma AcceptedIsDetermined(s: Statistics, t: Statistics)
    requires Accepts(s) && Accepts(t)
    requires s.column == t.column && s.rowCount == t.rowCount && s.columns == t.columns && s.duplicates == t.duplicates
    requires s.value == t.value && s.minimum == t.minimum && s.maximum == t.maximum
    ensures s == t
  {
  }

  /** An accepted result keeps the limits of the service, and its columns say whether they are empty. */
  lemma AcceptedIsWithinLimits(s: Statistics, c: Column)
    requires Accepts(s) && c in s.columns
    ensures 1 <= |c.name| <= 128 && 1 <= |s.column| <= 128 && s.rowCount <= 50_000 && |s.columns| <= 64
    ensures s.rowCount * |s.columns| <= 250_000 && s.duplicates < s.rowCount && c.missing <= s.rowCount
    ensures 1 <= s.validCount && s.validCount + s.missingCount == s.rowCount
    ensures forall i, j :: 0 <= i < |s.columns| && 0 <= j < |s.columns| && i != j ==>
              s.columns[i].name != s.columns[j].name
    ensures c.types == [] <==> c.missing == s.rowCount
    ensures forall i, j :: 0 <= i < j < |c.types| ==> c.types[i] != c.types[j]
  {
    var k :| 0 <= k < |s.columns| && s.columns[k] == c;
    assert AcceptsColumn(s.columns[k], s.rowCount);
  }
}
