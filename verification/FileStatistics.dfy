/** Exact statistics over a complete table (`calculate_statistics` in `file_statistics.py`):
    one pass that counts, deduplicates and sums, against a declarative description of the
    result that does not mention the order of the rows. Tables are already parsed. */
module FileStatistics {
  import opened Options
  import opened Digits
  import opened Decimals
  import opened NumberText

  datatype Cell = Null | Boolean(b: bool) | Number(d: Decimal) | Text(s: string) | Nested

  type Row = seq<Cell>

  /** What the row iterator yields; a JSON row with other keys makes it raise. */
  datatype TableRow = Cells(cells: Row) | Malformed

  datatype Kind = BooleanKind | NumberKind | StringKind

  datatype Error =
    | InvalidTable | TableLimit | Numeric(error: NumberError) | UnsafeFormula | NoNumericValues
    | InvalidColumn | InvalidColumns | ColumnNotFound

  const MAX_CELLS := 250_000
  const MAX_COLUMNS := 64
  const MAX_BYTES := 5 * 1024 * 1024

  // ---- one cell ----

  predicate IsMissing(c: Cell) {
    c.Null? || c == Text("")
  }

  /** `_kind` of a cell that is not missing. */
  function KindOf(c: Cell): Result<Kind, Error> {
    match c
    case Boolean(_) => Ok(BooleanKind)
    case Number(_) => Ok(NumberKind)
    case Text(s) => if AcceptText(s).Ok? then Ok(NumberKind) else Ok(StringKind)
    case _ => Err(InvalidTable)
  }

  /** `_decimal` of a cell. */
  function DecimalOf(c: Cell): Result<Decimal, NumberError> {
    match c
    case Number(d) => AcceptDecimal(d)
    case Text(s) => AcceptText(s)
    case _ => Err(NonNumeric)
  }

  /** `str.isspace` of one character. */
  predicate IsSpace(c: char) {
    var n := c as int;
    || 9 <= n <= 13 || 28 <= n <= 32 || n == 0x85 || n == 0xa0 || n == 0x1680 || 0x2000 <= n <= 0x200a
    || n == 0x2028 || n == 0x2029 || n == 0x202f || n == 0x205f || n == 0x3000
  }

  function LStrip(s: string): string {
    if s != "" && IsSpace(s[0]) then LStrip(s[1..]) else s
  }

  predicate IsFormula(c: Cell) {
    c.Text? && LStrip(c.s) != "" && LStrip(c.s)[0] in {'=', '+', '-', '@'}
  }

  /** What two rows must share to count as duplicates: the type and the value of each cell. */
  datatype Key = NullKey | BooleanKey(b: bool) | NumberKey(text: string) | TextKey(s: string) | NestedKey

  function CellKey(c: Cell): Key {
    match c
    case Null => NullKey
    case Boolean(b) => BooleanKey(b)
    case Number(d) => NumberKey(DecimalText(d))
    case Text(s) => TextKey(s)
    case Nested => NestedKey
  }

  /** Python's `(type(value), value)` equality: numbers compare as numbers, `1` is not `true`. */
  predicate SameTyped(a: Cell, b: Cell) {
    match (a, b)
    case (Number(x), Number(y)) => SameNumber(x, y)
    case (Number(_), _) => false
    case (_, Number(_)) => false
    case _ => a == b
  }

  lemma KeyIsTypedEquality(a: Cell, b: Cell)
    ensures CellKey(a) == CellKey(b) <==> SameTyped(a, b)
  {
    if a.Number? && b.Number? { SameTextIffSameNumber(a.d, b.d); }
  }

  function RowKey(row: Row): seq<Key> {
    seq(|row|, i requires 0 <= i < |row| => CellKey(row[i]))
  }

  // ---- one row ----

  /** The first error the loop raises for the row with this index, if any. */
  function RowFault(row: TableRow, index: nat, width: nat, csv: bool, selected: nat): Option<Error>
    requires selected < width
  {
    if row.Malformed? then Some(InvalidTable)
    else if index + 1 > MAX_ROWS || (index + 1) * width > MAX_CELLS then Some(TableLimit)
    else if |row.cells| != width then Some(InvalidTable)
    else if csv && exists i :: 0 <= i < width && IsFormula(row.cells[i]) then Some(UnsafeFormula)
    else if exists i :: 0 <= i < width && row.cells[i].Nested? then Some(InvalidTable)
    else if !IsMissing(row.cells[selected]) && DecimalOf(row.cells[selected]).Err? then
      Some(Numeric(DecimalOf(row.cells[selected]).error))
    else None
  }

  ghost predicate CleanRow(row: Row, width: nat, selected: nat)
    requires selected < width
  {
    && |row| == width
    && (forall i :: 0 <= i < width ==> !row[i].Nested?)
    && (IsMissing(row[selected]) || DecimalOf(row[selected]).Ok?)
  }

  ghost predicate CleanRows(rows: seq<Row>, width: nat, selected: nat)
    requires selected < width
  {
    forall i :: 0 <= i < |rows| ==> CleanRow(rows[i], width, selected)
  }

  // ---- the declarative description ----

  /** What a row adds to a sum: 1 if the column is missing in it, or its value in the
      column at scale 18, which is 0 if it is missing. */
  datatype Weight = MissingAt(column: nat) | ValueAt(column: nat)

  ghost function Weigh(weight: Weight, row: Row): int {
    match weight
    case MissingAt(column) => if column < |row| && IsMissing(row[column]) then 1 else 0
    case ValueAt(column) => if HasValue(row, column) then ScaledValue(row, column) else 0
  }

  /** The sum of a weight over all rows. */
  ghost function Sum(weight: Weight, rows: seq<Row>): int {
    if rows == [] then 0 else Sum(weight, rows[..|rows| - 1]) + Weigh(weight, rows[|rows| - 1])
  }

  predicate HasValue(row: Row, column: nat) {
    column < |row| && !IsMissing(row[column]) && DecimalOf(row[column]).Ok?
  }

  lemma AcceptedInRange(c: Cell)
    requires DecimalOf(c).Ok?
    ensures InRange(DecimalOf(c).value)
  {
  }

  ghost function ScaledValue(row: Row, column: nat): int
    requires HasValue(row, column)
  {
    AcceptedInRange(row[column]);
    Scaled(DecimalOf(row[column]).value, 18)
  }

  ghost predicate Occurs(kind: Kind, rows: seq<Row>, column: nat) {
    exists row :: row in rows && column < |row| && !IsMissing(row[column]) && KindOf(row[column]) == Ok(kind)
  }

  ghost function Keys(rows: seq<Row>): set<seq<Key>> {
    set row | row in rows :: RowKey(row)
  }

  /** Kinds in the order `sorted` puts their names. */
  function SortedKinds(kinds: set<Kind>): seq<Kind> {
    (if BooleanKind in kinds then [BooleanKind] else [])
    + (if NumberKind in kinds then [NumberKind] else [])
    + (if StringKind in kinds then [StringKind] else [])
  }

  function OfScaled(n: int): Decimal {
    Decimal(n < 0, if n < 0 then -n else n, -18)
  }

  datatype Warning = UnitUnspecified | MissingExcluded | DuplicatesIncluded

  function Warnings(missing: nat, duplicates: nat): seq<Warning> {
    [UnitUnspecified] + (if missing > 0 then [MissingExcluded] else [])
    + (if duplicates > 0 then [DuplicatesIncluded] else [])
  }

  datatype Column = Column(name: string, types: seq<Kind>, missing: nat)

  datatype Statistics = Statistics(
    column: string,
    rowCount: nat,
    columns: seq<Column>,
    duplicates: nat,
    value: string,
    validCount: nat,
    missingCount: nat,
    minimum: string,
    maximum: string,
    warnings: seq<Warning>,
    summary: string)

  /** The sentence that sums up the result; the service and the validator build it alike. */
  function Summary(rowCount: nat, column: string, valid: nat, value: string, missing: nat, duplicates: nat): string {
    "完整文件共 " + NatText(rowCount) + " 行；列「" + column + "」的 " + NatText(valid) + " 个有效数值之和为 " + value
    + "，缺失 " + NatText(missing) + " 行；重复行 " + NatText(duplicates) + " 行，保留参与计算；单位未指定。"
  }

  predicate Bounds(n: int, m: int, least: bool) {
    if least then n <= m else m <= n
  }

  ghost predicate IsBound(n: int, rows: seq<Row>, column: nat, least: bool) {
    && (exists row :: row in rows && HasValue(row, column) && ScaledValue(row, column) == n)
    && (forall row :: row in rows && HasValue(row, column) ==> Bounds(n, ScaledValue(row, column), least))
  }

  ghost predicate DescribesColumn(column: Column, name: string, rows: seq<Row>, c: nat) {
    && column.name == name
    && column.missing == Sum(MissingAt(c), rows)
    && column.types == SortedKinds(set k: Kind | k in {BooleanKind, NumberKind, StringKind} && Occurs(k, rows, c))
  }

  ghost predicate DescribesBound(text: string, rows: seq<Row>, selected: nat, least: bool) {
    exists n :: IsBound(n, rows, selected, least) && text == DecimalText(OfScaled(n))
  }

  /** The result, described without the order of the rows. */
  ghost predicate Describes(s: Statistics, names: seq<string>, rows: seq<Row>, selected: nat)
    requires selected < |names|
  {
    && s.column == names[selected]
    && s.rowCount == |rows| == s.validCount + s.missingCount
    && |s.columns| == |names|
    && (forall c :: 0 <= c < |names| ==> DescribesColumn(s.columns[c], names[c], rows, c))
    && s.missingCount == Sum(MissingAt(selected), rows)
    && s.duplicates == |rows| - |Keys(rows)|
    && s.value == DecimalText(OfScaled(Sum(ValueAt(selected), rows)))
    && DescribesBound(s.minimum, rows, selected, true)
    && DescribesBound(s.maximum, rows, selected, false)
    && s.warnings == Warnings(s.missingCount, s.duplicates)
    && s.summary == Summary(|rows|, s.column, s.validCount, s.value, s.missingCount, s.duplicates)
  }

  // ---- adding one row ----

  lemma SumAppend(weight: Weight, rows: seq<Row>, row: Row)
    ensures Sum(weight, rows + [row]) == Sum(weight, rows) + Weigh(weight, row)
  {
    assert (rows + [row])[..|rows|] == rows;
  }

  predicate ShowsKind(row: Row, column: nat, kind: Kind) {
    column < |row| && !IsMissing(row[column]) && KindOf(row[column]) == Ok(kind)
  }

  lemma OccursAppend(kind: Kind, rows: seq<Row>, row: Row, column: nat)
    ensures Occurs(kind, rows + [row], column) <==> Occurs(kind, rows, column) || ShowsKind(row, column, kind)
  {
    if Occurs(kind, rows, column) {
      var r :| r in rows && column < |r| && !IsMissing(r[column]) && KindOf(r[column]) == Ok(kind);
      assert r in rows + [row];
    }
    assert row in rows + [row];
  }

  lemma KeysAppend(rows: seq<Row>, row: Row)
    ensures Keys(rows + [row]) == Keys(rows) + {RowKey(row)}
  {
    forall k | k in Keys(rows) + {RowKey(row)} ensures k in Keys(rows + [row]) {
      if k == RowKey(row) {
        assert row in rows + [row];
      } else {
        var r :| r in rows && RowKey(r) == k;
        assert r in rows + [row];
      }
    }
  }

  /** The running least or greatest value. */
  ghost predicate IsExtreme(m: Option<Decimal>, rows: seq<Row>, column: nat, least: bool) {
    match m
    case None => forall row :: row in rows ==> !HasValue(row, column)
    case Some(d) => InRange(d) && IsBound(Scaled(d, 18), rows, column, least)
  }

  /** Python's `min` and `max` keep the first of two equal values. */
  function Better(best: Option<Decimal>, value: Decimal, least: bool): Option<Decimal> {
    if best.None? || (if least then Less(value, best.value) else Less(best.value, value)) then Some(value) else best
  }

  lemma ExtremeAppend(best: Option<Decimal>, rows: seq<Row>, row: Row, column: nat, least: bool)
    requires IsExtreme(best, rows, column, least)
    ensures HasValue(row, column) ==>
              IsExtreme(Better(best, DecimalOf(row[column]).value, least), rows + [row], column, least)
    ensures !HasValue(row, column) ==> IsExtreme(best, rows + [row], column, least)
  {
    var all := rows + [row];
    assert row in all;
    assert forall r :: r in all <==> r in rows || r == row;
    if HasValue(row, column) {
      AcceptedInRange(row[column]);
      var d := DecimalOf(row[column]).value;
      assert ScaledValue(row, column) == Scaled(d, 18);
      if best.Some? {
        CompareAtAnyScale(d, best.value, 18);
        CompareAtAnyScale(best.value, d, 18);
      }
    }
  }

  // ---- the loop ----

  ghost predicate AllCells(rows: seq<TableRow>) {
    forall i :: 0 <= i < |rows| ==> rows[i].Cells?
  }

  ghost function CellsOf(rows: seq<TableRow>): seq<Row>
    requires AllCells(rows)
  {
    if rows == [] then [] else CellsOf(rows[..|rows| - 1]) + [rows[|rows| - 1].cells]
  }

  ghost predicate NoFaults(rows: seq<TableRow>, width: nat, csv: bool, selected: nat)
    requires selected < width
  {
    forall i :: 0 <= i < |rows| ==> RowFault(rows[i], i, width, csv, selected) == None
  }

  ghost predicate FirstFault(e: Error, rows: seq<TableRow>, width: nat, csv: bool, selected: nat)
    requires selected < width
  {
    exists i :: 0 <= i < |rows| && RowFault(rows[i], i, width, csv, selected) == Some(e)
                && NoFaults(rows[..i], width, csv, selected)
  }

  /** The inner loop: note the missing cells and the kinds of one row. */
  method NoteRow(row: Row, missing: seq<nat>, kinds: seq<set<Kind>>)
    returns (missing': seq<nat>, kinds': seq<set<Kind>>)
    requires |row| == |missing| == |kinds|
    requires forall i :: 0 <= i < |row| ==> !row[i].Nested?
    ensures |missing'| == |kinds'| == |row|
    ensures forall c :: 0 <= c < |row| ==> missing'[c] == missing[c] + Weigh(MissingAt(c), row)
    ensures forall c, k :: 0 <= c < |row| ==> (k in kinds'[c] <==> k in kinds[c] || ShowsKind(row, c, k))
  {
    missing', kinds' := missing, kinds;
    for index := 0 to |row|
      invariant |missing'| == |kinds'| == |row|
      invariant forall c :: 0 <= c < index ==> missing'[c] == missing[c] + Weigh(MissingAt(c), row)
      invariant forall c :: index <= c < |row| ==> missing'[c] == missing[c] && kinds'[c] == kinds[c]
      invariant forall c, k :: 0 <= c < index ==> (k in kinds'[c] <==> k in kinds[c] || ShowsKind(row, c, k))
    {
      if IsMissing(row[index]) {
        missing' := missing'[index := missing'[index] + 1];
      } else {
        kinds' := kinds'[index := kinds'[index] + {KindOf(row[index]).value}];
      }
    }
  }

  /** What the loop variables hold after the rows `done`. */
  ghost predicate Counted(done: seq<Row>, width: nat, selected: nat,
                          missing: seq<nat>, kinds: seq<set<Kind>>, seen: set<seq<Key>>, duplicates: nat, valid: nat)
    requires selected < width
  {
    && CleanRows(done, width, selected)
    && |missing| == |kinds| == width
    && (forall c :: 0 <= c < width ==> missing[c] == Sum(MissingAt(c), done))
    && (forall c, k :: 0 <= c < width ==> (k in kinds[c] <==> Occurs(k, done, c)))
    && seen == Keys(done) && duplicates == |done| - |seen|
    && valid + missing[selected] == |done|
  }

  ghost predicate Summed(done: seq<Row>, selected: nat, values: seq<Decimal>, total: Decimal,
                         least: Option<Decimal>, greatest: Option<Decimal>)
  {
    && AllInRange(values) && |values| <= |done|
    && total == Total(values, PRECISION)
    && ExactSum(values) == Sum(ValueAt(selected), done)
    && IsExtreme(least, done, selected, true) && IsExtreme(greatest, done, selected, false)
    && (values == [] <==> least == None) && (values == [] <==> greatest == None)
  }

  lemma CountRow(done: seq<Row>, row: Row, width: nat, selected: nat,
                 missing: seq<nat>, kinds: seq<set<Kind>>, seen: set<seq<Key>>, duplicates: nat, valid: nat,
                 missing': seq<nat>, kinds': seq<set<Kind>>)
    requires selected < width && Counted(done, width, selected, missing, kinds, seen, duplicates, valid)
    requires CleanRow(row, width, selected) && |missing'| == |kinds'| == width
    requires forall c :: 0 <= c < width ==> missing'[c] == missing[c] + Weigh(MissingAt(c), row)
    requires forall c, k :: 0 <= c < width ==> (k in kinds'[c] <==> k in kinds[c] || ShowsKind(row, c, k))
    ensures Counted(done + [row], width, selected, missing', kinds', seen + {RowKey(row)},
                    duplicates + (if RowKey(row) in seen then 1 else 0),
                    valid + (if HasValue(row, selected) then 1 else 0))
  {
    var all := done + [row];
    forall c | 0 <= c < width ensures missing'[c] == Sum(MissingAt(c), all) { SumAppend(MissingAt(c), done, row); }
    forall c, k | 0 <= c < width ensures k in kinds'[c] <==> Occurs(k, all, c) { OccursAppend(k, done, row, c); }
    KeysAppend(done, row);
    assert RowKey(row) in seen ==> seen + {RowKey(row)} == seen;
  }

  lemma SumRow(done: seq<Row>, row: Row, selected: nat, values: seq<Decimal>, total: Decimal,
               least: Option<Decimal>, greatest: Option<Decimal>)
    requires Summed(done, selected, values, total, least, greatest)
    ensures HasValue(row, selected) ==>
              var d := DecimalOf(row[selected]).value;
              Summed(done + [row], selected, values + [d], Add(total, d, PRECISION),
                     Better(least, d, true), Better(greatest, d, false))
    ensures !HasValue(row, selected) ==> Summed(done + [row], selected, values, total, least, greatest)
  {
    SumAppend(ValueAt(selected), done, row);
    ExtremeAppend(least, done, row, selected, true);
    ExtremeAppend(greatest, done, row, selected, false);
    if HasValue(row, selected) {
      var d := DecimalOf(row[selected]).value;
      AcceptedInRange(row[selected]);
      var more := values + [d];
      assert more[..|more| - 1] == values;
      assert AllInRange(more);
    }
  }

  lemma CellsAppend(rows: seq<TableRow>, n: nat)
    requires n < |rows| && AllCells(rows[..n + 1]) && AllCells(rows[..n])
    ensures CellsOf(rows[..n + 1]) == CellsOf(rows[..n]) + [rows[n].cells]
  {
    assert rows[..n + 1][..n] == rows[..n];
  }

  lemma CleanIfNoFault(row: TableRow, index: nat, width: nat, csv: bool, selected: nat)
    requires selected < width && RowFault(row, index, width, csv, selected) == None
    ensures row.Cells? && CleanRow(row.cells, width, selected)
    ensures HasValue(row.cells, selected) <==> !IsMissing(row.cells[selected])
  {
  }

  /** The loop's variables at its end. */
  datatype Scan = Scan(missing: seq<nat>, kinds: seq<set<Kind>>, duplicates: nat, valid: nat,
                       total: Decimal, minimum: Option<Decimal>, maximum: Option<Decimal>)

  ghost predicate Scanned(s: Scan, done: seq<Row>, width: nat, selected: nat, values: seq<Decimal>)
    requires selected < width
  {
    && Counted(done, width, selected, s.missing, s.kinds, Keys(done), s.duplicates, s.valid)
    && Summed(done, selected, values, s.total, s.minimum, s.maximum)
    && s.valid == |values|
  }

  /** The body of the loop for a row that is not at fault. */
  method ScanRow(scan: Scan, seen: set<seq<Key>>, row: Row, width: nat, selected: nat,
                 ghost done: seq<Row>, ghost values: seq<Decimal>)
    returns (scan': Scan, seen': set<seq<Key>>, ghost values': seq<Decimal>)
    requires selected < width && Scanned(scan, done, width, selected, values) && seen == Keys(done)
    requires CleanRow(row, width, selected)
    ensures Scanned(scan', done + [row], width, selected, values') && seen' == Keys(done + [row])
  {
    var missing, kinds := NoteRow(row, scan.missing, scan.kinds);
    var key := RowKey(row);
    var duplicates := scan.duplicates + (if key in seen then 1 else 0);
    seen' := seen + {key};
    CountRow(done, row, width, selected, scan.missing, scan.kinds, seen, scan.duplicates, scan.valid, missing, kinds);
    SumRow(done, row, selected, values, scan.total, scan.minimum, scan.maximum);
    KeysAppend(done, row);
    if IsMissing(row[selected]) {
      return Scan(missing, kinds, duplicates, scan.valid, scan.total, scan.minimum, scan.maximum), seen', values;
    }
    var value := DecimalOf(row[selected]).value;
    scan' := Scan(missing, kinds, duplicates, scan.valid + 1, Add(scan.total, value, PRECISION),
                  Better(scan.minimum, value, true), Better(scan.maximum, value, false));
    values' := values + [value];
  }

  lemma NextRowIsClean(rows: seq<TableRow>, n: nat, width: nat, csv: bool, selected: nat)
    requires selected < width && n < |rows|
    requires NoFaults(rows[..n], width, csv, selected) && AllCells(rows[..n])
    ensures RowFault(rows[n], n, width, csv, selected) == None ==>
              && NoFaults(rows[..n + 1], width, csv, selected) && AllCells(rows[..n + 1])
              && CleanRow(rows[n].cells, width, selected)
              && CellsOf(rows[..n + 1]) == CellsOf(rows[..n]) + [rows[n].cells]
    ensures RowFault(rows[n], n, width, csv, selected) != None ==>
              && !NoFaults(rows, width, csv, selected)
              && FirstFault(RowFault(rows[n], n, width, csv, selected).value, rows, width, csv, selected)
  {
    if RowFault(rows[n], n, width, csv, selected) == None {
      CleanIfNoFault(rows[n], n, width, csv, selected);
      assert rows[..n + 1] == rows[..n] + [rows[n]];
      CellsAppend(rows, n);
    }
  }

  lemma NothingScanned(width: nat, selected: nat, scan: Scan)
    requires selected < width && |scan.missing| == |scan.kinds| == width
    requires forall c :: 0 <= c < width ==> scan.missing[c] == 0 && scan.kinds[c] == {}
    requires scan.duplicates == 0 && scan.valid == 0 && scan.total == Zero
    requires scan.minimum == None && scan.maximum == None
    ensures Scanned(scan, [], width, selected, []) && Keys([]) == {}
  {
  }

  /** The loop of `calculate_statistics`: it stops at the first row at fault. */
  method ScanRows(width: nat, rows: seq<TableRow>, csv: bool, selected: nat)
    returns (r: Result<Scan, Error>, ghost values: seq<Decimal>)
    requires selected < width
    ensures r.Ok? <==> NoFaults(rows, width, csv, selected)
    ensures r.Ok? ==> AllCells(rows) && Scanned(r.value, CellsOf(rows), width, selected, values)
    ensures r.Err? ==> FirstFault(r.error, rows, width, csv, selected)
  {
    var scan := Scan(seq(width, _ => 0), seq(width, _ => {}), 0, 0, Zero, None, None);
    var seen: set<seq<Key>> := {};
    values := [];
    NothingScanned(width, selected, scan);
    var rowCount := 0;
    while rowCount < |rows|
      invariant 0 <= rowCount <= |rows|
      invariant NoFaults(rows[..rowCount], width, csv, selected) && AllCells(rows[..rowCount])
      invariant Scanned(scan, CellsOf(rows[..rowCount]), width, selected, values)
      invariant seen == Keys(CellsOf(rows[..rowCount]))
    {
      NextRowIsClean(rows, rowCount, width, csv, selected);
      var fault := RowFault(rows[rowCount], rowCount, width, csv, selected);
      if fault.Some? {
        return Err(fault.value), values;
      }
      scan, seen, values :=
        ScanRow(scan, seen, rows[rowCount].cells, width, selected, CellsOf(rows[..rowCount]), values);
      rowCount := rowCount + 1;
    }
    assert rows[..rowCount] == rows;
    r := Ok(scan);
  }

  /** The result assembled from the loop's variables. */
  function Assemble(names: seq<string>, rowCount: nat, s: Scan, selected: nat): Statistics
    requires selected < |names| == |s.missing| == |s.kinds| && s.minimum.Some? && s.maximum.Some?
  {
    Statistics(
      names[selected], rowCount,
      seq(|names|, c requires 0 <= c < |names| == |s.missing| == |s.kinds| =>
            Column(names[c], SortedKinds(s.kinds[c]), s.missing[c])),
      s.duplicates, DecimalText(s.total), s.valid, s.missing[selected],
      DecimalText(s.minimum.value), DecimalText(s.maximum.value), Warnings(s.missing[selected], s.duplicates),
      Summary(rowCount, names[selected], s.valid, DecimalText(s.total), s.missing[selected], s.duplicates))
  }

  /** The error for a table without faults in which the column has no value. */
  function WithoutValues(rows: seq<TableRow>): Error {
    if rows == [] then InvalidTable else NoNumericValues
  }

  /** `calculate_statistics` on a parsed table. It succeeds if and only if no row is at
      fault and some row has a value; otherwise it reports the first fault. A result is
      the one the declarative description demands. */
  method Calculate(names: seq<string>, rows: seq<TableRow>, csv: bool, selected: nat)
    returns (r: Result<Statistics, Error>)
    requires selected < |names|
    ensures r.Ok? ==> NoFaults(rows, |names|, csv, selected) && AllCells(rows)
    ensures r.Ok? ==> Describes(r.value, names, CellsOf(rows), selected)
    ensures r.Ok? <==> NoFaults(rows, |names|, csv, selected) && SomeValue(rows, selected)
    ensures r.Err? ==>
              || FirstFault(r.error, rows, |names|, csv, selected)
              || (NoFaults(rows, |names|, csv, selected) && r.error == WithoutValues(rows))
  {
    ghost var values;
    var scan;
    scan, values := ScanRows(|names|, rows, csv, selected);
    if scan.Err? {
      assert !NoFaults(rows, |names|, csv, selected);
      return Err(scan.error);
    }
    CountsOfScan(rows, scan.value, |names|, csv, selected, values);
    if |rows| == 0 {
      return Err(InvalidTable);
    }
    if scan.value.valid == 0 {
      return Err(NoNumericValues);
    }
    r := Ok(Assemble(names, |rows|, scan.value, selected));
    AssembledIsDescribed(names, CellsOf(rows), scan.value, selected, values);
  }

  ghost predicate SomeValue(rows: seq<TableRow>, selected: nat) {
    exists i :: 0 <= i < |rows| && rows[i].Cells? && HasValue(rows[i].cells, selected)
  }

  lemma CountsOfScan(rows: seq<TableRow>, s: Scan, width: nat, csv: bool, selected: nat, values: seq<Decimal>)
    requires selected < width && NoFaults(rows, width, csv, selected) && AllCells(rows)
    requires Scanned(s, CellsOf(rows), width, selected, values)
    ensures |CellsOf(rows)| == |rows| <= MAX_ROWS
    ensures s.valid > 0 <==> SomeValue(rows, selected)
    ensures s.valid > 0 <==> values != []
  {
    ValuesAreInRows(rows);
    if rows != [] { assert RowFault(rows[|rows| - 1], |rows| - 1, width, csv, selected) == None; }
    if s.valid > 0 {
      var row :| row in CellsOf(rows) && HasValue(row, selected);
      var i :| 0 <= i < |rows| && CellsOf(rows)[i] == row;
      assert HasValue(rows[i].cells, selected);
    } else {
      assert forall i :: 0 <= i < |rows| ==> rows[i].cells in CellsOf(rows);
    }
  }

  lemma ColumnIsDescribed(names: seq<string>, done: seq<Row>, s: Scan, selected: nat, values: seq<Decimal>, c: nat)
    requires selected < |names| && c < |names| && Scanned(s, done, |names|, selected, values) && values != []
    ensures DescribesColumn(Assemble(names, |done|, s, selected).columns[c], names[c], done, c)
  {
    assert s.kinds[c] == set k: Kind | k in {BooleanKind, NumberKind, StringKind} && Occurs(k, done, c);
  }

  lemma AssembledIsDescribed(names: seq<string>, done: seq<Row>, s: Scan, selected: nat, values: seq<Decimal>)
    requires selected < |names| && Scanned(s, done, |names|, selected, values) && values != [] && |done| <= MAX_ROWS
    ensures Describes(Assemble(names, |done|, s, selected), names, done, selected)
  {
    var r := Assemble(names, |done|, s, selected);
    forall c | 0 <= c < |names| ensures DescribesColumn(r.columns[c], names[c], done, c) {
      ColumnIsDescribed(names, done, s, selected, values, c);
    }
    assert r.value == DecimalText(OfScaled(Sum(ValueAt(selected), done))) by {
      TotalIsExact(values);
      TextOfScaled(s.total);
    }
    ExtremeIsDescribed(s.minimum.value, done, selected, true);
    ExtremeIsDescribed(s.maximum.value, done, selected, false);
  }

  lemma ExtremeIsDescribed(m: Decimal, done: seq<Row>, selected: nat, least: bool)
    requires IsExtreme(Some(m), done, selected, least)
    ensures DescribesBound(DecimalText(m), done, selected, least)
  {
    TextOfScaled(m);
  }

  lemma {:induction false} ValuesAreInRows(rows: seq<TableRow>)
    requires AllCells(rows)
    ensures |CellsOf(rows)| == |rows|
    ensures forall i :: 0 <= i < |rows| ==> CellsOf(rows)[i] == rows[i].cells
    decreases |rows|
  {
    if rows != [] { ValuesAreInRows(rows[..|rows| - 1]); }
  }

  lemma TextOfScaled(m: Decimal)
    requires m.exponent >= -18
    ensures DecimalText(m) == DecimalText(OfScaled(Scaled(m, 18)))
  {
    var n := Scaled(m, 18);
    CompareAtAnyScale(m, OfScaled(n), 18);
    SameTextIffSameNumber(m, OfScaled(n));
  }

  // ---- the order of the rows ----

  lemma {:induction false} SumRemove(weight: Weight, rows: seq<Row>, i: nat)
    requires i < |rows|
    ensures Sum(weight, rows) == Sum(weight, rows[..i] + rows[i + 1..]) + Weigh(weight, rows[i])
    decreases |rows|
  {
    var last := |rows| - 1;
    if i == last {
      assert rows[..i] + rows[i + 1..] == rows[..last];
    } else {
      var rest := rows[..i] + rows[i + 1..];
      SumRemove(weight, rows[..last], i);
      assert rest[..|rest| - 1] == rows[..last][..i] + rows[..last][i + 1..];
      assert rest[|rest| - 1] == rows[last];
    }
  }

  lemma RemoveFromMultiset(b: seq<Row>, i: nat)
    requires i < |b|
    ensures multiset(b[..i] + b[i + 1..]) == multiset(b) - multiset{b[i]}
  {
    assert b == b[..i] + [b[i]] + b[i + 1..];
    assert multiset(b) == multiset(b[..i]) + multiset{b[i]} + multiset(b[i + 1..]);
  }

  lemma PlaceOf(row: Row, a: seq<Row>, b: seq<Row>) returns (i: nat)
    requires row in a && multiset(a) == multiset(b)
    ensures i < |b| && b[i] == row
  {
    assert row in multiset(a) && row in multiset(b);
    i :| i < |b| && b[i] == row;
  }

  lemma {:induction false} SumIgnoresOrder(weight: Weight, a: seq<Row>, b: seq<Row>)
    requires multiset(a) == multiset(b)
    ensures Sum(weight, a) == Sum(weight, b)
    decreases |a|
  {
    assert |a| == |multiset(a)| == |multiset(b)| == |b|;
    if a != [] {
      var last := |a| - 1;
      var i := PlaceOf(a[last], a, b);
      SumRemove(weight, b, i);
      assert multiset(a[..last]) == multiset(b[..i] + b[i + 1..]) by {
        RemoveFromMultiset(a, last);
        RemoveFromMultiset(b, i);
        assert a[..last] + a[last + 1..] == a[..last];
      }
      SumIgnoresOrder(weight, a[..last], b[..i] + b[i + 1..]);
    }
  }

  lemma SameMembers(a: seq<Row>, b: seq<Row>)
    requires multiset(a) == multiset(b)
    ensures |a| == |b| && forall row :: row in a <==> row in b
  {
    assert |a| == |multiset(a)| == |multiset(b)| == |b|;
    assert forall row :: row in a <==> row in multiset(a);
    assert forall row :: row in b <==> row in multiset(b);
  }

  lemma BoundIgnoresOrder(x: string, y: string, a: seq<Row>, b: seq<Row>, selected: nat, least: bool)
    requires (forall row :: row in a <==> row in b)
    requires DescribesBound(x, a, selected, least) && DescribesBound(y, b, selected, least)
    ensures x == y
  {
    var n :| IsBound(n, a, selected, least) && x == DecimalText(OfScaled(n));
    var m :| IsBound(m, b, selected, least) && y == DecimalText(OfScaled(m));
    assert n == m;
  }

  lemma ColumnIgnoresOrder(x: Column, y: Column, name: string, a: seq<Row>, b: seq<Row>, c: nat)
    requires multiset(a) == multiset(b) && DescribesColumn(x, name, a, c) && DescribesColumn(y, name, b, c)
    ensures x == y
  {
    SumIgnoresOrder(MissingAt(c), a, b);
    SameMembers(a, b);
    forall k: Kind ensures Occurs(k, a, c) <==> Occurs(k, b, c) {
    }
  }

  /** The whole result, texts included, is the same for every order of the rows. */
  lemma OrderDoesNotMatter(s: Statistics, t: Statistics, names: seq<string>, a: seq<Row>, b: seq<Row>, selected: nat)
    requires selected < |names| && multiset(a) == multiset(b)
    requires Describes(s, names, a, selected) && Describes(t, names, b, selected)
    ensures s == t
  {
    SameMembers(a, b);
    SumIgnoresOrder(MissingAt(selected), a, b);
    SumIgnoresOrder(ValueAt(selected), a, b);
    BoundIgnoresOrder(s.minimum, t.minimum, a, b, selected, true);
    BoundIgnoresOrder(s.maximum, t.maximum, a, b, selected, false);
    assert Keys(a) == Keys(b);
    forall c | 0 <= c < |names| ensures s.columns[c] == t.columns[c] {
      ColumnIgnoresOrder(s.columns[c], t.columns[c], names[c], a, b, c);
    }
    assert s.columns == t.columns;
  }

  // ---- the validator of `statistics-result.ts` ----

  predicate ValidName(name: string) {
    1 <= |name| <= 128
  }

  function Rank(k: Kind): int {
    match k
    case BooleanKind => 0
    case NumberKind => 1
    case StringKind => 2
  }

  predicate SortedUnique(types: seq<Kind>) {
    forall i, j :: 0 <= i < j < |types| ==> Rank(types[i]) < Rank(types[j])
  }

  predicate AcceptsColumn(c: Column, rowCount: nat) {
    && ValidName(c.name) && |c.types| <= 3 && c.missing <= 50_000
    && c.missing <= rowCount
    && (|c.types| == 0) == (c.missing == rowCount)
    && SortedUnique(c.types)
  }

  /** The schema and the cross-field checks of `superRefine`. */
  predicate Accepts(s: Statistics) {
    && ValidName(s.column)
    && 1 <= s.rowCount <= 50_000 && 1 <= |s.columns| <= 64 && s.duplicates <= 50_000
    && IsDecimalText(s.value) && IsDecimalText(s.minimum) && IsDecimalText(s.maximum)
    && 1 <= s.validCount <= 50_000 && s.missingCount <= 50_000
    && 1 <= |s.warnings| <= 3
    && s.rowCount * |s.columns| <= 250_000
    && s.validCount + s.missingCount == s.rowCount
    && s.duplicates < s.rowCount
    && (forall i, j :: 0 <= i < j < |s.columns| ==> s.columns[i].name != s.columns[j].name)
    && (forall i :: 0 <= i < |s.columns| ==> AcceptsColumn(s.columns[i], s.rowCount))
    && (exists i :: 0 <= i < |s.columns| && s.columns[i].name == s.column
          && (forall j :: 0 <= j < i ==> s.columns[j].name != s.column)
          && s.columns[i].types == [NumberKind] && s.columns[i].missing == s.missingCount)
    && s.warnings == Warnings(s.missingCount, s.duplicates)
    && s.summary == Summary(s.rowCount, s.column, s.validCount, s.value, s.missingCount, s.duplicates)
  }

  predicate IsBlank(s: string) {
    LStrip(s) == ""
  }

  predicate HasControl(s: string) {
    exists i :: 0 <= i < |s| && (s[i] as int < 32 || s[i] as int == 127)
  }

  /** `_columns`. */
  function CheckColumns(names: seq<string>): Option<Error> {
    if |names| == 0 || |names| > MAX_COLUMNS then Some(TableLimit)
    else if (exists i :: 0 <= i < |names| && (IsBlank(names[i]) || |names[i]| > 128 || HasControl(names[i])))
            || (exists i, j :: 0 <= i < j < |names| && names[i] == names[j])
    then Some(InvalidColumns)
    else None
  }

  lemma {:induction false} MissingSum(rows: seq<Row>, c: nat)
    ensures 0 <= Sum(MissingAt(c), rows) <= |rows|
    ensures Sum(MissingAt(c), rows) == |rows| <==> forall row :: row in rows ==> Weigh(MissingAt(c), row) == 1
    decreases |rows|
  {
    if rows != [] {
      var front, last := rows[..|rows| - 1], rows[|rows| - 1];
      MissingSum(front, c);
      assert forall row :: row in rows <==> row in front || row == last;
    }
  }

  /** A column has no kinds exactly when every cell is missing. */
  lemma NoKindsIffAllMissing(rows: seq<Row>, width: nat, selected: nat, c: nat)
    requires selected < width && c < width && CleanRows(rows, width, selected)
    ensures Sum(MissingAt(c), rows) == |rows| <==> forall k: Kind :: !Occurs(k, rows, c)
  {
    MissingSum(rows, c);
    if Sum(MissingAt(c), rows) != |rows| {
      var row :| row in rows && Weigh(MissingAt(c), row) != 1;
      assert CleanRow(row, width, selected);
      assert Occurs(KindOf(row[c]).value, rows, c);
    }
  }

  /** The selected column shows numbers only, and at least one. */
  lemma SelectedIsNumeric(rows: seq<Row>, width: nat, selected: nat)
    requires selected < width && CleanRows(rows, width, selected)
    requires exists row :: row in rows && HasValue(row, selected)
    ensures forall k: Kind :: Occurs(k, rows, selected) <==> k == NumberKind
  {
    var row :| row in rows && HasValue(row, selected);
    assert KindOf(row[selected]) == Ok(NumberKind);
    assert Occurs(NumberKind, rows, selected);
    forall k: Kind | Occurs(k, rows, selected) ensures k == NumberKind {
      var r :| r in rows && selected < |r| && !IsMissing(r[selected]) && KindOf(r[selected]) == Ok(k);
      assert CleanRow(r, width, selected);
    }
  }

  lemma ColumnIsAccepted(column: Column, name: string, rows: seq<Row>, width: nat, selected: nat, c: nat)
    requires selected < width && c < width && CleanRows(rows, width, selected) && |rows| <= MAX_ROWS
    requires DescribesColumn(column, name, rows, c) && ValidName(name)
    ensures AcceptsColumn(column, |rows|)
  {
    MissingSum(rows, c);
    NoKindsIffAllMissing(rows, width, selected, c);
  }

  lemma TextsAreAccepted(s: Statistics, names: seq<string>, rows: seq<Row>, selected: nat)
    requires selected < |names| && Describes(s, names, rows, selected)
    ensures IsDecimalText(s.value) && IsDecimalText(s.minimum) && IsDecimalText(s.maximum)
  {
    var n :| IsBound(n, rows, selected, true) && s.minimum == DecimalText(OfScaled(n));
    var m :| IsBound(m, rows, selected, false) && s.maximum == DecimalText(OfScaled(m));
    var r1 := TextIsExact(OfScaled(n));
    var r2 := TextIsExact(OfScaled(m));
    var r3 := TextIsExact(OfScaled(Sum(ValueAt(selected), rows)));
  }

  /** There is a value, so fewer cells are missing than there are rows, and the first row
      is not a duplicate. */
  lemma CountsAreAccepted(s: Statistics, names: seq<string>, rows: seq<Row>, selected: nat)
    requires selected < |names| && Describes(s, names, rows, selected) && rows != []
    ensures s.missingCount < s.rowCount && s.duplicates < s.rowCount
    ensures exists row :: row in rows && HasValue(row, selected)
  {
    var n :| IsBound(n, rows, selected, true) && s.minimum == DecimalText(OfScaled(n));
    var row :| row in rows && HasValue(row, selected) && ScaledValue(row, selected) == n;
    MissingSum(rows, selected);
    assert Weigh(MissingAt(selected), row) == 0;
    assert RowKey(rows[0]) in Keys(rows);
    assert |Keys(rows)| > 0;
  }

  lemma NamesAreAccepted(names: seq<string>)
    requires CheckColumns(names) == None
    ensures 1 <= |names| <= 64 && forall i :: 0 <= i < |names| ==> ValidName(names[i])
    ensures forall i, j :: 0 <= i < j < |names| ==> names[i] != names[j]
  {
    forall i | 0 <= i < |names| ensures ValidName(names[i]) {
      assert !IsBlank(names[i]);
    }
  }

  lemma SelectedIsFound(s: Statistics, names: seq<string>, rows: seq<Row>, selected: nat)
    requires selected < |names| && CheckColumns(names) == None && CleanRows(rows, |names|, selected)
    requires Describes(s, names, rows, selected) && rows != []
    ensures s.columns[selected].name == s.column && s.columns[selected].types == [NumberKind]
            && s.columns[selected].missing == s.missingCount
    ensures forall j :: 0 <= j < selected ==> s.columns[j].name != s.column
  {
    NamesAreAccepted(names);
    CountsAreAccepted(s, names, rows, selected);
    SelectedIsNumeric(rows, |names|, selected);
    assert DescribesColumn(s.columns[selected], names[selected], rows, selected);
    assert (set k: Kind | k in {BooleanKind, NumberKind, StringKind} && Occurs(k, rows, selected)) == {NumberKind};
  }

  lemma ColumnsAreAccepted(s: Statistics, names: seq<string>, rows: seq<Row>, selected: nat)
    requires selected < |names| && CheckColumns(names) == None && CleanRows(rows, |names|, selected)
    requires Describes(s, names, rows, selected) && |rows| <= MAX_ROWS
    ensures forall c :: 0 <= c < |s.columns| ==> AcceptsColumn(s.columns[c], s.rowCount)
    ensures forall i, j :: 0 <= i < j < |s.columns| ==> s.columns[i].name != s.columns[j].name
  {
    NamesAreAccepted(names);
    forall c | 0 <= c < |names| ensures AcceptsColumn(s.columns[c], s.rowCount) && s.columns[c].name == names[c] {
      assert DescribesColumn(s.columns[c], names[c], rows, c);
      ColumnIsAccepted(s.columns[c], names[c], rows, |names|, selected, c);
    }
  }

  /** Every described result of an accepted table passes the validator. */
  lemma DescribedIsAccepted(s: Statistics, names: seq<string>, rows: seq<Row>, selected: nat)
    requires selected < |names| && CheckColumns(names) == None && CleanRows(rows, |names|, selected)
    requires Describes(s, names, rows, selected) && rows != [] && |rows| <= MAX_ROWS && |rows| * |names| <= MAX_CELLS
    ensures Accepts(s)
  {
    NamesAreAccepted(names);
    TextsAreAccepted(s, names, rows, selected);
    CountsAreAccepted(s, names, rows, selected);
    SelectedIsFound(s, names, rows, selected);
    ColumnsAreAccepted(s, names, rows, selected);
  }

  lemma NoFaultsMeansClean(rows: seq<TableRow>, width: nat, csv: bool, selected: nat)
    requires selected < width && NoFaults(rows, width, csv, selected) && rows != []
    ensures AllCells(rows) && CleanRows(CellsOf(rows), width, selected)
    ensures |CellsOf(rows)| == |rows| <= MAX_ROWS && |rows| * width <= MAX_CELLS
  {
    assert RowFault(rows[|rows| - 1], |rows| - 1, width, csv, selected) == None;
    forall i | 0 <= i < |rows| ensures rows[i].Cells? && CleanRow(rows[i].cells, width, selected) {
      CleanIfNoFault(rows[i], i, width, csv, selected);
    }
    ValuesAreInRows(rows);
  }

  // ---- the whole of `calculate_statistics` ----

  function IndexOf(names: seq<string>, column: string): (i: nat)
    requires column in names
    ensures i < |names| && names[i] == column && forall j :: 0 <= j < i ==> names[j] != column
  {
    if names[0] == column then 0 else 1 + IndexOf(names[1..], column)
  }

  /** The checks before the loop. */
  function CheckRequest(size: nat, csv: bool, names: seq<string>, rows: seq<TableRow>, column: string): Option<Error> {
    if size > MAX_BYTES then Some(TableLimit)
    else if column == "" || |column| > 128 then Some(InvalidColumn)
    else if !csv && rows == [] then Some(InvalidTable)
    else if !csv && |rows| > MAX_ROWS then Some(TableLimit)
    else if CheckColumns(names).Some? then CheckColumns(names)
    else if csv && exists i :: 0 <= i < |names| && IsFormula(Text(names[i])) then Some(UnsafeFormula)
    else if column !in names then Some(ColumnNotFound)
    else None
  }

  /** The requests that lead to a result. */
  ghost predicate Calculable(size: nat, csv: bool, names: seq<string>, rows: seq<TableRow>, column: string) {
    && CheckRequest(size, csv, names, rows, column) == None
    && NoFaults(rows, |names|, csv, IndexOf(names, column)) && SomeValue(rows, IndexOf(names, column))
  }

  ghost predicate FailsWith(e: Error, size: nat, csv: bool, names: seq<string>, rows: seq<TableRow>, column: string) {
    if CheckRequest(size, csv, names, rows, column).Some? then CheckRequest(size, csv, names, rows, column) == Some(e)
    else
      var selected := IndexOf(names, column);
      || FirstFault(e, rows, |names|, csv, selected)
      || (NoFaults(rows, |names|, csv, selected) && e == WithoutValues(rows))
  }

  /** From the size of the file, its header and its rows to the result. Every result it
      returns is the described one and is accepted by the validator; an error is that of the
      checks before the loop, or else of the first row at fault, or else that there is no value. */
  method CalculateStatistics(size: nat, csv: bool, names: seq<string>, rows: seq<TableRow>, column: string)
    returns (r: Result<Statistics, Error>)
    ensures r.Ok? <==> Calculable(size, csv, names, rows, column)
    ensures r.Ok? ==>
              AllCells(rows) && Describes(r.value, names, CellsOf(rows), IndexOf(names, column)) && Accepts(r.value)
    ensures r.Err? ==> FailsWith(r.error, size, csv, names, rows, column)
  {
    var fault := CheckRequest(size, csv, names, rows, column);
    if fault.Some? {
      return Err(fault.value);
    }
    var selected := IndexOf(names, column);
    r := Calculate(names, rows, csv, selected);
    if r.Ok? {
      NoFaultsMeansClean(rows, |names|, csv, selected);
      DescribedIsAccepted(r.value, names, CellsOf(rows), selected);
    }
  }

  lemma {:induction false} CellsMultiplicity(rows: seq<TableRow>, row: Row)
    requires AllCells(rows)
    ensures multiset(CellsOf(rows))[row] == multiset(rows)[Cells(row)]
    decreases |rows|
  {
    if rows != [] {
      var front, last := rows[..|rows| - 1], rows[|rows| - 1];
      CellsMultiplicity(front, row);
      assert rows == front + [last];
      assert multiset(rows) == multiset(front) + multiset{last};
      assert last == Cells(row) <==> last.cells == row;
    }
  }

  lemma SameCells(a: seq<TableRow>, b: seq<TableRow>)
    requires multiset(a) == multiset(b) && AllCells(a) && AllCells(b)
    ensures multiset(CellsOf(a)) == multiset(CellsOf(b))
  {
    forall row ensures multiset(CellsOf(a))[row] == multiset(CellsOf(b))[row] {
      CellsMultiplicity(a, row);
      CellsMultiplicity(b, row);
    }
  }

  /** Two tables with the same rows in any order have the same result, texts included. */
  lemma SameRowsSameResult(s: Statistics, t: Statistics, names: seq<string>,
                           a: seq<TableRow>, b: seq<TableRow>, selected: nat)
    requires selected < |names| && multiset(a) == multiset(b) && AllCells(a) && AllCells(b)
    requires Describes(s, names, CellsOf(a), selected) && Describes(t, names, CellsOf(b), selected)
    ensures s == t
  {
    SameCells(a, b);
    OrderDoesNotMatter(s, t, names, CellsOf(a), CellsOf(b), selected);
  }

  lemma FewerCells(n: nat, m: nat, width: nat)
    requires n <= m
    ensures n * width <= m * width
  {
  }

  lemma SameRows(a: seq<TableRow>, b: seq<TableRow>)
    requires multiset(a) == multiset(b)
    ensures |a| == |b| && forall i :: 0 <= i < |b| ==> exists j :: 0 <= j < |a| && a[j] == b[i]
  {
    assert |a| == |multiset(a)| == |multiset(b)| == |b|;
    forall i | 0 <= i < |b| ensures exists j :: 0 <= j < |a| && a[j] == b[i] {
      assert b[i] in multiset(a);
    }
  }

  lemma FaultsIgnoreOrder(a: seq<TableRow>, b: seq<TableRow>, width: nat, csv: bool, selected: nat)
    requires selected < width && multiset(a) == multiset(b) && NoFaults(a, width, csv, selected)
    ensures NoFaults(b, width, csv, selected)
  {
    SameRows(a, b);
    forall i | 0 <= i < |b| ensures RowFault(b[i], i, width, csv, selected) == None {
      var j :| 0 <= j < |a| && a[j] == b[i];
      assert RowFault(a[j], j, width, csv, selected) == None;
      var last := |a| - 1;
      assert RowFault(a[last], last, width, csv, selected) == None;
      FewerCells(i + 1, last + 1, width);
    }
  }

  lemma ValuesIgnoreOrder(a: seq<TableRow>, b: seq<TableRow>, selected: nat)
    requires multiset(a) == multiset(b) && SomeValue(a, selected)
    ensures SomeValue(b, selected)
  {
    SameRows(b, a);
    var i :| 0 <= i < |a| && a[i].Cells? && HasValue(a[i].cells, selected);
    var j :| 0 <= j < |b| && b[j] == a[i];
    assert HasValue(b[j].cells, selected);
  }

  /** Whether a table leads to a result does not depend on the order of its rows. */
  lemma AcceptanceIgnoresOrder(size: nat, csv: bool, names: seq<string>, a: seq<TableRow>, b: seq<TableRow>,
                               column: string)
    requires multiset(a) == multiset(b)
    ensures Calculable(size, csv, names, a, column) <==> Calculable(size, csv, names, b, column)
  {
    SameRows(a, b);
    assert CheckRequest(size, csv, names, a, column) == CheckRequest(size, csv, names, b, column);
    if CheckRequest(size, csv, names, a, column) == None {
      var selected := IndexOf(names, column);
      if Calculable(size, csv, names, a, column) {
        FaultsIgnoreOrder(a, b, |names|, csv, selected);
        ValuesIgnoreOrder(a, b, selected);
      }
      if Calculable(size, csv, names, b, column) {
        FaultsIgnoreOrder(b, a, |names|, csv, selected);
        ValuesIgnoreOrder(b, a, selected);
      }
    }
  }
}
