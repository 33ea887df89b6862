/** SummationProcessor: per-column positive and negative totals of the numeric cells, and
    the net total over several columns that a report run returns. */
module Summation {
  import opened Wrappers
  import opened JavaText
  import opened Numbers
  import opened Table
  import opened Seqs

  /** The inner `{positive, negative}` map of one column. */
  datatype Sums = Sums(positive: real, negative: real)

  /** `getOrDefault(column, "").replace(",", ".").trim()`: a decimal comma reads as a point. */
  function NormalizedCell(row: Row, column: string): string {
    Trim(ReplaceChar(Cell(row, column), ',', '.'))
  }

  /** The value a cell contributes, `None` when it is empty or does not parse; both cases are
      skipped. */
  function Amount(row: Row, column: string): (r: Option<real>)
    ensures NormalizedCell(row, column) == "" ==> r == None
    ensures NormalizedCell(row, column) != "" ==> r == ParseDouble(NormalizedCell(row, column))
  {
    var valueStr := NormalizedCell(row, column);
    if valueStr == "" then None else ParseDouble(valueStr)
  }

  /** A blank cell (empty, or only characters `trim` strips) is skipped. */
  lemma BlankCellSkipped(row: Row, column: string)
    requires forall k :: 0 <= k < |Cell(row, column)| ==> IsTrimmable(Cell(row, column)[k])
    ensures Amount(row, column) == None
  {
    var s := Cell(row, column);
    assert ReplaceChar(s, ',', '.') == s by {
      forall k | 0 <= k < |s| ensures s[k] != ',' {
        assert IsTrimmable(s[k]);
      }
    }
    TrimBlank(s);
  }

  /** A cell of digits reads as the whole number they spell. */
  lemma WholeCellAmount(row: Row, column: string, a: string)
    requires Cell(row, column) == a
    requires a != [] && AllDigits(a)
    ensures Amount(row, column) == Some(DigitsValue(a) as real)
  {
    assert IsDigit(a[0]) && IsDigit(a[|a| - 1]);
    assert ',' !in a by {
      forall k | 0 <= k < |a| ensures a[k] != ',' {
        assert IsDigit(a[k]);
      }
    }
    ReplaceCharAbsent(a, ',', '.');
    TrimNoOp(a);
    ParseWholeString(a);
  }

  /** A cell "a.b" of digits reads as the decimal it spells. */
  lemma PointCellAmount(row: Row, column: string, a: string, b: string)
    requires Cell(row, column) == a + "." + b
    requires a != [] && AllDigits(a) && AllDigits(b)
    ensures Amount(row, column) == Some(DecimalValue(a, b))
  {
    var s := a + "." + b;
    assert s[0] == a[0] && IsDigit(a[0]);
    assert ',' !in s by {
      forall k | 0 <= k < |s| ensures s[k] != ',' {
        if k < |a| { assert s[k] == a[k] && IsDigit(a[k]); }
        else if k > |a| { assert s[k] == b[k - |a| - 1] && IsDigit(b[k - |a| - 1]); }
      }
    }
    ReplaceCharAbsent(s, ',', '.');
    WrittenDecimalTrims(a, b);
    ParseDecimalString(a, b);
  }

  /** A cell "a,b" of digits, written with a decimal comma, reads as the decimal "a.b". */
  lemma CommaCellAmount(row: Row, column: string, a: string, b: string)
    requires Cell(row, column) == a + "," + b
    requires a != [] && AllDigits(a) && AllDigits(b)
    ensures Amount(row, column) == Some(DecimalValue(a, b))
  {
    var s, t := a + "," + b, a + "." + b;
    forall k | 0 <= k < |s| ensures ReplaceChar(s, ',', '.')[k] == t[k] {
      if k < |a| { assert s[k] == a[k] && t[k] == a[k] && IsDigit(a[k]); }
      else if k > |a| { assert s[k] == b[k - |a| - 1] && t[k] == b[k - |a| - 1] && IsDigit(b[k - |a| - 1]); }
    }
    assert ReplaceChar(s, ',', '.') == t;
    WrittenDecimalTrims(a, b);
    ParseDecimalString(a, b);
  }

  /** "a.b" starts with a digit and ends with a digit or the point, so `trim` keeps it. */
  lemma WrittenDecimalTrims(a: string, b: string)
    requires a != [] && AllDigits(a) && AllDigits(b)
    ensures Trim(a + "." + b) == a + "." + b
  {
    var t := a + "." + b;
    assert t[0] == a[0] && IsDigit(a[0]);
    if b != [] {
      assert t[|t| - 1] == b[|b| - 1] && IsDigit(b[|b| - 1]);
    } else {
      assert t[|t| - 1] == '.';
    }
    TrimNoOp(t);
  }

  /** The part of an amount that goes to `positive`: only values above zero. */
  function PositivePart(a: Option<real>): (r: real)
    ensures r >= 0.0
    ensures r > 0.0 <==> a.Some? && a.value > 0.0
    ensures r > 0.0 ==> r == a.value
  {
    if a.Some? && a.value > 0.0 then a.value else 0.0
  }

  /** The part of an amount that goes to `negative`: only values below zero. */
  function NegativePart(a: Option<real>): (r: real)
    ensures r <= 0.0
    ensures r < 0.0 <==> a.Some? && a.value < 0.0
    ensures r < 0.0 ==> r == a.value
  {
    if a.Some? && a.value < 0.0 then a.value else 0.0
  }

  /** The value an amount adds to a net total: the parsed value, or nothing. */
  function NetPart(a: Option<real>): real {
    if a.Some? then a.value else 0.0
  }

  /** Zero goes to neither bucket, and together the two buckets carry the whole value. */
  lemma PartsSplitAmount(a: Option<real>)
    ensures PositivePart(a) + NegativePart(a) == NetPart(a)
    ensures a == Some(0.0) ==> PositivePart(a) == 0.0 && NegativePart(a) == 0.0
  {
  }

  /** What one row adds to `positive` of `column`: one contribution per listed occurrence
      of the column. */
  function RowPositive(row: Row, columns: seq<string>, column: string): (r: real)
    ensures r >= 0.0
  {
    if columns == [] then 0.0
    else
      RowPositive(row, columns[..|columns| - 1], column) +
      (if columns[|columns| - 1] == column then PositivePart(Amount(row, column)) else 0.0)
  }

  function RowNegative(row: Row, columns: seq<string>, column: string): (r: real)
    ensures r <= 0.0
  {
    if columns == [] then 0.0
    else
      RowNegative(row, columns[..|columns| - 1], column) +
      (if columns[|columns| - 1] == column then NegativePart(Amount(row, column)) else 0.0)
  }

  /** The final `positive` entry of `column`. */
  function PositiveSum(data: Rows, columns: seq<string>, column: string): (r: real)
    ensures r >= 0.0
  {
    if data == [] then 0.0
    else PositiveSum(data[..|data| - 1], columns, column) + RowPositive(data[|data| - 1], columns, column)
  }

  /** The final `negative` entry of `column`. */
  function NegativeSum(data: Rows, columns: seq<string>, column: string): (r: real)
    ensures r <= 0.0
  {
    if data == [] then 0.0
    else NegativeSum(data[..|data| - 1], columns, column) + RowNegative(data[|data| - 1], columns, column)
  }

  /** The step of the inner loop: one more listed column adds that column's parts. */
  lemma RowStep(row: Row, columns: seq<string>, j: nat)
    requires j < |columns|
    ensures forall c ::
      RowPositive(row, columns[..j + 1], c) ==
        RowPositive(row, columns[..j], c) + (if columns[j] == c then PositivePart(Amount(row, c)) else 0.0)
    ensures forall c ::
      RowNegative(row, columns[..j + 1], c) ==
        RowNegative(row, columns[..j], c) + (if columns[j] == c then NegativePart(Amount(row, c)) else 0.0)
  {
    assert columns[..j + 1][..j] == columns[..j];
  }

  /** The first loop of `calculateSums`: every listed column starts at {0, 0}. */
  method InitialSums(numericColumns: seq<string>) returns (columnSums: map<string, Sums>)
    ensures columnSums.Keys == set c | c in numericColumns
    ensures forall c :: c in columnSums ==> columnSums[c] == Sums(0.0, 0.0)
  {
    columnSums := map[];
    for j := 0 to |numericColumns|
      invariant columnSums.Keys == set c | c in numericColumns[..j]
      invariant forall c :: c in columnSums ==> columnSums[c] == Sums(0.0, 0.0)
    {
      assert numericColumns[..j + 1] == numericColumns[..j] + [numericColumns[j]];
      columnSums := columnSums[numericColumns[j] := Sums(0.0, 0.0)];
    }
    assert numericColumns[..|numericColumns|] == numericColumns;
  }

  /** The body of the inner loop of `calculateSums`: the cell of `column` adds a value above
      zero to that column's `positive` and a value below zero to its `negative`; an empty or
      unparseable cell, or a zero, changes nothing. */
  method AddCell(columnSums0: map<string, Sums>, row: Row, column: string)
    returns (columnSums: map<string, Sums>)
    requires column in columnSums0
    ensures columnSums == columnSums0[column :=
      Sums(columnSums0[column].positive + PositivePart(Amount(row, column)),
           columnSums0[column].negative + NegativePart(Amount(row, column)))]
  {
    columnSums := columnSums0;
    var sums := columnSums0[column];
    assert columnSums0[column := sums] == columnSums0;
    var valueStr := Trim(ReplaceChar(Cell(row, column), ',', '.'));
    if valueStr == "" {
      return;
    }
    var parsed := ParseDouble(valueStr);
    if parsed.Some? {
      var value := parsed.value;
      if value > 0.0 {
        columnSums := columnSums[column := Sums(sums.positive + value, sums.negative)];
      } else if value < 0.0 {
        columnSums := columnSums[column := Sums(sums.positive, sums.negative + value)];
      }
    }
  }

  /** One pass of the inner loop of `calculateSums`: each listed cell of `row` adds a value
      above zero to `positive` and a value below zero to `negative` of its column. */
  method AddRow(columnSums0: map<string, Sums>, row: Row, numericColumns: seq<string>)
    returns (columnSums: map<string, Sums>)
    requires columnSums0.Keys == set c | c in numericColumns
    ensures columnSums.Keys == columnSums0.Keys
    ensures forall c :: c in columnSums ==>
      columnSums[c] == Sums(columnSums0[c].positive + RowPositive(row, numericColumns, c),
                            columnSums0[c].negative + RowNegative(row, numericColumns, c))
  {
    columnSums := columnSums0;
    for j := 0 to |numericColumns|
      invariant columnSums.Keys == columnSums0.Keys
      invariant forall c :: c in columnSums ==>
        columnSums[c] == Sums(columnSums0[c].positive + RowPositive(row, numericColumns[..j], c),
                              columnSums0[c].negative + RowNegative(row, numericColumns[..j], c))
    {
      RowStep(row, numericColumns, j);
      columnSums := AddCell(columnSums, row, numericColumns[j]);
    }
    assert numericColumns[..|numericColumns|] == numericColumns;
  }

  /** `calculateSums(data, numericColumns)`: for every listed column its `positive` and
      `negative` totals over all rows. */
  method CalculateSums(data: Rows, numericColumns: seq<string>) returns (columnSums: map<string, Sums>)
    ensures columnSums.Keys == set c | c in numericColumns
    ensures forall c :: c in columnSums ==>
      columnSums[c] == Sums(PositiveSum(data, numericColumns, c), NegativeSum(data, numericColumns, c))
  {
    columnSums := InitialSums(numericColumns);
    for i := 0 to |data|
      invariant columnSums.Keys == set c | c in numericColumns
      invariant forall c :: c in columnSums ==>
        columnSums[c] == Sums(PositiveSum(data[..i], numericColumns, c), NegativeSum(data[..i], numericColumns, c))
    {
      columnSums := AddRow(columnSums, data[i], numericColumns);
      assert data[..i + 1][..i] == data[..i];
    }
    assert data[..|data|] == data;
  }

  /** The positive total of a single column over all rows. */
  function ColumnPositive(data: Rows, column: string): (r: real)
    ensures r >= 0.0
  {
    if data == [] then 0.0 else ColumnPositive(data[..|data| - 1], column) + PositivePart(Amount(data[|data| - 1], column))
  }

  function ColumnNegative(data: Rows, column: string): (r: real)
    ensures r <= 0.0
  {
    if data == [] then 0.0 else ColumnNegative(data[..|data| - 1], column) + NegativePart(Amount(data[|data| - 1], column))
  }

  /** A column listed once is summed once: its entry is its own column total. */
  lemma {:induction false} ListedOnceIsColumnTotal(data: Rows, columns: seq<string>, column: string)
    requires NoDuplicates(columns)
    requires column in columns
    ensures PositiveSum(data, columns, column) == ColumnPositive(data, column)
    ensures NegativeSum(data, columns, column) == ColumnNegative(data, column)
  {
    if data != [] {
      ListedOnceIsColumnTotal(data[..|data| - 1], columns, column);
      RowListedOnce(data[|data| - 1], columns, column);
    }
  }

  lemma {:induction false} RowListedOnce(row: Row, columns: seq<string>, column: string)
    requires NoDuplicates(columns)
    ensures column in columns ==> RowPositive(row, columns, column) == PositivePart(Amount(row, column))
    ensures column in columns ==> RowNegative(row, columns, column) == NegativePart(Amount(row, column))
    ensures column !in columns ==> RowPositive(row, columns, column) == 0.0
    ensures column !in columns ==> RowNegative(row, columns, column) == 0.0
  {
    if columns != [] {
      var init := columns[..|columns| - 1];
      assert NoDuplicates(init);
      RowListedOnce(row, init, column);
      assert columns == init + [columns[|columns| - 1]];
      if columns[|columns| - 1] == column {
        assert column !in init;
      }
    }
  }

  /** The single-column overload `calculateSums(data, singleColumn)`: the list overload on
      `[singleColumn]`. */
  method CalculateSumsForColumn(data: Rows, singleColumn: string) returns (columnSums: map<string, Sums>)
    ensures columnSums == map[singleColumn := Sums(ColumnPositive(data, singleColumn), ColumnNegative(data, singleColumn))]
  {
    columnSums := CalculateSums(data, [singleColumn]);
    ListedOnceIsColumnTotal(data, [singleColumn], singleColumn);
    assert columnSums.Keys == {singleColumn};
  }

  /** The net value one row adds over the listed columns. */
  function RowNet(row: Row, columns: seq<string>): real {
    if columns == [] then 0.0
    else RowNet(row, columns[..|columns| - 1]) + NetPart(Amount(row, columns[|columns| - 1]))
  }

  /** `calculateTotalSum(data, numericColumns)`: the net sum of every parseable value over
      all rows and listed columns. */
  function TotalSum(data: Rows, numericColumns: seq<string>): real {
    if data == [] then 0.0
    else TotalSum(data[..|data| - 1], numericColumns) + RowNet(data[|data| - 1], numericColumns)
  }

  /** With no rows or no columns the total is 0.0. */
  lemma {:induction false} TotalSumEmpty(data: Rows, numericColumns: seq<string>)
    requires data == [] || numericColumns == []
    ensures TotalSum(data, numericColumns) == 0.0
  {
    if data != [] {
      TotalSumEmpty(data[..|data| - 1], numericColumns);
    }
  }

  /** The net total of one column over all rows. */
  function ColumnNet(data: Rows, column: string): real {
    if data == [] then 0.0 else ColumnNet(data[..|data| - 1], column) + NetPart(Amount(data[|data| - 1], column))
  }

  /** Appending a column to the list adds that column's net total. */
  lemma {:induction false} TotalSumAddColumn(data: Rows, columns: seq<string>, column: string)
    ensures TotalSum(data, columns + [column]) == TotalSum(data, columns) + ColumnNet(data, column)
  {
    if data != [] {
      TotalSumAddColumn(data[..|data| - 1], columns, column);
      assert (columns + [column])[..|columns + [column]| - 1] == columns;
    }
  }

  lemma {:induction false} ColumnNetSplits(data: Rows, column: string)
    ensures ColumnNet(data, column) == ColumnPositive(data, column) + ColumnNegative(data, column)
  {
    if data != [] {
      ColumnNetSplits(data[..|data| - 1], column);
      PartsSplitAmount(Amount(data[|data| - 1], column));
    }
  }

  /** Sum over the listed columns of `calculateSums`'s `positive + negative`, read column by
      column. */
  function SplitTotal(data: Rows, columns: seq<string>): real {
    if columns == [] then 0.0
    else
      var column := columns[|columns| - 1];
      SplitTotal(data, columns[..|columns| - 1]) + (ColumnPositive(data, column) + ColumnNegative(data, column))
  }

  /** The net total is the sum, over the listed columns, of each column's positive and
      negative totals. */
  lemma {:induction false} TotalSumIsSplitTotal(data: Rows, columns: seq<string>)
    ensures TotalSum(data, columns) == SplitTotal(data, columns)
  {
    if columns == [] {
      TotalSumEmpty(data, columns);
    } else {
      var init, column := columns[..|columns| - 1], columns[|columns| - 1];
      TotalSumIsSplitTotal(data, init);
      assert columns == init + [column];
      TotalSumAddColumn(data, init, column);
      ColumnNetSplits(data, column);
    }
  }

  /** The sum of `positive + negative` of the entries `calculateSums(data, columns)` holds
      for the columns `listed`. */
  function EntriesTotal(data: Rows, columns: seq<string>, listed: seq<string>): real {
    if listed == [] then 0.0
    else
      var column := listed[|listed| - 1];
      EntriesTotal(data, columns, listed[..|listed| - 1]) +
        (PositiveSum(data, columns, column) + NegativeSum(data, columns, column))
  }

  /** With distinct columns, the net total equals the sum over the listed columns of the
      `positive + negative` entries that `calculateSums` returns for them. */
  lemma TotalMatchesCalculatedSums(data: Rows, columns: seq<string>)
    requires NoDuplicates(columns)
    ensures TotalSum(data, columns) == EntriesTotal(data, columns, columns)
  {
    TotalSumIsSplitTotal(data, columns);
    EntriesAreSplitTotal(data, columns, columns);
  }

  lemma {:induction false} EntriesAreSplitTotal(data: Rows, columns: seq<string>, listed: seq<string>)
    requires NoDuplicates(columns)
    requires forall k :: 0 <= k < |listed| ==> listed[k] in columns
    ensures EntriesTotal(data, columns, listed) == SplitTotal(data, listed)
  {
    if listed != [] {
      var init := listed[..|listed| - 1];
      assert forall k :: 0 <= k < |init| ==> init[k] == listed[k];
      EntriesAreSplitTotal(data, columns, init);
      ListedOnceIsColumnTotal(data, columns, listed[|listed| - 1]);
    }
  }
}
