/** UniqueValuesProcessor: the distinct values of one column, in the order they are first
    seen, and the extraction that feeds one report's surviving values into another. */
module UniqueValues {
  import opened Wrappers
  import opened Failures
  import opened JavaText
  import opened Table
  import opened Seqs
  import MultiColumnFilter

  /** The non-empty trimmed cells of `column`, row by row, repeats included. */
  function ColumnValues(data: Rows, column: string): (r: seq<string>)
    ensures |r| <= |data|
  {
    if data == [] then []
    else
      var value := TrimmedCell(data[|data| - 1], column);
      ColumnValues(data[..|data| - 1], column) + (if value != "" then [value] else [])
  }

  /** What `getUniqueValues(data, column)` returns: the `LinkedHashSet` of those cells. */
  function UniqueValuesOf(data: Rows, column: string): seq<string> {
    Dedup(ColumnValues(data, column))
  }

  /** `getUniqueValues`: null inputs are rejected; otherwise the distinct non-empty trimmed
      cells of `column`, in first-seen order. */
  method GetUniqueValues(data: Option<Rows>, column: Option<string>) returns (r: Result<seq<string>, Failure>)
    ensures data.None? ==> r == Failure(IllegalArgument("Data cannot be null."))
    ensures data.Some? && column.None? ==> r == Failure(IllegalArgument("Column name cannot be null."))
    ensures data.Some? && column.Some? ==> r == Success(UniqueValuesOf(data.value, column.value))
  {
    if data.None? {
      return Failure(IllegalArgument("Data cannot be null."));
    }
    if column.None? {
      return Failure(IllegalArgument("Column name cannot be null."));
    }
    var uniqueValues := CollectUniqueValues(data.value, column.value);
    return Success(uniqueValues);
  }

  /** The loop of `getUniqueValues`: each trimmed, non-empty cell is added to the
      `LinkedHashSet` unless it is already there. */
  method CollectUniqueValues(rows: Rows, col: string) returns (uniqueValues: seq<string>)
    ensures uniqueValues == UniqueValuesOf(rows, col)
  {
    uniqueValues := [];
    for i := 0 to |rows|
      invariant uniqueValues == Dedup(ColumnValues(rows[..i], col))
    {
      var value := TrimmedCell(rows[i], col);
      ghost var before := ColumnValues(rows[..i], col);
      assert rows[..i + 1] == rows[..i] + [rows[i]];
      ColumnValuesSnoc(rows[..i], rows[i], col);
      if value != "" {
        DedupSnoc(before, value);
        if value !in uniqueValues {
          uniqueValues := uniqueValues + [value];
        }
      }
    }
    assert rows[..|rows|] == rows;
  }

  /** Extracting from a list extended by one row: the step of the loop. */
  lemma ColumnValuesSnoc(data: Rows, row: Row, column: string)
    ensures TrimmedCell(row, column) == "" ==> ColumnValues(data + [row], column) == ColumnValues(data, column)
    ensures TrimmedCell(row, column) != "" ==>
      ColumnValues(data + [row], column) == ColumnValues(data, column) + [TrimmedCell(row, column)]
  {
    assert (data + [row])[..|data + [row]| - 1] == data;
  }

  /** Every extracted value is non-empty and is the trimmed cell of some row `k`. */
  lemma {:induction false} ColumnValueSource(data: Rows, column: string, v: string) returns (k: nat)
    requires v in ColumnValues(data, column)
    ensures v != "" && k < |data| && TrimmedCell(data[k], column) == v
  {
    var init, last := data[..|data| - 1], data[|data| - 1];
    assert data == init + [last];
    ColumnValuesSnoc(init, last, column);
    if v in ColumnValues(init, column) {
      k := ColumnValueSource(init, column, v);
      assert data[k] == init[k];
    } else {
      k := |data| - 1;
    }
  }

  /** Every non-empty trimmed cell of the column is extracted. */
  lemma {:induction false} ColumnValueExtracted(data: Rows, column: string, k: nat)
    requires k < |data| && TrimmedCell(data[k], column) != ""
    ensures TrimmedCell(data[k], column) in ColumnValues(data, column)
  {
    var init, last := data[..|data| - 1], data[|data| - 1];
    assert data == init + [last];
    ColumnValuesSnoc(init, last, column);
    if k < |init| {
      assert init[k] == data[k];
      ColumnValueExtracted(init, column, k);
    }
  }

  /** A value is extracted iff it is non-empty and is the trimmed cell of some row. */
  lemma ColumnValuesMembership(data: Rows, column: string, v: string)
    ensures v in ColumnValues(data, column) <==>
      v != "" && exists k :: 0 <= k < |data| && TrimmedCell(data[k], column) == v
  {
    if v in ColumnValues(data, column) {
      var k := ColumnValueSource(data, column, v);
    }
    if v != "" && exists k :: 0 <= k < |data| && TrimmedCell(data[k], column) == v {
      var k :| 0 <= k < |data| && TrimmedCell(data[k], column) == v;
      ColumnValueExtracted(data, column, k);
    }
  }

  /** Soundness and completeness: the result holds exactly the non-empty trimmed cells of
      the column. */
  lemma UniqueValuesMembership(data: Rows, column: string, v: string)
    ensures v in UniqueValuesOf(data, column) <==>
      v != "" && exists k :: 0 <= k < |data| && TrimmedCell(data[k], column) == v
  {
    DedupMembership(ColumnValues(data, column), v);
    ColumnValuesMembership(data, column, v);
  }

  /** Every value is non-empty and already trimmed, and none occurs twice. */
  lemma UniqueValuesShape(data: Rows, column: string)
    ensures NoDuplicates(UniqueValuesOf(data, column))
    ensures forall k :: 0 <= k < |UniqueValuesOf(data, column)| ==>
      UniqueValuesOf(data, column)[k] != "" && Trim(UniqueValuesOf(data, column)[k]) == UniqueValuesOf(data, column)[k]
  {
    var r := UniqueValuesOf(data, column);
    DedupNoDuplicates(ColumnValues(data, column));
    forall k | 0 <= k < |r| ensures r[k] != "" && Trim(r[k]) == r[k] {
      UniqueValuesMembership(data, column, r[k]);
      var m :| 0 <= m < |data| && TrimmedCell(data[m], column) == r[k];
      TrimIdempotent(Cell(data[m], column));
    }
  }

  /** Values come out in the order in which they first appear down the column. */
  lemma UniqueValuesFirstSeenOrder(data: Rows, column: string, i: nat, j: nat)
    requires i < j < |UniqueValuesOf(data, column)|
    ensures UniqueValuesOf(data, column)[i] in ColumnValues(data, column)
    ensures UniqueValuesOf(data, column)[j] in ColumnValues(data, column)
    ensures FirstIndex(ColumnValues(data, column), UniqueValuesOf(data, column)[i]) <
      FirstIndex(ColumnValues(data, column), UniqueValuesOf(data, column)[j])
  {
    DedupFirstSeenOrder(ColumnValues(data, column), i, j);
  }

  /** A column absent from every row, or one with only blank cells, has no values. */
  lemma {:induction false} BlankColumnHasNoValues(data: Rows, column: string)
    requires forall k :: 0 <= k < |data| ==> Trim(Cell(data[k], column)) == ""
    ensures UniqueValuesOf(data, column) == []
  {
    if data != [] {
      BlankColumnHasNoValues(data[..|data| - 1], column);
    }
  }

  lemma AbsentColumnHasNoValues(data: Rows, column: string)
    requires forall k :: 0 <= k < |data| ==> column !in data[k]
    ensures UniqueValuesOf(data, column) == []
  {
    TrimNoOp("");
    BlankColumnHasNoValues(data, column);
  }

  /** `getLastNumericColumnName`: the last listed column, as written (not trimmed). */
  function GetLastNumericColumnName(numericColumns: Option<seq<string>>): (r: Result<string, Failure>)
    ensures r.Success? <==> numericColumns.Some? && numericColumns.value != []
    ensures r.Success? ==> r.value == numericColumns.value[|numericColumns.value| - 1]
    ensures r.Failure? ==> r.error == IllegalState("The list of numeric columns is empty or null.")
  {
    if numericColumns.None? || numericColumns.value == [] then
      Failure(IllegalState("The list of numeric columns is empty or null."))
    else
      Success(numericColumns.value[|numericColumns.value| - 1])
  }

  /** `extractUniqueValuesFromLastNumericColumn`: after the three argument checks, the unique
      values of the last numeric column among the rows that pass the column filters. */
  function ExtractUniqueValuesFromLastNumericColumn(
    data: Option<Rows>, numericColumns: Option<seq<string>>, columnFilters: Option<ColumnFilters>)
    : (r: Result<seq<string>, Failure>)
    ensures data.None? ==> r == Failure(IllegalArgument("Data cannot be null."))
    ensures data.Some? && (numericColumns.None? || numericColumns.value == []) ==>
      r == Failure(IllegalArgument("Numeric columns cannot be null or empty."))
    ensures data.Some? && numericColumns.Some? && numericColumns.value != [] && columnFilters.None? ==>
      r == Failure(IllegalArgument("Column filters cannot be null."))
    ensures r.Success? <==> data.Some? && numericColumns.Some? && numericColumns.value != [] && columnFilters.Some?
    ensures r.Success? ==>
      GetLastNumericColumnName(numericColumns).Success? &&
      r.value == UniqueValuesOf(
        MultiColumnFilter.Filtered(columnFilters.value, data.value),
        GetLastNumericColumnName(numericColumns).value)
  {
    if data.None? then Failure(IllegalArgument("Data cannot be null."))
    else if numericColumns.None? || numericColumns.value == [] then
      Failure(IllegalArgument("Numeric columns cannot be null or empty."))
    else if columnFilters.None? then Failure(IllegalArgument("Column filters cannot be null."))
    else
      var lastNumericColumnName := GetLastNumericColumnName(numericColumns).value;
      var filteredData := MultiColumnFilter.Filtered(columnFilters.value, data.value);
      Success(UniqueValuesOf(filteredData, lastNumericColumnName))
  }

  /** `row` is an input row that passes every filter entry and whose trimmed cell in
      `column` is `v`. */
  predicate SurvivesWithValue(row: Row, data: Rows, columnFilters: ColumnFilters, column: string, v: string) {
    row in data &&
    (forall k :: 0 <= k < |columnFilters| ==> MultiColumnFilter.Passes(row, columnFilters[k])) &&
    TrimmedCell(row, column) == v
  }

  /** Every value taken from the filtered rows comes from a surviving input row. */
  lemma FilteredValueSource(data: Rows, columnFilters: ColumnFilters, column: string, v: string) returns (row: Row)
    requires v in UniqueValuesOf(MultiColumnFilter.Filtered(columnFilters, data), column)
    ensures v != "" && SurvivesWithValue(row, data, columnFilters, column, v)
  {
    var filtered := MultiColumnFilter.Filtered(columnFilters, data);
    DedupMembership(ColumnValues(filtered, column), v);
    var k := ColumnValueSource(filtered, column, v);
    row := filtered[k];
    MultiColumnFilter.FilteredMembership(columnFilters, data, row);
  }

  /** Every surviving input row contributes its non-empty cell. */
  lemma FilteredValueExtracted(data: Rows, columnFilters: ColumnFilters, column: string, row: Row, v: string)
    requires v != "" && SurvivesWithValue(row, data, columnFilters, column, v)
    ensures v in UniqueValuesOf(MultiColumnFilter.Filtered(columnFilters, data), column)
  {
    var filtered := MultiColumnFilter.Filtered(columnFilters, data);
    MultiColumnFilter.FilteredMembership(columnFilters, data, row);
    var m :| 0 <= m < |filtered| && filtered[m] == row;
    ColumnValueExtracted(filtered, column, m);
    DedupMembership(ColumnValues(filtered, column), v);
  }

  /** An extracted value is the trimmed, non-empty last-numeric-column cell of some input
      row that passes every filter entry, and every such cell is extracted. */
  lemma ExtractedValuesMeaning(data: Rows, numericColumns: seq<string>, columnFilters: ColumnFilters, v: string)
    requires numericColumns != []
    ensures var r := ExtractUniqueValuesFromLastNumericColumn(Some(data), Some(numericColumns), Some(columnFilters));
      r.Success? &&
      (v in r.value <==>
        v != "" &&
        exists row :: SurvivesWithValue(row, data, columnFilters, GetLastNumericColumnName(Some(numericColumns)).value, v))
  {
    var column := numericColumns[|numericColumns| - 1];
    var values := UniqueValuesOf(MultiColumnFilter.Filtered(columnFilters, data), column);
    assert ExtractUniqueValuesFromLastNumericColumn(Some(data), Some(numericColumns), Some(columnFilters)).value == values;
    if v in values {
      var row := FilteredValueSource(data, columnFilters, column, v);
    }
    if v != "" && exists row :: SurvivesWithValue(row, data, columnFilters, column, v) {
      var row :| SurvivesWithValue(row, data, columnFilters, column, v);
      FilteredValueExtracted(data, columnFilters, column, row, v);
    }
  }
}
