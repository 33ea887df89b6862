/** ColumnFilter: the plain allow-list filter on one column, with the values given as
    varargs. */
module ColumnFilter {
  import opened JavaText
  import opened Table
  import opened Seqs
  import MultiColumnFilter

  /** Whether `row`'s trimmed cell is one of the listed values. */
  predicate Listed(row: Row, columnName: string, filterValues: seq<string>) {
    TrimmedCell(row, columnName) in filterValues
  }

  function ListedTest(columnName: string, filterValues: seq<string>): Row -> bool {
    row => Listed(row, columnName, filterValues)
  }

  /** `filterByColumn`: the rows whose trimmed cell in `columnName` is one of `filterValues`,
      in input order. */
  method FilterByColumn(data: Rows, columnName: string, filterValues: seq<string>)
    returns (filteredData: Rows)
    ensures filteredData == Select(ListedTest(columnName, filterValues), data)
  {
    filteredData := [];
    var filterList := filterValues;
    for i := 0 to |data|
      invariant filteredData == Select(ListedTest(columnName, filterValues), data[..i])
    {
      var row := data[i];
      var cellValue := Trim(Cell(row, columnName));
      if cellValue in filterList {
        filteredData := filteredData + [row];
      }
      assert data[..i + 1] == data[..i] + [row];
      SelectSnoc(ListedTest(columnName, filterValues), data[..i], row);
    }
    assert data[..|data|] == data;
  }

  /** A row is kept iff it is in the input and its trimmed cell is listed. */
  lemma ColumnFilterMembership(data: Rows, columnName: string, filterValues: seq<string>, row: Row)
    ensures row in Select(ListedTest(columnName, filterValues), data) <==>
      row in data && TrimmedCell(row, columnName) in filterValues
  {
    SelectMembership(ListedTest(columnName, filterValues), data, row);
  }

  /** Unlike the multi-column filter, no values means no row is kept. */
  lemma NoValuesKeepNothing(data: Rows, columnName: string)
    ensures Select(ListedTest(columnName, []), data) == []
  {
    SelectNone(ListedTest(columnName, []), data);
  }

  /** "!exclude" has no special meaning here: it is matched as a literal value. */
  lemma SentinelIsLiteral(data: Rows, columnName: string)
    ensures Select(ListedTest(columnName, [MultiColumnFilter.Exclude]), data) ==
      Select(RowsWhoseCellIs(columnName, MultiColumnFilter.Exclude), data)
  {
    SelectCongruent(ListedTest(columnName, [MultiColumnFilter.Exclude]),
      RowsWhoseCellIs(columnName, MultiColumnFilter.Exclude), data);
  }

  function RowsWhoseCellIs(columnName: string, value: string): Row -> bool {
    row => TrimmedCell(row, columnName) == value
  }

  /** For a non-empty list without the sentinel both filters select the same rows. */
  lemma AgreesWithMultiColumnAllowList(data: Rows, columnName: string, filterValues: seq<string>)
    requires filterValues != [] && MultiColumnFilter.Exclude !in filterValues
    ensures Select(ListedTest(columnName, filterValues), data) ==
      MultiColumnFilter.Filtered([ColumnRule(columnName, filterValues)], data)
  {
    var rule := ColumnRule(columnName, filterValues);
    forall k | 0 <= k < |data|
      ensures ListedTest(columnName, filterValues)(data[k]) == MultiColumnFilter.AllTest([rule])(data[k])
    {
      MultiColumnFilter.PassesAllEvery(data[k], [rule]);
    }
    SelectCongruent(ListedTest(columnName, filterValues), MultiColumnFilter.AllTest([rule]), data);
  }
}
