/** ReportProcessorUtils: building a descriptor around a list of values, and deriving one
    report from another through the values that survive the first report's filters. */
module ReportProcessorUtils {
  import opened Wrappers
  import opened Failures
  import opened Table
  import opened Seqs
  import MultiColumnFilter
  import ColumnFilter
  import UniqueValues
  import opened Reports

  /** `buildFilterFromUniqueColumnValues`: a descriptor whose only filter admits the given
      values in the given column. */
  function BuildFilterFromUniqueColumnValues(
    uniqueValues: seq<string>, columnName: string, reportName: string, numericColumns: seq<string>)
    : (r: ReportSetting)
    ensures r.name == reportName && r.numericColumns == numericColumns
    ensures r.columnFilters == [ColumnRule(columnName, uniqueValues)]
  {
    ReportSetting(reportName, [ColumnRule(columnName, uniqueValues)], numericColumns)
  }

  /** Such a descriptor, given values without the sentinel, keeps exactly the rows whose
      trimmed cell is one of them, as the plain column filter does. */
  lemma BuiltFilterAdmitsListedValues(
    uniqueValues: seq<string>, columnName: string, reportName: string, numericColumns: seq<string>, data: Rows)
    requires uniqueValues != [] && MultiColumnFilter.Exclude !in uniqueValues
    ensures MultiColumnFilter.Filtered(
      BuildFilterFromUniqueColumnValues(uniqueValues, columnName, reportName, numericColumns).columnFilters, data) ==
      Select(ColumnFilter.ListedTest(columnName, uniqueValues), data)
  {
    ColumnFilter.AgreesWithMultiColumnAllowList(data, columnName, uniqueValues);
  }

  /** The values the derived filter admits: the unique values of the first report's last
      numeric column among the rows passing the first report's filters. */
  function ExtractedFrom(data: Rows, firstReport: ReportSetting): Result<seq<string>, Failure> {
    UniqueValues.ExtractUniqueValuesFromLastNumericColumn(
      Some(data), Some(firstReport.numericColumns), Some(firstReport.columnFilters))
  }

  /** `createFilteredReportFromAnother`: the template's name and numeric columns, with the
      template's first filter key now admitting the values extracted from the first report.
      Extraction runs first, so its failure wins over a template without filters. */
  function CreateFilteredReportFromAnother(data: Rows, firstReport: ReportSetting, templateReport: ReportSetting)
    : (r: Result<ReportSetting, Failure>)
    ensures firstReport.numericColumns == [] ==>
      r == Failure(IllegalArgument("Numeric columns cannot be null or empty."))
    ensures firstReport.numericColumns != [] && templateReport.columnFilters == [] ==> r == Failure(NoSuchElement)
    ensures r.Success? <==> firstReport.numericColumns != [] && templateReport.columnFilters != []
    ensures r.Success? ==>
      r.value.name == templateReport.name && r.value.numericColumns == templateReport.numericColumns &&
      r.value.columnFilters == [ColumnRule(templateReport.columnFilters[0].column,
        UniqueValues.UniqueValuesOf(
          MultiColumnFilter.Filtered(firstReport.columnFilters, data),
          firstReport.numericColumns[|firstReport.numericColumns| - 1]))]
  {
    match ExtractedFrom(data, firstReport)
    case Failure(e) => Failure(e)
    case Success(uniqueValues) =>
      if templateReport.columnFilters == [] then Failure(NoSuchElement)
      else
        Success(ReportSetting(
          templateReport.name,
          [ColumnRule(templateReport.columnFilters[0].column, uniqueValues)],
          templateReport.numericColumns))
  }

  /** A row passes the derived filter iff its trimmed cell under the template's first key is
      the trimmed last-numeric-column cell of some row that passes the first report's
      filters, and is not blank (provided something was extracted and the sentinel was
      not). */
  lemma DerivedReportSelectsMatchingRows(
    data: Rows, firstReport: ReportSetting, templateReport: ReportSetting, row: Row)
    requires firstReport.numericColumns != [] && templateReport.columnFilters != []
    requires ExtractedFrom(data, firstReport).value != []
    requires MultiColumnFilter.Exclude !in ExtractedFrom(data, firstReport).value
    ensures var derived := CreateFilteredReportFromAnother(data, firstReport, templateReport).value;
      MultiColumnFilter.PassesAll(row, derived.columnFilters) <==>
        TrimmedCell(row, templateReport.columnFilters[0].column) != "" &&
        exists source :: UniqueValues.SurvivesWithValue(
          source, data, firstReport.columnFilters,
          UniqueValues.GetLastNumericColumnName(Some(firstReport.numericColumns)).value,
          TrimmedCell(row, templateReport.columnFilters[0].column))
  {
    var derived := CreateFilteredReportFromAnother(data, firstReport, templateReport).value;
    var key := templateReport.columnFilters[0].column;
    var v := TrimmedCell(row, key);
    MultiColumnFilter.PassesAllEvery(row, derived.columnFilters);
    MultiColumnFilter.AllowListSemantics(row, derived.columnFilters[0]);
    UniqueValues.ExtractedValuesMeaning(data, firstReport.numericColumns, firstReport.columnFilters, v);
  }

  /** When nothing is extracted the derived filter is an empty allow-list, which lets every
      row through. */
  lemma EmptyExtractionPassesEverything(
    data: Rows, firstReport: ReportSetting, templateReport: ReportSetting, rows: Rows)
    requires firstReport.numericColumns != [] && templateReport.columnFilters != []
    requires ExtractedFrom(data, firstReport).value == []
    ensures MultiColumnFilter.Filtered(CreateFilteredReportFromAnother(data, firstReport, templateReport).value.columnFilters, rows) == rows
  {
    var derived := CreateFilteredReportFromAnother(data, firstReport, templateReport).value;
    forall k | 0 <= k < |rows| ensures MultiColumnFilter.AllTest(derived.columnFilters)(rows[k]) {
      MultiColumnFilter.PassesAllEvery(rows[k], derived.columnFilters);
    }
    SelectAll(MultiColumnFilter.AllTest(derived.columnFilters), rows);
  }
}
