/** ReportProcessingTools: a second copy of the descriptor-building and chaining helpers. */
module ReportProcessingTools {
  import opened Wrappers
  import opened Failures
  import opened Table
  import opened Reports
  import UniqueValues
  import ReportProcessorUtils

  /** `buildFilterFromUniqueColumnValues`: the same descriptor the ReportProcessorUtils
      helper builds. */
  function BuildFilterFromUniqueColumnValues(
    uniqueValues: seq<string>, columnName: string, reportName: string, numericColumns: seq<string>)
    : (r: ReportSetting)
    ensures r == ReportProcessorUtils.BuildFilterFromUniqueColumnValues(uniqueValues, columnName, reportName, numericColumns)
    ensures r.columnFilters == [ColumnRule(columnName, uniqueValues)]
  {
    ReportSetting(reportName, [ColumnRule(columnName, uniqueValues)], numericColumns)
  }

  /** `processAndFilterWithUniqueValues`: on every input the same outcome as
      `ReportProcessorUtils.createFilteredReportFromAnother`. */
  function ProcessAndFilterWithUniqueValues(data: Rows, firstReport: ReportSetting, templateReport: ReportSetting)
    : (r: Result<ReportSetting, Failure>)
    ensures r == ReportProcessorUtils.CreateFilteredReportFromAnother(data, firstReport, templateReport)
  {
    var extracted := UniqueValues.ExtractUniqueValuesFromLastNumericColumn(
      Some(data), Some(firstReport.numericColumns), Some(firstReport.columnFilters));
    if extracted.Failure? then Failure(extracted.error)
    else if templateReport.columnFilters == [] then Failure(NoSuchElement)
    else
      Success(ReportSetting(
        templateReport.name,
        [ColumnRule(templateReport.columnFilters[0].column, extracted.value)],
        templateReport.numericColumns))
  }
}
