/** ReportSetting: an immutable report descriptor and the pipeline one report run
    executes over the transaction rows. */
module Reports {
  import opened Wrappers
  import opened Failures
  import opened Table
  import opened Seqs
  import opened DateFormat
  import opened DateFiltering
  import MultiColumnFilter
  import Summation
  import FilterConstants

  /** The three final fields; the datatype's constructor and destructors are the Java
      constructor and getters. */
  datatype ReportSetting = ReportSetting(name: string, columnFilters: ColumnFilters, numericColumns: seq<string>)

  /** The arguments `processReport` passes to the DateFilter constructor. */
  datatype DateSettings = DateSettings(dateColumn: string, startDate: string, endDate: string, dateFormat: DateParser)

  /** `FilterConstants.DATE_COLUMN_EXCEL`, `START_DATE`, `END_DATE` and `DATE_FORMAT`. */
  function DefaultDateSettings(): DateSettings {
    DateSettings(FilterConstants.DateColumnExcel, FilterConstants.StartDate, FilterConstants.EndDate, ParseTimestamp)
  }

  const ProcessingError := "Error processing the report: "

  /** `processReport`: date filter, then the descriptor's column filters, then the net total
      over its numeric columns; a failure of any stage comes back wrapped once. */
  function ProcessReport(report: ReportSetting, data: Rows, dates: DateSettings): (r: Result<real, Failure>)
    ensures r.Success? <==> NewDateFilter(dates.dateColumn, dates.startDate, dates.endDate, dates.dateFormat).Success?
    ensures r.Failure? ==>
      var e := NewDateFilter(dates.dateColumn, dates.startDate, dates.endDate, dates.dateFormat).error;
      r.error == Runtime(ProcessingError + Message(e), e)
    ensures r.Success? ==>
      var f := NewDateFilter(dates.dateColumn, dates.startDate, dates.endDate, dates.dateFormat).value;
      r.value == Summation.TotalSum(
        MultiColumnFilter.Filtered(report.columnFilters, Select(KeepTest(f), data)), report.numericColumns)
  {
    match NewDateFilter(dates.dateColumn, dates.startDate, dates.endDate, dates.dateFormat)
    case Failure(e) => Failure(Runtime(ProcessingError + Message(e), e))
    case Success(dateFilter) =>
      var dateFilteredData := Select(KeepTest(dateFilter), data);
      var filteredData := MultiColumnFilter.Filtered(report.columnFilters, dateFilteredData);
      Success(Summation.TotalSum(filteredData, report.numericColumns))
  }

  /** A row counts toward a report run iff its date is in the window and it passes every
      column filter. */
  predicate Qualifies(f: DateFilter, columnFilters: ColumnFilters, row: Row) {
    Keeps(f, row) && MultiColumnFilter.PassesAll(row, columnFilters)
  }

  function QualifiesTest(f: DateFilter, columnFilters: ColumnFilters): Row -> bool {
    row => Qualifies(f, columnFilters, row)
  }

  /** The successive passes of a run select, in one step, the rows that qualify. */
  lemma ProcessReportSumsQualifyingRows(report: ReportSetting, data: Rows, dates: DateSettings, f: DateFilter)
    requires NewDateFilter(dates.dateColumn, dates.startDate, dates.endDate, dates.dateFormat) == Success(f)
    ensures ProcessReport(report, data, dates) ==
      Success(Summation.TotalSum(Select(QualifiesTest(f, report.columnFilters), data), report.numericColumns))
  {
    SelectSelect(MultiColumnFilter.AllTest(report.columnFilters), KeepTest(f),
      QualifiesTest(f, report.columnFilters), data);
  }

  /** The default settings always build a filter: a run with them never fails. */
  lemma DefaultRunSucceeds(report: ReportSetting, data: Rows)
    ensures ProcessReport(report, data, DefaultDateSettings()).Success?
  {
    FilterConstants.WindowParses();
  }

  /** A run does not depend on the iteration order of the descriptor's filter map. */
  lemma ProcessReportIgnoresFilterOrder(report: ReportSetting, reordered: ColumnFilters, data: Rows, dates: DateSettings)
    requires forall rule :: rule in report.columnFilters <==> rule in reordered
    ensures ProcessReport(report, data, dates) ==
      ProcessReport(ReportSetting(report.name, reordered, report.numericColumns), data, dates)
  {
    var r := NewDateFilter(dates.dateColumn, dates.startDate, dates.endDate, dates.dateFormat);
    if r.Success? {
      MultiColumnFilter.FilteredIgnoresOrder(report.columnFilters, reordered, Select(KeepTest(r.value), data));
    }
  }

  /** `List.toString()`: the elements separated by ", " inside brackets. */
  function ListToString(xs: seq<string>): (s: string)
    ensures |s| >= 2 && s[0] == '[' && s[|s| - 1] == ']'
    ensures xs == [] ==> s == "[]"
    ensures |xs| == 1 ==> s == "[" + xs[0] + "]"
  {
    "[" + JoinElements(xs) + "]"
  }

  function JoinElements(xs: seq<string>): string {
    if xs == [] then ""
    else if |xs| == 1 then xs[0]
    else xs[0] + ", " + JoinElements(xs[1..])
  }

  /** Before a non-empty list, an element renders followed by ", " and the rest of the list. */
  lemma ListToStringCons(x: string, xs: seq<string>)
    requires xs != []
    ensures ListToString([x] + xs) == "[" + x + ", " + ListToString(xs)[1..]
  {
    var ys := [x] + xs;
    assert ys[0] == x && ys[1..] == xs;
    assert JoinElements(ys) == x + ", " + JoinElements(xs);
    assert ListToString(xs)[1..] == JoinElements(xs) + "]";
  }

  /** One `key=[values]` entry of `Map.toString()`. */
  function EntryToString(rule: ColumnRule): string {
    rule.column + "=" + ListToString(rule.values)
  }

  /** `Map.toString()` of a filter map: `key=[values]` entries, separated by ", ", inside
      braces. */
  function FiltersToString(filters: ColumnFilters): (s: string)
    ensures |s| >= 2 && s[0] == '{' && s[|s| - 1] == '}'
    ensures filters == [] ==> s == "{}"
    ensures |filters| == 1 ==> s == "{" + filters[0].column + "=" + ListToString(filters[0].values) + "}"
  {
    "{" + JoinEntries(filters) + "}"
  }

  function JoinEntries(filters: ColumnFilters): string {
    if filters == [] then ""
    else if |filters| == 1 then EntryToString(filters[0])
    else EntryToString(filters[0]) + ", " + JoinEntries(filters[1..])
  }

  /** Before a non-empty map, an entry renders followed by ", " and the remaining entries. */
  lemma FiltersToStringCons(rule: ColumnRule, rest: ColumnFilters)
    requires rest != []
    ensures FiltersToString([rule] + rest) ==
      "{" + rule.column + "=" + ListToString(rule.values) + ", " + FiltersToString(rest)[1..]
  {
    var fs := [rule] + rest;
    assert fs[0] == rule && fs[1..] == rest;
    assert JoinEntries(fs) == EntryToString(rule) + ", " + JoinEntries(rest);
    assert FiltersToString(rest)[1..] == JoinEntries(rest) + "}";
  }

  const NamePrefix := "ReportSetting{name='"

  /** `toString()`: the name verbatim after the opening, then the filter map and the numeric
      columns as their collections render them. */
  function ToString(report: ReportSetting): (s: string)
    ensures |s| > 0 && s[|s| - 1] == '}'
    ensures |s| > |NamePrefix| + |report.name| && s[..|NamePrefix|] == NamePrefix
    ensures s[|NamePrefix|..|NamePrefix| + |report.name|] == report.name
  {
    NamePrefix + report.name + "'" +
    ", columnFilters=" + FiltersToString(report.columnFilters) +
    ", numericColumns=" + ListToString(report.numericColumns) +
    "}"
  }
}
