# AccountEase filtering and aggregation pipeline in Dafny

AccountEase turns an Amazon seller's transaction export into income-statement figures. The
export is a list of rows, each a map from column name to cell text. A report descriptor
(`ReportSetting`) has a name, a column-filter map and a list of numeric columns. A report
run does three things:

1. It keeps the rows whose date lies in the reporting window (`DateFilter`).
2. It narrows those rows column by column (`MultiColumnFilter`). Each column's list is an
   allow-list, or a deny-list when the list holds the sentinel `"!exclude"`.
3. It adds up the numeric cells of the surviving rows (`SummationProcessor`).

Reports can be chained. The distinct values of the first report's last numeric column,
taken from the rows that pass the first report's filters (`UniqueValuesProcessor`), become
the only filter of a derived report.

The project models that pipeline and proves what each stage promises.

| file | module | models |
|---|---|---|
| `wrappers.dfy` | `Wrappers`, `Failures` | Option/Result, and the Java exceptions as values |
| `text.dfy` | `JavaText` | `String.trim`, `replace(char, char)`, `replace(CharSequence, "")` |
| `numbers.dfy` | `Numbers` | the decimal grammar read by `Double.parseDouble` |
| `seqs.dfy` | `Seqs` | order-preserving selection and `LinkedHashSet` de-duplication |
| `table.dfy` | `Table` | rows, `getOrDefault(column, "")`, filter-map entries |
| `multi_column_filter.dfy` | `MultiColumnFilter` | `filterByColumns`, `filterBySingleColumn` |
| `column_filter.dfy` | `ColumnFilter` | `filterByColumn` |
| `date_format.dfy` | `DateFormat` | a strict reading of the pattern `dd.MM.yyyy HH:mm:ss`: fixed width, dates that exist on the calendar |
| `date_filter.dfy` | `DateFiltering` | the `DateFilter` constructor and `filter` |
| `filter_constants.dfy` | `FilterConstants` | the reporting window and the date column |
| `summation.dfy` | `Summation` | both `calculateSums` overloads and `calculateTotalSum` |
| `unique_values.dfy` | `UniqueValues` | `getUniqueValues`, `getLastNumericColumnName`, `extractUniqueValuesFromLastNumericColumn` |
| `report_setting.dfy` | `Reports` | the descriptor, `processReport`, `toString` |
| `report_filter_settings.dfy` | `ReportFilterSettings` | a few descriptors and the refund-chaining helpers |
| `report_processor_utils.dfy` | `ReportProcessorUtils` | `buildFilterFromUniqueColumnValues`, `createFilteredReportFromAnother` |
| `report_processing_tools.dfy` | `ReportProcessingTools` | the second copy of those helpers |
| `fixtures.dfy`, `scenarios_*.dfy` | `Fixtures`, `*Scenarios` | the unit tests' fixtures and outcomes |

The Java is a mix of imperative and pure code, and the model follows each file's own form:

- The row loops become Dafny methods with loop invariants. These are the filters, the
  de-duplicating collector, and the nested summation loops over a map of sums.
- Each method's `ensures` ties its result to a specification function. For example,
  `FilterByColumns` equals `Filtered`, `CollectUniqueValues` equals `Dedup` of
  `ColumnValues`, and `CalculateSums` equals `PositiveSum`/`NegativeSum`.
- What the source promises is proved as lemmas about those functions.
- The descriptor classes have only final fields and straight-line code. They become a
  datatype and functions.

## Model

| member | source | states |
|---|---|---|
| MultiColumnFilter.FilterBySingleColumn | src/main/java/com/accountease/amazonseller/core/processor/MultiColumnFilter.java:83-109 | one pass keeps, in order, exactly the rows passing the entry: for a list containing "!exclude" anywhere, rows whose trimmed cell equals no non-sentinel entry; otherwise rows where the list is empty or holds the trimmed cell |
| MultiColumnFilter.FilterByColumns | src/main/java/com/accountease/amazonseller/core/processor/MultiColumnFilter.java:39-58 | the successive narrowing equals selecting once the rows passing every entry; empty data gives []; no filters gives the data unchanged |
| MultiColumnFilter.PassesAllEvery | src/main/java/com/accountease/amazonseller/core/processor/MultiColumnFilter.java:50-55 | a row survives the passes iff it passes each entry (a conjunction) |
| MultiColumnFilter.NoFiltersKeepEverything | src/main/java/com/accountease/amazonseller/core/processor/MultiColumnFilter.java:44-46 | with no filter entries every row is kept, in the same order |
| MultiColumnFilter.FilteredMembership | src/main/java/com/accountease/amazonseller/core/processor/MultiColumnFilter.java:48-57 | a row is in the result iff it is in the input and passes every entry |
| MultiColumnFilter.FilteredIsSubsequence | src/main/java/com/accountease/amazonseller/core/processor/MultiColumnFilter.java:84-108 | the result is the input with some rows deleted, order unchanged |
| MultiColumnFilter.FilteredIgnoresOrder | src/main/java/com/accountease/amazonseller/core/processor/MultiColumnFilter.java:50-55 | two filter maps with the same entries in any iteration order filter alike |
| MultiColumnFilter.FilteredIdempotent | src/main/java/com/accountease/amazonseller/core/processor/MultiColumnFilter.java:50-55 | filtering the filtered rows again with the same filters changes nothing |
| MultiColumnFilter.DenyListSemantics | src/main/java/com/accountease/amazonseller/core/processor/MultiColumnFilter.java:87-99 | with "!exclude" anywhere in the list, a row passes iff its trimmed cell equals none of the other entries |
| MultiColumnFilter.SentinelOnlyKeepsAll | src/main/java/com/accountease/amazonseller/core/processor/MultiColumnFilter.java:92-99 | a list holding only the sentinel keeps every row |
| MultiColumnFilter.AllowListSemantics | src/main/java/com/accountease/amazonseller/core/processor/MultiColumnFilter.java:100-104 | without the sentinel a row passes iff the list is empty or holds the row's trimmed cell |
| MultiColumnFilter.AbsentColumnRemovesAll | src/main/java/com/accountease/amazonseller/core/processor/MultiColumnFilter.java:90 | a column missing from every row reads as "", so a non-empty allow-list without "" on it removes every row |
| ColumnFilter.FilterByColumn | src/main/java/com/accountease/amazonseller/core/processor/ColumnFilter.java:18-30 | the loop keeps, in order, exactly the rows whose trimmed cell (missing reads as "") is listed |
| ColumnFilter.ColumnFilterMembership | src/main/java/com/accountease/amazonseller/core/processor/ColumnFilter.java:21-26 | a row is kept iff it is in the input and its trimmed cell is one of the values |
| ColumnFilter.NoValuesKeepNothing | src/main/java/com/accountease/amazonseller/core/processor/ColumnFilter.java:21-24 | with no values nothing is kept, unlike the multi-column filter |
| ColumnFilter.SentinelIsLiteral | src/main/java/com/accountease/amazonseller/core/processor/ColumnFilter.java:24 | "!exclude" is matched only as a literal cell value |
| ColumnFilter.AgreesWithMultiColumnAllowList | src/main/java/com/accountease/amazonseller/core/processor/ColumnFilter.java:18-30 | for a non-empty list without the sentinel it selects the same rows as the multi-column filter with that one entry |
| DateFiltering.NewDateFilter | src/main/java/com/accountease/amazonseller/core/processor/DateFilter.java:32-37 | succeeds iff both bounds parse, keeping the column, the format and the parsed bounds; if the start does not parse, that is the failure; otherwise an unparseable end is |
| DateFiltering.Filter | src/main/java/com/accountease/amazonseller/core/processor/DateFilter.java:45-63 | the loop keeps, in order, exactly the rows whose date cell is non-empty, parses once " UTC" is removed, and is neither before the start nor after the end |
| DateFiltering.FilterMembership | src/main/java/com/accountease/amazonseller/core/processor/DateFilter.java:48-56 | a row is kept iff it is in the input, its date cell is non-empty, and the parsed date t has start <= t <= end (both bounds inclusive) |
| DateFiltering.FilterKeepsOrder | src/main/java/com/accountease/amazonseller/core/processor/DateFilter.java:46-62 | the kept rows are the input with some rows deleted, order unchanged |
| DateFiltering.MissingDateDropped | src/main/java/com/accountease/amazonseller/core/processor/DateFilter.java:49-50 | rows without the date column are dropped, and no failure results |
| DateFiltering.UnparseableDateDropped | src/main/java/com/accountease/amazonseller/core/processor/DateFilter.java:52-59 | rows whose date does not parse are dropped, and no failure escapes |
| DateFiltering.UtcSuffixIgnored | src/main/java/com/accountease/amazonseller/core/processor/DateFilter.java:53 | removing every " UTC" reads a timestamp with the suffix as the timestamp itself, and leaves one without it unchanged |
| DateFormat.KeyOrdersChronologically | src/main/java/com/accountease/amazonseller/core/processor/DateFilter.java:54 | for instants whose day exists in its month, the key orders them as `before`/`after` do, and equal keys are equal instants |
| DateFormat.DaysInMonth | src/main/java/com/accountease/amazonseller/core/constants/FilterConstants.java:34 | a month has 28 to 31 days, and February has 29 exactly in a Gregorian leap year |
| DateFormat.ReadsAs | src/main/java/com/accountease/amazonseller/core/constants/FilterConstants.java:34 | a string of the pattern parses to the key of the instant its fields spell when that instant exists, and is refused otherwise |
| DateFormat.ParseFormatted | src/main/java/com/accountease/amazonseller/core/constants/FilterConstants.java:34 | any valid instant, written in the pattern, reads back as its own key |
| DateFormat.TimestampHasNoLetter | src/main/java/com/accountease/amazonseller/core/constants/FilterConstants.java:34 | a parsed string holds only digits and separators |
| FilterConstants.WindowParses | src/main/java/com/accountease/amazonseller/core/constants/FilterConstants.java:30-34 | both window bounds parse in the pattern, and the start comes before the end |
| Summation.InitialSums | src/main/java/com/accountease/amazonseller/core/processor/SummationProcessor.java:19-24 | every listed column, and no other key, starts at {positive 0, negative 0} |
| Summation.AddCell | src/main/java/com/accountease/amazonseller/core/processor/SummationProcessor.java:28-40 | a cell's value above zero goes to that column's positive and below zero to its negative; zero, empty and unparseable cells change nothing |
| Summation.AddRow | src/main/java/com/accountease/amazonseller/core/processor/SummationProcessor.java:27-41 | one row adds, to every column, the parts of its listed cells, and the keys are unchanged |
| Summation.CalculateSums | src/main/java/com/accountease/amazonseller/core/processor/SummationProcessor.java:16-45 | the keys are the listed columns; each entry is the sum over all rows of the positive and negative parts of that column's normalised cells |
| Summation.PositiveSum | src/main/java/com/accountease/amazonseller/core/processor/SummationProcessor.java:33-34 | a positive total is never below zero |
| Summation.NegativeSum | src/main/java/com/accountease/amazonseller/core/processor/SummationProcessor.java:35-36 | a negative total is never above zero |
| Summation.PartsSplitAmount | src/main/java/com/accountease/amazonseller/core/processor/SummationProcessor.java:33-37 | zero goes to neither bucket, and the two buckets together carry the whole value |
| Summation.BlankCellSkipped | src/main/java/com/accountease/amazonseller/core/processor/SummationProcessor.java:28-29 | a missing, empty or whitespace-only cell contributes nothing |
| Summation.WholeCellAmount | src/main/java/com/accountease/amazonseller/core/processor/SummationProcessor.java:28-32 | a cell of digits contributes the whole number it spells |
| Summation.PointCellAmount | src/main/java/com/accountease/amazonseller/core/processor/SummationProcessor.java:28-32 | a cell "a.b" of digits contributes the decimal a.b |
| Summation.CommaCellAmount | src/main/java/com/accountease/amazonseller/core/processor/SummationProcessor.java:28-32 | a cell "a,b" with a decimal comma contributes the same decimal a.b |
| Summation.ListedOnceIsColumnTotal | src/main/java/com/accountease/amazonseller/core/processor/SummationProcessor.java:26-42 | for distinct listed columns, a column's entry is that column's own total over all rows |
| Summation.RowListedOnce | src/main/java/com/accountease/amazonseller/core/processor/SummationProcessor.java:27-41 | with distinct columns, a row adds each listed column's part exactly once and nothing to unlisted columns |
| Summation.CalculateSumsForColumn | src/main/java/com/accountease/amazonseller/core/processor/SummationProcessor.java:54-56 | the single-column overload is the one-entry map of that column's positive and negative totals, which is the list overload on [column] |
| Summation.TotalSumEmpty | src/main/java/com/accountease/amazonseller/core/ReportSetting.java:124-125 | the net total over no rows or no columns is 0.0 |
| Summation.TotalSumAddColumn | src/main/java/com/accountease/amazonseller/core/ReportSetting.java:124-125 | appending a column adds that column's net total |
| Summation.ColumnNetSplits | src/main/java/com/accountease/amazonseller/core/processor/SummationProcessor.java:33-37 | a column's net total is its positive total plus its negative total |
| Summation.TotalSumIsSplitTotal | src/main/java/com/accountease/amazonseller/core/ReportSetting.java:124-125 | the net total is the sum over the columns of positive plus negative |
| Summation.TotalMatchesCalculatedSums | src/main/java/com/accountease/amazonseller/core/processor/SummationProcessor.java:16-45 | with distinct columns, the net total equals the sum of positive plus negative over the entries that calculateSums returns |
| UniqueValues.GetUniqueValues | src/main/java/com/accountease/amazonseller/core/processor/UniqueValuesProcessor.java:43-60 | null data and a null column fail with their messages, data checked first; otherwise the result is the de-duplicated non-empty trimmed cells |
| UniqueValues.CollectUniqueValues | src/main/java/com/accountease/amazonseller/core/processor/UniqueValuesProcessor.java:51-59 | the LinkedHashSet loop yields Dedup of the non-empty trimmed cells, in row order |
| UniqueValues.ColumnValuesMembership | src/main/java/com/accountease/amazonseller/core/processor/UniqueValuesProcessor.java:52-57 | a value is collected iff it is non-empty and is some row's trimmed cell |
| UniqueValues.UniqueValuesMembership | src/main/java/com/accountease/amazonseller/core/processor/UniqueValuesProcessor.java:51-59 | soundness and completeness: the result holds exactly the non-empty trimmed cells of the column |
| UniqueValues.UniqueValuesShape | src/main/java/com/accountease/amazonseller/core/processor/UniqueValuesProcessor.java:51-59 | no value occurs twice, and every value is non-empty and already trimmed |
| UniqueValues.UniqueValuesFirstSeenOrder | src/main/java/com/accountease/amazonseller/core/processor/UniqueValuesProcessor.java:51-59 | values come out in the order of their first occurrence down the column |
| UniqueValues.BlankColumnHasNoValues | src/main/java/com/accountease/amazonseller/core/processor/UniqueValuesProcessor.java:53-56 | blank and whitespace-only cells contribute nothing |
| UniqueValues.AbsentColumnHasNoValues | src/main/java/com/accountease/amazonseller/core/processor/UniqueValuesProcessor.java:53 | a column absent from every row, or empty data, gives [] |
| UniqueValues.GetLastNumericColumnName | src/main/java/com/accountease/amazonseller/core/processor/UniqueValuesProcessor.java:81-86 | succeeds iff the list is present and non-empty, giving the last element untrimmed; otherwise fails with IllegalState and its message |
| UniqueValues.ExtractUniqueValuesFromLastNumericColumn | src/main/java/com/accountease/amazonseller/core/processor/UniqueValuesProcessor.java:118-145 | the three argument checks fail in order with their messages; it succeeds iff all pass, with the unique values of the last numeric column among the filtered rows |
| UniqueValues.ExtractedValuesMeaning | src/main/java/com/accountease/amazonseller/core/processor/UniqueValuesProcessor.java:132-141 | a value is extracted iff it is non-empty and is the trimmed last-column cell of some input row that passes every filter entry |
| Reports.ProcessReport | src/main/java/com/accountease/amazonseller/core/ReportSetting.java:110-129 | succeeds iff the date filter can be built, with the net total of the date-filtered, then column-filtered rows; otherwise one RuntimeException "Error processing the report: " plus the cause's message, wrapping the cause |
| Reports.ProcessReportSumsQualifyingRows | src/main/java/com/accountease/amazonseller/core/ReportSetting.java:113-125 | the two filter passes select, in one step, the rows that are in the window and pass every column filter |
| Reports.DefaultRunSucceeds | src/main/java/com/accountease/amazonseller/core/ReportSetting.java:113-118 | with the configured window a run never fails |
| Reports.ProcessReportIgnoresFilterOrder | src/main/java/com/accountease/amazonseller/core/ReportSetting.java:121-122 | a run does not depend on the iteration order of the descriptor's filter map |
| Reports.ToString | src/main/java/com/accountease/amazonseller/core/ReportSetting.java:133-138 | the rendering opens with "ReportSetting{name='" followed by the name verbatim, and closes with '}' |
| Reports.ListToString | src/main/java/com/accountease/amazonseller/core/ReportSetting.java:136 | a list renders inside brackets; the empty list as "[]", one element as itself in brackets |
| Reports.ListToStringCons | src/main/java/com/accountease/amazonseller/core/ReportSetting.java:136 | before a non-empty rest, an element renders followed by ", " and the rest's elements |
| Reports.FiltersToString | src/main/java/com/accountease/amazonseller/core/ReportSetting.java:135 | a filter map renders inside braces; the empty map as "{}", one entry as `key=[values]` in braces |
| Reports.FiltersToStringCons | src/main/java/com/accountease/amazonseller/core/ReportSetting.java:135 | before further entries, an entry renders as `key=[values]` followed by ", " and the remaining entries |
| ReportProcessorUtils.BuildFilterFromUniqueColumnValues | src/main/java/com/accountease/amazonseller/utils/ReportProcessorUtils.java:25-35 | the descriptor (reportName, {columnName → values}, numericColumns) |
| ReportProcessorUtils.BuiltFilterAdmitsListedValues | src/main/java/com/accountease/amazonseller/utils/ReportProcessorUtils.java:30-34 | given non-empty values without the sentinel, the built descriptor keeps exactly the rows whose trimmed cell is one of them (with no values it keeps every row, as an empty allow-list does) |
| ReportProcessorUtils.CreateFilteredReportFromAnother | src/main/java/com/accountease/amazonseller/utils/ReportProcessorUtils.java:45-64 | fails when the first report has no numeric columns, or else (NoSuchElement) when the template has no filter key; otherwise the template's name and numeric columns, with its first key now mapped to the values extracted from the first report |
| ReportProcessorUtils.DerivedReportSelectsMatchingRows | src/main/java/com/accountease/amazonseller/utils/ReportProcessorUtils.java:49-61 | when something is extracted and "!exclude" is not among it, a row passes the derived filter iff its trimmed cell under the template's first key is non-empty and is the last-column value of some row that passes the first report's filters |
| ReportProcessorUtils.EmptyExtractionPassesEverything | src/main/java/com/accountease/amazonseller/utils/ReportProcessorUtils.java:59-61 | when nothing is extracted, the derived filter is an empty allow-list that lets every row through |
| ReportProcessingTools.BuildFilterFromUniqueColumnValues | src/main/java/com/accountease/amazonseller/utils/ReportProcessingTools.java:25-35 | the same descriptor the ReportProcessorUtils helper builds, with the single entry {columnName → values} |
| ReportProcessingTools.ProcessAndFilterWithUniqueValues | src/main/java/com/accountease/amazonseller/utils/ReportProcessingTools.java:44-63 | the same outcome as ReportProcessorUtils.createFilteredReportFromAnother on every input |
| ReportFilterSettings.BuildFilterFromUniqueColumnValues | src/main/java/com/accountease/amazonseller/core/ReportFilterSettings.java:351-359 | the refund-handling-fee descriptor: name "Bearbeitungsgebühren für Erstattungen", {Bestellnummer → values}, numeric columns ["Verkaufsgebühren"] |
| ReportFilterSettings.CreateFilteredReportFromAnother | src/main/java/com/accountease/amazonseller/core/ReportFilterSettings.java:379-394 | the same outcome as the ReportProcessorUtils helper on every input |
| ReportFilterSettings.RefundReportExtractsOrderNumbers | src/main/java/com/accountease/amazonseller/core/ReportFilterSettings.java:319-329 | chaining from the refund report extracts the distinct Bestellnummer values of the rows with Typ "Erstattung" |
| ReportFilterSettings.SellerShippingFeeSelects | src/main/java/com/accountease/amazonseller/core/ReportFilterSettings.java:77-86 | the seller-shipping report keeps exactly the orders the seller shipped |
| ReportFilterSettings.ServiceFeesSelects | src/main/java/com/accountease/amazonseller/core/ReportFilterSettings.java:269-278 | an allow-list on Typ with the deny-list ["!exclude", "Werbekosten"] keeps the service fees other than advertising |
| ReportFilterSettings.ServiceFeesComplementAdvertising | src/main/java/com/accountease/amazonseller/core/ReportFilterSettings.java:121-130 | on service-fee rows, the advertising report and the service-fee report split the rows between them |
| ReportFilterSettings.FbaInventoryCreditsSelects | src/main/java/com/accountease/amazonseller/core/ReportFilterSettings.java:280-289 | the inventory-credit report keeps the adjustments outside its two excluded descriptions |
| JavaText.TrimIsCore | src/main/java/com/accountease/amazonseller/core/processor/MultiColumnFilter.java:90 | `trim` returns the unique infix that has only characters <= ' ' outside it and starts and ends with a kept character |
| JavaText.TrimIdempotent | src/main/java/com/accountease/amazonseller/core/processor/UniqueValuesProcessor.java:53 | trimming twice is trimming once |
| JavaText.RemoveAllAbsent | src/main/java/com/accountease/amazonseller/core/processor/DateFilter.java:53 | removing a target that does not occur changes nothing |
| Numbers.ParseDecimalString | src/main/java/com/accountease/amazonseller/core/processor/SummationProcessor.java:32 | a written decimal "a.b" reads as a plus b scaled by its digit count |
| Numbers.ParseNatString | src/main/java/com/accountease/amazonseller/core/processor/SummationProcessor.java:32 | a written whole number, with or without a minus sign, reads back as itself |
| Numbers.ParseRejectsNonNumericStart | src/main/java/com/accountease/amazonseller/core/processor/SummationProcessor.java:38-40 | text starting with no sign, digit or point does not parse, so the cell is skipped |
| Seqs.DedupFirstSeenOrder | src/main/java/com/accountease/amazonseller/core/processor/UniqueValuesProcessor.java:51 | a LinkedHashSet yields its values in first-insertion order |
| FilterScenarios.SingleColumnFilterScenario | src/test/java/com/accountease/amazonseller/core/processor/MultiColumnFilterTest.java:92-117 | testColumnA = testValue1 keeps the first and third fixture rows, in that order |
| FilterScenarios.MultipleColumnFilterScenario | src/test/java/com/accountease/amazonseller/core/processor/MultiColumnFilterTest.java:122-156 | testColumnA = testValue1 and testColumnB = testValue2 keep only the first row |
| FilterScenarios.MissingColumnFilterScenario | src/test/java/com/accountease/amazonseller/core/processor/MultiColumnFilterTest.java:182-187 | a filter on a column no row has removes every row |
| DateScenarios.ConstructorScenario | src/test/java/com/accountease/amazonseller/core/processor/DateFilterTest.java:54-57 | the test window 01.01.2025 00:00:00 to 10.01.2025 23:59:59 builds a filter |
| DateScenarios.LeapDayParses | src/main/java/com/accountease/amazonseller/core/constants/FilterConstants.java:34 | 29.02.2024 exists and parses |
| DateScenarios.NonexistentDayRejected | src/main/java/com/accountease/amazonseller/core/constants/FilterConstants.java:34 | 31.02.2025 is refused by the strict reading |
| DateScenarios.ConstructorRejectsInvalidBounds | src/test/java/com/accountease/amazonseller/core/processor/DateFilterTest.java:120-129 | an unparseable start or end makes the constructor fail |
| DateScenarios.ValidDateKept | src/test/java/com/accountease/amazonseller/core/processor/DateFilterTest.java:60-70 | a row dated 05.01.2025 12:30:00 is kept |
| DateScenarios.OutOfRangeDateDropped | src/test/java/com/accountease/amazonseller/core/processor/DateFilterTest.java:75-85 | a row dated 15.01.2025 08:45:00 is dropped |
| DateScenarios.InvalidDateDropped | src/test/java/com/accountease/amazonseller/core/processor/DateFilterTest.java:90-100 | a row whose date is not a date is dropped |
| DateScenarios.MissingDateColumnDropped | src/test/java/com/accountease/amazonseller/core/processor/DateFilterTest.java:105-115 | a row without the date column is dropped |
| SummationScenarios.ColumnATotal | src/test/java/com/accountease/amazonseller/core/processor/SummationProcessorTest.java:83-88 | column A of the fixture totals 22.5, skipping "invalid" |
| SummationScenarios.ColumnsABTotal | src/test/java/com/accountease/amazonseller/core/processor/SummationProcessorTest.java:72-77 | columns A and B total 83.5 |
| SummationScenarios.ColumnsBCTotal | src/test/java/com/accountease/amazonseller/core/processor/SummationProcessorTest.java:93-98 | columns B and C total 168.5, skipping the empty cells |
| SummationScenarios.MixedTotal | src/test/java/com/accountease/amazonseller/core/processor/SummationProcessorTest.java:142-153 | the mixed fixture totals 50.5 |
| UniqueScenarios.NormalCase | src/test/java/com/accountease/amazonseller/core/processor/UniqueValuesProcessorTest.java:69-76 | testValue1, testValue2, testValue3 in first-seen order |
| UniqueScenarios.DuplicatesCase | src/test/java/com/accountease/amazonseller/core/processor/UniqueValuesProcessorTest.java:82-88 | a repeated value is reported once |
| UniqueScenarios.EmptyStringsCase | src/test/java/com/accountease/amazonseller/core/processor/UniqueValuesProcessorTest.java:94-100 | blank and empty cells give [] |
| UniqueScenarios.CaseSensitivityCase | src/test/java/com/accountease/amazonseller/core/processor/UniqueValuesProcessorTest.java:127-133 | "testValue" and "TestValue" are distinct |
| UniqueScenarios.LastColumnCases | src/test/java/com/accountease/amazonseller/core/processor/UniqueValuesProcessorTest.java:178-219 | the last name, untrimmed, or IllegalState on an empty or missing list |
| UniqueScenarios.ExtractNormalCase | src/test/java/com/accountease/amazonseller/core/processor/UniqueValuesProcessorTest.java:238-248 | the filtered rows give ["10", "20"] |
| UniqueScenarios.ExtractFiltersExcludeAll | src/test/java/com/accountease/amazonseller/core/processor/UniqueValuesProcessorTest.java:254-263 | a filter no row passes gives [] |
| RenderScenarios.ToStringScenario | src/test/java/com/accountease/amazonseller/core/ReportSettingTest.java:59-61 | the test descriptor renders exactly as the test expects |
| ReportScenarios.SellerShippingScenario | src/main/java/com/accountease/amazonseller/core/ReportFilterSettings.java:77-86 | of a seller-shipped and an Amazon-shipped order, the seller report keeps the first, whose fee "10,5" sums to 10.5 |
| ReportScenarios.DenyListScenario | src/main/java/com/accountease/amazonseller/core/ReportFilterSettings.java:269-278 | the deny-list ["!exclude", "Werbekosten"] drops the advertising row and keeps the other |
| ReportScenarios.ChainedReportScenario | src/main/java/com/accountease/amazonseller/core/ReportFilterSettings.java:379-394 | refund rows with order numbers A1, A2, A1 give the derived report {Bestellnummer → [A1, A2]} |

## Left out

- Reading the spreadsheet (`ExcelReader`, the static `ReportSetting.initData`) is file I/O. The rows are a parameter of every operation that reads them.
- `processReport`'s date settings come from `FilterConstants` in the source. The model makes them a `DateSettings` parameter, and `Reports.DefaultDateSettings` holds the configured values.
- `System.err` diagnostics for unparseable numbers and dates are console output only, and are left out.
- Java `null` for data, filter maps, filter lists and numeric-column lists is modelled as the empty sequence where the source treats the two alike: MultiColumnFilter, calculateTotalSum (whose tests expect 0.0 for null) and filter lists. `Option` models null in getUniqueValues, getLastNumericColumnName and the extractor's own checks.
- These null paths throw in the source and are not modelled, because the model's sequences and descriptors cannot be null:
  - `calculateSums` throws a NullPointerException on null numeric columns or null data (SummationProcessor.java:19, 26).
  - `filterByColumn` throws on null filter values or null data (ColumnFilter.java:21-22).
  - `DateFilter.filter` throws on null data (DateFilter.java:48).
  - `createFilteredReportFromAnother` with a first report whose filter map is null throws IllegalArgumentException("Column filters cannot be null.") (UniqueValuesProcessor.java:128-130, reached from ReportProcessorUtils.java:51-55). The model always passes the descriptor's filter map as present.
  - `createFilteredReportFromAnother` with a template report whose filter map is null throws a NullPointerException (ReportProcessorUtils.java:60); the model fails with NoSuchElement only for an empty map.
  - In general no field of a modelled descriptor can be null.
- The extractor wraps failures inside its `try` block in a RuntimeException. After its argument checks nothing in that block can fail, so the wrapping is not modelled.
- Numbers.ParseDouble: Java's `Double.parseDouble` grammar is reduced to an optional sign, digits and an optional point with more digits. Exponents, hexadecimal, `NaN`, `Infinity`, type suffixes and surrounding whitespace are not modelled. Each of those strings is treated as unparseable.
- DateFormat.ParseTimestamp: `SimpleDateFormat` is lenient and the model's parser is strict. `DateFilter` itself takes any parser as a function parameter. The model differs from Java on these inputs:
  - A day or field out of range rolls over in Java: "32.01.2025" and "31.02.2025" become dates in February and March. The model refuses them, so such a row is dropped where Java may keep it.
  - The model demands exactly nineteen characters with every field zero-padded. Java also reads one-digit fields ("5.1.2025 12:30:00") and ignores trailing text ("05.01.2025 12:30:00 MEZ"); the model refuses both.
  - The model uses the Gregorian leap-year rule for every year. Java's default calendar is Julian before October 1582.
  - Time zones and daylight-saving gaps are not modelled; a parsed instant is its wall-clock fields.
- `real` stands in for `double`. IEEE-754 rounding and overflow are not modelled.
- `Map.of` iteration order is unspecified in Java. A filter map is a sequence of entries in a fixed order, so "the template's first key" is the first entry. Filtering is proved independent of entry order (`MultiColumnFilter.FilteredIgnoresOrder`).
- `ReportSetting` fields are final. The model's datatype is immutable, so not changing after construction holds by construction and needs no lemma.
- Reports.ToString: the contract states the opening, the verbatim name and the closing brace. The middle is stated through Reports.FiltersToString and Reports.ListToString, and the full rendering is proved for the test descriptor in `RenderScenarios.ToStringScenario`. `HashMap`/`Map.of` rendering order for more than one key is unspecified in Java.
- The other descriptors of ReportFilterSettings and ReportSettingsFactory are configuration data. Five of them are transcribed, as is the refund-chaining pair. The rest are left out.
- The legacy POI scripts, IncomeReportMaker, ExcelDataProcessor, the entry points and the HTTP tests are left out. They are I/O, wiring or printing.

## Notes on the source

- `calculateTotalSum`, which `processReport` calls (ReportSetting.java:125), has no body in SummationProcessor.java. `Summation.TotalSum` models it from SummationProcessorTest.java:72-153. It is the net sum of every parseable value over all rows and listed columns. `Summation.TotalMatchesCalculatedSums` ties it to `calculateSums`.
- The sentinel `"!exclude"` makes a list a deny-list wherever it appears, not only first, because the code tests it with `contains` (MultiColumnFilter.java:87). The model follows the code.
- A cell that reads `"!exclude"` passes a deny-list, because the sentinel itself is never matched. Consequently, if chaining extracts the value "!exclude", the derived filter becomes a deny-list. `ReportProcessorUtils.DerivedReportSelectsMatchingRows` therefore assumes that value is absent.
- ReportProcessorUtils, ReportProcessingTools and ReportFilterSettings hold three copies of the chaining helper. All three are modelled, and the other two are proved equal to the first.
- SummationProcessorTest.java:98 asserts 168.5, while its message text says 138.0. The asserted value is the one the data gives, and `SummationScenarios.ColumnsBCTotal` proves 168.5.
