/** DateFilter: keeps the rows whose date cell falls inside a closed window. */
module DateFiltering {
  import opened Wrappers
  import opened Failures
  import opened JavaText
  import opened Table
  import opened Seqs
  import opened DateFormat

  /** A configured `SimpleDateFormat`: the instant a string denotes, or `None` where
      `parse` throws a ParseException. */
  type DateParser = string -> Option<int>

  /** The four final fields of a DateFilter, the two bounds already parsed. */
  datatype DateFilter = DateFilter(dateColumn: string, startDate: int, endDate: int, dateFormat: DateParser)

  /** The suffix some exports append to their timestamps. */
  const Utc := " UTC"

  function UnparseableDate(s: string): Failure {
    Parse("Unparseable date: \"" + s + "\"")
  }

  /** The constructor: parses the start bound, then the end bound, failing on the first
      that does not parse. */
  function NewDateFilter(dateColumn: string, startDateStr: string, endDateStr: string, dateFormat: DateParser)
    : (r: Result<DateFilter, Failure>)
    ensures r.Success? <==> dateFormat(startDateStr).Some? && dateFormat(endDateStr).Some?
    ensures r.Success? ==>
      (r.value.dateColumn == dateColumn && r.value.dateFormat == dateFormat &&
       Some(r.value.startDate) == dateFormat(startDateStr) && Some(r.value.endDate) == dateFormat(endDateStr))
    ensures dateFormat(startDateStr).None? ==> r == Failure(UnparseableDate(startDateStr))
    ensures dateFormat(startDateStr).Some? && dateFormat(endDateStr).None? ==>
      r == Failure(UnparseableDate(endDateStr))
  {
    match dateFormat(startDateStr)
    case None => Failure(UnparseableDate(startDateStr))
    case Some(startDate) =>
      match dateFormat(endDateStr)
      case None => Failure(UnparseableDate(endDateStr))
      case Some(endDate) => Success(DateFilter(dateColumn, startDate, endDate, dateFormat))
  }

  /** Whether `row` survives: its date cell is present and non-empty, parses once every
      " UTC" is removed, and lies neither before the start nor after the end. */
  predicate Keeps(f: DateFilter, row: Row) {
    var dateStr := Cell(row, f.dateColumn);
    dateStr != "" &&
    match f.dateFormat(RemoveAll(dateStr, Utc))
    case None => false
    case Some(rowDate) => f.startDate <= rowDate <= f.endDate
  }

  function KeepTest(f: DateFilter): Row -> bool {
    row => Keeps(f, row)
  }

  /** `filter`: one pass over the rows, skipping empty and unparseable dates. */
  method Filter(f: DateFilter, data: Rows) returns (filteredData: Rows)
    ensures filteredData == Select(KeepTest(f), data)
  {
    filteredData := [];
    for i := 0 to |data|
      invariant filteredData == Select(KeepTest(f), data[..i])
    {
      var row := data[i];
      assert data[..i + 1] == data[..i] + [row];
      SelectSnoc(KeepTest(f), data[..i], row);
      var dateStr := Cell(row, f.dateColumn);
      if dateStr == "" {
        continue;
      }
      var parsed := f.dateFormat(RemoveAll(dateStr, Utc));
      if parsed.Some? {
        var rowDate := parsed.value;
        if !(rowDate < f.startDate) && !(rowDate > f.endDate) {
          filteredData := filteredData + [row];
        }
      }
    }
    assert data[..|data|] == data;
  }

  /** A row is kept iff it is in the input and its date is present, parses and lies in
      the window. */
  lemma FilterMembership(f: DateFilter, data: Rows, row: Row)
    ensures row in Select(KeepTest(f), data) <==>
      row in data && Cell(row, f.dateColumn) != "" &&
      exists t :: f.dateFormat(RemoveAll(Cell(row, f.dateColumn), Utc)) == Some(t) &&
        f.startDate <= t <= f.endDate
  {
    SelectMembership(KeepTest(f), data, row);
    var parsed := f.dateFormat(RemoveAll(Cell(row, f.dateColumn), Utc));
    if parsed.Some? {
      assert parsed == Some(parsed.value);
    }
  }

  /** The kept rows are the input with some rows deleted, order unchanged. */
  lemma FilterKeepsOrder(f: DateFilter, data: Rows)
    ensures IsSubsequence(Select(KeepTest(f), data), data)
  {
    SelectIsSubsequence(KeepTest(f), data);
  }

  /** Rows without the date column are dropped, never reported as an error. */
  lemma MissingDateDropped(f: DateFilter, data: Rows)
    requires forall k :: 0 <= k < |data| ==> f.dateColumn !in data[k]
    ensures Select(KeepTest(f), data) == []
  {
    SelectNone(KeepTest(f), data);
  }

  /** Rows whose date does not parse are dropped, never reported as an error. */
  lemma UnparseableDateDropped(f: DateFilter, data: Rows)
    requires forall k :: 0 <= k < |data| ==> f.dateFormat(RemoveAll(Cell(data[k], f.dateColumn), Utc)).None?
    ensures Select(KeepTest(f), data) == []
  {
    SelectNone(KeepTest(f), data);
  }

  /** " UTC" never occurs in a string with no 'U' in it. */
  lemma NoUtcWithoutU(s: string)
    requires 'U' !in s
    ensures !Contains(s, Utc)
  {
    forall k: nat ensures !OccursAt(s, Utc, k) {
      if k + |Utc| <= |s| {
        assert s[k..k + |Utc|][1] == s[k + 1];
        assert s[k + 1] in s;
      }
    }
  }

  /** Removing every occurrence of `target` from `d + target` gives `d` back when no
      occurrence starts inside `d`. */
  lemma {:induction false} RemoveTrailing(d: string, target: string)
    requires target != []
    requires forall k :: 0 <= k < |d| ==> !OccursAt(d + target, target, k)
    ensures RemoveAll(d + target, target) == d
    decreases |d|
  {
    var s := d + target;
    if d == [] {
      assert s[..|target|] == target;
      assert s[|target|..] == [];
    } else {
      assert !OccursAt(s, target, 0);
      assert s[0..|target|] == s[..|target|];
      assert s[1..] == d[1..] + target;
      forall k | 0 <= k < |d[1..]| ensures !OccursAt(d[1..] + target, target, k) {
        assert !OccursAt(s, target, k + 1);
        assert s[k + 1..k + 1 + |target|] == (d[1..] + target)[k..k + |target|];
      }
      RemoveTrailing(d[1..], target);
      assert d == [d[0]] + d[1..];
    }
  }

  /** A timestamp (which has no 'U' in it) is read the same with or without the " UTC"
      suffix. */
  lemma UtcSuffixIgnored(d: string)
    requires 'U' !in d
    ensures RemoveAll(d + Utc, Utc) == d
    ensures RemoveAll(d, Utc) == d
  {
    NoUtcWithoutU(d);
    RemoveAllAbsent(d, Utc);
    forall k | 0 <= k < |d| ensures !OccursAt(d + Utc, Utc, k) {
      assert (d + Utc)[k..k + |Utc|][1] == (d + Utc)[k + 1];
      if k + 1 < |d| {
        assert (d + Utc)[k + 1] == d[k + 1];
        assert d[k + 1] in d;
      } else {
        assert (d + Utc)[k + 1] == ' ';
      }
    }
    RemoveTrailing(d, Utc);
  }
}
