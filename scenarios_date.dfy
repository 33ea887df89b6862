/** The fixture of DateFilterTest, replayed on the model: a window from 01.01.2025 00:00:00
    to 10.01.2025 23:59:59 over the "Datum/Uhrzeit" column. */
module DateScenarios {
  import opened Wrappers
  import opened Failures
  import opened Numbers
  import opened JavaText
  import opened Table
  import opened Seqs
  import opened DateFormat
  import opened DateFiltering

  const Column := "Datum/Uhrzeit"
  const Start := "01.01.2025 00:00:00"
  const End := "10.01.2025 23:59:59"

  /** The filter the test's set-up builds. */
  function TestFilter(): DateFilter {
    DateFilter(Column, Key(Timestamp(2025, 1, 1, 0, 0, 0)), Key(Timestamp(2025, 1, 10, 23, 59, 59)), ParseTimestamp)
  }

  /** The constructor accepts the two bounds and yields that filter. */
  lemma ConstructorScenario()
    ensures NewDateFilter(Column, Start, End, ParseTimestamp) == Success(TestFilter())
  {
    ReadsAs(Start, Timestamp(2025, 1, 1, 0, 0, 0));
    ReadsAs(End, Timestamp(2025, 1, 10, 23, 59, 59));
  }

  /** An unparseable bound, start or end, makes the constructor throw a ParseException. */
  lemma ConstructorRejectsInvalidBounds()
    ensures NewDateFilter(Column, "invalid-start", End, ParseTimestamp) == Failure(UnparseableDate("invalid-start"))
    ensures NewDateFilter(Column, Start, "invalid-end", ParseTimestamp) == Failure(UnparseableDate("invalid-end"))
  {
    ReadsAs(Start, Timestamp(2025, 1, 1, 0, 0, 0));
  }

  /** The leap day of 2024 exists and parses. */
  lemma LeapDayParses()
    ensures ParseTimestamp("29.02.2024 00:00:00") == Some(Key(Timestamp(2024, 2, 29, 0, 0, 0)))
  {
    ReadsAs("29.02.2024 00:00:00", Timestamp(2024, 2, 29, 0, 0, 0));
  }

  /** A day past the end of its month, 31.02.2025, is refused. */
  lemma NonexistentDayRejected()
    ensures ParseTimestamp("31.02.2025 00:00:00") == None
  {
    ReadsAs("31.02.2025 00:00:00", Timestamp(2025, 2, 31, 0, 0, 0));
  }

  lemma ReadsNoUtc(s: string, t: Timestamp)
    requires 'U' !in s
    requires ParseTimestamp(s) == Some(Key(t))
    ensures ParseTimestamp(RemoveAll(s, Utc)) == Some(Key(t))
  {
    UtcSuffixIgnored(s);
  }

  /** A date inside the window is kept. */
  lemma ValidDateKept()
    ensures var row := map[Column := "05.01.2025 12:30:00", "value" := "valid"];
      Select(KeepTest(TestFilter()), [row]) == [row]
  {
    var row := map[Column := "05.01.2025 12:30:00", "value" := "valid"];
    var s, t := "05.01.2025 12:30:00", Timestamp(2025, 1, 5, 12, 30, 0);
    var f := TestFilter();
    assert Cell(row, Column) == s;
    ValidDateReads();
    ValidDateInWindow();
    assert Keeps(f, row);
    SelectSnoc(KeepTest(f), [], row);
  }

  lemma ValidDateReads()
    ensures ParseTimestamp(RemoveAll("05.01.2025 12:30:00", Utc)) == Some(Key(Timestamp(2025, 1, 5, 12, 30, 0)))
  {
    ValidDateParses();
    ReadsNoUtc("05.01.2025 12:30:00", Timestamp(2025, 1, 5, 12, 30, 0));
  }

  lemma ValidDateParses()
    ensures ParseTimestamp("05.01.2025 12:30:00") == Some(Key(Timestamp(2025, 1, 5, 12, 30, 0)))
  {
    var t := Timestamp(2025, 1, 5, 12, 30, 0);
    assert ValidTimestamp(t);
    ReadsAs("05.01.2025 12:30:00", t);
  }

  lemma ValidDateInWindow()
    ensures TestFilter().startDate <= Key(Timestamp(2025, 1, 5, 12, 30, 0)) <= TestFilter().endDate
  {
    var t := Timestamp(2025, 1, 5, 12, 30, 0);
    KeyOrdersChronologically(Timestamp(2025, 1, 1, 0, 0, 0), t);
    KeyOrdersChronologically(t, Timestamp(2025, 1, 10, 23, 59, 59));
  }

  /** A date after the window is dropped. */
  lemma OutOfRangeDateDropped()
    ensures var row := map[Column := "15.01.2025 08:45:00", "value" := "outOfRange"];
      Select(KeepTest(TestFilter()), [row]) == []
  {
    var row := map[Column := "15.01.2025 08:45:00", "value" := "outOfRange"];
    var s, t := "15.01.2025 08:45:00", Timestamp(2025, 1, 15, 8, 45, 0);
    var f := TestFilter();
    assert Cell(row, Column) == s;
    assert f.dateFormat(RemoveAll(s, Utc)) == Some(Key(t)) by {
      ReadsAs(s, t);
      ReadsNoUtc(s, t);
    }
    assert f.endDate < Key(t) by {
      KeyOrdersChronologically(Timestamp(2025, 1, 10, 23, 59, 59), t);
    }
    assert !Keeps(f, row);
    SelectSnoc(KeepTest(f), [], row);
  }

  /** A cell that is not a date of the pattern is dropped. */
  lemma InvalidDateDropped()
    ensures var row := map[Column := "DateFilterTestDate", "value" := "invalid"];
      Select(KeepTest(TestFilter()), [row]) == []
  {
    var row := map[Column := "DateFilterTestDate", "value" := "invalid"];
    var s := "DateFilterTestDate";
    assert Cell(row, Column) == s;
    assert |RemoveAll(s, Utc)| <= |s| < 19;
    assert !Keeps(TestFilter(), row);
    SelectSnoc(KeepTest(TestFilter()), [], row);
  }

  /** A row without the date column is dropped. */
  lemma MissingDateColumnDropped()
    ensures Select(KeepTest(TestFilter()), [map["value" := "missingDate"]]) == []
  {
    MissingDateDropped(TestFilter(), [map["value" := "missingDate"]]);
  }
}
