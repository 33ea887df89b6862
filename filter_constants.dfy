/** The date settings every report run uses: the reporting window of the second half of
    2024, read from the "Datum/Uhrzeit" column in the pattern "dd.MM.yyyy HH:mm:ss". */
module FilterConstants {
  import opened Wrappers
  import opened DateFormat

  const StartDate := "01.07.2024 00:00:00"
  const EndDate := "31.12.2024 23:59:59"
  const DateColumnExcel := "Datum/Uhrzeit"

  /** The bounds are well-formed instants of the pattern, the start before the end, so a
      report run never fails on its own configuration. */
  lemma WindowParses()
    ensures ParseTimestamp(StartDate) == Some(Key(Timestamp(2024, 7, 1, 0, 0, 0)))
    ensures ParseTimestamp(EndDate) == Some(Key(Timestamp(2024, 12, 31, 23, 59, 59)))
    ensures Key(Timestamp(2024, 7, 1, 0, 0, 0)) < Key(Timestamp(2024, 12, 31, 23, 59, 59))
  {
    ReadsAs(StartDate, Timestamp(2024, 7, 1, 0, 0, 0));
    ReadsAs(EndDate, Timestamp(2024, 12, 31, 23, 59, 59));
  }
}
