/** The fixture of MultiColumnFilterTest, replayed on the model. */
module FilterScenarios {
  import opened Wrappers
  import opened JavaText
  import opened Table
  import opened Seqs
  import opened Fixtures
  import MultiColumnFilter

  /** The four rows of the multi-column filter fixture. */
  function FilterFixture(): Rows {
    [map["testColumnA" := "testValue1", "testColumnB" := "testValue2"],
     map["testColumnA" := "testValue3", "testColumnB" := "testValue4"],
     map["testColumnA" := "testValue1", "testColumnB" := "testValue3"],
     map["testColumnA" := "testValue3", "testColumnB" := "testValue2"]]
  }

  /** Filtering on testColumnA = testValue1 keeps rows 0 and 2. */
  lemma SingleColumnFilterScenario()
    ensures MultiColumnFilter.Filtered([ColumnRule("testColumnA", ["testValue1"])], FilterFixture()) ==
      [FilterFixture()[0], FilterFixture()[2]]
  {
    TrimNoOp("testValue1");
    TrimNoOp("testValue2");
    TrimNoOp("testValue3");
    TrimNoOp("testValue4");
    var d := FilterFixture();
    Select4(MultiColumnFilter.AllTest([ColumnRule("testColumnA", ["testValue1"])]), d[0], d[1], d[2], d[3]);
  }

  /** Filtering on testColumnA = testValue1 and testColumnB = testValue2 keeps row 0 only. */
  lemma MultipleColumnFilterScenario()
    ensures MultiColumnFilter.Filtered(
      [ColumnRule("testColumnA", ["testValue1"]), ColumnRule("testColumnB", ["testValue2"])], FilterFixture()) ==
      [FilterFixture()[0]]
  {
    TrimNoOp("testValue1");
    TrimNoOp("testValue2");
    TrimNoOp("testValue3");
    TrimNoOp("testValue4");
    var d := FilterFixture();
    var filters := [ColumnRule("testColumnA", ["testValue1"]), ColumnRule("testColumnB", ["testValue2"])];
    PassesBoth(d[0], filters[0], filters[1]);
    PassesBoth(d[1], filters[0], filters[1]);
    PassesBoth(d[2], filters[0], filters[1]);
    PassesBoth(d[3], filters[0], filters[1]);
    assert MultiColumnFilter.PassesAll(d[0], filters);
    assert !MultiColumnFilter.PassesAll(d[1], filters);
    assert !MultiColumnFilter.PassesAll(d[2], filters);
    assert !MultiColumnFilter.PassesAll(d[3], filters);
    Select4(MultiColumnFilter.AllTest(filters), d[0], d[1], d[2], d[3]);
  }

  lemma PassesBoth(row: Row, first: ColumnRule, second: ColumnRule)
    ensures MultiColumnFilter.PassesAll(row, [first, second]) <==>
      MultiColumnFilter.Passes(row, first) && MultiColumnFilter.Passes(row, second)
  {
    MultiColumnFilter.PassesAllEvery(row, [first, second]);
  }

  /** A filter on testColumnC, which no row has, keeps nothing. */
  lemma MissingColumnFilterScenario()
    ensures MultiColumnFilter.Filtered([ColumnRule("testColumnC", ["testValue1"])], FilterFixture()) == []
  {
    MultiColumnFilter.AbsentColumnRemovesAll([ColumnRule("testColumnC", ["testValue1"])], 0, FilterFixture());
  }
}
