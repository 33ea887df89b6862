/** The fixtures of UniqueValuesProcessorTest, replayed on the model. */
module UniqueScenarios {
  import opened Wrappers
  import opened Failures
  import opened JavaText
  import opened Table
  import opened Seqs
  import opened Fixtures
  import opened UniqueValues
  import MultiColumnFilter

  /** What one row adds to the column's values: its trimmed cell, unless that is empty. */
  function Contributes(row: Row, column: string): seq<string> {
    var value := TrimmedCell(row, column);
    if value != "" then [value] else []
  }

  lemma ValuesOfTwo(r0: Row, r1: Row, column: string)
    ensures ColumnValues([r0, r1], column) == Contributes(r0, column) + Contributes(r1, column)
  {
    assert [r0][..0] == [];
    assert ColumnValues([r0], column) == Contributes(r0, column);
    assert [r0, r1][..1] == [r0];
  }

  lemma ValuesOfThree(r0: Row, r1: Row, r2: Row, column: string)
    ensures ColumnValues([r0, r1, r2], column) ==
      Contributes(r0, column) + Contributes(r1, column) + Contributes(r2, column)
  {
    ValuesOfTwo(r0, r1, column);
    assert [r0, r1, r2][..2] == [r0, r1];
    assert [r0, r1, r2][2] == r2;
  }

  /** De-duplicating two or three literal values. */
  lemma DedupTwo<T>(a: T, b: T)
    ensures Dedup([a, b]) == if a == b then [a] else [a, b]
  {
    assert [a][..0] == [];
    assert Dedup([a]) == [a];
    assert [a, b][..1] == [a];
  }

  lemma DedupThree<T>(a: T, b: T, c: T)
    requires a != b && b != c && a != c
    ensures Dedup([a, b, c]) == [a, b, c]
  {
    DedupTwo(a, b);
    assert [a, b, c][..2] == [a, b];
    assert [a, b, c][2] == c;
    assert c !in [a, b];
  }

  /** Three rows with three different values give them in row order. */
  lemma NormalCase()
    ensures UniqueValuesOf(
      [map["testColumnA" := "testValue1", "testColumnB" := "testValue2"],
       map["testColumnA" := "testValue2", "testColumnB" := "testValue3"],
       map["testColumnA" := "testValue3", "testColumnB" := "testValue4"]], "testColumnA") ==
      ["testValue1", "testValue2", "testValue3"]
  {
    var r0 := map["testColumnA" := "testValue1", "testColumnB" := "testValue2"];
    var r1 := map["testColumnA" := "testValue2", "testColumnB" := "testValue3"];
    var r2 := map["testColumnA" := "testValue3", "testColumnB" := "testValue4"];
    assert Contributes(r0, "testColumnA") == ["testValue1"] by { TrimNoOp("testValue1"); }
    assert Contributes(r1, "testColumnA") == ["testValue2"] by { TrimNoOp("testValue2"); }
    assert Contributes(r2, "testColumnA") == ["testValue3"] by { TrimNoOp("testValue3"); }
    ValuesOfThree(r0, r1, r2, "testColumnA");
    assert ColumnValues([r0, r1, r2], "testColumnA") == ["testValue1", "testValue2", "testValue3"];
    DedupThree("testValue1", "testValue2", "testValue3");
  }

  /** A value seen twice is reported once. */
  lemma DuplicatesCase()
    ensures UniqueValuesOf(
      [map["testColumnA" := "testValue1", "testColumnB" := "testValue2"],
       map["testColumnA" := "testValue1", "testColumnB" := "testValue3"]], "testColumnA") ==
      ["testValue1"]
  {
    var r0 := map["testColumnA" := "testValue1", "testColumnB" := "testValue2"];
    var r1 := map["testColumnA" := "testValue1", "testColumnB" := "testValue3"];
    TrimNoOp("testValue1");
    ValuesOfTwo(r0, r1, "testColumnA");
    DedupTwo("testValue1", "testValue1");
  }

  /** A blank and an empty cell give no values. */
  lemma EmptyStringsCase()
    ensures UniqueValuesOf(
      [map["testColumnA" := " ", "testColumnB" := "testValue2"],
       map["testColumnA" := "", "testColumnB" := "testValue3"]], "testColumnA") == []
  {
    var data := [map["testColumnA" := " ", "testColumnB" := "testValue2"],
                 map["testColumnA" := "", "testColumnB" := "testValue3"]];
    TrimBlank(" ");
    TrimBlank("");
    assert Cell(data[0], "testColumnA") == " " && Cell(data[1], "testColumnA") == "";
    BlankColumnHasNoValues(data, "testColumnA");
  }

  /** Values differing only in case are different values. */
  lemma CaseSensitivityCase()
    ensures UniqueValuesOf(
      [map["testColumnA" := "testValue", "testColumnB" := "testValue2"],
       map["testColumnA" := "TestValue", "testColumnB" := "testValue3"]], "testColumnA") ==
      ["testValue", "TestValue"]
  {
    var r0 := map["testColumnA" := "testValue", "testColumnB" := "testValue2"];
    var r1 := map["testColumnA" := "TestValue", "testColumnB" := "testValue3"];
    TrimNoOp("testValue");
    TrimNoOp("TestValue");
    ValuesOfTwo(r0, r1, "testColumnA");
    assert "testValue"[0] != "TestValue"[0];
    DedupTwo("testValue", "TestValue");
  }

  /** The last column is returned as written, surrounding spaces included. */
  lemma LastColumnCases()
    ensures GetLastNumericColumnName(Some(["TestColumn1", "TestColumn2", "TestColumn3"])) == Success("TestColumn3")
    ensures GetLastNumericColumnName(Some(["Test123", "Test$Column", " TestColumn3 "])) == Success(" TestColumn3 ")
    ensures GetLastNumericColumnName(Some([])) == Failure(IllegalState("The list of numeric columns is empty or null."))
    ensures GetLastNumericColumnName(None) == Failure(IllegalState("The list of numeric columns is empty or null."))
  {
  }

  function ExtractRow0(): Row { map["TestColumn1" := "10", "TestColumn2" := "A"] }
  function ExtractRow1(): Row { map["TestColumn1" := "20", "TestColumn2" := "B"] }
  function ExtractRow2(): Row { map["TestColumn1" := "10", "TestColumn2" := "C"] }

  /** Rows with TestColumn2 in [A, B] survive, and their TestColumn1 values are 10 and 20. */
  lemma ExtractNormalCase()
    ensures ExtractUniqueValuesFromLastNumericColumn(
      Some([ExtractRow0(), ExtractRow1(), ExtractRow2()]), Some(["TestColumn1"]),
      Some([ColumnRule("TestColumn2", ["A", "B"])])) == Success(["10", "20"])
  {
    ExtractSurvivors();
    ExtractSurvivorValues();
    DedupTwo("10", "20");
  }

  lemma ExtractSurvivors()
    ensures MultiColumnFilter.Filtered([ColumnRule("TestColumn2", ["A", "B"])],
      [ExtractRow0(), ExtractRow1(), ExtractRow2()]) == [ExtractRow0(), ExtractRow1()]
  {
    TrimNoOp("A");
    TrimNoOp("B");
    TrimNoOp("C");
    Select3(MultiColumnFilter.AllTest([ColumnRule("TestColumn2", ["A", "B"])]), ExtractRow0(), ExtractRow1(), ExtractRow2());
  }

  lemma ExtractSurvivorValues()
    ensures ColumnValues([ExtractRow0(), ExtractRow1()], "TestColumn1") == ["10", "20"]
  {
    TrimNoOp("10");
    TrimNoOp("20");
    ValuesOfTwo(ExtractRow0(), ExtractRow1(), "TestColumn1");
  }

  /** A filter no row satisfies leaves nothing to extract. */
  lemma ExtractFiltersExcludeAll()
    ensures ExtractUniqueValuesFromLastNumericColumn(
      Some([ExtractRow0(), ExtractRow1()]), Some(["TestColumn1"]),
      Some([ColumnRule("TestColumn2", ["C"])])) == Success([])
  {
    var filters := [ColumnRule("TestColumn2", ["C"])];
    TrimNoOp("A");
    TrimNoOp("B");
    Select2(MultiColumnFilter.AllTest(filters), ExtractRow0(), ExtractRow1());
    assert MultiColumnFilter.Filtered(filters, [ExtractRow0(), ExtractRow1()]) == [];
  }
}
