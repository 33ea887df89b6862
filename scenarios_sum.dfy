/** The fixtures of SummationProcessorTest, replayed on the model. */
module SummationScenarios {
  import opened Wrappers
  import opened JavaText
  import opened Numbers
  import opened Table
  import opened Summation

  function Row0(): Row { map["testColumnA" := "10", "testColumnB" := "20.5", "testColumnC" := "30"] }
  function Row1(): Row { map["testColumnA" := "5", "testColumnB" := "15.5", "testColumnC" := ""] }
  function Row2(): Row { map["testColumnA" := "invalid", "testColumnB" := "25", "testColumnC" := "35"] }
  function Row3(): Row { map["testColumnA" := "7.5", "testColumnB" := "", "testColumnC" := "42.5"] }

  /** The four rows of the test's set-up. */
  function SumFixture(): Rows { [Row0(), Row1(), Row2(), Row3()] }

  /** A cell that is neither empty nor a number is skipped. */
  lemma InvalidCell(row: Row, column: string, s: string)
    requires column in row && row[column] == s
    requires s != [] && ',' !in s && !IsTrimmable(s[0]) && !IsTrimmable(s[|s| - 1])
    requires !IsDigit(s[0]) && s[0] !in "+-."
    ensures Amount(row, column) == None
  {
    ReplaceCharAbsent(s, ',', '.');
    TrimNoOp(s);
    ParseRejectsNonNumericStart(s);
  }

  /** The net total of three or four literal rows, row by row. */
  lemma TotalOfThree(r0: Row, r1: Row, r2: Row, columns: seq<string>)
    ensures TotalSum([r0, r1, r2], columns) == RowNet(r0, columns) + RowNet(r1, columns) + RowNet(r2, columns)
  {
    assert [r0][..0] == [];
    assert TotalSum([r0], columns) == RowNet(r0, columns);
    assert [r0, r1][..1] == [r0];
    assert TotalSum([r0, r1], columns) == RowNet(r0, columns) + RowNet(r1, columns);
    assert [r0, r1, r2][..2] == [r0, r1];
  }

  lemma TotalOfFour(r0: Row, r1: Row, r2: Row, r3: Row, columns: seq<string>)
    ensures TotalSum([r0, r1, r2, r3], columns) ==
      RowNet(r0, columns) + RowNet(r1, columns) + RowNet(r2, columns) + RowNet(r3, columns)
  {
    assert [r0, r1, r2, r3][..3] == [r0, r1, r2];
    TotalOfThree(r0, r1, r2, columns);
  }

  /** The net value of a row over one, two or three listed columns. */
  lemma NetOverColumns(row: Row, a: string, b: string, c: string)
    ensures RowNet(row, [a]) == NetPart(Amount(row, a))
    ensures RowNet(row, [a, b]) == NetPart(Amount(row, a)) + NetPart(Amount(row, b))
    ensures RowNet(row, [a, b, c]) == NetPart(Amount(row, a)) + NetPart(Amount(row, b)) + NetPart(Amount(row, c))
  {
    assert [a, b, c][..2] == [a, b];
    assert [a, b][..1] == [a];
    assert [a][..0] == [];
  }

  /** Each cell of the fixtures and the amount it contributes. The lemmas from here to the
      totals only split the totals' proofs into obligations small enough for the verifier;
      each is one literal fact about one fixture cell. */
  lemma A0()
    ensures Amount(Row0(), "testColumnA") == Some(10.0)
  {
    WholeCellAmount(Row0(), "testColumnA", "10");
  }

  lemma B0()
    ensures Amount(Row0(), "testColumnB") == Some(20.5)
  {
    PointCellAmount(Row0(), "testColumnB", "20", "5");
    assert "20" + "." + "5" == "20.5";
  }

  lemma C0()
    ensures Amount(Row0(), "testColumnC") == Some(30.0)
  {
    WholeCellAmount(Row0(), "testColumnC", "30");
  }

  lemma A1()
    ensures Amount(Row1(), "testColumnA") == Some(5.0)
  {
    WholeCellAmount(Row1(), "testColumnA", "5");
  }

  lemma B1()
    ensures Amount(Row1(), "testColumnB") == Some(15.5)
  {
    PointCellAmount(Row1(), "testColumnB", "15", "5");
    assert "15" + "." + "5" == "15.5";
  }

  lemma C1()
    ensures Amount(Row1(), "testColumnC") == None
  {
  }

  lemma A2()
    ensures Amount(Row2(), "testColumnA") == None
  {
    InvalidCell(Row2(), "testColumnA", "invalid");
  }

  lemma B2()
    ensures Amount(Row2(), "testColumnB") == Some(25.0)
  {
    WholeCellAmount(Row2(), "testColumnB", "25");
  }

  lemma C2()
    ensures Amount(Row2(), "testColumnC") == Some(35.0)
  {
    WholeCellAmount(Row2(), "testColumnC", "35");
  }

  lemma A3()
    ensures Amount(Row3(), "testColumnA") == Some(7.5)
  {
    PointCellAmount(Row3(), "testColumnA", "7", "5");
    assert "7" + "." + "5" == "7.5";
  }

  lemma B3()
    ensures Amount(Row3(), "testColumnB") == None
  {
  }

  lemma C3()
    ensures Amount(Row3(), "testColumnC") == Some(42.5)
  {
    PointCellAmount(Row3(), "testColumnC", "42", "5");
    assert "42" + "." + "5" == "42.5";
  }

  lemma MixedA0()
    ensures Amount(MixedRow0(), "testColumnA") == Some(10.0)
  {
    WholeCellAmount(MixedRow0(), "testColumnA", "10");
  }

  lemma MixedB0()
    ensures Amount(MixedRow0(), "testColumnB") == None
  {
  }

  lemma MixedC0()
    ensures Amount(MixedRow0(), "testColumnC") == None
  {
    InvalidCell(MixedRow0(), "testColumnC", "invalid");
  }

  lemma MixedA1()
    ensures Amount(MixedRow1(), "testColumnA") == Some(5.0)
  {
    WholeCellAmount(MixedRow1(), "testColumnA", "5");
  }

  lemma MixedB1()
    ensures Amount(MixedRow1(), "testColumnB") == None
  {
    InvalidCell(MixedRow1(), "testColumnB", "invalid");
  }

  lemma MixedC1()
    ensures Amount(MixedRow1(), "testColumnC") == Some(20.0)
  {
    WholeCellAmount(MixedRow1(), "testColumnC", "20");
  }

  lemma MixedA2()
    ensures Amount(MixedRow2(), "testColumnA") == None
  {
  }

  lemma MixedB2()
    ensures Amount(MixedRow2(), "testColumnB") == Some(15.5)
  {
    MixedB2Cell();
    PointCellAmount(MixedRow2(), "testColumnB", "15", "5");
  }

  lemma MixedB2Cell()
    ensures Cell(MixedRow2(), "testColumnB") == "15" + "." + "5"
  {
    assert "15" + "." + "5" == "15.5";
  }

  lemma MixedC2()
    ensures Amount(MixedRow2(), "testColumnC") == None
  {
  }

  /** Over testColumnA the invalid cell is skipped: 10 + 5 + 7.5. */
  lemma ColumnATotal()
    ensures TotalSum(SumFixture(), ["testColumnA"]) == 22.5
  {
    TotalOfFour(Row0(), Row1(), Row2(), Row3(), ["testColumnA"]);
    NetOverColumns(Row0(), "testColumnA", "", "");
    NetOverColumns(Row1(), "testColumnA", "", "");
    NetOverColumns(Row2(), "testColumnA", "", "");
    NetOverColumns(Row3(), "testColumnA", "", "");
    A0(); A1(); A2(); A3();
  }

  /** Over testColumnA and testColumnB: 22.5 + 20.5 + 15.5 + 25. */
  lemma ColumnsABTotal()
    ensures TotalSum(SumFixture(), ["testColumnA", "testColumnB"]) == 83.5
  {
    TotalOfFour(Row0(), Row1(), Row2(), Row3(), ["testColumnA", "testColumnB"]);
    NetOverColumns(Row0(), "testColumnA", "testColumnB", "");
    NetOverColumns(Row1(), "testColumnA", "testColumnB", "");
    NetOverColumns(Row2(), "testColumnA", "testColumnB", "");
    NetOverColumns(Row3(), "testColumnA", "testColumnB", "");
    A0(); A1(); A2(); A3();
    B0(); B1(); B2(); B3();
  }

  /** Over testColumnB and testColumnC, the empty cells skipped: 61 + 107.5. */
  lemma ColumnsBCTotal()
    ensures TotalSum(SumFixture(), ["testColumnB", "testColumnC"]) == 168.5
  {
    TotalOfFour(Row0(), Row1(), Row2(), Row3(), ["testColumnB", "testColumnC"]);
    NetOverColumns(Row0(), "testColumnB", "testColumnC", "");
    NetOverColumns(Row1(), "testColumnB", "testColumnC", "");
    NetOverColumns(Row2(), "testColumnB", "testColumnC", "");
    NetOverColumns(Row3(), "testColumnB", "testColumnC", "");
    B0(); B1(); B2(); B3();
    C0(); C1(); C2(); C3();
  }

  function MixedRow0(): Row { map["testColumnA" := "10", "testColumnB" := "", "testColumnC" := "invalid"] }
  function MixedRow1(): Row { map["testColumnA" := "5", "testColumnB" := "invalid", "testColumnC" := "20"] }
  function MixedRow2(): Row { map["testColumnA" := "", "testColumnB" := "15.5", "testColumnC" := ""] }

  /** Empty and invalid cells mixed with numbers: 10 + 5 + 20 + 15.5. */
  lemma MixedTotal()
    ensures TotalSum([MixedRow0(), MixedRow1(), MixedRow2()], ["testColumnA", "testColumnB", "testColumnC"]) == 50.5
  {
    var columns := ["testColumnA", "testColumnB", "testColumnC"];
    TotalOfThree(MixedRow0(), MixedRow1(), MixedRow2(), columns);
    NetOverColumns(MixedRow0(), "testColumnA", "testColumnB", "testColumnC");
    NetOverColumns(MixedRow1(), "testColumnA", "testColumnB", "testColumnC");
    NetOverColumns(MixedRow2(), "testColumnA", "testColumnB", "testColumnC");
    MixedA0(); MixedB0(); MixedC0();
    MixedA1(); MixedB1(); MixedC1();
    MixedA2(); MixedB2(); MixedC2();
  }
}
