/** Report-level worked examples: a seller-shipping run, a deny-list and a chained report. */
module ReportScenarios {
  import opened Wrappers
  import opened JavaText
  import opened Numbers
  import opened Table
  import opened Seqs
  import opened Fixtures
  import opened Reports
  import opened Summation
  import MultiColumnFilter
  import UniqueValues
  import UniqueScenarios
  import ReportProcessorUtils
  import ReportFilterSettings

  function SellerRow(): Row { map["Typ" := "Bestellung", "Versand" := "Verkäufer", "Verkaufsgebühren" := "10,5"] }
  function AmazonRow(): Row { map["Typ" := "Bestellung", "Versand" := "Amazon", "Verkaufsgebühren" := "20"] }

  /** Of an order the seller shipped and one Amazon shipped, the seller-shipping filters keep
      the first, whose decimal-comma fee sums to 10.5. */
  lemma SellerShippingScenario()
    ensures MultiColumnFilter.Filtered(ReportFilterSettings.TotalSellerShippingFee.columnFilters, [SellerRow(), AmazonRow()]) ==
      [SellerRow()]
    ensures TotalSum([SellerRow()], ["Verkaufsgebühren"]) == 10.5
  {
    var filters := ReportFilterSettings.TotalSellerShippingFee.columnFilters;
    assert MultiColumnFilter.PassesAll(SellerRow(), filters) by {
      TrimNoOp("Bestellung");
      TrimNoOp("Verkäufer");
      ReportFilterSettings.SellerShippingFeeSelects(SellerRow());
    }
    assert !MultiColumnFilter.PassesAll(AmazonRow(), filters) by {
      TrimNoOp("Amazon");
      ReportFilterSettings.SellerShippingFeeSelects(AmazonRow());
    }
    Select2(MultiColumnFilter.AllTest(filters), SellerRow(), AmazonRow());
    SellerFee();
    assert [SellerRow()][..0] == [];
    assert ["Verkaufsgebühren"][..0] == [];
  }

  /** "10,5" reads as 10.5 once its comma becomes a point. */
  lemma SellerFee()
    ensures Amount(SellerRow(), "Verkaufsgebühren") == Some(10.5)
  {
    SellerFeeCell();
    CommaCellAmount(SellerRow(), "Verkaufsgebühren", "10", "5");
    TenPointFive();
  }

  lemma SellerFeeCell()
    ensures "Verkaufsgebühren" in SellerRow() && SellerRow()["Verkaufsgebühren"] == "10" + "," + "5"
  {
    assert "10" + "," + "5" == "10,5";
  }

  lemma TenPointFive()
    ensures AllDigits("10") && AllDigits("5") && DecimalValue("10", "5") == 10.5
  {
    assert "10"[..1] == "1" && "1"[..0] == "";
    assert DigitsValue("10") == 10;
    assert "5"[..0] == "";
    assert DigitsValue("5") == 5;
    assert Pow10(1) == 10;
  }

  /** The deny-list ["!exclude", "Werbekosten"] drops the advertising row and keeps the other. */
  lemma DenyListScenario()
    ensures var rows := [map["Beschreibung" := "Werbekosten"], map["Beschreibung" := "Sonstiges"]];
      MultiColumnFilter.Filtered([ColumnRule("Beschreibung", ReportFilterSettings.ExcludeWerbekosten)], rows) ==
      [rows[1]]
  {
    var rows := [map["Beschreibung" := "Werbekosten"], map["Beschreibung" := "Sonstiges"]];
    var rule := ColumnRule("Beschreibung", ReportFilterSettings.ExcludeWerbekosten);
    TrimNoOp("Werbekosten");
    TrimNoOp("Sonstiges");
    assert ReportFilterSettings.ExcludeWerbekosten[1] != MultiColumnFilter.Exclude;
    assert TrimmedCell(rows[0], "Beschreibung") == "Werbekosten";
    assert TrimmedCell(rows[1], "Beschreibung") == "Sonstiges";
    MultiColumnFilter.DenyListSemantics(rows[0], rule);
    MultiColumnFilter.DenyListSemantics(rows[1], rule);
    MultiColumnFilter.PassesAllEvery(rows[0], [rule]);
    MultiColumnFilter.PassesAllEvery(rows[1], [rule]);
    Select2(MultiColumnFilter.AllTest([rule]), rows[0], rows[1]);
  }

  function RefundRow(order: string): Row { map["Typ" := "Erstattung", "Bestellnummer" := order] }

  /** Three refund rows with order numbers A1, A2, A1 make the derived report admit A1 and A2,
      once each and in that order, under the template's key. */
  lemma ChainedReportScenario()
    ensures ReportFilterSettings.CreateFilteredReportFromAnother(
      [RefundRow("A1"), RefundRow("A2"), RefundRow("A1")],
      ReportFilterSettings.UniqueValuesFromFilteredColumn,
      ReportFilterSettings.BuildFilterFromUniqueColumnValues([])) ==
      Success(ReportSetting("Bearbeitungsgebühren für Erstattungen",
        [ColumnRule("Bestellnummer", ["A1", "A2"])], ["Verkaufsgebühren"]))
  {
    var data := [RefundRow("A1"), RefundRow("A2"), RefundRow("A1")];
    RefundRowsSurvive();
    RefundOrderNumbers();
  }

  lemma RefundRowsSurvive()
    ensures MultiColumnFilter.Filtered([ColumnRule("Typ", ["Erstattung"])],
      [RefundRow("A1"), RefundRow("A2"), RefundRow("A1")]) == [RefundRow("A1"), RefundRow("A2"), RefundRow("A1")]
  {
    TrimNoOp("Erstattung");
    Select3(MultiColumnFilter.AllTest([ColumnRule("Typ", ["Erstattung"])]), RefundRow("A1"), RefundRow("A2"), RefundRow("A1"));
  }

  lemma RefundOrderNumbers()
    ensures UniqueValues.UniqueValuesOf([RefundRow("A1"), RefundRow("A2"), RefundRow("A1")], "Bestellnummer") == ["A1", "A2"]
  {
    assert UniqueScenarios.Contributes(RefundRow("A1"), "Bestellnummer") == ["A1"] by { TrimNoOp("A1"); }
    assert UniqueScenarios.Contributes(RefundRow("A2"), "Bestellnummer") == ["A2"] by { TrimNoOp("A2"); }
    UniqueScenarios.ValuesOfThree(RefundRow("A1"), RefundRow("A2"), RefundRow("A1"), "Bestellnummer");
    UniqueScenarios.DedupTwo("A1", "A2");
    DedupSnoc(["A1", "A2"], "A1");
    assert ["A1", "A2"] + ["A1"] == ["A1", "A2", "A1"];
  }
}
