/** ReportFilterSettings: the report descriptors of the income statement, a few of them
    transcribed, and the chaining helpers bound to the refund reports. */
module ReportFilterSettings {
  import opened Wrappers
  import opened Failures
  import opened Table
  import opened Seqs
  import MultiColumnFilter
  import UniqueValues
  import opened Reports
  import ReportProcessorUtils

  const ColumnTyp := "Typ"
  const ColumnVersand := "Versand"
  const ColumnBeschreibung := "Beschreibung"
  const ColumnBestellnummer := "Bestellnummer"

  const TypBestellung := ["Bestellung"]
  const TypServicegebuehr := ["Servicegebühr"]
  const TypAnpassung := ["Anpassung"]
  const TypErstattung := ["Erstattung"]
  const VersandVerkaeufer := ["Verkäufer"]
  const BeschreibungWerbekosten := ["Werbekosten"]

  /** Deny-lists: every description except the listed ones. */
  const ExcludeWerbekosten := ["!exclude", "Werbekosten"]
  const ExcludeAllgemeineAnpassung := [
    "!exclude",
    "Versand durch Amazon Erstattung für Lagerbestand -  Allgemeine Anpassung",
    "Versand durch Amazon Erstattung für Lagerbestand - Kundenrücksendung"]

  const NumericVerkaufsgebuehren := ["Verkaufsgebühren"]
  const NumericGesamt := ["Gesamt"]
  const UniqueListBestellnummer := ["Bestellnummer"]

  /** `getTotalSellerShippingFee`: selling fees of orders the seller shipped. */
  const TotalSellerShippingFee := ReportSetting(
    "Verkaufsgebühren Versand durch Verkäufer",
    [ColumnRule(ColumnTyp, TypBestellung), ColumnRule(ColumnVersand, VersandVerkaeufer)],
    NumericVerkaufsgebuehren)

  /** `getTotalAdvertisingCosts`: service fees described as advertising. */
  const TotalAdvertisingCosts := ReportSetting(
    "Werbekosten",
    [ColumnRule(ColumnTyp, TypServicegebuehr), ColumnRule(ColumnBeschreibung, BeschreibungWerbekosten)],
    NumericGesamt)

  /** `getTotalServiceFees`: service fees except advertising. */
  const TotalServiceFees := ReportSetting(
    "Servicegebühren",
    [ColumnRule(ColumnTyp, TypServicegebuehr), ColumnRule(ColumnBeschreibung, ExcludeWerbekosten)],
    NumericGesamt)

  /** `getTotalFBALogisticsInventoryCredits`: adjustments except the two excluded kinds. */
  const TotalFbaLogisticsInventoryCredits := ReportSetting(
    "FBA Lagerbestandsguthaben",
    [ColumnRule(ColumnTyp, TypAnpassung), ColumnRule(ColumnBeschreibung, ExcludeAllgemeineAnpassung)],
    NumericGesamt)

  /** `getUniqueValuesFromFilteredColumn`: the refund rows, with the order number as the
      (last) numeric column so that chaining extracts order numbers. */
  const UniqueValuesFromFilteredColumn := ReportSetting(
    "Reine Rückerstattungskosten zur Verkaufsgebühr, ohne berechneten Rückerstattungsgebühren",
    [ColumnRule(ColumnTyp, TypErstattung)],
    UniqueListBestellnummer)

  /** The seller-shipping report keeps exactly the orders shipped by the seller. */
  lemma SellerShippingFeeSelects(row: Row)
    ensures MultiColumnFilter.PassesAll(row, TotalSellerShippingFee.columnFilters) <==>
      TrimmedCell(row, "Typ") == "Bestellung" && TrimmedCell(row, "Versand") == "Verkäufer"
  {
    MultiColumnFilter.PassesAllEvery(row, TotalSellerShippingFee.columnFilters);
  }

  /** The service-fee report combines an allow-list on the type with a deny-list on the
      description: service fees other than advertising. */
  lemma ServiceFeesSelects(row: Row)
    ensures MultiColumnFilter.PassesAll(row, TotalServiceFees.columnFilters) <==>
      TrimmedCell(row, "Typ") == "Servicegebühr" && TrimmedCell(row, "Beschreibung") != "Werbekosten"
  {
    MultiColumnFilter.PassesAllEvery(row, TotalServiceFees.columnFilters);
    MultiColumnFilter.DenyListSemantics(row, TotalServiceFees.columnFilters[1]);
    assert ExcludeWerbekosten[1] != MultiColumnFilter.Exclude;
  }

  /** Advertising costs and the other service fees split the service-fee rows between them. */
  lemma ServiceFeesComplementAdvertising(row: Row)
    requires TrimmedCell(row, "Typ") == "Servicegebühr"
    ensures MultiColumnFilter.PassesAll(row, TotalServiceFees.columnFilters) <==>
      !MultiColumnFilter.PassesAll(row, TotalAdvertisingCosts.columnFilters)
  {
    ServiceFeesSelects(row);
    MultiColumnFilter.PassesAllEvery(row, TotalAdvertisingCosts.columnFilters);
  }

  /** The inventory-credit report keeps the adjustments whose description is neither of the
      two excluded kinds. */
  lemma FbaInventoryCreditsSelects(row: Row)
    ensures MultiColumnFilter.PassesAll(row, TotalFbaLogisticsInventoryCredits.columnFilters) <==>
      TrimmedCell(row, "Typ") == "Anpassung" &&
      TrimmedCell(row, "Beschreibung") != ExcludeAllgemeineAnpassung[1] &&
      TrimmedCell(row, "Beschreibung") != ExcludeAllgemeineAnpassung[2]
  {
    MultiColumnFilter.PassesAllEvery(row, TotalFbaLogisticsInventoryCredits.columnFilters);
    MultiColumnFilter.DenyListSemantics(row, TotalFbaLogisticsInventoryCredits.columnFilters[1]);
  }

  /** Chaining from the refund report extracts the distinct order numbers of the refund rows. */
  lemma RefundReportExtractsOrderNumbers(data: Rows)
    ensures ReportProcessorUtils.ExtractedFrom(data, UniqueValuesFromFilteredColumn) ==
      Success(UniqueValues.UniqueValuesOf(
        MultiColumnFilter.Filtered([ColumnRule("Typ", ["Erstattung"])], data), "Bestellnummer"))
  {
  }

  /** `buildFilterFromUniqueColumnValues(uniqueValues)`: the refund-handling-fee report over
      the given order numbers. */
  function BuildFilterFromUniqueColumnValues(uniqueValues: seq<string>): (r: ReportSetting)
    ensures r == ReportProcessorUtils.BuildFilterFromUniqueColumnValues(
      uniqueValues, "Bestellnummer", "Bearbeitungsgebühren für Erstattungen", ["Verkaufsgebühren"])
  {
    ReportSetting("Bearbeitungsgebühren für Erstattungen",
      [ColumnRule(ColumnBestellnummer, uniqueValues)], NumericVerkaufsgebuehren)
  }

  /** `createFilteredReportFromAnother`: the same outcome as the ReportProcessorUtils helper
      on every input. */
  function CreateFilteredReportFromAnother(data: Rows, firstReport: ReportSetting, templateReport: ReportSetting)
    : (r: Result<ReportSetting, Failure>)
    ensures r == ReportProcessorUtils.CreateFilteredReportFromAnother(data, firstReport, templateReport)
  {
    var uniqueValues := UniqueValues.ExtractUniqueValuesFromLastNumericColumn(
      Some(data), Some(firstReport.numericColumns), Some(firstReport.columnFilters));
    match uniqueValues
    case Failure(e) => Failure(e)
    case Success(values) =>
      if templateReport.columnFilters == [] then Failure(NoSuchElement)
      else Success(ReportSetting(templateReport.name,
        [ColumnRule(templateReport.columnFilters[0].column, values)], templateReport.numericColumns))
  }
}
