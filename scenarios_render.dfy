/** The rendering ReportSettingTest expects of a descriptor. */
module RenderScenarios {
  import opened Table
  import opened Reports

  /** The descriptor of ReportSettingTest. */
  function TestReport(): ReportSetting {
    ReportSetting("Test Report", [ColumnRule("TestColumn", ["Value1", "Value2"])], ["NumericColumn"])
  }

  /** `toString` renders the test descriptor exactly as the test expects. */
  lemma ToStringScenario()
    ensures ToString(TestReport()) ==
      "ReportSetting{name='Test Report', columnFilters={TestColumn=[Value1, Value2]}, numericColumns=[NumericColumn]}"
  {
    CollectionsRender();
    Rendered1(); Rendered2(); Rendered3(); Rendered4(); Rendered5(); Rendered6(); Rendered7();
  }

  /** The filter map renders as `{TestColumn=[Value1, Value2]}`, the column list as
      `[NumericColumn]`. */
  lemma CollectionsRender()
    ensures FiltersToString([ColumnRule("TestColumn", ["Value1", "Value2"])]) == "{TestColumn=[Value1, Value2]}"
    ensures ListToString(["NumericColumn"]) == "[NumericColumn]"
  {
    ValuesRender();
    EntryRender();
    BracesRender();
  }

  /* The lemmas below only split ToStringScenario's proof: each states one literal fact of
     the rendering, small enough for the verifier on its own. */

  lemma ValuesRender()
    ensures ListToString(["Value1", "Value2"]) == "[Value1, Value2]"
  {
    var values := ["Value1", "Value2"];
    assert values[1..] == ["Value2"];
    assert JoinElements(values) == "Value1, Value2";
  }

  lemma EntryRender()
    ensures "TestColumn" + "=" + "[Value1, Value2]" == "TestColumn=[Value1, Value2]"
  {
  }

  lemma BracesRender()
    ensures "{" + "TestColumn=[Value1, Value2]" + "}" == "{TestColumn=[Value1, Value2]}"
  {
  }

  /** The rendering, one concatenation at a time. */
  lemma Rendered1() ensures "ReportSetting{name='" + "Test Report" == "ReportSetting{name='Test Report" {}
  lemma Rendered2() ensures "ReportSetting{name='Test Report" + "'" == "ReportSetting{name='Test Report'" {}
  lemma Rendered3()
    ensures "ReportSetting{name='Test Report'" + ", columnFilters=" == "ReportSetting{name='Test Report', columnFilters="
  {}
  lemma Rendered4()
    ensures "ReportSetting{name='Test Report', columnFilters=" + "{TestColumn=[Value1, Value2]}" ==
      "ReportSetting{name='Test Report', columnFilters={TestColumn=[Value1, Value2]}"
  {}
  lemma Rendered5()
    ensures "ReportSetting{name='Test Report', columnFilters={TestColumn=[Value1, Value2]}" + ", numericColumns=" ==
      "ReportSetting{name='Test Report', columnFilters={TestColumn=[Value1, Value2]}, numericColumns="
  {}
  lemma Rendered6()
    ensures "ReportSetting{name='Test Report', columnFilters={TestColumn=[Value1, Value2]}, numericColumns=" + "[NumericColumn]" ==
      "ReportSetting{name='Test Report', columnFilters={TestColumn=[Value1, Value2]}, numericColumns=[NumericColumn]"
  {}
  lemma Rendered7()
    ensures "ReportSetting{name='Test Report', columnFilters={TestColumn=[Value1, Value2]}, numericColumns=[NumericColumn]" + "}" ==
      "ReportSetting{name='Test Report', columnFilters={TestColumn=[Value1, Value2]}, numericColumns=[NumericColumn]}"
  {}
}
