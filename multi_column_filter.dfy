/** MultiColumnFilter: narrows the rows column by column, each column's value list
    being an allow-list, or a deny-list when it holds the sentinel "!exclude". */
module MultiColumnFilter {
  import opened JavaText
  import opened Table
  import opened Seqs

  /** The sentinel that turns a value list into a deny-list. */
  const Exclude := "!exclude"

  /** `filterValues != null && !filterValues.isEmpty() && filterValues.contains("!exclude")`. */
  predicate IsExcludeFilter(values: seq<string>) {
    |values| > 0 && Exclude in values
  }

  /** Some entry other than the sentinel equals the trimmed cell. */
  predicate MatchesExclude(values: seq<string>, cellValue: string) {
    exists k :: 0 <= k < |values| && values[k] != Exclude && values[k] == cellValue
  }

  /** Whether `row` survives the pass for one filter entry. */
  predicate Passes(row: Row, rule: ColumnRule) {
    var cellValue := TrimmedCell(row, rule.column);
    if IsExcludeFilter(rule.values) then !MatchesExclude(rule.values, cellValue)
    else rule.values == [] || cellValue in rule.values
  }

  function RuleTest(rule: ColumnRule): Row -> bool {
    row => Passes(row, rule)
  }

  /** Whether `row` survives the passes for all of `filters`. */
  predicate PassesAll(row: Row, filters: ColumnFilters) {
    filters == [] || (PassesAll(row, filters[..|filters| - 1]) && Passes(row, filters[|filters| - 1]))
  }

  function AllTest(filters: ColumnFilters): Row -> bool {
    row => PassesAll(row, filters)
  }

  /** The rows `filterByColumns` returns: those passing every entry, in input order. */
  function Filtered(filters: ColumnFilters, data: Rows): Rows {
    Select(AllTest(filters), data)
  }

  /** `filterBySingleColumn`: one pass over the rows for one filter entry. */
  method FilterBySingleColumn(data: Rows, columnName: string, filterValues: seq<string>)
    returns (filteredData: Rows)
    ensures filteredData == Select(RuleTest(ColumnRule(columnName, filterValues)), data)
  {
    filteredData := [];
    var isExcludeFilter := |filterValues| > 0 && Exclude in filterValues;
    for i := 0 to |data|
      invariant filteredData == Select(RuleTest(ColumnRule(columnName, filterValues)), data[..i])
    {
      var row := data[i];
      var cellValue := Trim(Cell(row, columnName));
      var keep: bool;
      if isExcludeFilter {
        var matchesExclude := exists k :: 0 <= k < |filterValues| && filterValues[k] != Exclude && filterValues[k] == cellValue;
        keep := !matchesExclude;
      } else {
        keep := filterValues == [] || cellValue in filterValues;
      }
      assert keep == RuleTest(ColumnRule(columnName, filterValues))(row);
      if keep {
        filteredData := filteredData + [row];
      }
      assert data[..i + 1] == data[..i] + [row];
      SelectSnoc(RuleTest(ColumnRule(columnName, filterValues)), data[..i], row);
    }
    assert data[..|data|] == data;
  }

  /** `filterByColumns`: the rows surviving a pass for every entry, each pass narrowing
      the result of the previous one. */
  method FilterByColumns(columnFilters: ColumnFilters, data: Rows) returns (filteredData: Rows)
    ensures filteredData == Filtered(columnFilters, data)
    ensures data == [] ==> filteredData == []
    ensures columnFilters == [] ==> filteredData == data
  {
    if data == [] {
      return [];
    }
    if columnFilters == [] {
      NoFiltersKeepEverything(data);
      return data;
    }
    filteredData := data;
    NoFiltersKeepEverything(data);
    for k := 0 to |columnFilters|
      invariant filteredData == Filtered(columnFilters[..k], data)
    {
      var entry := columnFilters[k];
      filteredData := FilterBySingleColumn(filteredData, entry.column, entry.values);
      assert columnFilters[..k + 1][..k] == columnFilters[..k];
      SelectSelect(RuleTest(entry), AllTest(columnFilters[..k]), AllTest(columnFilters[..k + 1]), data);
    }
    assert columnFilters[..|columnFilters|] == columnFilters;
  }

  /** A row passes the filter map exactly when it passes every entry: a conjunction. */
  lemma {:induction false} PassesAllEvery(row: Row, filters: ColumnFilters)
    ensures PassesAll(row, filters) <==> forall k :: 0 <= k < |filters| ==> Passes(row, filters[k])
  {
    if filters != [] {
      var init := filters[..|filters| - 1];
      PassesAllEvery(row, init);
      if PassesAll(row, filters) {
        forall k | 0 <= k < |filters| ensures Passes(row, filters[k]) {
          if k < |init| {
            assert init[k] == filters[k];
          }
        }
      }
      if forall k :: 0 <= k < |filters| ==> Passes(row, filters[k]) {
        forall k | 0 <= k < |init| ensures Passes(row, init[k]) {
          assert init[k] == filters[k];
        }
      }
    }
  }

  /** With no filters every row is kept, as a copy in the same order. */
  lemma NoFiltersKeepEverything(data: Rows)
    ensures Filtered([], data) == data
  {
    SelectAll(AllTest([]), data);
  }

  /** A row is in the result iff it is in the input and passes every entry. */
  lemma FilteredMembership(filters: ColumnFilters, data: Rows, row: Row)
    ensures row in Filtered(filters, data) <==>
      row in data && forall k :: 0 <= k < |filters| ==> Passes(row, filters[k])
  {
    SelectMembership(AllTest(filters), data, row);
    PassesAllEvery(row, filters);
  }

  /** The result keeps the input's order: it is the input with some rows deleted. */
  lemma FilteredIsSubsequence(filters: ColumnFilters, data: Rows)
    ensures IsSubsequence(Filtered(filters, data), data)
  {
    SelectIsSubsequence(AllTest(filters), data);
  }

  /** The iteration order of the filter map does not matter: any two maps with the same
      entries filter alike. */
  lemma FilteredIgnoresOrder(filters: ColumnFilters, reordered: ColumnFilters, data: Rows)
    requires forall rule :: rule in filters <==> rule in reordered
    ensures Filtered(filters, data) == Filtered(reordered, data)
  {
    forall k | 0 <= k < |data|
      ensures PassesAll(data[k], filters) == PassesAll(data[k], reordered)
    {
      PassesAllEvery(data[k], filters);
      PassesAllEvery(data[k], reordered);
      if PassesAll(data[k], filters) {
        forall m | 0 <= m < |reordered| ensures Passes(data[k], reordered[m]) {
          assert reordered[m] in filters;
          var i :| 0 <= i < |filters| && filters[i] == reordered[m];
        }
      }
      if PassesAll(data[k], reordered) {
        forall m | 0 <= m < |filters| ensures Passes(data[k], filters[m]) {
          assert filters[m] in reordered;
          var i :| 0 <= i < |reordered| && reordered[i] == filters[m];
        }
      }
    }
    SelectCongruent(AllTest(filters), AllTest(reordered), data);
  }

  /** Filtering an already filtered list with the same filters changes nothing. */
  lemma FilteredIdempotent(filters: ColumnFilters, data: Rows)
    ensures Filtered(filters, Filtered(filters, data)) == Filtered(filters, data)
  {
    SelectIdempotent(AllTest(filters), data);
  }

  /** Deny-list: when "!exclude" occurs anywhere in the list, a row passes iff its trimmed
      cell equals none of the other entries (a cell reading "!exclude" itself passes). */
  lemma DenyListSemantics(row: Row, rule: ColumnRule)
    requires Exclude in rule.values
    ensures Passes(row, rule) <==>
      forall k :: 0 <= k < |rule.values| && rule.values[k] != Exclude ==>
        rule.values[k] != TrimmedCell(row, rule.column)
  {
  }

  /** A list holding nothing but the sentinel keeps every row. */
  lemma SentinelOnlyKeepsAll(rule: ColumnRule, data: Rows)
    requires rule.values != []
    requires forall k :: 0 <= k < |rule.values| ==> rule.values[k] == Exclude
    ensures Select(RuleTest(rule), data) == data
  {
    assert rule.values[0] == Exclude;
    SelectAll(RuleTest(rule), data);
  }

  /** Allow-list: without the sentinel a row passes iff the list is empty or holds the
      row's trimmed cell. */
  lemma AllowListSemantics(row: Row, rule: ColumnRule)
    requires Exclude !in rule.values
    ensures Passes(row, rule) <==> rule.values == [] || TrimmedCell(row, rule.column) in rule.values
  {
  }

  /** A column missing from every row reads as "": a non-empty allow-list without "" on it
      then removes every row. */
  lemma AbsentColumnRemovesAll(filters: ColumnFilters, k: nat, data: Rows)
    requires k < |filters|
    requires filters[k].values != [] && Exclude !in filters[k].values && "" !in filters[k].values
    requires forall m :: 0 <= m < |data| ==> filters[k].column !in data[m]
    ensures Filtered(filters, data) == []
  {
    forall m | 0 <= m < |data| ensures !PassesAll(data[m], filters) {
      PassesAllEvery(data[m], filters);
      assert TrimmedCell(data[m], filters[k].column) == "" by {
        TrimNoOp("");
      }
      assert !Passes(data[m], filters[k]);
    }
    SelectNone(AllTest(filters), data);
  }
}
