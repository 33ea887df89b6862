/** The row store: a transaction export as an ordered sequence of records, each a
    mapping from column name to cell text. */
module Table {
  import opened JavaText

  type Row = map<string, string>

  type Rows = seq<Row>

  /** `row.getOrDefault(column, "")`: a missing column reads as the empty string. */
  function Cell(row: Row, column: string): string {
    if column in row then row[column] else ""
  }

  /** The cell as every filter compares it: `getOrDefault(column, "").trim()`. */
  function TrimmedCell(row: Row, column: string): string {
    Trim(Cell(row, column))
  }

  /** One entry of a column filter map: a column and its list of filter values. */
  datatype ColumnRule = ColumnRule(column: string, values: seq<string>)

  /** A column filter map, its entries in iteration order. */
  type ColumnFilters = seq<ColumnRule>

  /** The columns of a filter map are its keys, so no column appears twice. */
  predicate DistinctColumns(filters: ColumnFilters) {
    forall i, j :: 0 <= i < j < |filters| ==> filters[i].column != filters[j].column
  }
}
