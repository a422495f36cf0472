/**
 * Turning one data row of a page into the strings a cursor hands out:
 * `parseMoexType` and the row-assembly loop of the `getChunkRow` closures.
 */
module Rows {
  import opened Pages

  /** Text printed for a cell, as `fmt.Sprint` prints it. */
  function Sprint(v: Value): string
  {
    match v
    case Text(s) => s
    case Scalar(p) => p
  }

  /** The declared type of a column; a column missing from the metadata
      reads as the zero value, the empty type. */
  function MoexType(metadata: map<string, string>, column: string): string
  {
    if column in metadata then metadata[column] else ""
  }

  /**
   * `parseMoexType`: a string cell of a `datetime` column is reformatted
   * by `formatDatetime` (parse in the exchange's time zone, print as
   * RFC 3339); every other cell is returned unchanged.
   */
  function ParseMoexType(v: Value, moexType: string, formatDatetime: string -> string): (r: Value)
    ensures moexType == "datetime" && v.Text? ==> r == Text(formatDatetime(v.s))
    ensures !(moexType == "datetime" && v.Text?) ==> r == v
  {
    if moexType == "datetime" then
      match v
      case Text(s) => Text(formatDatetime(s))
      case Scalar(_) => v
    else v
  }

  /** The string emitted for the cell of `column`. */
  function CellText(metadata: map<string, string>, column: string, cell: Value,
                    formatDatetime: string -> string): string
  {
    Sprint(ParseMoexType(cell, MoexType(metadata, column), formatDatetime))
  }

  /** `values` is the decoded form of `cells`: one string per column, in
      column order, each from the cell at the column's position. */
  ghost predicate IsRowOf(values: seq<string>, columns: seq<string>, metadata: map<string, string>,
                          cells: seq<Value>, formatDatetime: string -> string)
  {
    && |values| == |columns| <= |cells|
    && forall i :: 0 <= i < |columns| ==>
         values[i] == CellText(metadata, columns[i], cells[i], formatDatetime)
  }

  /** The loop of the `getChunkRow` closure in pkg/sdk/sdk.go. */
  method AssembleRow(columns: seq<string>, metadata: map<string, string>, cells: seq<Value>,
                     formatDatetime: string -> string)
    returns (values: seq<string>)
    requires |cells| >= |columns|
    ensures IsRowOf(values, columns, metadata, cells, formatDatetime)
  {
    values := seq(|columns|, _ => "");
    for i := 0 to |columns|
      invariant |values| == |columns|
      invariant forall j :: 0 <= j < i ==>
                  values[j] == CellText(metadata, columns[j], cells[j], formatDatetime)
    {
      var moexType := MoexType(metadata, columns[i]);
      var parsed := ParseMoexType(cells[i], moexType, formatDatetime);
      values := values[i := Sprint(parsed)];
    }
  }
}
