/**
 * What main.go adds to the shared cursor: its own `getCandles`, whose
 * row closure first stores the security name, and the single call `main`
 * makes.  Its `cursor`, `chunkFetcher`, `PrepareCursor` and query helpers
 * are the same code as pkg/sdk/sdk.go's and are modelled there.
 */
module Cli {
  import opened Pages
  import opened Rows
  import opened Query
  import opened Candles

  /**
   * The row closure of main.go's `getCandles`: slot 0 first receives the
   * security name, and the loop then writes every slot, so the row is the
   * decoded cells alone, as in pkg/sdk/sdk.go.
   */
  method AssembleCandleRow(security: string, columns: seq<string>, metadata: map<string, string>,
                           cells: seq<Value>, formatDatetime: string -> string)
    returns (values: seq<string>)
    requires |columns| > 0
    requires |cells| >= |columns|
    ensures IsRowOf(values, columns, metadata, cells, formatDatetime)
  {
    values := seq(|columns|, _ => "");
    values := values[0 := security];
    for i := 0 to |columns|
      invariant |values| == |columns|
      invariant forall j :: 0 <= j < i ==>
                  values[j] == CellText(metadata, columns[j], cells[j], formatDatetime)
    {
      var moexType := MoexType(metadata, columns[i]);
      var parsed := ParseMoexType(cells[i], moexType, formatDatetime);
      values := values[i := Sprint(parsed)];
    }
  }

  /**
   * The query of the request `main` makes once both flags are non-empty:
   * interval "1", the given start and no end, so the query has the column
   * list, `from` and `interval`, and no `till`.
   */
  function MainQuery(from: string): (q: Params)
    requires from != ""
    ensures "till" !in q
    ensures "from" in q && q["from"] == from
    ensures "interval" in q && q["interval"] == "1"
    ensures "candles.columns" in q
  {
    CandleQuery("1", from, "")
  }
}
