/**
 * The candle endpoints of pkg/sdk/sdk.go (`GetCurrencyCandles`,
 * `GetStockCandles`): build the request query, then a chunk fetcher over
 * the candle pages with the fixed column set, and open a cursor on it.
 * The two endpoints differ only in their URL path, which is not modelled.
 */
module Candles {
  import opened Wrappers
  import opened Pages
  import opened Query
  import opened Fetcher
  import opened Cursors

  /** The columns requested and emitted, in this order. */
  const CandleColumns: seq<string> := ["begin", "open", "close", "volume"]

  /** `strings.Join`: the parts separated by `sep`. */
  function Join(parts: seq<string>, sep: string): string
  {
    if parts == [] then ""
    else if |parts| == 1 then parts[0]
    else parts[0] + sep + Join(parts[1..], sep)
  }

  /** The comma-joined column list sent as `candles.columns`. */
  lemma ColumnsParam()
    ensures Join(CandleColumns, ",") == "begin,open,close,volume"
  {
  }

  /** The parameters handed to `setNonEmptyQueryParams`. */
  function CandleParams(interval: string, from: string, to: string): Params
  {
    map["candles.columns" := Join(CandleColumns, ","), "from" := from,
        "interval" := interval, "till" := to]
  }

  /**
   * The query of a fresh candle request: the column list always; `from`,
   * `interval` and `till` exactly when their value is non-empty; nothing
   * else, in particular no `start` until a page is requested.
   */
  function CandleQuery(interval: string, from: string, to: string): (q: Params)
    ensures "candles.columns" in q && q["candles.columns"] == "begin,open,close,volume"
    ensures ("from" in q <==> from != "") && (from != "" ==> q["from"] == from)
    ensures ("interval" in q <==> interval != "") && (interval != "" ==> q["interval"] == interval)
    ensures ("till" in q <==> to != "") && (to != "" ==> q["till"] == to)
    ensures q.Keys <= {"candles.columns", "from", "interval", "till"}
  {
    var p := CandleParams(interval, from, to);
    ColumnsParam();
    assert p.Keys == {"candles.columns", "from", "interval", "till"};
    assert p["candles.columns"] == "begin,open,close,volume";
    WithNonEmpty(map[], p)
  }

  /** The query set up before the first request. */
  method NewCandlesRequest(interval: string, from: string, to: string) returns (u: RequestUrl)
    ensures fresh(u) && u.query == CandleQuery(interval, from, to)
  {
    u := new RequestUrl();
    u.SetNonEmptyQueryParams(CandleParams(interval, from, to));
  }

  /**
   * A candle cursor: the request query, and either a cursor over the candle
   * pages, positioned before the first row and reading the four candle
   * columns, or the error of the first page request (at offset 0).
   * `source` answers the page requests.  `request.query` is the base
   * query before the first request; each request adds its own `start`
   * (see `PageQuery`), which is not part of this contract.
   */
  method GetCandles(interval: string, from: string, to: string,
                    source: PageSource, formatDatetime: string -> string)
    returns (request: RequestUrl, c: Cursor?, err: Option<string>)
    requires SourceShaped(source, |CandleColumns|)
    ensures fresh(request) && request.query == CandleQuery(interval, from, to)
    ensures c == null <==> err.Some?
    ensures err.Some? ==> source(0, 0) == Fetch.Err(err.value)
    ensures c != null ==>
              && fresh(c) && fresh(c.cf) && c.Valid() && c.Active() && c.offset == 0
              && c.GetHeaders() == CandleColumns && c.cf.source == source
              && c.cf.formatDatetime == formatDatetime
  {
    request := NewCandlesRequest(interval, from, to);
    var cf := new ChunkFetcher(CandleColumns, source, formatDatetime);
    c, err := PrepareCursor(cf);
  }
}
