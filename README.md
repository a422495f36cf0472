# Paging cursor over a chunk fetcher (moex-tools)

This project is a Dafny model of the paging core of a small client for the
Moscow Exchange ISS API. The client reads candles (begin, open, close,
volume) page by page and hands them out as one continuous row sequence.

- **Page source** (`pages.dfy`): the `fetchNextChunk` closure becomes the
  function `PageSource`. It gives the reply to the k-th request made at a
  given offset: a decoded page (column metadata and data rows) or an error.
  `RowsBefore(src, k)` is the cumulative offset of request k. `Stream(src, k)`
  is the logical row sequence made of the first k replies.
- **Row decoding** (`rows.dfy`): `parseMoexType` and the loop of the
  `getChunkRow` closure. The datetime reformatting is the function-valued
  parameter `formatDatetime`.
- **Chunk fetcher** (`fetcher.dfy`): class `ChunkFetcher` has the source's
  fields `chunkOffset` and `chunkSize`, plus the page it holds. It counts the
  requests in `calls` and logs each request's offset in the ghost sequence
  `requested`.
- **Cursor** (`cursor.dfy`): class `Cursor` has the fields `done`, `err` and
  `offset`. `PrepareCursor` is a method. The invariant `Consistent` says
  three things:
  - every request asked at the cumulative offset;
  - only the last request can have failed;
  - `offset` counts the rows handed out.

  From it, `SelectedRowInStream` proves that the selected row is row
  `offset - 1` of the concatenated pages.
- **Query helpers** (`query.dfy`): class `RequestUrl` has a key-to-value map,
  updated in place by `SetQueryParam` and `SetNonEmptyQueryParams`. This
  file also has the decimal `start` parameter of each page request.
- **Candle adapter** (`candles.dfy`): the query that `GetCurrencyCandles` and
  `GetStockCandles` build, and the fetcher and cursor they assemble.
- **main.go** (`cli.dfy`): its row closure, which stores the security name
  in slot 0 before the loop, and the query of the one request `main` makes.

In main.go, `cursor`, `chunkFetcher`, `PrepareCursor`, `setQueryParam` and
`setNonEmptyQueryParams` (main.go:65-156, 224-238) are the same code as in
pkg/sdk/sdk.go. One model covers both copies.

The model keeps one quirk of the source on purpose. If the first page is
empty, `PrepareCursor` still gives a cursor. The first `Next` then sees
`chunkOffset 0 >= chunkSize 0` and requests offset 0 a second time. This
agrees with the invariant, because offset 0 is still the cumulative offset.

## Model

| member | source | states |
|---|---|---|
| `Rows.ParseMoexType` | pkg/sdk/sdk.go:233-243 | a string cell of a `datetime` column is reformatted; every other cell (non-string, or other type) is returned unchanged |
| `Rows.AssembleRow` | pkg/sdk/sdk.go:164-173 | the built row has exactly one entry per column, in column order, each the printed, type-parsed cell at that column's position (type looked up in the page metadata, empty when missing) |
| `Fetcher.ChunkFetcher.constructor` | pkg/sdk/sdk.go:79-85 | a new fetcher has made no request, holds no page and has `chunkOffset` and `chunkSize` at their zero value |
| `Fetcher.ChunkFetcher.GetColumnNames` | pkg/sdk/sdk.go:87-89 | the header row is the column set fixed at construction |
| `Fetcher.ChunkFetcher.GetChunkRow` | pkg/sdk/sdk.go:91-97 | a row is returned exactly when `0 <= chunkOffset < chunkSize`, and it is the decoded row of the held page at `chunkOffset`; otherwise nil |
| `Fetcher.ChunkFetcher.SetNextRow` | pkg/sdk/sdk.go:99-101 | the position moves by one; page, size and request log are untouched |
| `Fetcher.ChunkFetcher.Exhausted` | pkg/sdk/sdk.go:103-105 | when true there is no row at the position; when false at a non-negative position there is one; with no row selected yet (position -1) the page is not exhausted |
| `Fetcher.ChunkFetcher.IsEmpty` | pkg/sdk/sdk.go:119-121 | true exactly when the page fetched last has no rows |
| `Fetcher.ChunkFetcher.FetchNext` | pkg/sdk/sdk.go:107-117 | one request is made and its offset logged; on success the page and its size are stored and `chunkOffset` becomes -1; on failure the error is returned and page, size and position are unchanged |
| `Cursors.Cursor.constructor` | pkg/sdk/sdk.go:76 | a new cursor over a fetcher that has just received its first page is neither done nor failed, has offset 0 and satisfies the cursor invariant |
| `Cursors.Cursor.Next` | pkg/sdk/sdk.go:33-57 | keeps the cursor invariant; returns true exactly when the cursor stays active; a terminal cursor returns false and changes nothing, fetcher included; true increments `offset` by 1 and leaves a row selected, false leaves `offset` as it was; the page end requests the page at `offset`, and its error sets `err` and leaves the held page and its size unchanged, an empty page sets `done`; at the end `offset` is the total row count of all pages |
| `Cursors.Cursor.Err` | pkg/sdk/sdk.go:59-61 | the error is present exactly when the last page request failed, it is that request's error, and the cursor is then not marked done |
| `Cursors.Cursor.GetRow` | pkg/sdk/sdk.go:63-65 | a row is present exactly when the cursor is active with a row selected, and it is the decoded form of row `offset - 1` of the logical sequence |
| `Cursors.Cursor.GetHeaders` | pkg/sdk/sdk.go:67-69 | the header row is the fetcher's column set |
| `Cursors.PrepareCursor` | pkg/sdk/sdk.go:71-77 | the first request is at offset 0; if it fails there is no cursor and its error is returned, otherwise a fresh active cursor at offset 0 satisfying the invariant (also when the first page is empty) |
| `Cursors.StepKeepsConsistent` | pkg/sdk/sdk.go:38-40 | moving within a page keeps the invariant and counts one more row |
| `Cursors.PageEndOffset` | pkg/sdk/sdk.go:40-41 | when the page is used up, `offset` equals the total size of all earlier replies, so the new request is cumulative |
| `Cursors.FetchErrConsistent` | pkg/sdk/sdk.go:41-44 | a failed request at the page end yields a failed cursor that still satisfies the invariant |
| `Cursors.FetchEmptyConsistent` | pkg/sdk/sdk.go:46-49 | an empty page at the page end yields a done cursor whose `offset` equals the length of the whole logical sequence |
| `Cursors.FetchRowsConsistent` | pkg/sdk/sdk.go:51-54 | a non-empty page is entered at its first row and the invariant holds with one more row counted |
| `Cursors.DoneAfterAllRows` | pkg/sdk/sdk.go:46-49 | a done cursor has handed out exactly as many rows as all pages together hold |
| `Cursors.SelectedRowInStream` | pkg/sdk/sdk.go:51-56 | the selected row of the held page is row `offset - 1` of the concatenated pages: no row skipped or repeated |
| `Pages.StreamLength` | pkg/sdk/sdk.go:41-54 | the cumulative offset of request k equals the number of rows in the first k replies |
| `Pages.StreamGrows` | pkg/sdk/sdk.go:41-54 | later requests never ask at a smaller offset, and rows already in the sequence are never revised |
| `Pages.StreamAt` | pkg/sdk/sdk.go:51-54 | a logical row that falls inside reply k is that reply's row at the offset relative to the reply's start |
| `Query.WithNonEmpty` | pkg/sdk/sdk.go:251-261 | keys with a non-empty value are set to it; keys given an empty value and keys not mentioned keep their prior value or stay absent |
| `Query.WithNonEmptyAddKey` | pkg/sdk/sdk.go:254-258 | handling one more key of the parameter map changes the result at that key only, and only if its value is non-empty |
| `Query.RequestUrl.constructor` | pkg/sdk/sdk.go:126 | the parsed endpoint URL has an empty query |
| `Query.RequestUrl.SetQueryParam` | pkg/sdk/sdk.go:245-249 | the key gets the value, no other key changes, and setting a key to the value it has changes nothing |
| `Query.RequestUrl.SetNonEmptyQueryParams` | pkg/sdk/sdk.go:251-261 | the loop over the parameter map leaves the query equal to `WithNonEmpty` of the old query, whatever order it visits the keys in |
| `Query.DecimalString` | pkg/sdk/sdk.go:150 | the offset's decimal form is a non-empty digit string without a leading zero unless the offset is 0 |
| `Query.DecimalRoundTrip` | pkg/sdk/sdk.go:150 | the decimal form of an offset reads back as that offset |
| `Query.PageQuery` | pkg/sdk/sdk.go:150 | a page request's query carries `start` equal to its offset and every other key of the base query unchanged |
| `Query.PreparePageRequest` | pkg/sdk/sdk.go:150 | the shared URL's query becomes the page query for the offset |
| `Query.PageQueryOverwrites` | pkg/sdk/sdk.go:205 | a page request's query does not depend on the offsets requested before it |
| `Candles.ColumnsParam` | pkg/sdk/sdk.go:134 | the column parameter is `begin,open,close,volume` |
| `Candles.CandleQuery` | pkg/sdk/sdk.go:131-138 | the initial query always has the column list; it has `from`, `interval` and `till` exactly when their values are non-empty, and no other key |
| `Candles.NewCandlesRequest` | pkg/sdk/sdk.go:126-138 | the freshly built URL's query is `CandleQuery` of the arguments |
| `Candles.GetCandles` | pkg/sdk/sdk.go:123-176 | the request query before the first request is `CandleQuery`; either an active cursor at offset 0 over the four candle columns, or no cursor and the error of the offset-0 request |
| `Cli.AssembleCandleRow` | main.go:198-207 | the security name stored in slot 0 is always overwritten: the row is exactly the decoded cells, one per column, as in pkg/sdk/sdk.go |
| `Cli.MainQuery` | main.go:38 | the request `main` makes has `from` and `interval` "1" and the column list, and no `till` |

## Left out

- The HTTP GET and JSON decoding inside the `fetchNextChunk` closures are not modelled. The reply to each request is the value of the abstract `PageSource`.
- JSON decoding into the closure's reused `parsedResp` is not modelled. Go merges a new reply into the old metadata map and may partly overwrite the struct on a decode error. The model replaces the held page on success and keeps it on failure.
- `time.LoadLocation` and the `datetime` branch's `time.ParseInLocation`/`Format` are not modelled. They become the opaque function `formatDatetime`.
- `Rows.ParseMoexType` has no decode-error path. The code discards the parse error (pkg/sdk/sdk.go:236-237), so a malformed timestamp is printed as whatever `Format` gives for the zero time. A redesign that reports this as a decode error would change the observable behaviour, and the model follows the code.
- `url.Parse`, the URL path built with `fmt.Sprintf`, and `url.Values.Encode` escaping and key ordering are not modelled. The query is a map from key to one value.
- `fmt.Sprint` of untyped JSON numbers and nulls is not modelled. A non-string cell arrives already printed (`Value.Scalar`).
- A data row with fewer cells than there are columns makes the Go row closure panic. `ChunkFetcher.constructor` requires a page source that never gives such a row.
- `GetCurrencyCandles` and `GetStockCandles` differ only in their URL path, so `GetCandles` models both. The URL built from the security name is not modelled, so `GetCandles` takes no security name. The model assumes the name is a plain path segment.
- `Candles.GetCandles`: the error returned when `url.Parse` rejects the endpoint is not modelled (pkg/sdk/sdk.go:126-129, 181-184; main.go:160-163). A security name with a malformed `%` escape makes these functions return that error before any page is requested, which is a third outcome beside a cursor or the offset-0 request's error. A name containing `?` or `#` would put text into the query or the fragment. The model assumes the name contains none of `?`, `#` or a malformed `%` escape.
- `Cli.MainQuery`: its "no `till`" rests on the same assumption. A ticker such as `SBER?till=2024-01-01` would make `main` send a `till` key.
- `main()` is not modelled: flag parsing, the CSV writer, printing errors and the loop that writes rows.
- The copies in main.go of the cursor, the fetcher, `PrepareCursor` and the query helpers (main.go:65-156, 224-238) are modelled by the pkg/sdk/sdk.go members. Its `getCandles` differs only in its row closure (`Cli.AssembleCandleRow`) and in wrapping no error messages, and error texts are not modelled.
- Go `int` overflow of `offset` and `chunkOffset` is not modelled. Offsets are unbounded integers.
