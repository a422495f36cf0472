/**
 * The page source behind a chunk fetcher.
 *
 * In the source, `fetchNextChunk` is a closure that sends one HTTP request
 * for the page starting at a logical row offset and decodes the JSON reply.
 * Here that closure is a function `PageSource`: given the index of the
 * request (0 for the first, 1 for the second, ...) and the offset it asks
 * for, it gives the reply, either a decoded page or an error.  The request
 * index lets the same offset get different answers (transient failures,
 * data that changes between requests).
 */
module Pages {

  /** One JSON cell: a string, or any other value (number, null, ...)
      already in the form `fmt.Sprint` prints it. */
  datatype Value = Text(s: string) | Scalar(printed: string)

  /** A decoded reply: column types by column name, and the data rows. */
  datatype Page = Page(metadata: map<string, string>, data: seq<seq<Value>>)

  /** What one request yields. */
  datatype Fetch = Ok(page: Page) | Err(reason: string)

  type PageSource = (nat, int) -> Fetch

  /** The page a freshly built fetcher holds before its first request. */
  const NoPage := Page(map[], [])

  /** Number of rows a reply contributes; a failed request contributes none. */
  function SizeOf(f: Fetch): nat
  {
    if f.Ok? then |f.page.data| else 0
  }

  /** Rows of a reply; none for a failed request. */
  function RowsOf(f: Fetch): (rows: seq<seq<Value>>)
    ensures |rows| == SizeOf(f)
  {
    if f.Ok? then f.page.data else []
  }

  /** Every row of the page has a cell for each of the `width` columns. */
  ghost predicate Shaped(p: Page, width: nat)
  {
    forall row :: row in p.data ==> |row| >= width
  }

  /** Every reply the source can give is shaped for `width` columns. */
  ghost predicate SourceShaped(src: PageSource, width: nat)
  {
    forall k: nat, o: int :: src(k, o).Ok? ==> Shaped(src(k, o).page, width)
  }

  /**
   * The logical offset of request `k` when every request asks for the
   * rows after those already returned: the total size of the replies to
   * requests 0 .. k-1.
   */
  function RowsBefore(src: PageSource, k: nat): nat
    decreases k
  {
    if k == 0 then 0
    else RowsBefore(src, k - 1) + SizeOf(src(k - 1, RowsBefore(src, k - 1)))
  }

  /** The reply to request `k` when it asks at the cumulative offset. */
  function Reply(src: PageSource, k: nat): Fetch
  {
    src(k, RowsBefore(src, k))
  }

  /** The logical row sequence: the rows of the first `k` replies, in order. */
  function Stream(src: PageSource, k: nat): seq<seq<Value>>
    decreases k
  {
    if k == 0 then [] else Stream(src, k - 1) + RowsOf(Reply(src, k - 1))
  }

  /** The offset of request `k` is exactly the number of rows before it in
      the logical sequence: no row is skipped and none is counted twice. */
  lemma {:induction false} StreamLength(src: PageSource, k: nat)
    ensures |Stream(src, k)| == RowsBefore(src, k)
  {
    if k > 0 {
      StreamLength(src, k - 1);
    }
  }

  /** Later requests never go back: their offsets do not decrease, and the
      rows already in the logical sequence are never revised. */
  lemma {:induction false} StreamGrows(src: PageSource, j: nat, k: nat)
    requires j <= k
    ensures RowsBefore(src, j) <= RowsBefore(src, k)
    ensures Stream(src, j) <= Stream(src, k)
    decreases k - j
  {
    if j < k {
      StreamGrows(src, j, k - 1);
    }
  }

  /** Request `k` of the log asked at the cumulative offset, for every `k`. */
  ghost predicate CumulativeLog(src: PageSource, requested: seq<int>)
  {
    forall k :: 0 <= k < |requested| ==> requested[k] == RowsBefore(src, k)
  }

  /** The first `n` requests all succeeded. */
  ghost predicate OkBefore(src: PageSource, n: nat)
  {
    forall k :: 0 <= k < n ==> Reply(src, k).Ok?
  }

  /** Row `i` of the logical sequence, when it falls in reply `k`, is row
      `i - RowsBefore(src, k)` of that reply. */
  lemma {:induction false} StreamAt(src: PageSource, k: nat, i: nat)
    requires RowsBefore(src, k) <= i < RowsBefore(src, k + 1)
    ensures |Stream(src, k + 1)| > i
    ensures Stream(src, k + 1)[i] == RowsOf(Reply(src, k))[i - RowsBefore(src, k)]
  {
    StreamLength(src, k);
    StreamLength(src, k + 1);
  }
}
