/**
 * `chunkFetcher` of pkg/sdk/sdk.go: holds the page fetched last and a
 * position inside it.  `chunkSize` is the row count of that page and
 * `chunkOffset` the chunk-local row index, -1 meaning that no row of the
 * page is selected yet.
 */
module Fetcher {
  import opened Wrappers
  import opened Pages
  import opened Rows

  class ChunkFetcher {
    const columnNames: seq<string>
    /** The `fetchNextChunk` closure: what the API answers to each request. */
    const source: PageSource
    /** Reformatting of `datetime` cells (the Moscow time zone database). */
    const formatDatetime: string -> string

    /** Requests made so far, and the offset each of them asked for. */
    var calls: nat
    ghost var requested: seq<int>

    /** The reply decoded by the last successful request. */
    var page: Page
    var chunkOffset: int
    var chunkSize: int

    ghost predicate Valid()
      reads this
    {
      && |requested| == calls
      && SourceShaped(source, |columnNames|)
      && Shaped(page, |columnNames|)
      && chunkSize == |page.data|
    }

    /** A fetcher as the candle adapters build it: nothing fetched, both
        integers at their zero value. */
    constructor (columnNames: seq<string>, source: PageSource, formatDatetime: string -> string)
      requires SourceShaped(source, |columnNames|)
      ensures Valid()
      ensures this.columnNames == columnNames && this.source == source
      ensures this.formatDatetime == formatDatetime
      ensures calls == 0 && requested == []
      ensures chunkOffset == 0 && chunkSize == 0 && page == NoPage
    {
      this.columnNames := columnNames;
      this.source := source;
      this.formatDatetime := formatDatetime;
      calls := 0;
      requested := [];
      page := NoPage;
      chunkOffset := 0;
      chunkSize := 0;
    }

    /** The selected row lies inside the current page. */
    predicate InChunk()
      reads this
    {
      0 <= chunkOffset < chunkSize
    }

    /** The header row: the column set, fixed for the fetcher's lifetime. */
    function GetColumnNames(): (names: seq<string>)
      reads this
      ensures names == columnNames
    {
      columnNames
    }

    /** The decoded current row, or `None` (Go's `nil`) when the position
        is outside the current page. */
    method GetChunkRow() returns (row: Option<seq<string>>)
      requires Valid()
      ensures row.Some? <==> InChunk()
      ensures row.Some? ==>
                IsRowOf(row.value, columnNames, page.metadata, page.data[chunkOffset], formatDatetime)
    {
      if 0 <= chunkOffset && chunkOffset < chunkSize {
        var values := AssembleRow(columnNames, page.metadata, page.data[chunkOffset], formatDatetime);
        row := Some(values);
      } else {
        row := None;
      }
    }

    /** Moves to the next row of the page; no I/O. */
    method SetNextRow()
      modifies this
      ensures chunkOffset == old(chunkOffset) + 1
      ensures chunkSize == old(chunkSize) && page == old(page)
      ensures calls == old(calls) && requested == old(requested)
      ensures old(Valid()) ==> Valid()
    {
      chunkOffset := chunkOffset + 1;
    }

    /** The position has reached or passed the end of the page, so there
        is no row to read there. */
    function Exhausted(): (r: bool)
      reads this
      ensures r ==> !InChunk()
      ensures !r && chunkOffset >= 0 ==> InChunk()
      ensures chunkOffset == -1 && chunkSize >= 0 ==> !r
    {
      chunkOffset >= chunkSize
    }

    /** The last page fetched has no rows. */
    function IsEmpty(): (r: bool)
      reads this
      requires Valid()
      ensures r <==> page.data == []
    {
      chunkSize == 0
    }

    /**
     * Asks the page source for the page at `offset`.  On success the page
     * replaces the current one and no row is selected; on failure the
     * error is returned and the page and position stay as they were.
     */
    method FetchNext(offset: int) returns (err: Option<string>)
      requires Valid()
      modifies this
      ensures Valid()
      ensures calls == old(calls) + 1 && requested == old(requested) + [offset]
      ensures match source(old(calls), offset)
              case Ok(p) =>
                err.None? && page == p && chunkSize == |p.data| && chunkOffset == -1
              case Err(e) =>
                err == Some(e) && page == old(page)
                && chunkSize == old(chunkSize) && chunkOffset == old(chunkOffset)
    {
      var reply := source(calls, offset);
      calls := calls + 1;
      requested := requested + [offset];
      match reply
      case Err(e) =>
        err := Some(e);
      case Ok(p) =>
        page := p;
        chunkSize := |p.data|;
        chunkOffset := -1;
        err := None;
    }
  }
}
