/**
 * `Cursor` and `PrepareCursor` of pkg/sdk/sdk.go: a forward-only row
 * sequence over a chunk fetcher that hides the page boundaries.  When the
 * current page runs out the cursor asks for the page at the cumulative row
 * offset; an empty page ends the sequence and a failed request stops it
 * with a sticky error.
 */
module Cursors {
  import opened Wrappers
  import opened Pages
  import opened Rows
  import opened Fetcher

  /**
   * The cursor invariant over plain values.  Every request so far asked at
   * the cumulative offset; all but the last succeeded; the fetcher holds
   * the last reply (the one before it, if the last failed); and `offset` is
   * the logical index just after the selected row, i.e. the number of rows
   * handed out.
   */
  ghost predicate Consistent(src: PageSource, requested: seq<int>, page: Page,
                             chunkOffset: int, chunkSize: int,
                             done: bool, err: Option<string>, offset: int)
  {
    && |requested| >= 1
    && CumulativeLog(src, requested)
    && OkBefore(src, |requested| - 1)
    && var last := Reply(src, |requested| - 1);
    && (err.Some? ==>
          && last.Err? && err == Some(last.reason) && !done
          && offset == RowsBefore(src, |requested| - 1)
          && chunkOffset == chunkSize)
    && (err.None? ==>
          && last.Ok? && page == last.page
          && offset == RowsBefore(src, |requested| - 1) + chunkOffset + 1
          && -1 <= chunkOffset
          && (chunkOffset < chunkSize || chunkOffset == -1))
    && (done ==> chunkOffset == -1 && chunkSize == 0)
  }

  /** At the end of the sequence the cursor has handed out exactly the rows
      of all pages received. */
  lemma DoneAfterAllRows(src: PageSource, requested: seq<int>, page: Page,
                         chunkOffset: int, chunkSize: int, offset: int)
    requires Consistent(src, requested, page, chunkOffset, chunkSize, true, None, offset)
    requires chunkSize == |page.data|
    ensures offset == RowsBefore(src, |requested|) == |Stream(src, |requested|)|
  {
    StreamLength(src, |requested|);
  }

  /** Moving to the next row of the same page keeps the invariant and
      hands out one more row. */
  lemma StepKeepsConsistent(src: PageSource, requested: seq<int>, page: Page,
                            chunkOffset: int, chunkSize: int, offset: int)
    requires Consistent(src, requested, page, chunkOffset, chunkSize, false, None, offset)
    requires chunkOffset + 1 < chunkSize
    ensures Consistent(src, requested, page, chunkOffset + 1, chunkSize, false, None, offset + 1)
  {
  }

  /** When the page is used up, `offset` is where the next page starts: the
      request made there is a cumulative one. */
  lemma PageEndOffset(src: PageSource, requested: seq<int>, page: Page,
                      chunkOffset: int, chunkSize: int, offset: int)
    requires Consistent(src, requested, page, chunkOffset, chunkSize, false, None, offset)
    requires chunkSize == |page.data|
    requires chunkOffset + 1 >= chunkSize
    ensures offset == RowsBefore(src, |requested|)
    ensures CumulativeLog(src, requested + [offset])
    ensures Reply(src, |requested|) == src(|requested|, offset)
  {
  }

  /** A failed request at the page end stops the cursor with its error. */
  lemma FetchErrConsistent(src: PageSource, requested: seq<int>, page: Page,
                           chunkOffset: int, chunkSize: int, offset: int)
    requires Consistent(src, requested, page, chunkOffset, chunkSize, false, None, offset)
    requires chunkSize == |page.data|
    requires chunkOffset + 1 >= chunkSize
    requires src(|requested|, offset).Err?
    ensures Consistent(src, requested + [offset], page, chunkOffset + 1, chunkSize,
                       false, Some(src(|requested|, offset).reason), offset)
  {
  }

  /** An empty page at the page end ends the sequence after exactly the
      rows of all pages. */
  lemma FetchEmptyConsistent(src: PageSource, requested: seq<int>, page: Page,
                             chunkOffset: int, chunkSize: int, offset: int, next: Page)
    requires Consistent(src, requested, page, chunkOffset, chunkSize, false, None, offset)
    requires chunkSize == |page.data|
    requires chunkOffset + 1 >= chunkSize
    requires src(|requested|, offset) == Ok(next) && next.data == []
    ensures Consistent(src, requested + [offset], next, -1, 0, true, None, offset)
    ensures offset == RowsBefore(src, |requested| + 1) == |Stream(src, |requested| + 1)|
  {
    PageEndOffset(src, requested, page, chunkOffset, chunkSize, offset);
    StreamLength(src, |requested| + 1);
  }

  /** A non-empty page at the page end is entered at its first row, which
      is one more row handed out. */
  lemma FetchRowsConsistent(src: PageSource, requested: seq<int>, page: Page,
                            chunkOffset: int, chunkSize: int, offset: int, next: Page)
    requires Consistent(src, requested, page, chunkOffset, chunkSize, false, None, offset)
    requires chunkSize == |page.data|
    requires chunkOffset + 1 >= chunkSize
    requires src(|requested|, offset) == Ok(next) && next.data != []
    ensures Consistent(src, requested + [offset], next, 0, |next.data|, false, None, offset + 1)
  {
  }

  /** The selected row of the current page is row `offset - 1` of the
      logical sequence: the cursor hands out the pages' rows in order,
      with no row skipped or repeated. */
  lemma {:induction false} SelectedRowInStream(src: PageSource, requested: seq<int>, page: Page,
                                               chunkOffset: int, chunkSize: int,
                                               done: bool, offset: int)
    requires Consistent(src, requested, page, chunkOffset, chunkSize, done, None, offset)
    requires chunkSize == |page.data|
    requires 0 <= chunkOffset < chunkSize
    ensures 1 <= offset <= |Stream(src, |requested|)|
    ensures Stream(src, |requested|)[offset - 1] == page.data[chunkOffset]
  {
    StreamAt(src, |requested| - 1, offset - 1);
  }

  class Cursor {
    var done: bool
    var err: Option<string>
    /** Rows handed out so far: the number of `Next` calls that returned true. */
    var offset: int
    const cf: ChunkFetcher

    /** Neither at the end of the sequence nor failed. */
    predicate Active()
      reads this
    {
      !done && err.None?
    }

    ghost predicate Valid()
      reads this, cf
    {
      && cf.Valid()
      && Consistent(cf.source, cf.requested, cf.page, cf.chunkOffset, cf.chunkSize, done, err, offset)
    }

    /** The unexported construction `&Cursor{cf: cf}`. */
    constructor (cf: ChunkFetcher)
      requires cf.Valid()
      requires Consistent(cf.source, cf.requested, cf.page, cf.chunkOffset, cf.chunkSize, false, None, 0)
      ensures Valid()
      ensures this.cf == cf && !done && err == None && offset == 0
    {
      this.cf := cf;
      done := false;
      err := None;
      offset := 0;
    }

    /**
     * Advances to the next row.  A terminal cursor (done or failed) returns
     * false and changes nothing, not even the fetcher.  Otherwise the
     * position moves one row; when that leaves the page, the page at
     * `offset` is requested: a failure sets `err`, an empty page sets
     * `done`, and any other page is entered at its first row.  Exactly the
     * true returns advance `offset`, by one.
     */
    method Next() returns (more: bool)
      requires Valid()
      modifies this, cf
      ensures Valid()
      ensures more <==> Active()
      ensures more ==> offset == old(offset) + 1 && cf.InChunk()
      ensures !more ==> offset == old(offset)
      ensures old(!Active()) ==> unchanged(this, cf)
      ensures old(Active()) && old(cf.chunkOffset) + 1 < old(cf.chunkSize) ==>
                cf.calls == old(cf.calls) && cf.page == old(cf.page)
                && cf.chunkOffset == old(cf.chunkOffset) + 1
      ensures old(Active()) && old(cf.chunkOffset) + 1 >= old(cf.chunkSize) ==>
                && cf.calls == old(cf.calls) + 1
                && cf.requested == old(cf.requested) + [old(offset)]
                && match cf.source(old(cf.calls), old(offset))
                   case Err(e) =>
                     && err == Some(e) && !done
                     && cf.page == old(cf.page) && cf.chunkSize == old(cf.chunkSize)
                   case Ok(p) => err.None? && cf.page == p && (done <==> p.data == [])
      ensures done && err.None? ==> offset == RowsBefore(cf.source, cf.calls) == |Stream(cf.source, cf.calls)|
    {
      if err.Some? || done {
        if err.None? {
          DoneAfterAllRows(cf.source, cf.requested, cf.page, cf.chunkOffset, cf.chunkSize, offset);
        }
        return false;
      }

      ghost var (src, log, page) := (cf.source, cf.requested, cf.page);
      ghost var (chunkOffset0, chunkSize0) := (cf.chunkOffset, cf.chunkSize);
      cf.SetNextRow();

      if cf.Exhausted() {
        PageEndOffset(src, log, page, chunkOffset0, chunkSize0, offset);
        var e := cf.FetchNext(offset);
        if e.Some? {
          err := e;
          FetchErrConsistent(src, log, page, chunkOffset0, chunkSize0, offset);
          return false;
        }

        if cf.IsEmpty() {
          done := true;
          FetchEmptyConsistent(src, log, page, chunkOffset0, chunkSize0, offset, cf.page);
          return false;
        }

        cf.SetNextRow(); // set on first row (with index 0)
        FetchRowsConsistent(src, log, page, chunkOffset0, chunkSize0, offset, cf.page);
      } else {
        StepKeepsConsistent(src, log, page, chunkOffset0, chunkSize0, offset);
      }

      offset := offset + 1;
      more := true;
    }

    /** The error that stopped the cursor, present exactly when the last
        page request failed. */
    function Err(): (e: Option<string>)
      reads this, cf
      requires Valid()
      ensures e.Some? <==> Reply(cf.source, cf.calls - 1).Err?
      ensures e.Some? ==> e.value == Reply(cf.source, cf.calls - 1).reason
      ensures e.Some? ==> !done
    {
      err
    }

    /**
     * The current row: present exactly after a `Next` that returned true,
     * and then the decoded form of row `offset - 1` of the logical sequence
     * (the concatenated pages).
     */
    method GetRow() returns (row: Option<seq<string>>)
      requires Valid()
      ensures row.Some? <==> Active() && cf.chunkOffset >= 0
      ensures row.Some? ==>
                && 1 <= offset <= |Stream(cf.source, cf.calls)|
                && IsRowOf(row.value, cf.columnNames, cf.page.metadata,
                           Stream(cf.source, cf.calls)[offset - 1], cf.formatDatetime)
    {
      row := cf.GetChunkRow();
      if row.Some? {
        SelectedRowInStream(cf.source, cf.requested, cf.page, cf.chunkOffset, cf.chunkSize, done, offset);
      }
    }

    /** The header row: the fetcher's column set. */
    function GetHeaders(): (headers: seq<string>)
      reads this, cf
      ensures headers == cf.columnNames
    {
      cf.GetColumnNames()
    }
  }

  /**
   * Makes the first request, at offset 0, and wraps the fetcher in a
   * cursor; if that request fails there is no cursor and its error is
   * returned.  An empty first page still gives a cursor.
   */
  method PrepareCursor(cf: ChunkFetcher) returns (c: Cursor?, err: Option<string>)
    requires cf.Valid() && cf.calls == 0
    modifies cf
    ensures c == null <==> err.Some?
    ensures err.Some? ==> cf.source(0, 0) == Fetch.Err(err.value)
    ensures c != null ==>
              && fresh(c) && c.Valid() && c.cf == cf && c.Active() && c.offset == 0
              && cf.requested == [0] && cf.chunkOffset == -1
              && cf.source(0, 0) == Ok(cf.page)
  {
    var e := cf.FetchNext(0);
    if e.Some? {
      return null, e;
    }
    c := new Cursor(cf);
    err := None;
  }
}
