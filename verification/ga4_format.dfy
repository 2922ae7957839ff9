/** The response normaliser and paginator `formatGAResponse` of src/utils/ga4.ts.

    The Data API answers a report with header lists and rows of positionally
    aligned cells. The formatter turns each row of the requested page into a
    flat header-name -> value record and computes pagination metadata. The
    remote call itself is not modelled: its answer is an input value here.
 */
module Ga4Format {
  import opened Opt

  /* ---------------- The remote tabular response ---------------- */

  datatype Header = Header(name: Option<string>)

  /** A dimension or metric value; `value` is its raw string, possibly absent. */
  datatype Cell = Cell(value: Option<string>)

  datatype Row = Row(dimensionValues: Option<seq<Cell>>, metricValues: Option<seq<Cell>>)

  datatype Response = Response(
    dimensionHeaders: Option<seq<Header>>,
    metricHeaders: Option<seq<Header>>,
    rows: Option<seq<Row>>,
    rowCount: Option<int>)

  /* ---------------- The formatted result ---------------- */

  /** One flattened row: header name -> raw value (an absent value is still written). */
  type Record = map<string, Option<string>>

  /** `Degenerate` is the short answer for a missing response or missing rows
      (only `data`, `totalCount`, `limit`, `offset`); `Page` is the full answer. */
  datatype Formatted =
    | Degenerate(data: seq<Record>, totalCount: nat, limit: Option<nat>, offset: nat)
    | Page(
        data: seq<Record>,
        dimensionHeaders: seq<Option<string>>,
        metricHeaders: seq<Option<string>>,
        rowCount: Option<int>,
        totalCount: nat,
        limit: Option<nat>,
        offset: nat,
        hasMore: bool,
        pageCount: nat,
        currentPage: nat)

  /** JavaScript truthiness of the optional limit: `undefined` and `0` mean "no limit". */
  predicate HasLimit(limit: Option<nat>) {
    limit.Some? && limit.value > 0
  }

  /* ---------------- Integer ceiling and floor ---------------- */

  /** `Math.ceil(a / b)`: the fewest pages of `b` rows that hold `a` rows. */
  function CeilDiv(a: nat, b: nat): (q: nat)
    requires b > 0
    ensures q * b >= a
    ensures q > 0 ==> (q - 1) * b < a
    ensures q == 0 <==> a == 0
  {
    var q := (a + b - 1) / b;
    assert a + b - 1 == q * b + (a + b - 1) % b;
    q
  }

  /** `Math.floor(a / b)`: the index of the page of `b` rows holding row `a`. */
  function FloorDiv(a: nat, b: nat): (q: nat)
    requires b > 0
    ensures q * b <= a < (q + 1) * b
  {
    var q := a / b;
    assert a == q * b + a % b;
    q
  }

  /* ---------------- Flattening one row ---------------- */

  /** The names of a header list (`headers?.map(h => h.name) || []`). */
  function HeaderNames(hs: Option<seq<Header>>): (names: seq<Option<string>>)
    ensures |names| == Length(hs)
    ensures forall i :: 0 <= i < |names| ==> names[i] == hs.value[i].name
  {
    if hs.None? then [] else seq(|hs.value|, i requires 0 <= i < |hs.value| => hs.value[i].name)
  }

  /** Position `i` writes key `k`: the header there exists and is the non-empty name `k`. */
  predicate KeyAt(headers: seq<Option<string>>, i: int, k: string) {
    0 <= i < |headers| && headers[i] == Some(k) && |k| > 0
  }

  /** The last position below `n` that writes key `k`, or -1 when none does. */
  function LastWrite(headers: seq<Option<string>>, n: nat, k: string): (i: int)
    ensures -1 <= i < n
    ensures i >= 0 ==> KeyAt(headers, i, k)
    ensures forall j :: i < j < n ==> !KeyAt(headers, j, k)
  {
    if n == 0 then -1
    else if KeyAt(headers, n - 1, k) then n - 1
    else LastWrite(headers, n - 1, k)
  }

  /** The `forEach` over one value list: cell `i` is written under header `i`
      when that header is a non-empty name, later cells overwriting earlier
      ones. A key ends up holding the cell of its last writing position. */
  function Write(m: Record, headers: seq<Option<string>>, cells: seq<Cell>): (r: Record)
    decreases |cells|
    ensures forall k :: k in r <==> k in m || LastWrite(headers, |cells|, k) >= 0
    ensures forall k :: k in r && LastWrite(headers, |cells|, k) >= 0 ==>
              r[k] == cells[LastWrite(headers, |cells|, k)].value
    ensures forall k :: k in r && LastWrite(headers, |cells|, k) < 0 ==> r[k] == m[k]
  {
    if |cells| == 0 then m
    else
      var i := |cells| - 1;
      var m' := Write(m, headers, cells[..i]);
      if i < |headers| && NonEmpty(headers[i]) then m'[headers[i].value := cells[i].value] else m'
  }

  /** One row flattened: dimensions first, then metrics, so a metric whose
      name repeats a dimension's overwrites it. Every key is a non-empty
      header name. */
  function FlattenRow(dimensionHeaders: seq<Option<string>>, metricHeaders: seq<Option<string>>, row: Row): (r: Record)
    ensures forall k :: k in r ==> |k| > 0 && (Some(k) in dimensionHeaders || Some(k) in metricHeaders)
    ensures forall k :: k in r <==>
              LastWrite(dimensionHeaders, Length(row.dimensionValues), k) >= 0
              || LastWrite(metricHeaders, Length(row.metricValues), k) >= 0
    ensures forall k :: LastWrite(metricHeaders, Length(row.metricValues), k) >= 0 ==>
              k in r && r[k] == row.metricValues.value[LastWrite(metricHeaders, Length(row.metricValues), k)].value
    ensures forall k ::
              (LastWrite(metricHeaders, Length(row.metricValues), k) < 0
               && LastWrite(dimensionHeaders, Length(row.dimensionValues), k) >= 0) ==>
              k in r && r[k] == row.dimensionValues.value[LastWrite(dimensionHeaders, Length(row.dimensionValues), k)].value
  {
    var dims := Write(map[], dimensionHeaders, row.dimensionValues.GetOr([]));
    Write(dims, metricHeaders, row.metricValues.GetOr([]))
  }

  /* ---------------- Slicing one page ---------------- */

  /** The smaller of two integers, as the clamping of `slice` uses it. */
  function Min(a: int, b: int): int {
    if a <= b then a else b
  }

  /** `rows.slice(offset, offset + limit)` with a limit, `rows.slice(offset)`
      without: the rows from `offset` on, at most `limit` of them, none when
      `offset` is past the end. */
  function PageRows(rows: seq<Row>, limit: Option<nat>, offset: nat): (page: seq<Row>)
    ensures |page| == if offset >= |rows| then 0
                      else if HasLimit(limit) then Min(limit.value, |rows| - offset)
                      else |rows| - offset
    ensures forall i :: 0 <= i < |page| ==> page[i] == rows[offset + i]
  {
    var lo := Min(offset, |rows|);
    if HasLimit(limit) then rows[lo..Min(offset + limit.value, |rows|)] else rows[lo..]
  }

  /* ---------------- The formatter ---------------- */

  /** formatGAResponse. */
  function FormatGAResponse(response: Option<Response>, limit: Option<nat>, offset: nat): (r: Formatted)
    ensures r.Degenerate? <==> response.None? || response.value.rows.None?
    ensures r.Degenerate? ==> r.data == [] && r.totalCount == 0 && r.limit == limit && r.offset == offset
    ensures r.Page? ==>
              var rows := response.value.rows.value;
              && r.totalCount == |rows|
              && r.offset == offset
              && r.rowCount == response.value.rowCount
              && r.dimensionHeaders == HeaderNames(response.value.dimensionHeaders)
              && r.metricHeaders == HeaderNames(response.value.metricHeaders)
              && |r.data| == |PageRows(rows, limit, offset)|
              && (forall i :: 0 <= i < |r.data| ==>
                    r.data[i] == FlattenRow(r.dimensionHeaders, r.metricHeaders, rows[offset + i]))
              && (r.limit.Some? <==> HasLimit(limit))
              && (r.limit.Some? ==> r.limit == limit)
              && (r.hasMore <==> HasLimit(limit) && offset + limit.value < |rows|)
              && (HasLimit(limit) ==> r.pageCount == CeilDiv(|rows|, limit.value)
                                      && r.currentPage == FloorDiv(offset, limit.value) + 1)
              && (!HasLimit(limit) ==> r.pageCount == 1 && r.currentPage == 1)
  {
    if response.None? || response.value.rows.None? then
      Degenerate([], 0, limit, offset)
    else
      var res := response.value;
      var dimensionHeaders := HeaderNames(res.dimensionHeaders);
      var metricHeaders := HeaderNames(res.metricHeaders);
      var totalCount := |res.rows.value|;
      var page := PageRows(res.rows.value, limit, offset);
      var data := seq(|page|, i requires 0 <= i < |page| => FlattenRow(dimensionHeaders, metricHeaders, page[i]));
      Page(
        data,
        dimensionHeaders,
        metricHeaders,
        res.rowCount,
        totalCount,
        if HasLimit(limit) then limit else None,
        offset,
        if HasLimit(limit) then offset + limit.value < totalCount else false,
        if HasLimit(limit) then CeilDiv(totalCount, limit.value) else 1,
        if HasLimit(limit) then FloorDiv(offset, limit.value) + 1 else 1)
  }

  /* ---------------- Pagination properties ---------------- */

  /** With a limit, a page holds at most `limit` records, the pages counted
      hold every row, the page count is zero exactly when there are no rows,
      and the current page is never zero. An offset at or past the end gives
      an empty page and no error. */
  lemma PaginationBounds(response: Option<Response>, limit: Option<nat>, offset: nat)
    ensures var r := FormatGAResponse(response, limit, offset);
            r.Page? ==>
              && r.currentPage >= 1
              && (HasLimit(limit) ==> |r.data| <= limit.value)
              && (HasLimit(limit) ==> r.pageCount * limit.value >= r.totalCount)
              && (HasLimit(limit) ==> (r.pageCount == 0 <==> r.totalCount == 0))
              && (offset >= r.totalCount ==> r.data == [])
  {
  }

  /** `hasMore` holds exactly when rows remain after the returned page, with
      or without a limit. */
  lemma HasMoreIffRowsRemain(response: Option<Response>, limit: Option<nat>, offset: nat)
    ensures var r := FormatGAResponse(response, limit, offset);
            r.Page? ==> (r.hasMore <==> r.offset + |r.data| < r.totalCount)
  {
    var r := FormatGAResponse(response, limit, offset);
    if r.Page? && HasLimit(limit) && offset < r.totalCount {
      assert |r.data| == Min(limit.value, r.totalCount - offset);
    }
  }

  /** With a limit, the current page is the one whose row range holds
      `offset`, and while `offset` is inside the rows it is one of the
      counted pages. */
  lemma CurrentPageHoldsOffset(response: Option<Response>, limit: Option<nat>, offset: nat)
    requires HasLimit(limit)
    ensures var r := FormatGAResponse(response, limit, offset);
            r.Page? ==>
              && (r.currentPage - 1) * limit.value <= offset < r.currentPage * limit.value
              && (offset < r.totalCount ==> r.currentPage <= r.pageCount)
  {
    var r := FormatGAResponse(response, limit, offset);
    if r.Page? && offset < r.totalCount {
      var l := limit.value;
      assert (r.currentPage - 1) * l < r.pageCount * l;
      MulCancel(r.currentPage - 1, r.pageCount, l);
    }
  }

  /** Cancelling a positive factor from a strict inequality. */
  lemma MulCancel(a: nat, b: nat, c: nat)
    requires a * c < b * c
    ensures a < b
  {
  }

  /** Only a missing `rows` array short-circuits: an empty array takes the
      full path, so with a limit it reports zero pages, and without one a
      single page. */
  lemma EmptyRowsTakeFullPath(response: Response, limit: Option<nat>, offset: nat)
    requires response.rows == Some([])
    ensures var r := FormatGAResponse(Some(response), limit, offset);
            && r.Page?
            && r.data == []
            && r.totalCount == 0
            && !r.hasMore
            && r.pageCount == (if HasLimit(limit) then 0 else 1)
  {
  }

  /* ---------------- Worked examples ---------------- */

  /** Ten rows, limit 3, offset 9: one record on page 4 of 4, nothing more. */
  lemma LastPartialPage()
    ensures var rows := seq(10, i => Row(None, None));
            var r := FormatGAResponse(Some(Response(None, None, Some(rows), None)), Some(3), 9);
            && r.Page? && |r.data| == 1 && r.totalCount == 10
            && !r.hasMore && r.pageCount == 4 && r.currentPage == 4
  {
  }

  /** A single named header and a single cell write exactly that one key. */
  lemma WriteSingle(m: Record, name: string, cell: Cell)
    requires |name| > 0
    ensures Write(m, [Some(name)], [cell]) == m[name := cell.value]
  {
    assert [cell][..0] == [];
  }

  /** A row with one dimension cell and one metric cell flattens to one
      record keyed by the two header names. */
  lemma OneDailyRecord()
    ensures FlattenRow([Some("date")], [Some("activeUsers")],
                       Row(Some([Cell(Some("2024-01-01"))]), Some([Cell(Some("120"))])))
         == map["date" := Some("2024-01-01"), "activeUsers" := Some("120")]
  {
    WriteSingle(map[], "date", Cell(Some("2024-01-01")));
    WriteSingle(map["date" := Some("2024-01-01")], "activeUsers", Cell(Some("120")));
  }

  /** A response of one row, read from offset 0 with any limit, is one
      record on page 1 of 1, with nothing more. */
  lemma SingleRowPage(response: Response, limit: Option<nat>)
    requires response.rows.Some? && |response.rows.value| == 1
    ensures var r := FormatGAResponse(Some(response), limit, 0);
            && r.Page?
            && r.data == [FlattenRow(HeaderNames(response.dimensionHeaders), HeaderNames(response.metricHeaders),
                                     response.rows.value[0])]
            && r.totalCount == 1 && r.currentPage == 1 && r.pageCount == 1 && !r.hasMore
  {
    var r := FormatGAResponse(Some(response), limit, 0);
    assert |r.data| == 1;
  }
}
