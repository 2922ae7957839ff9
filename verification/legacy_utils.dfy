/** The older helpers of src/utils.ts.

    The file carries its own copy of `formatGAResponse`, the same code as the
    one in src/utils/ga4.ts apart from type annotations and comments. Here it
    is written step by step, following the `forEach` loops of the source, and
    proved to return exactly what the functional model
    `Ga4Format.FormatGAResponse` returns on every input.

    Its schemas match those of src/utils/ga4.ts on dates, limit and offset but
    declare no `filter` key, so a parse through them drops any filter; the
    events tool parses with this file's `eventsSchema`.
 */
module LegacyUtils {
  import opened Opt
  import opened Ga4Format
  import opened Ga4Schemas

  /* ---------------- formatGAResponse, second copy ---------------- */

  /** One more cell of a value list: written under its header when that
      header is a non-empty name, skipped otherwise. */
  lemma WriteOneMore(m: Record, headers: seq<Option<string>>, cells: seq<Cell>, i: nat)
    requires i < |cells|
    ensures Write(m, headers, cells[..i + 1])
         == if i < |headers| && NonEmpty(headers[i]) then Write(m, headers, cells[..i])[headers[i].value := cells[i].value]
            else Write(m, headers, cells[..i])
  {
    assert cells[..i + 1][..i] == cells[..i];
  }

  /** One `forEach` over a value list, writing cell `i` under header `i`. */
  method WriteCells(m: Record, headers: seq<Option<string>>, cells: seq<Cell>) returns (r: Record)
    ensures r == Write(m, headers, cells)
  {
    r := m;
    for i := 0 to |cells|
      invariant r == Write(m, headers, cells[..i])
    {
      WriteOneMore(m, headers, cells, i);
      if i < |headers| && headers[i].Some? && |headers[i].value| > 0 {
        r := r[headers[i].value := cells[i].value];
      }
    }
    assert cells[..|cells|] == cells;
  }

  /** The row mapper: dimensions first, then metrics. */
  method FlattenRowSteps(dimensionHeaders: seq<Option<string>>, metricHeaders: seq<Option<string>>, row: Row)
    returns (r: Record)
    ensures r == FlattenRow(dimensionHeaders, metricHeaders, row)
  {
    r := map[];
    if row.dimensionValues.Some? {
      r := WriteCells(r, dimensionHeaders, row.dimensionValues.value);
    }
    if row.metricValues.Some? {
      r := WriteCells(r, metricHeaders, row.metricValues.value);
    }
  }

  /** `limit ? rows.slice(offset, offset + limit) : rows.slice(offset)`, with
      JavaScript's clamping of both ends to the array. */
  method SliceRows(rows: seq<Row>, limit: Option<nat>, offset: nat) returns (page: seq<Row>)
    ensures page == PageRows(rows, limit, offset)
  {
    var start := if offset < |rows| then offset else |rows|;
    var stop := |rows|;
    if limit.Some? && limit.value > 0 && offset + limit.value < |rows| {
      stop := offset + limit.value;
    }
    page := rows[start..stop];
  }

  /** `paginatedRows.map(row => …)`. */
  method FlattenRows(dimensionHeaders: seq<Option<string>>, metricHeaders: seq<Option<string>>, page: seq<Row>)
    returns (data: seq<Record>)
    ensures |data| == |page|
    ensures forall i :: 0 <= i < |page| ==> data[i] == FlattenRow(dimensionHeaders, metricHeaders, page[i])
  {
    data := [];
    for k := 0 to |page|
      invariant |data| == k
      invariant forall i :: 0 <= i < k ==> data[i] == FlattenRow(dimensionHeaders, metricHeaders, page[i])
    {
      var rec := FlattenRowSteps(dimensionHeaders, metricHeaders, page[k]);
      data := data + [rec];
    }
  }

  /** Records flattened one per page row, in order, are the data of the
      functional formatter's full result. */
  lemma PageDataMatches(response: Option<Response>, limit: Option<nat>, offset: nat, data: seq<Record>)
    requires response.Some? && response.value.rows.Some?
    requires var page := PageRows(response.value.rows.value, limit, offset);
             && |data| == |page|
             && forall i :: 0 <= i < |page| ==>
                  data[i] == FlattenRow(HeaderNames(response.value.dimensionHeaders),
                                        HeaderNames(response.value.metricHeaders), page[i])
    ensures data == Ga4Format.FormatGAResponse(response, limit, offset).data
  {
    var expected := Ga4Format.FormatGAResponse(response, limit, offset).data;
    assert |data| == |expected|;
    forall i | 0 <= i < |data|
      ensures data[i] == expected[i]
    {
    }
  }

  /** formatGAResponse of src/utils.ts: the same result as the copy in
      src/utils/ga4.ts for every response, limit and offset. */
  method FormatGAResponse(response: Option<Response>, limit: Option<nat>, offset: nat) returns (r: Formatted)
    ensures r == Ga4Format.FormatGAResponse(response, limit, offset)
  {
    if response.None? || response.value.rows.None? {
      return Degenerate([], 0, limit, offset);
    }
    var res := response.value;
    var rows := res.rows.value;
    var dimensionHeaders := HeaderNames(res.dimensionHeaders);
    var metricHeaders := HeaderNames(res.metricHeaders);
    var totalCount := |rows|;
    var hasLimit := limit.Some? && limit.value > 0;
    var page := SliceRows(rows, limit, offset);
    var data := FlattenRows(dimensionHeaders, metricHeaders, page);
    var pageCount, currentPage := 1, 1;
    if hasLimit {
      pageCount := CeilDiv(totalCount, limit.value);
      currentPage := FloorDiv(offset, limit.value) + 1;
    }
    r := Page(
      data, dimensionHeaders, metricHeaders, res.rowCount, totalCount,
      if hasLimit then limit else None, offset,
      hasLimit && offset + limit.value < totalCount,
      pageCount, currentPage);
    PageDataMatches(response, limit, offset, data);
  }

  /* ---------------- The older schemas ---------------- */

  const LegacyPageViewsSchema := Schema(true, false, false)
  const LegacyActiveUsersSchema := Schema(false, false, false)
  const LegacyEventsSchema := Schema(false, true, false)
  const LegacyUserBehaviorSchema := Schema(false, false, false)

  /** A schema without a `filter` key: as the one it mirrors in
      src/utils/ga4.ts on acceptance, dates, dimensions, event name, limit and
      offset, but the parsed parameters never carry a filter. */
  lemma SchemaWithoutFilter(schema: Schema, raw: RawParams)
    requires !schema.hasFilter
    ensures var legacy, current := Parse(schema, raw), Parse(schema.(hasFilter := true), raw);
            && legacy.Valid? == current.Valid?
            && (legacy.Invalid? ==> legacy.issues == current.issues)
            && (legacy.Valid? ==>
                  && legacy.params.filter.None?
                  && legacy.params == current.params.(filter := None))
  {
  }
}
