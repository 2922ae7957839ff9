# GA4 reporting adapter: filter compiler, request builders, response paginator

A Dafny model of the core of an MCP server that exposes Google Analytics 4
reports (page views, active users, events, user behaviour, source/medium). The
model covers four pure pieces:

- **Filter compiler** (`Ga4Filters`, src/types/ga4-filters.ts). It turns a flat
  `SimpleFilter` into a `FilterExpression` tree of the Google Analytics Data
  API v1beta. A `SimpleFilter` holds dimension conditions, metric conditions and
  an AND/OR operator. Each condition becomes one leaf, chosen by a
  first-set-field-wins rule. Dimension leaves come first, then metric leaves.
  A single leaf is returned as it is. Two or more leaves are wrapped in exactly
  one AND or OR group.
- **Request builders** (`Ga4Client`, src/ga4-client.ts). The five report
  methods become pure functions returning a `ReportRequest`. Each request has
  its fixed metric and dimension lists and the compiled filter. For events, the
  filter is merged with the event-name condition. The limit hint is attached
  only when it is positive. `runReport`'s rewrite of the property name is
  `WithProperty`.
- **Response normaliser / paginator** (`Ga4Format`, src/utils/ga4.ts). It
  flattens header-aligned rows into name→value records and slices them by
  offset and limit. It also computes `totalCount`, `hasMore`, `pageCount` and
  `currentPage`. The copy in src/utils.ts (`LegacyUtils.FormatGAResponse`) is
  written step by step, following the source's `forEach` loops. It is proved
  equal to the functional model on every input.
- **Parameter validation** (`Ga4Schemas`, `LegacyUtils`). The zod schemas become
  predicates plus defaulting functions: the date pattern, limit in [1, 1000]
  with default 50, offset ≥ 0 with default 0, and the filter defaults. A
  schema also decides which keys survive parsing.

JavaScript truthiness is written out everywhere:

- An optional string is "set" when it is `Some(s)` with `s` non-empty.
- An optional boolean is "set" when it is `Some(true)`.
- A limit of `None` or `Some(0)` means "no limit".

The remote report call is not modelled. Its response is an input value of
`FormatGAResponse`.

Files: `options.dfy` (optional values, truthiness), `ga4_filters.dfy`,
`ga4_client.dfy`, `ga4_format.dfy`, `ga4_schemas.dfy`, `legacy_utils.dfy`,
`events_tool.dfy`.

Where the code differs from a natural reading of it, the model follows the code:

- A condition that sets no recognised predicate field compiles to a filter
  holding only its `fieldName`. It does not compile to an `emptyFilter` leaf.
- Dimension fields are checked for truthiness, so `""` and `[]` count as not
  set. Metric fields are checked with `!== undefined`, so `0` counts as set.
- `formatGAResponse` short-circuits only when `rows` is missing. An empty
  `rows` array takes the full path, so with a limit it reports `pageCount` 0.

## Model

| member | source | states |
|---|---|---|
| Ga4Filters.CompileDimension | src/types/ga4-filters.ts:111-156 | The leaf is named after the condition. Its predicate is the first of the set fields in the order equals, contains, begins-with, ends-with, regex, non-empty inList, isEmpty=true. These map to EXACT, CONTAINS, BEGINS_WITH, ENDS_WITH, FULL_REGEXP, inListFilter and emptyFilter. There is no predicate exactly when no field is set. `caseSensitive` is copied unchanged onto string and list predicates. |
| Ga4Filters.CompileMetric | src/types/ga4-filters.ts:159-199 | The leaf is named after the condition. Its predicate is the first present field in the order equals, lessThan, lessThanOrEqual, greaterThan, greaterThanOrEqual, between, isEmpty=true; a value of 0 counts as present. `between` copies from/to with no ordering check. There is no predicate exactly when nothing is present. |
| Ga4Filters.CompileDimensions | src/types/ga4-filters.ts:111 | One leaf per dimension condition, in input order. |
| Ga4Filters.CompileMetrics | src/types/ga4-filters.ts:159 | One leaf per metric condition, in input order. |
| Ga4Filters.AllLeavesExpected | src/types/ga4-filters.ts:202 | The combined dimension-then-metric list has one leaf per condition, and its leaves are the expected filters in order. |
| Ga4Filters.Convert | src/types/ga4-filters.ts:105-219 | The result is absent iff the filter is absent or both lists are absent or empty. Otherwise the tree is flat and its leaves are the dimension filters followed by the metric filters, so there are as many leaves as conditions. One condition gives a bare leaf. Two or more give an OR group iff the operator is OR, else an AND group. |
| Ga4Format.CeilDiv | src/utils/ga4.ts:62 | `Math.ceil(a/b)`: the smallest q with q·b ≥ a; it is 0 iff a is 0. |
| Ga4Format.FloorDiv | src/utils/ga4.ts:63 | `Math.floor(a/b)`: the q with q·b ≤ a < (q+1)·b. |
| Ga4Format.HeaderNames | src/utils/ga4.ts:19-22 | The header names, position by position; an absent header list gives no names. |
| Ga4Format.Write | src/utils/ga4.ts:33-39 | A key is in the record iff it was there before or some position below the cell count has that non-empty header name. It holds the cell of the last such position, and keys never written keep their old value. |
| Ga4Format.FlattenRow | src/utils/ga4.ts:29-51 | Every key is a non-empty dimension or metric header name. A metric header written at any position overwrites a same-named dimension. A dimension value survives only when no metric writes its name. |
| Ga4Format.PageRows | src/utils/ga4.ts:25-27 | The page is the rows from `offset` on, at most `limit` of them when a limit is set. It is empty when `offset` is at or past the end, and element i is row offset+i. |
| Ga4Format.FormatGAResponse | src/utils/ga4.ts:10-65 | A missing response or missing `rows` gives the short result: no data, total 0, limit and offset echoed. Otherwise `totalCount` is the unsliced row count and record i flattens row offset+i. `limit` is echoed only when truthy. `hasMore` iff a limit is set and offset+limit < total. `pageCount` and `currentPage` are ceil(total/limit) and floor(offset/limit)+1, or 1 and 1 without a limit. |
| Ga4Format.PaginationBounds | src/utils/ga4.ts:25-63 | `currentPage` ≥ 1. With a limit: at most `limit` records, pageCount·limit ≥ totalCount, and pageCount is 0 iff there are no rows. An offset at or past the end gives empty data. |
| Ga4Format.HasMoreIffRowsRemain | src/utils/ga4.ts:61 | `hasMore` holds exactly when rows remain after the returned page, with or without a limit. |
| Ga4Format.CurrentPageHoldsOffset | src/utils/ga4.ts:62-63 | With a limit, the current page's row range contains `offset`. While `offset` is inside the rows, the current page is at most the page count. |
| Ga4Format.EmptyRowsTakeFullPath | src/utils/ga4.ts:15-27 | A present but empty `rows` array gives the full result with no data and no more rows. It reports 0 pages with a limit and 1 page without. |
| Ga4Format.LastPartialPage | src/utils/ga4.ts:24-63 | Ten rows with limit 3 and offset 9 give one record, no more rows, 4 pages, current page 4. |
| Ga4Format.SingleRowPage | src/utils/ga4.ts:24-63 | One row read from offset 0, with any limit or none (`None` or 0), gives that row's record on page 1 of 1, with no more rows. |
| Ga4Format.OneDailyRecord | src/utils/ga4.ts:29-51 | A row with date "2024-01-01" under header `date` and "120" under header `activeUsers` flattens to exactly those two entries. |
| Ga4Schemas.DateShape | src/utils/ga4.ts:70-72 | The date pattern accepts exactly the 10-character strings made of four ASCII digits, `-`, two digits, `-`, two digits. No calendar check is made. |
| Ga4Schemas.DateFromParts | src/utils/ga4.ts:70-72 | Any 4-2-2 digit groups joined by hyphens are accepted, `2024-02-30` included. |
| Ga4Schemas.LimitOrDefault | src/utils/ga4.ts:121 | An accepted limit lies in [1, 1000]. A given limit is kept; an absent one becomes 50. |
| Ga4Schemas.OffsetOrDefault | src/utils/ga4.ts:122 | An accepted offset is kept; an absent one becomes 0. |
| Ga4Schemas.FilterDefaults | src/utils/ga4.ts:77-115 | The operator defaults to AND. Every dimension condition gets a `caseSensitive` flag, false when none was given. Nothing else changes. |
| Ga4Schemas.FilterDefaultsKeepShape | src/utils/ga4.ts:77-115 | Defaulting changes neither whether a filter compiles nor its shape: the same leaves with the same field names and the same group kind. Every compiled string or list predicate then carries an explicit case flag. |
| Ga4Schemas.Parse | src/utils/ga4.ts:128-180 | A parse succeeds iff both dates match the pattern, the limit is absent or in [1, 1000], and the offset is absent or ≥ 0. A failure lists exactly the violated fields, each once. A success fills the defaults: `["hostName"]` dimensions for page views, limit 50, offset 0 and the filter defaults. It keeps only the keys the schema declares. |
| Ga4Client.LimitHint | src/ga4-client.ts:134-136 | A limit is attached iff it is given and positive, and then unchanged. |
| Ga4Client.NonEmptyNames | src/ga4-client.ts:110-112 | It keeps exactly the non-empty names, in their original order, dropping one element per empty string. |
| Ga4Client.PageViewDimensions | src/ga4-client.ts:99-119 | The page-view dimensions are never empty and never contain `""`. They are the caller's non-empty names when there are any, else exactly `["hostName"]`; an absent argument also gives `["hostName"]`. |
| Ga4Client.WithProperty | src/ga4-client.ts:69-72 | `property` becomes "properties/" + id and every other request field is unchanged. |
| Ga4Client.WithPropertyLastWins | src/ga4-client.ts:69-72 | Rewriting the property twice leaves only the second id. |
| Ga4Client.GetPageViews | src/ga4-client.ts:96-139 | One date range; metric `screenPageViews`. The dimensions are exactly `PageViewDimensions` of the argument: the caller's non-empty names in order, else `["hostName"]`. The filter is present iff the compiled filter is, and then equal to it. The limit is attached only when positive. |
| Ga4Client.GetActiveUsers | src/ga4-client.ts:149-178 | One date range; metrics `activeUsers`, `newUsers` by `date`. The compiled filter is used as it is. The limit is attached only when positive. |
| Ga4Client.MergeEventFilter | src/ga4-client.ts:208-236 | A non-empty event name and a compiled filter give an AND group of exactly [event-name EXACT leaf without case flag, compiled filter]. Either one alone is used as it is. With neither there is no filter. |
| Ga4Client.GetEvents | src/ga4-client.ts:189-243 | One date range; metric `eventCount` by `eventName`, `date`. The filter is the event-name merge of the compiled filter. The limit is attached only when positive. |
| Ga4Client.GetUserBehavior | src/ga4-client.ts:253-286 | One date range; metrics `averageSessionDuration`, `bounceRate`, `sessionsPerUser` by `date`. The compiled filter is used as it is. The limit is attached only when positive. |
| Ga4Client.GetSourceMedia | src/ga4-client.ts:296-329 | One date range; metrics `sessions`, `activeUsers` by `sessionSource`, `sessionMedium`, `sessionCampaignName`. The compiled filter is used as it is. The limit is attached only when positive. |
| Ga4Client.OffsetNeverSent | src/ga4-client.ts:96-329 | No report request depends on the offset. |
| Ga4Client.EventsWithFilterNestOnce | src/ga4-client.ts:220-236 | With an event name and two or more conditions, the events filter is an AND group of the event-name leaf and the compiled group. Its leaves are the compiled conditions in order. |
| LegacyUtils.WriteCells | src/utils.ts:27-42 | The loop over one value list writes what `Ga4Format.Write` describes. |
| LegacyUtils.FlattenRowSteps | src/utils.ts:23-45 | The row mapper of this copy gives the same record as `Ga4Format.FlattenRow`. |
| LegacyUtils.SliceRows | src/utils.ts:18-21 | The clamped slice of this copy gives the same page as `Ga4Format.PageRows`. |
| LegacyUtils.FlattenRows | src/utils.ts:23-45 | One record per page row, in order, each the flattened row. |
| LegacyUtils.PageDataMatches | src/utils.ts:23-48 | The records this copy flattens, one per page row in order, are exactly the data of the functional formatter's full result. |
| LegacyUtils.FormatGAResponse | src/utils.ts:9-59 | The src/utils.ts copy returns exactly what the src/utils/ga4.ts copy returns, for every response, limit and offset. |
| LegacyUtils.SchemaWithoutFilter | src/utils.ts:61-116 | A schema of this file accepts and rejects the same inputs as its src/utils/ga4.ts counterpart, with the same issues and the same parsed values. The only difference is that the parsed result never carries a filter. |
| EventsTool.EventsRequest | src/tools/events.ts:79-96 | The events tool builds a request iff its arguments parse. The request has the fixed events dimensions and metric, the parsed dates, and the parsed limit, 50 by default. |
| EventsTool.EventsToolDropsFilter | src/tools/events.ts:6 | With the src/utils.ts schema the tool imports, the request filters on the event name alone, or not at all, whatever filter was given. |
| EventsTool.FilterLostExample | src/utils.ts:100-106 | A valid call with one dimension condition, which compiles to a filter, still produces a request with no filter. |
| EventsTool.EventsToolForwardsFilter | src/utils/ga4.ts:151-158 | With the schema that declares `filter`, the defaulted filter is compiled and merged with the event-name condition. A filter with conditions always reaches the request. |

## Findings

| source | as written | input that shows it | evidently intended | confidence | as-written member | corrected member |
|---|---|---|---|---|---|---|
| src/tools/events.ts:6 | The events tool imports `eventsSchema` from src/utils.ts. That schema declares no `filter` key, so parsing strips the caller's filter before `getEvents` sees it. | startDate "2024-01-01", endDate "2024-01-31", filter with one dimension condition `country` equals "Japan" | The filter reaches the request, as the tool's declared `filter` parameter and the `eventsSchema` of src/utils/ga4.ts suggest. | high, not executed | EventsTool.FilterLostExample | EventsTool.EventsToolForwardsFilter |

## Left out

- The remote calls `runReport` and `getMetadata`, and the `GA4Client` constructor with its environment and credential loading, are left out. They are calls into the Google Analytics client library and the process environment. The remote response is an input value of `FormatGAResponse`.
- The tools' `execute` methods are orchestration only: parse, call, format, `JSON.stringify`, and catch into text content. Only the events tool's parse-then-build step is modelled (`EventsTool`), because the finding lives there.
- Tool, resource and prompt registration, the bootstrap, the static dimension/metric/help text, the prompt templates, src/utils/error-handler.ts and src/types/index.ts are left out. They are SDK plumbing, constant data, or depend on the JavaScript `Error` runtime.
- Logging through `console.error` is left out.
- The `simpleFilterSchema` the tools import is not part of this model. It does not appear in the filter types file.
- Numbers are integers. Filter values (`doubleValue`) are opaque `int`s. Limits and offsets are naturals in the formatter, and NaN and fractional limits are not modelled. `Math.ceil`/`Math.floor` of a quotient are taken as exact, which holds for counts below 2^53.
- Ga4Format.FormatGAResponse: does not model a negative limit or offset, because both are `nat` here. JavaScript's `slice` would count such values from the end; the schemas reject them before they reach the formatter.
- Ga4Format.FormatGAResponse: the default `offset = 0` of both copies' signatures is not modelled; the offset is a required `nat`. Every caller passes an offset the schemas already defaulted to 0, so no reachable result differs.
- `notExpression` of the filter-expression tree is never produced by the code and is not in the model's tree type. `MATCH_TYPE_UNSPECIFIED`, `PARTIAL_REGEXP` and `OPERATION_UNSPECIFIED` are declared but never produced.
- Ga4Client.NonEmptyNames: the `typeof dim === "string"` test is not modelled, because dimension lists are typed `seq<string>`. Non-string entries cannot occur, and the test reduces to dropping empty strings.
- Ga4Schemas.Parse: zod's issue messages and paths are reduced to the list of violated fields. Shape errors of the filter object cannot occur in the typed model. The stripping of unknown keys inside filter conditions is implicit in the datatypes.
- JSON serialisation of the result is not modelled. `JSON.stringify` drops keys whose value is `undefined`, but a record here still holds an absent value under its key. Special JavaScript object keys such as `__proto__` are treated as ordinary keys.
- Idempotence of formatting is not stated as a lemma: every member is a pure function, so equal inputs give equal results by construction.
