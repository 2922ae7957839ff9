/** Request construction in the GA4 client of src/ga4-client.ts.

    Each report method assembles a `RunReportRequest` and hands it to
    `runReport`, which stamps the property name on it and calls the Data API.
    The builders are modelled as pure functions returning the request; the
    remote call, credential loading and logging are not part of this model.
 */
module Ga4Client {
  import opened Opt
  import opened Ga4Filters

  datatype DateRange = DateRange(startDate: string, endDate: string)

  /** The request fields the client sets. Dimensions and metrics are lists of
      names (`{ name }` objects in the source). `property` is unset until
      `runReport` fills it in. */
  datatype ReportRequest = ReportRequest(
    property: Option<string>,
    dateRanges: seq<DateRange>,
    dimensions: seq<string>,
    metrics: seq<string>,
    dimensionFilter: Option<FilterExpression>,
    limit: Option<int>)

  /* ---------------- Shared pieces ---------------- */

  /** `limit && limit > 0`: the limit hint is sent only when positive. */
  function LimitHint(limit: Option<int>): (r: Option<int>)
    ensures r.Some? <==> limit.Some? && limit.value > 0
    ensures r.Some? ==> r == limit
  {
    if limit.Some? && limit.value > 0 then limit else None
  }

  /** `s` keeps some elements of `t`, in their original order. */
  predicate IsSubsequence(s: seq<string>, t: seq<string>)
    decreases |t|
  {
    |s| <= |t| &&
    (|s| == 0 || (s[|s| - 1] == t[|t| - 1] && IsSubsequence(s[..|s| - 1], t[..|t| - 1]))
              || IsSubsequence(s, t[..|t| - 1]))
  }

  /** Number of empty strings in a list. */
  function CountEmpty(ds: seq<string>): nat {
    if |ds| == 0 then 0 else (if ds[|ds| - 1] == "" then 1 else 0) + CountEmpty(ds[..|ds| - 1])
  }

  /** `dimensions.filter(dim => dim && typeof dim === "string")`: the
      non-empty names, in order. */
  function NonEmptyNames(ds: seq<string>): (r: seq<string>)
    ensures forall x :: x in r <==> x in ds && x != ""
    ensures |r| == |ds| - CountEmpty(ds)
    ensures IsSubsequence(r, ds)
  {
    if |ds| == 0 then []
    else
      var rest := NonEmptyNames(ds[..|ds| - 1]);
      var last := ds[|ds| - 1];
      assert ds == ds[..|ds| - 1] + [last];
      if last != "" then rest + [last] else rest
  }

  /** The page-view dimensions: the caller's non-empty names (by default
      `["hostName"]`), or `["hostName"]` alone when none remain. */
  function PageViewDimensions(dimensions: Option<seq<string>>): (r: seq<string>)
    ensures |r| >= 1
    ensures forall x :: x in r ==> x != ""
    ensures var given := dimensions.GetOr(["hostName"]);
            (exists x :: x in given && x != "") ==> r == NonEmptyNames(given)
    ensures var given := dimensions.GetOr(["hostName"]);
            (forall x :: x in given ==> x == "") ==> r == ["hostName"]
  {
    var valid := NonEmptyNames(dimensions.GetOr(["hostName"]));
    assert |valid| > 0 ==> valid[0] in valid;
    if |valid| == 0 then ["hostName"] else valid
  }

  /* ---------------- runReport ---------------- */

  /** `{ ...config, property: "properties/" + propertyId }`: only the
      property changes. */
  function WithProperty(config: ReportRequest, propertyId: string): (r: ReportRequest)
    ensures r.property == Some("properties/" + propertyId)
    ensures r.(property := config.property) == config
  {
    config.(property := Some("properties/" + propertyId))
  }

  /** Stamping the property twice leaves only the last stamp. */
  lemma WithPropertyLastWins(config: ReportRequest, a: string, b: string)
    ensures WithProperty(WithProperty(config, a), b) == WithProperty(config, b)
  {
  }

  /* ---------------- The report builders ---------------- */

  /** getPageViews: screen page views by the caller's dimensions. */
  function GetPageViews(
    startDate: string, endDate: string, dimensions: Option<seq<string>>,
    limit: Option<int>, offset: Option<int>, filter: Option<SimpleFilter>): (r: ReportRequest)
    ensures r.property.None?
    ensures r.dateRanges == [DateRange(startDate, endDate)]
    ensures r.metrics == ["screenPageViews"]
    ensures |r.dimensions| >= 1 && forall x :: x in r.dimensions ==> x != ""
    ensures dimensions.None? ==> r.dimensions == ["hostName"]
    ensures r.dimensions == PageViewDimensions(dimensions)
    ensures r.dimensionFilter.Some? <==> Convert(filter).Some?
    ensures r.dimensionFilter.Some? ==> r.dimensionFilter == Convert(filter)
    ensures r.limit.Some? <==> limit.Some? && limit.value > 0
    ensures r.limit.Some? ==> r.limit == limit
  {
    ReportRequest(
      None, [DateRange(startDate, endDate)], PageViewDimensions(dimensions), ["screenPageViews"],
      if filter.Some? then Convert(filter) else None, LimitHint(limit))
  }

  /** getActiveUsers: active and new users by date. */
  function GetActiveUsers(
    startDate: string, endDate: string,
    limit: Option<int>, offset: Option<int>, filter: Option<SimpleFilter>): (r: ReportRequest)
    ensures r.property.None?
    ensures r.dateRanges == [DateRange(startDate, endDate)]
    ensures r.metrics == ["activeUsers", "newUsers"]
    ensures r.dimensions == ["date"]
    ensures r.dimensionFilter.Some? <==> Convert(filter).Some?
    ensures r.dimensionFilter.Some? ==> r.dimensionFilter == Convert(filter)
    ensures r.limit.Some? <==> limit.Some? && limit.value > 0
    ensures r.limit.Some? ==> r.limit == limit
  {
    ReportRequest(
      None, [DateRange(startDate, endDate)], ["date"], ["activeUsers", "newUsers"],
      if filter.Some? then Convert(filter) else None, LimitHint(limit))
  }

  /** The implicit condition of the events report: an EXACT match on the
      `eventName` field, without a case flag. */
  function EventNameLeaf(eventName: string): FilterExpression {
    Leaf(Filter("eventName", Some(StringFilter(Exact, eventName, None))))
  }

  /** The events filter merge: the implicit event-name condition and the
      compiled filter are joined in a two-member AND group, implicit first;
      either one alone is used as it is; with neither there is no filter. */
  function MergeEventFilter(eventName: Option<string>, compiled: Option<FilterExpression>): (r: Option<FilterExpression>)
    ensures r.None? <==> !NonEmpty(eventName) && compiled.None?
    ensures !NonEmpty(eventName) ==> r == compiled
    ensures NonEmpty(eventName) && compiled.None? ==> r == Some(EventNameLeaf(eventName.value))
    ensures NonEmpty(eventName) && compiled.Some? ==>
              r.value.AndGroup? && |r.value.expressions| == 2
              && r.value.expressions[0] == EventNameLeaf(eventName.value)
              && r.value.expressions[1] == compiled.value
  {
    var implicit := if NonEmpty(eventName) then Some(EventNameLeaf(eventName.value)) else None;
    if compiled.Some? then
      if NonEmpty(eventName) then Some(AndGroup([implicit.value, compiled.value])) else compiled
    else implicit
  }

  /** getEvents: event counts by event name and date. */
  function GetEvents(
    startDate: string, endDate: string, eventName: Option<string>,
    limit: Option<int>, offset: Option<int>, filter: Option<SimpleFilter>): (r: ReportRequest)
    ensures r.property.None?
    ensures r.dateRanges == [DateRange(startDate, endDate)]
    ensures r.metrics == ["eventCount"]
    ensures r.dimensions == ["eventName", "date"]
    ensures r.dimensionFilter == MergeEventFilter(eventName, Convert(filter))
    ensures r.limit.Some? <==> limit.Some? && limit.value > 0
    ensures r.limit.Some? ==> r.limit == limit
  {
    ReportRequest(
      None, [DateRange(startDate, endDate)], ["eventName", "date"], ["eventCount"],
      MergeEventFilter(eventName, if filter.Some? then Convert(filter) else None), LimitHint(limit))
  }

  /** getUserBehavior: session duration, bounce rate and sessions per user by date. */
  function GetUserBehavior(
    startDate: string, endDate: string,
    limit: Option<int>, offset: Option<int>, filter: Option<SimpleFilter>): (r: ReportRequest)
    ensures r.property.None?
    ensures r.dateRanges == [DateRange(startDate, endDate)]
    ensures r.metrics == ["averageSessionDuration", "bounceRate", "sessionsPerUser"]
    ensures r.dimensions == ["date"]
    ensures r.dimensionFilter.Some? <==> Convert(filter).Some?
    ensures r.dimensionFilter.Some? ==> r.dimensionFilter == Convert(filter)
    ensures r.limit.Some? <==> limit.Some? && limit.value > 0
    ensures r.limit.Some? ==> r.limit == limit
  {
    ReportRequest(
      None, [DateRange(startDate, endDate)], ["date"], ["averageSessionDuration", "bounceRate", "sessionsPerUser"],
      if filter.Some? then Convert(filter) else None, LimitHint(limit))
  }

  /** getSourceMedia: sessions and active users by source, medium and campaign. */
  function GetSourceMedia(
    startDate: string, endDate: string,
    limit: Option<int>, offset: Option<int>, filter: Option<SimpleFilter>): (r: ReportRequest)
    ensures r.property.None?
    ensures r.dateRanges == [DateRange(startDate, endDate)]
    ensures r.metrics == ["sessions", "activeUsers"]
    ensures r.dimensions == ["sessionSource", "sessionMedium", "sessionCampaignName"]
    ensures r.dimensionFilter.Some? <==> Convert(filter).Some?
    ensures r.dimensionFilter.Some? ==> r.dimensionFilter == Convert(filter)
    ensures r.limit.Some? <==> limit.Some? && limit.value > 0
    ensures r.limit.Some? ==> r.limit == limit
  {
    ReportRequest(
      None, [DateRange(startDate, endDate)], ["sessionSource", "sessionMedium", "sessionCampaignName"],
      ["sessions", "activeUsers"],
      if filter.Some? then Convert(filter) else None, LimitHint(limit))
  }

  /* ---------------- Properties across the builders ---------------- */

  /** The offset is client-side pagination only: no request depends on it. */
  lemma OffsetNeverSent(
    startDate: string, endDate: string, dimensions: Option<seq<string>>, eventName: Option<string>,
    limit: Option<int>, o1: Option<int>, o2: Option<int>, filter: Option<SimpleFilter>)
    ensures GetPageViews(startDate, endDate, dimensions, limit, o1, filter)
         == GetPageViews(startDate, endDate, dimensions, limit, o2, filter)
    ensures GetActiveUsers(startDate, endDate, limit, o1, filter) == GetActiveUsers(startDate, endDate, limit, o2, filter)
    ensures GetEvents(startDate, endDate, eventName, limit, o1, filter)
         == GetEvents(startDate, endDate, eventName, limit, o2, filter)
    ensures GetUserBehavior(startDate, endDate, limit, o1, filter) == GetUserBehavior(startDate, endDate, limit, o2, filter)
    ensures GetSourceMedia(startDate, endDate, limit, o1, filter) == GetSourceMedia(startDate, endDate, limit, o2, filter)
  {
  }

  /** With both an event name and a filter of two or more conditions, the
      events request nests exactly once: an AND group of the event-name leaf
      and the compiled group, whose members are the compiled leaves. */
  lemma EventsWithFilterNestOnce(
    startDate: string, endDate: string, eventName: string,
    limit: Option<int>, offset: Option<int>, filter: SimpleFilter)
    requires eventName != ""
    requires ConditionCount(filter) >= 2
    ensures var e := GetEvents(startDate, endDate, Some(eventName), limit, offset, Some(filter)).dimensionFilter.value;
            && e.AndGroup? && |e.expressions| == 2
            && e.expressions[0] == EventNameLeaf(eventName)
            && !e.expressions[1].Leaf?
            && IsFlat(e.expressions[1])
            && LeafFilters(e.expressions[1]) == ExpectedFilters(filter)
  {
  }
}
