/** The request the events tool of src/tools/events.ts sends.

    The tool parses its arguments with a schema and passes the parsed event
    name, limit, offset and filter to `getEvents`. It imports `eventsSchema`
    from src/utils.ts, which declares no `filter` key, so parsing strips the
    caller's filter before it reaches the request. The same tool parsing with
    the `eventsSchema` of src/utils/ga4.ts forwards it.
 */
module EventsTool {
  import opened Opt
  import opened Ga4Filters
  import opened Ga4Schemas
  import opened Ga4Client
  import LegacyUtils

  /** Parse with `schema`, then build the events request; `None` when the
      parse rejects the arguments. */
  function EventsRequest(schema: Schema, raw: RawParams): (r: Option<ReportRequest>)
    ensures r.Some? <==> Parse(schema, raw).Valid?
    ensures r.Some? ==>
              && r.value.dimensions == ["eventName", "date"]
              && r.value.metrics == ["eventCount"]
              && r.value.dateRanges == [DateRange(raw.startDate.value, raw.endDate.value)]
              && r.value.limit == Some(raw.limit.GetOr(50))
  {
    match Parse(schema, raw)
    case Invalid(_) => None
    case Valid(p) =>
      Some(GetEvents(p.startDate, p.endDate, p.eventName, Some(p.limit), Some(p.offset), p.filter))
  }

  /** As written: with the schema of src/utils.ts the request filters on the
      event name alone, or not at all, whatever filter the caller gave. */
  lemma EventsToolDropsFilter(raw: RawParams)
    ensures var r := EventsRequest(LegacyUtils.LegacyEventsSchema, raw);
            r.Some? ==>
              r.value.dimensionFilter == (if NonEmpty(raw.eventName) then Some(EventNameLeaf(raw.eventName.value)) else None)
  {
  }

  /** A concrete call that loses its filter: valid dates, no event name and
      one dimension condition; the condition compiles to a filter, yet the
      request carries none. */
  lemma FilterLostExample()
    ensures var cond := DimensionCondition("country", Some("Japan"), None, None, None, None, None, None, None);
            var f := SimpleFilter(Some([cond]), None, None);
            var raw := RawParams(Some("2024-01-01"), Some("2024-01-31"), None, None, None, None, Some(f));
            var r := EventsRequest(LegacyUtils.LegacyEventsSchema, raw);
            && Convert(Some(f)).Some?
            && r.Some?
            && r.value.dimensionFilter.None?
  {
    DateFromParts("2024", "01", "01");
    DateFromParts("2024", "01", "31");
    assert "2024" + "-" + "01" + "-" + "01" == "2024-01-01";
    assert "2024" + "-" + "01" + "-" + "31" == "2024-01-31";
  }

  /** Corrected: with the schema of src/utils/ga4.ts the caller's filter,
      defaults filled in, is compiled and merged with the event-name
      condition; a filter with conditions always reaches the request. */
  lemma EventsToolForwardsFilter(raw: RawParams)
    ensures var r := EventsRequest(Ga4Schemas.EventsSchema, raw);
            r.Some? ==>
              && r.value.dimensionFilter ==
                   MergeEventFilter(raw.eventName, Convert(if raw.filter.Some? then Some(FilterDefaults(raw.filter.value)) else None))
              && (raw.filter.Some? && ConditionCount(raw.filter.value) > 0 ==> r.value.dimensionFilter.Some?)
  {
    if raw.filter.Some? {
      FilterDefaultsKeepShape(raw.filter.value);
    }
  }
}
