/** The parameter validators (zod schemas) of src/utils/ga4.ts.

    A schema accepts or rejects the raw parameters of one report and fills in
    defaults. Validation is written as plain predicates; a rejection lists
    every violated field, as zod reports all issues at once.
 */
module Ga4Schemas {
  import opened Opt
  import opened Ga4Filters

  /* ---------------- Dates: /^\d{4}-\d{2}-\d{2}$/ ---------------- */

  /** `\d` of a JavaScript regular expression without the `u` flag: an ASCII digit. */
  predicate IsDigit(c: char) {
    '0' <= c <= '9'
  }

  predicate AllDigits(s: string) {
    forall i :: 0 <= i < |s| ==> IsDigit(s[i])
  }

  /** One position of the anchored date pattern. */
  datatype CharClass = Digit | Hyphen

  /** The pattern `\d{4}-\d{2}-\d{2}`, one class per character. */
  const DatePattern: seq<CharClass> :=
    [Digit, Digit, Digit, Digit, Hyphen, Digit, Digit, Hyphen, Digit, Digit]

  predicate InClass(k: CharClass, c: char) {
    match k
    case Digit => IsDigit(c)
    case Hyphen => c == '-'
  }

  /** Anchored match (`^…$`): same length, every character in its class. */
  predicate FullMatch(pattern: seq<CharClass>, s: string) {
    |s| == |pattern| && forall i :: 0 <= i < |s| ==> InClass(pattern[i], s[i])
  }

  /** dateSchema. No calendar check is made. */
  predicate IsDate(s: string) {
    FullMatch(DatePattern, s)
  }

  /** A date string is four digits, a hyphen, two digits, a hyphen and two
      digits, and every such string is a date string. */
  lemma DateShape(s: string)
    ensures IsDate(s) <==>
              && |s| == 10
              && AllDigits(s[..4]) && s[4] == '-'
              && AllDigits(s[5..7]) && s[7] == '-'
              && AllDigits(s[8..])
  {
    if |s| == 10 && AllDigits(s[..4]) && s[4] == '-' && AllDigits(s[5..7]) && s[7] == '-' && AllDigits(s[8..]) {
      forall i | 0 <= i < |s|
        ensures InClass(DatePattern[i], s[i])
      {
        if i < 4 { assert s[i] == s[..4][i]; }
        else if 5 <= i < 7 { assert s[i] == s[5..7][i - 5]; }
        else if 8 <= i { assert s[i] == s[8..][i - 8]; }
      }
    }
    if IsDate(s) {
      assert forall i :: 0 <= i < 4 ==> InClass(DatePattern[i], s[i]);
      assert forall i :: 5 <= i < 7 ==> InClass(DatePattern[i], s[i]);
      assert forall i :: 8 <= i < 10 ==> InClass(DatePattern[i], s[i]);
    }
  }

  /** Assembling a date from digit groups gives a string the schema accepts. */
  lemma DateFromParts(year: string, month: string, day: string)
    requires |year| == 4 && |month| == 2 && |day| == 2
    requires AllDigits(year) && AllDigits(month) && AllDigits(day)
    ensures IsDate(year + "-" + month + "-" + day)
  {
    var s := year + "-" + month + "-" + day;
    assert s[..4] == year;
    assert s[5..7] == month;
    assert s[8..] == day;
    DateShape(s);
  }

  /* ---------------- Pagination: limit and offset ---------------- */

  /** `z.number().min(1).max(1000).optional()`. */
  predicate LimitOk(limit: Option<int>) {
    limit.None? || 1 <= limit.value <= 1000
  }

  /** `z.number().min(0).optional()`. */
  predicate OffsetOk(offset: Option<int>) {
    offset.None? || offset.value >= 0
  }

  const DefaultLimit: nat := 50
  const DefaultOffset: nat := 0

  /** `.default(50)` after the range check. */
  function LimitOrDefault(limit: Option<int>): (l: nat)
    requires LimitOk(limit)
    ensures 1 <= l <= 1000
    ensures limit.Some? ==> l == limit.value
    ensures limit.None? ==> l == 50
  {
    if limit.Some? then limit.value else DefaultLimit
  }

  /** `.default(0)` after the range check. */
  function OffsetOrDefault(offset: Option<int>): (o: nat)
    requires OffsetOk(offset)
    ensures offset.Some? ==> o == offset.value
    ensures offset.None? ==> o == 0
  {
    if offset.Some? then offset.value else DefaultOffset
  }

  /* ---------------- Filter defaults ---------------- */

  /** `caseSensitive: z.boolean().optional().default(false)`. */
  function DimensionDefaults(d: DimensionCondition): DimensionCondition {
    d.(caseSensitive := Some(d.caseSensitive.GetOr(false)))
  }

  /** filterSchema applied to a present filter: `operator` defaults to AND and
      every dimension condition's `caseSensitive` to false; nothing else changes. */
  function FilterDefaults(f: SimpleFilter): (g: SimpleFilter)
    ensures g.metric == f.metric
    ensures g.operator == Some(f.operator.GetOr(And))
    ensures g.dimension.Some? <==> f.dimension.Some?
    ensures g.dimension.Some? ==>
              && |g.dimension.value| == |f.dimension.value|
              && forall i :: 0 <= i < |g.dimension.value| ==>
                   var d, e := f.dimension.value[i], g.dimension.value[i];
                   && e.caseSensitive == Some(d.caseSensitive.GetOr(false))
                   && e.(caseSensitive := d.caseSensitive) == d
  {
    var dims := if f.dimension.None? then None
                else Some(seq(|f.dimension.value|, i requires 0 <= i < |f.dimension.value| =>
                            DimensionDefaults(f.dimension.value[i])));
    SimpleFilter(dims, f.metric, Some(f.operator.GetOr(And)))
  }

  /** A string or list predicate carries an explicit case flag. */
  predicate HasCaseFlag(t: Option<Predicate>) {
    t.Some? && (t.value.StringFilter? || t.value.InListFilter?) ==> t.value.caseSensitive.Some?
  }

  /** Metric conditions never compile to string or list predicates. */
  lemma MetricHasNoCaseFlag(m: MetricCondition)
    ensures var t := CompileMetric(m).test;
            t.Some? ==> !t.value.StringFilter? && !t.value.InListFilter?
  {
    var t := CompileMetric(m).test;
    if t.Some? {
      assert t.value in MetricCandidates(m);
    }
  }

  /** Filter-wise, defaulting keeps every field name and gives every string or
      list predicate an explicit case flag. */
  lemma DefaultsPerFilter(f: SimpleFilter)
    ensures |ExpectedFilters(FilterDefaults(f))| == |ExpectedFilters(f)|
    ensures forall i :: 0 <= i < |ExpectedFilters(f)| ==>
              && ExpectedFilters(FilterDefaults(f))[i].fieldName == ExpectedFilters(f)[i].fieldName
              && HasCaseFlag(ExpectedFilters(FilterDefaults(f))[i].test)
  {
    var g := FilterDefaults(f);
    var ef, eg := ExpectedFilters(f), ExpectedFilters(g);
    var nd := Length(f.dimension);
    assert ConditionCount(g) == ConditionCount(f);
    forall i | 0 <= i < |ef|
      ensures eg[i].fieldName == ef[i].fieldName && HasCaseFlag(eg[i].test)
    {
      if i < nd {
        assert eg[i] == CompileDimension(g.dimension.value[i]);
        assert ef[i] == CompileDimension(f.dimension.value[i]);
      } else {
        assert eg[i] == CompileMetric(f.metric.value[i - nd]);
        assert ef[i] == CompileMetric(f.metric.value[i - nd]);
        MetricHasNoCaseFlag(f.metric.value[i - nd]);
      }
    }
  }

  /** Defaulting changes neither whether the compiler returns a filter nor its
      shape: the same number of leaves with the same field names, the same
      group kind, and every string or list predicate gets an explicit case flag. */
  lemma FilterDefaultsKeepShape(f: SimpleFilter)
    ensures var r, s := Convert(Some(f)), Convert(Some(FilterDefaults(f)));
            && (r.None? <==> s.None?)
            && (r.Some? ==>
                  && |LeafFilters(r.value)| == |LeafFilters(s.value)|
                  && (forall i :: 0 <= i < |LeafFilters(r.value)| ==>
                        LeafFilters(s.value)[i].fieldName == LeafFilters(r.value)[i].fieldName)
                  && r.value.Leaf? == s.value.Leaf?
                  && r.value.OrGroup? == s.value.OrGroup?
                  && (forall i :: 0 <= i < |LeafFilters(s.value)| ==> HasCaseFlag(LeafFilters(s.value)[i].test)))
  {
    assert ConditionCount(FilterDefaults(f)) == ConditionCount(f);
    DefaultsPerFilter(f);
  }

  /* ---------------- Report schemas ---------------- */

  /** The keys a report schema declares beyond dates, limit and offset;
      undeclared keys are stripped by parsing. */
  datatype Schema = Schema(hasDimensions: bool, hasEventName: bool, hasFilter: bool)

  const PageViewsSchema := Schema(true, false, true)
  const ActiveUsersSchema := Schema(false, false, true)
  const EventsSchema := Schema(false, true, true)
  const UserBehaviorSchema := Schema(false, false, true)
  const SourceMediaSchema := Schema(false, false, true)

  /** Parameters as the tool receives them; any of them may be absent. */
  datatype RawParams = RawParams(
    startDate: Option<string>,
    endDate: Option<string>,
    dimensions: Option<seq<string>>,
    eventName: Option<string>,
    limit: Option<int>,
    offset: Option<int>,
    filter: Option<SimpleFilter>)

  /** Parameters after a successful parse, defaults filled in. */
  datatype Params = Params(
    startDate: string,
    endDate: string,
    dimensions: Option<seq<string>>,
    eventName: Option<string>,
    limit: nat,
    offset: nat,
    filter: Option<SimpleFilter>)

  /** A field a parse can reject. */
  datatype Field = StartDate | EndDate | Limit | Offset

  datatype Parsed = Valid(params: Params) | Invalid(issues: seq<Field>)

  predicate DateOk(s: Option<string>) {
    s.Some? && IsDate(s.value)
  }

  /** Whether raw parameters violate the constraint on field `f`. */
  predicate Violates(raw: RawParams, f: Field) {
    match f
    case StartDate => !DateOk(raw.startDate)
    case EndDate => !DateOk(raw.endDate)
    case Limit => !LimitOk(raw.limit)
    case Offset => !OffsetOk(raw.offset)
  }

  /** Issues in the order the schema declares its keys. */
  function Issues(raw: RawParams): seq<Field> {
    (if DateOk(raw.startDate) then [] else [StartDate])
    + (if DateOk(raw.endDate) then [] else [EndDate])
    + (if LimitOk(raw.limit) then [] else [Limit])
    + (if OffsetOk(raw.offset) then [] else [Offset])
  }

  /** `schema.parse(raw)`: rejects exactly when some field is violated,
      reporting each violated field once, and otherwise fills in the page-view
      dimensions `["hostName"]`, limit 50, offset 0 and the filter defaults,
      dropping every key the schema does not declare. */
  function Parse(schema: Schema, raw: RawParams): (r: Parsed)
    ensures r.Valid? <==> DateOk(raw.startDate) && DateOk(raw.endDate) && LimitOk(raw.limit) && OffsetOk(raw.offset)
    ensures r.Invalid? ==>
              && |r.issues| > 0
              && (forall f: Field :: f in r.issues <==> Violates(raw, f))
              && (forall i, j :: 0 <= i < j < |r.issues| ==> r.issues[i] != r.issues[j])
    ensures r.Valid? ==>
              var p := r.params;
              && IsDate(p.startDate) && p.startDate == raw.startDate.value
              && IsDate(p.endDate) && p.endDate == raw.endDate.value
              && 1 <= p.limit <= 1000
              && p.limit == raw.limit.GetOr(50)
              && p.offset == raw.offset.GetOr(0)
              && p.dimensions == (if schema.hasDimensions then Some(raw.dimensions.GetOr(["hostName"])) else None)
              && p.eventName == (if schema.hasEventName then raw.eventName else None)
              && (p.filter.Some? <==> schema.hasFilter && raw.filter.Some?)
              && (p.filter.Some? ==> p.filter.value == FilterDefaults(raw.filter.value))
  {
    var issues := Issues(raw);
    if |issues| > 0 then
      Invalid(issues)
    else
      Valid(Params(
        raw.startDate.value,
        raw.endDate.value,
        if schema.hasDimensions then Some(raw.dimensions.GetOr(["hostName"])) else None,
        if schema.hasEventName then raw.eventName else None,
        LimitOrDefault(raw.limit),
        OffsetOrDefault(raw.offset),
        if schema.hasFilter && raw.filter.Some? then Some(FilterDefaults(raw.filter.value)) else None))
  }
}
