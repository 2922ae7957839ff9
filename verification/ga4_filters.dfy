/** The filter compiler of src/types/ga4-filters.ts.

    A caller describes a filter as a flat `SimpleFilter`: a list of dimension
    conditions, a list of metric conditions and an AND/OR operator. The
    compiler turns it into the nested `FilterExpression` tree of the Google
    Analytics Data API v1beta: one leaf per condition, at most one group.
 */
module Ga4Filters {
  import opened Opt

  /* ---------------- The Data API filter-expression tree ---------------- */

  datatype MatchType =
    | MatchTypeUnspecified | Exact | BeginsWith | EndsWith | Contains | FullRegexp | PartialRegexp

  datatype Operation =
    | OperationUnspecified | Equal | LessThan | LessThanOrEqual | GreaterThan | GreaterThanOrEqual

  /** The one predicate a compiled `Filter` carries. Numeric values are the
      API's `doubleValue`, passed through untouched and modelled as `int`. */
  datatype Predicate =
    | StringFilter(matchType: MatchType, value: string, caseSensitive: Option<bool>)
    | InListFilter(values: seq<string>, caseSensitive: Option<bool>)
    | NumericFilter(operation: Operation, number: int)
    | BetweenFilter(fromValue: int, toValue: int)
    | EmptyFilter

  /** A single-field filter; `test == None` is a filter object that
      holds nothing but its `fieldName`. */
  datatype Filter = Filter(fieldName: string, test: Option<Predicate>)

  datatype FilterExpression =
    | Leaf(filter: Filter)
    | AndGroup(expressions: seq<FilterExpression>)
    | OrGroup(expressions: seq<FilterExpression>)

  /* ---------------- The caller-facing simple filter ---------------- */

  datatype DimensionCondition = DimensionCondition(
    name: string,
    stringEquals: Option<string>,
    stringContains: Option<string>,
    stringBeginsWith: Option<string>,
    stringEndsWith: Option<string>,
    stringRegex: Option<string>,
    inList: Option<seq<string>>,
    isEmpty: Option<bool>,
    caseSensitive: Option<bool>)

  datatype Between = Between(from: int, to: int)

  datatype MetricCondition = MetricCondition(
    name: string,
    equals: Option<int>,
    lessThan: Option<int>,
    lessThanOrEqual: Option<int>,
    greaterThan: Option<int>,
    greaterThanOrEqual: Option<int>,
    between: Option<Between>,
    isEmpty: Option<bool>)

  datatype Operator = And | Or

  datatype SimpleFilter = SimpleFilter(
    dimension: Option<seq<DimensionCondition>>,
    metric: Option<seq<MetricCondition>>,
    operator: Option<Operator>)

  /** Number of conditions in both lists together. */
  function ConditionCount(f: SimpleFilter): nat {
    Length(f.dimension) + Length(f.metric)
  }

  /* ---------------- Reference: every predicate a condition sets ---------------- */

  /** Every predicate a dimension condition sets, listed in priority order.
      Dimension fields are checked for truthiness: `""` and `[]` are not set. */
  function DimensionCandidates(d: DimensionCondition): seq<Predicate> {
    (if NonEmpty(d.stringEquals) then [StringFilter(Exact, d.stringEquals.value, d.caseSensitive)] else [])
    + (if NonEmpty(d.stringContains) then [StringFilter(Contains, d.stringContains.value, d.caseSensitive)] else [])
    + (if NonEmpty(d.stringBeginsWith) then [StringFilter(BeginsWith, d.stringBeginsWith.value, d.caseSensitive)] else [])
    + (if NonEmpty(d.stringEndsWith) then [StringFilter(EndsWith, d.stringEndsWith.value, d.caseSensitive)] else [])
    + (if NonEmpty(d.stringRegex) then [StringFilter(FullRegexp, d.stringRegex.value, d.caseSensitive)] else [])
    + (if d.inList.Some? && |d.inList.value| > 0 then [InListFilter(d.inList.value, d.caseSensitive)] else [])
    + (if IsTrue(d.isEmpty) then [EmptyFilter] else [])
  }

  /** Every predicate a metric condition sets, in priority order. Metric
      fields are checked for presence only, so a value of `0` is set. */
  function MetricCandidates(m: MetricCondition): seq<Predicate> {
    (if m.equals.Some? then [NumericFilter(Equal, m.equals.value)] else [])
    + (if m.lessThan.Some? then [NumericFilter(LessThan, m.lessThan.value)] else [])
    + (if m.lessThanOrEqual.Some? then [NumericFilter(LessThanOrEqual, m.lessThanOrEqual.value)] else [])
    + (if m.greaterThan.Some? then [NumericFilter(GreaterThan, m.greaterThan.value)] else [])
    + (if m.greaterThanOrEqual.Some? then [NumericFilter(GreaterThanOrEqual, m.greaterThanOrEqual.value)] else [])
    + (if m.between.Some? then [BetweenFilter(m.between.value.from, m.between.value.to)] else [])
    + (if IsTrue(m.isEmpty) then [EmptyFilter] else [])
  }

  /* ---------------- The compiler ---------------- */

  /** The if/else-if chain of the dimension mapper: the first set field wins. */
  function DimensionPredicate(d: DimensionCondition): Option<Predicate> {
    if NonEmpty(d.stringEquals) then Some(StringFilter(Exact, d.stringEquals.value, d.caseSensitive))
    else if NonEmpty(d.stringContains) then Some(StringFilter(Contains, d.stringContains.value, d.caseSensitive))
    else if NonEmpty(d.stringBeginsWith) then Some(StringFilter(BeginsWith, d.stringBeginsWith.value, d.caseSensitive))
    else if NonEmpty(d.stringEndsWith) then Some(StringFilter(EndsWith, d.stringEndsWith.value, d.caseSensitive))
    else if NonEmpty(d.stringRegex) then Some(StringFilter(FullRegexp, d.stringRegex.value, d.caseSensitive))
    else if d.inList.Some? && |d.inList.value| > 0 then Some(InListFilter(d.inList.value, d.caseSensitive))
    else if IsTrue(d.isEmpty) then Some(EmptyFilter)
    else None
  }

  /** The if/else-if chain of the metric mapper: the first present field wins. */
  function MetricPredicate(m: MetricCondition): Option<Predicate> {
    if m.equals.Some? then Some(NumericFilter(Equal, m.equals.value))
    else if m.lessThan.Some? then Some(NumericFilter(LessThan, m.lessThan.value))
    else if m.lessThanOrEqual.Some? then Some(NumericFilter(LessThanOrEqual, m.lessThanOrEqual.value))
    else if m.greaterThan.Some? then Some(NumericFilter(GreaterThan, m.greaterThan.value))
    else if m.greaterThanOrEqual.Some? then Some(NumericFilter(GreaterThanOrEqual, m.greaterThanOrEqual.value))
    else if m.between.Some? then Some(BetweenFilter(m.between.value.from, m.between.value.to))
    else if IsTrue(m.isEmpty) then Some(EmptyFilter)
    else None
  }

  /** One dimension condition compiled to a filter: it is named after the
      condition, carries the highest-priority predicate the condition sets,
      and carries none when no predicate field is set. */
  function CompileDimension(d: DimensionCondition): (f: Filter)
    ensures f.fieldName == d.name
    ensures f.test.None? <==> DimensionCandidates(d) == []
    ensures f.test.Some? ==> f.test.value == DimensionCandidates(d)[0]
    ensures f.test.Some? && (f.test.value.StringFilter? || f.test.value.InListFilter?) ==>
              f.test.value.caseSensitive == d.caseSensitive
  {
    Filter(d.name, DimensionPredicate(d))
  }

  /** One metric condition compiled to a filter, by the same first-wins rule. */
  function CompileMetric(m: MetricCondition): (f: Filter)
    ensures f.fieldName == m.name
    ensures f.test.None? <==> MetricCandidates(m) == []
    ensures f.test.Some? ==> f.test.value == MetricCandidates(m)[0]
  {
    Filter(m.name, MetricPredicate(m))
  }

  /** The dimension mapper over a whole list: one leaf per condition, in order. */
  function CompileDimensions(ds: seq<DimensionCondition>): (es: seq<FilterExpression>)
    ensures |es| == |ds|
    ensures forall i :: 0 <= i < |ds| ==> es[i] == Leaf(CompileDimension(ds[i]))
  {
    if |ds| == 0 then [] else [Leaf(CompileDimension(ds[0]))] + CompileDimensions(ds[1..])
  }

  /** The metric mapper over a whole list: one leaf per condition, in order. */
  function CompileMetrics(ms: seq<MetricCondition>): (es: seq<FilterExpression>)
    ensures |es| == |ms|
    ensures forall i :: 0 <= i < |ms| ==> es[i] == Leaf(CompileMetric(ms[i]))
  {
    if |ms| == 0 then [] else [Leaf(CompileMetric(ms[0]))] + CompileMetrics(ms[1..])
  }

  /** The filters a simple filter should compile to: its dimension conditions'
      filters followed by its metric conditions' filters. */
  function ExpectedFilters(f: SimpleFilter): (fs: seq<Filter>)
    ensures |fs| == ConditionCount(f)
  {
    var ds := f.dimension.GetOr([]);
    var ms := f.metric.GetOr([]);
    seq(|ds|, i requires 0 <= i < |ds| => CompileDimension(ds[i]))
    + seq(|ms|, j requires 0 <= j < |ms| => CompileMetric(ms[j]))
  }

  /** At most one level of grouping: a leaf, or a group whose members are all leaves. */
  predicate IsFlat(e: FilterExpression) {
    e.Leaf? || forall i :: 0 <= i < |e.expressions| ==> e.expressions[i].Leaf?
  }

  /** The filters at the leaves of a flat expression, left to right. */
  function LeafFilters(e: FilterExpression): seq<Filter>
    requires IsFlat(e)
  {
    if e.Leaf? then [e.filter]
    else seq(|e.expressions|, i requires 0 <= i < |e.expressions| => e.expressions[i].filter)
  }

  /** Both mappers' leaves, dimensions first: `[...dimensionExpressions, ...metricExpressions]`. */
  function AllLeaves(f: SimpleFilter): seq<FilterExpression> {
    CompileDimensions(f.dimension.GetOr([])) + CompileMetrics(f.metric.GetOr([]))
  }

  /** The combined list has one leaf per condition, and wrapped in either group
      kind its leaves are the expected filters. */
  lemma AllLeavesExpected(f: SimpleFilter)
    ensures |AllLeaves(f)| == ConditionCount(f)
    ensures |AllLeaves(f)| == 1 ==> AllLeaves(f)[0].Leaf? && [AllLeaves(f)[0].filter] == ExpectedFilters(f)
    ensures IsFlat(AndGroup(AllLeaves(f))) && LeafFilters(AndGroup(AllLeaves(f))) == ExpectedFilters(f)
    ensures IsFlat(OrGroup(AllLeaves(f))) && LeafFilters(OrGroup(AllLeaves(f))) == ExpectedFilters(f)
  {
    var all, expected := AllLeaves(f), ExpectedFilters(f);
    var nd := |f.dimension.GetOr([])|;
    assert forall i :: 0 <= i < |all| ==> all[i].Leaf? && all[i].filter == expected[i] by {
      forall i | 0 <= i < |all|
        ensures all[i].Leaf? && all[i].filter == expected[i]
      {
        if i < nd {
          assert all[i] == CompileDimensions(f.dimension.GetOr([]))[i];
        } else {
          assert all[i] == CompileMetrics(f.metric.GetOr([]))[i - nd];
        }
      }
    }
    assert LeafFilters(AndGroup(all)) == expected;
    assert LeafFilters(OrGroup(all)) == expected;
  }

  /** convertToFilterExpression. */
  function Convert(filter: Option<SimpleFilter>): (r: Option<FilterExpression>)
    ensures r.None? <==> filter.None? || ConditionCount(filter.value) == 0
    ensures r.Some? ==> IsFlat(r.value) && LeafFilters(r.value) == ExpectedFilters(filter.value)
    ensures r.Some? && ConditionCount(filter.value) == 1 ==> r.value.Leaf?
    ensures r.Some? && ConditionCount(filter.value) >= 2 ==>
              (r.value.OrGroup? <==> filter.value.operator == Some(Or))
              && (r.value.AndGroup? <==> filter.value.operator != Some(Or))
  {
    if filter.None? || (Length(filter.value.dimension) == 0 && Length(filter.value.metric) == 0) then
      None
    else
      var f := filter.value;
      var all := AllLeaves(f);
      AllLeavesExpected(f);
      // `all` is never empty here, so the source's empty-list return is unreachable.
      if |all| == 1 then Some(all[0])
      else if f.operator == Some(Or) then Some(OrGroup(all))
      else Some(AndGroup(all))
  }
}
