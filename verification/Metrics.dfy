/** trends.py and overview.py: the metrics that trends, insights and anomalies report. */
module Metrics {
  import opened Prelude
  import opened Facts
  import opened Numbers
  import opened Kpis
  import opened KpiTable

  datatype Kind = MoneyKind | CountKind | RateKind | RoasKind

  /** A fact measure, or a client KPI with the two columns it divides. */
  datatype Source = OfMeasure(m: Measure) | OfKpi(slug: string, numerator: Measure, denominator: Measure)

  datatype Metric = Metric(key: string, kind: Kind, source: Source)
  {
    /** Only sums of a measure can be split into shares. */
    predicate Adds() {
      source.OfMeasure?
    }
  }

  const TREND_METRICS: seq<Metric> := [
    Metric("total_cost", MoneyKind, OfMeasure(TotalCost)),
    Metric("revenue_inr", MoneyKind, OfMeasure(RevenueInr)),
    Metric("overall_roas", RoasKind, OfKpi("overall_roas", RevenueInr, TotalCost)),
    Metric("delivered", CountKind, OfMeasure(Delivered)),
    Metric("unique_clicks", CountKind, OfMeasure(UniqueClicks)),
    Metric("unique_conversions", CountKind, OfMeasure(UniqueConversions)),
    Metric("delivery_rate", RateKind, OfKpi("delivery_rate", Delivered, Sent)),
    Metric("ctr_del_to_clicks", RateKind, OfKpi("ctr_del_to_clicks", UniqueClicks, Delivered))]

  /** `_pick_metric` on summed measures. */
  function PickMetric(s: Metric, sums: Sums): Option<real> {
    if s.source.OfMeasure? then Lookup(sums, s.source.m)
    else Computed(ComputeNamespace(KPI_SPECS, Client, sums), s.source.slug)
  }

  function Computed(kpis: Result<Results, KpiError>, slug: string): Option<real> {
    if kpis.Ok? && slug in kpis.value then kpis.value[slug] else None
  }

  /** `denominator_sufficient`: a rate needs at least one unit to divide by, a ROAS any nonzero cost. */
  predicate DenominatorOk(s: Metric, sums: Sums) {
    s.source.OfKpi? ==>
      && s.source.denominator in sums
      && sums[s.source.denominator] != 0.0
      && (s.kind.RateKind? ==> sums[s.source.denominator] >= 1.0)
  }

  /** Python's `int()` on a Decimal drops the fraction. */
  function Truncate(x: real): int {
    if x >= 0.0 then x.Floor else -((-x).Floor)
  }

  function Change(s: Metric, x: real): real {
    if s.kind.CountKind? then Truncate(x) as real else x
  }

  /** `metric_delta`. */
  function Delta(s: Metric, current: Option<real>, prior: Option<real>): Option<real> {
    match SafeSubtract(current, prior, None)
    case None => None
    case Some(change) => Some(Change(s, change))
  }

  /** `metric_delta_pct`. */
  function DeltaPct(current: Option<real>, prior: Option<real>): Option<real> {
    SafeDivide(SafeSubtract(current, prior, None), prior, RATE_UNITS)
  }

  lemma {:induction false} TruncateWhole(x: real)
    requires IsInteger(x)
    ensures Truncate(x) as real == x
  {
    if x < 0.0 {
      assert -x == (-(x.Floor)) as real;
    }
  }

  /** A truncated change keeps its sign, unless it vanishes. */
  lemma {:induction false} ChangeSign(s: Metric, x: real)
    ensures Change(s, x) > 0.0 ==> x > 0.0
    ensures Change(s, x) < 0.0 ==> x < 0.0
    ensures s.kind.CountKind? && Change(s, x) != 0.0 ==> Abs(Change(s, x)) >= 1.0
  {
  }

  /** Each ratio metric is the quotient of its two columns, by way of the shipped KPI table. */
  lemma {:induction false} RatioMetricsDivide(s: Metric, sums: Sums)
    requires s in TREND_METRICS && s.source.OfKpi?
    ensures PickMetric(s, sums) ==
            SafeDivide(Lookup(sums, s.source.numerator), Lookup(sums, s.source.denominator),
                       if s.kind.RoasKind? then MONEY_UNITS else RATE_UNITS)
  {
    hide Quantize, ComputeNamespace, WellFormed, FirstSpecs, SpecAt, SafeDivide;
    var i: nat := if s.key == "overall_roas" then 30 else if s.key == "delivery_rate" then 16 else 18;
    RatioSpec(s, i);
    SpecsAt(i);
    TableWellFormed();
    ComputeMeans(KPI_SPECS, Client, sums);
    var spec := KPI_SPECS[i];
    assert spec in KPI_SPECS;
    assert PickMetric(s, sums) == Meaning(KPI_SPECS, spec, sums);
    assert OperandMeaning(KPI_SPECS, spec, spec.numerator, sums) == Lookup(sums, s.source.numerator);
    assert OperandMeaning(KPI_SPECS, spec, spec.denominator, sums) == Lookup(sums, s.source.denominator);
  }

  lemma {:induction false} RatioSpec(s: Metric, i: nat)
    requires s in TREND_METRICS && s.source.OfKpi?
    requires i == if s.key == "overall_roas" then 30 else if s.key == "delivery_rate" then 16 else 18
    ensures SpecAt(i).namespace == Client && SpecAt(i).slug == s.source.slug && SpecAt(i).operation == Divide
    ensures SpecAt(i).numerator == Some(Additive(s.source.numerator))
    ensures SpecAt(i).denominator == Some(Additive(s.source.denominator))
    ensures SpecAt(i).kind == if s.kind.RoasKind? then Money else Rate
  {
    var j :| 0 <= j < |TREND_METRICS| && TREND_METRICS[j] == s;
    assert j == 2 || j == 6 || j == 7;
  }
}
