/** powerbi/model/kpi-mapping.md, the dictionary of the KPIs, against the table that ships: what `compute_kpis`
    reports under each slug is the formula that the dictionary gives for it. */
module KpiDictionary {
  import opened Prelude
  import opened Facts
  import opened Numbers
  import opened Text
  import opened Kpis
  import opened Dax
  import opened KpiTable

  /** What is reported under a slug. */
  function Reported(ns: Namespace, slug: string, sums: Sums): Option<real> {
    var r := ComputeNamespace(KPI_SPECS, ns, sums);
    if r.Ok? && slug in r.value then r.value[slug] else None
  }

  /** The quotient of two sums, half up in these units; none without both, or over zero. */
  ghost predicate IsQuotient(v: Option<real>, sums: Sums, a: Measure, b: Measure, units: real)
    requires units > 0.0
  {
    if a in sums && b in sums && sums[b] != 0.0 then v.Some? && HalfUpTo(v.value, sums[a] / sums[b], units) else v == None
  }

  /** The exact value, or half up in these units when there are any. */
  ghost predicate IsExact(v: real, exact: real, units: real) {
    if units > 0.0 then HalfUpTo(v, exact, units) else v == exact
  }

  ghost predicate IsSum(v: Option<real>, sums: Sums, a: Measure, b: Measure, units: real) {
    if a in sums && b in sums then v.Some? && IsExact(v.value, sums[a] + sums[b], units) else v == None
  }

  ghost predicate IsDifference(v: Option<real>, sums: Sums, a: Measure, b: Measure, units: real) {
    if a in sums && b in sums then v.Some? && IsExact(v.value, sums[a] - sums[b], units) else v == None
  }

  /** Every specification but the two dependent ones reports on two columns. */
  lemma {:induction false} OnColumns(i: nat, sums: Sums)
    requires i < SIZE && SpecAt(i).numerator.Some? && SpecAt(i).denominator.Some?
    ensures SpecAt(i).numerator.value.Additive? && SpecAt(i).denominator.value.Additive?
    ensures Reports(Reported(SpecAt(i).namespace, SpecAt(i).slug, sums), SpecAt(i),
                    Lookup(sums, SpecAt(i).numerator.value.m), Lookup(sums, SpecAt(i).denominator.value.m))
  {
    hide SpecAt, Reports, ComputeNamespace, WellFormed;
    TableWellFormed();
    SpecsAt(i);
    assert KPI_SPECS[i] in KPI_SPECS;
    Shape(i);
    KpiIsRounded(KPI_SPECS, SpecAt(i), sums);
  }

  lemma {:induction false} Quotient(i: nat, sums: Sums)
    requires i < SIZE && SpecAt(i).numerator.Some? && SpecAt(i).denominator.Some? && SpecAt(i).operation.Divide?
    ensures SpecAt(i).numerator.value.Additive? && SpecAt(i).denominator.value.Additive?
    ensures IsQuotient(Reported(SpecAt(i).namespace, SpecAt(i).slug, sums), sums, SpecAt(i).numerator.value.m, SpecAt(i).denominator.value.m,
                       if SpecAt(i).kind.Rate? then 1000000.0 else if SpecAt(i).kind.Money? then 10000.0 else 1.0)
  {
    hide SpecAt, Reported, HalfUpTo;
    OnColumns(i, sums);
  }

  lemma {:induction false} Total(i: nat, sums: Sums)
    requires i < SIZE && SpecAt(i).numerator.Some? && SpecAt(i).denominator.Some? && SpecAt(i).operation.Add?
    ensures SpecAt(i).numerator.value.Additive? && SpecAt(i).denominator.value.Additive?
    ensures IsSum(Reported(SpecAt(i).namespace, SpecAt(i).slug, sums), sums, SpecAt(i).numerator.value.m, SpecAt(i).denominator.value.m,
                  if SpecAt(i).kind.Rate? then 1000000.0 else if SpecAt(i).kind.Money? then 10000.0 else 0.0)
  {
    hide SpecAt, Reported, HalfUpTo;
    OnColumns(i, sums);
  }

  lemma {:induction false} Difference(i: nat, sums: Sums)
    requires i < SIZE && SpecAt(i).numerator.Some? && SpecAt(i).denominator.Some? && SpecAt(i).operation.Subtract?
    ensures SpecAt(i).numerator.value.Additive? && SpecAt(i).denominator.value.Additive?
    ensures IsDifference(Reported(SpecAt(i).namespace, SpecAt(i).slug, sums), sums, SpecAt(i).numerator.value.m, SpecAt(i).denominator.value.m,
                         if SpecAt(i).kind.Rate? then 1000000.0 else if SpecAt(i).kind.Money? then 10000.0 else 0.0)
  {
    hide SpecAt, Reported, HalfUpTo;
    OnColumns(i, sums);
  }

  /** Rates of the Q&A dictionary. */
  lemma {:induction false} QaRates(sums: Sums)
    ensures IsQuotient(Reported(Qa, "ctr", sums), sums, UniqueClicks, Delivered, 1000000.0)
    ensures IsQuotient(Reported(Qa, "conversion_rate", sums), sums, UniqueConversions, Delivered, 1000000.0)
    ensures IsQuotient(Reported(Qa, "delivered_rate_star", sums), sums, Delivered, Sent, 1000000.0)
    ensures IsQuotient(Reported(Qa, "click_thou_conv_rate", sums), sums, ClickThroughConversions, Delivered, 1000000.0)
  {
    hide Reported, IsQuotient, IsSum, IsDifference;
    Quotient(0, sums);
    Quotient(1, sums);
    Quotient(3, sums);
    Quotient(5, sums);
  }

  /** And its other rates. */
  lemma {:induction false} QaMoreRates(sums: Sums)
    ensures IsQuotient(Reported(Qa, "view_through_conv_rate", sums), sums, ImpressionThroughConversions, Delivered, 1000000.0)
    ensures IsQuotient(Reported(Qa, "delivered_to_imp_rate", sums), sums, UniqueImpressions, Delivered, 1000000.0)
    ensures IsQuotient(Reported(Qa, "ctr_del_to_click", sums), sums, UniqueClicks, Delivered, 1000000.0)
    ensures IsQuotient(Reported(Qa, "ctr_impr_to_click", sums), sums, UniqueClicks, UniqueImpressions, 1000000.0)
  {
    hide Reported, IsQuotient, IsSum, IsDifference;
    Quotient(8, sums);
    Quotient(13, sums);
    Quotient(14, sums);
    Quotient(15, sums);
  }

  /** Its costs and its ROAS. */
  lemma {:induction false} QaCosts(sums: Sums)
    ensures IsQuotient(Reported(Qa, "roas", sums), sums, RevenueInr, TotalCost, 10000.0)
    ensures IsQuotient(Reported(Qa, "cost_conv", sums), sums, TotalCost, ClickThroughConversions, 10000.0)
    ensures IsQuotient(Reported(Qa, "click_through_cost_conv", sums), sums, TotalCost, ClickThroughConversions, 10000.0)
    ensures IsQuotient(Reported(Qa, "cost_view_through_conv", sums), sums, TotalCost, ImpressionThroughConversions, 10000.0)
  {
    hide Reported, IsQuotient, IsSum, IsDifference;
    Quotient(2, sums);
    Quotient(4, sums);
    Quotient(6, sums);
    Quotient(7, sums);
  }

  /** Its two totals. */
  lemma {:induction false} QaTotals(sums: Sums)
    ensures IsSum(Reported(Qa, "click_plus_view_conv", sums), sums, ImpressionThroughConversions, ClickThroughConversions, 0.0)
    ensures IsSum(Reported(Qa, "click_plus_view_revenue", sums), sums, ImpressionThroughRevenue, ClickThroughRevenue, 10000.0)
  {
    hide Reported, IsQuotient, IsSum, IsDifference;
    Total(9, sums);
    Total(10, sums);
  }

  /** Rates of the client dictionary. */
  lemma {:induction false} ClientRates(sums: Sums)
    ensures IsQuotient(Reported(Client, "delivery_rate", sums), sums, Delivered, Sent, 1000000.0)
    ensures IsQuotient(Reported(Client, "delivered_to_imp_rate", sums), sums, UniqueImpressions, Delivered, 1000000.0)
    ensures IsQuotient(Reported(Client, "ctr_del_to_clicks", sums), sums, UniqueClicks, Delivered, 1000000.0)
    ensures IsQuotient(Reported(Client, "ctr_impr_to_click", sums), sums, UniqueClicks, UniqueImpressions, 1000000.0)
  {
    hide Reported, IsQuotient, IsSum, IsDifference;
    Quotient(16, sums);
    Quotient(17, sums);
    Quotient(18, sums);
    Quotient(19, sums);
  }

  /** And its other rates. */
  lemma {:induction false} ClientMoreRates(sums: Sums)
    ensures IsQuotient(Reported(Client, "delivered_thru_conv_rate", sums), sums, UniqueConversions, Delivered, 1000000.0)
    ensures IsQuotient(Reported(Client, "uct_conversion_rate", sums), sums, ClickThroughConversions, UniqueClicks, 1000000.0)
    ensures IsQuotient(Reported(Client, "failed_rate_sm", sums), sums, Failed, Sent, 1000000.0)
  {
    hide Reported, IsQuotient, IsSum, IsDifference;
    Quotient(22, sums);
    Quotient(24, sums);
    Quotient(28, sums);
  }

  /** Its costs. */
  lemma {:induction false} ClientCosts(sums: Sums)
    ensures IsQuotient(Reported(Client, "click_through_cost_conv", sums), sums, TotalCost, ClickThroughConversions, 10000.0)
    ensures IsQuotient(Reported(Client, "cost_unique_conversion", sums), sums, TotalCost, UniqueConversions, 10000.0)
    ensures IsQuotient(Reported(Client, "cost_uct_conversion", sums), sums, TotalCost, ClickThroughConversions, 10000.0)
  {
    hide Reported, IsQuotient, IsSum, IsDifference;
    Quotient(20, sums);
    Quotient(21, sums);
    Quotient(23, sums);
  }

  /** Its two ROAS. */
  lemma {:induction false} ClientRoas(sums: Sums)
    ensures IsQuotient(Reported(Client, "unique_click_through_conv_roas", sums), sums, ClickThroughRevenue, TotalCost, 10000.0)
    ensures IsQuotient(Reported(Client, "overall_roas", sums), sums, RevenueInr, TotalCost, 10000.0)
  {
    hide Reported, IsQuotient, IsSum, IsDifference;
    Quotient(29, sums);
    Quotient(30, sums);
  }

  /** Its three differences. */
  lemma {:induction false} ClientDifferences(sums: Sums)
    ensures IsDifference(Reported(Client, "uc_to_uctc_conversions", sums), sums, UniqueConversions, ClickThroughConversions, 0.0)
    ensures IsDifference(Reported(Client, "uc_to_uctc_revenue", sums), sums, RevenueInr, ClickThroughRevenue, 10000.0)
    ensures IsDifference(Reported(Client, "actual_sent", sums), sums, Sent, Failed, 0.0)
  {
    hide Reported, IsQuotient, IsSum, IsDifference;
    Difference(25, sums);
    Difference(26, sums);
    Difference(27, sums);
  }

  /** The two that read another KPI: the cost of a click-or-view conversion, and the rate of them, over the
      reported sum of the two kinds of conversions. */
  lemma {:induction false} OnConversions(sums: Sums)
    ensures var (cost, rate, both) := (Reported(Qa, "cost_click_plus_view_conv", sums), Reported(Qa, "all_click_plus_view_conv_rate", sums),
                                       ImpressionThroughConversions in sums && ClickThroughConversions in sums);
            && (if both && TotalCost in sums && sums[ImpressionThroughConversions] + sums[ClickThroughConversions] != 0.0
                then cost.Some? && HalfUpTo(cost.value, sums[TotalCost] / (sums[ImpressionThroughConversions] + sums[ClickThroughConversions]), 10000.0)
                else cost == None)
            && (if both && Delivered in sums && sums[Delivered] != 0.0
                then rate.Some? && HalfUpTo(rate.value, (sums[ImpressionThroughConversions] + sums[ClickThroughConversions]) / sums[Delivered], 1000000.0)
                else rate == None)
  {
    hide Reported, HalfUpTo;
    Total(9, sums);
    OverParent(11, sums);
    OverParent(12, sums);
  }

  lemma {:induction false} OverParent(i: nat, sums: Sums)
    requires i == 11 || i == 12
    ensures var parent := Reported(Qa, "click_plus_view_conv", sums);
            Reports(Reported(Qa, SpecAt(i).slug, sums), SpecAt(i),
                    if i == 11 then Lookup(sums, TotalCost) else parent, if i == 11 then parent else Lookup(sums, Delivered))
  {
    hide Reports, ComputeNamespace, WellFormed, FirstSpecs;
    TableWellFormed();
    SpecsAt(i);
    SpecsAt(9);
    assert KPI_SPECS[i] in KPI_SPECS && KPI_SPECS[9] in KPI_SPECS;
    KpiIsRounded(KPI_SPECS, SpecAt(i), sums);
    ParentIsNine(i);
  }

  lemma {:induction false} ParentIsNine(i: nat)
    requires i == 11 || i == 12
    requires WellFormed(KPI_SPECS) && SpecAt(i) in KPI_SPECS && SpecAt(9) in KPI_SPECS
    ensures ParentOf(KPI_SPECS, SpecAt(i)) == SpecAt(9)
  {
    hide FirstSpecs, SpecOk;
    var p := ParentOf(KPI_SPECS, SpecAt(i));
    var j :| 0 <= j < |KPI_SPECS| && KPI_SPECS[j] == p;
    var k :| 0 <= k < |KPI_SPECS| && KPI_SPECS[k] == SpecAt(9);
    assert p.id == SpecAt(9).id;
  }

  // ---- the additive measures ---------------------------------------------------------------------------

  lemma {:induction false} AdditiveNamesApart(i: nat, j: nat)
    requires i < j < 12
    ensures |ADDITIVE_MODEL| == 12 && ADDITIVE_MODEL[i].0 != ADDITIVE_MODEL[j].0
  {
    assert |ADDITIVE_MODEL[i].0| == |ADDITIVE_MODEL[j].0| ==> ADDITIVE_MODEL[i].0[0] != ADDITIVE_MODEL[j].0[0];
  }

  lemma {:induction false} ResolvesFirst(model: Model, i: nat)
    requires i < |model| && forall j | 0 <= j < i :: model[j].0 != model[i].0
    ensures Resolve(model, model[i].0) == Some(model[i].1)
  {
    if i > 0 {
      ResolvesFirst(model[1..], i - 1);
    }
  }

  /** The i-th measure of the dictionary's additive part reads the sum it is defined by. */
  lemma {:induction false} AdditiveReads(i: nat, facts: seq<Fact>, depth: nat)
    requires i < 12 && depth > 0
    ensures Render(KPI_SPECS).Ok? && |ADDITIVE_MODEL| == 12
    ensures Eval(Render(KPI_SPECS).value, depth, facts, map[], MeasureRef(ADDITIVE_MODEL[i].0)) == Eval(Render(KPI_SPECS).value, depth - 1, facts, map[], ADDITIVE_MODEL[i].1)
  {
    hide FirstSpecs, ADDITIVE_MODEL, CompileAll, Summary, SpecAt;
    ShippedBackendsAgree(0, facts, SpecAt(0).solveOrder + 1);
    var model := Render(KPI_SPECS).value;
    AdditiveNamesApart(0, 1);
    forall j | 0 <= j < i
      ensures model[j].0 != model[i].0
    {
      AdditiveNamesApart(j, i);
    }
    ResolvesFirst(model, i);
  }

  /** Each additive measure of the dictionary is the sum of its column. */
  lemma {:induction false} AdditiveMeasures(facts: seq<Fact>, depth: nat)
    requires depth > 0
    ensures Render(KPI_SPECS).Ok?
    ensures var (model, sums) := (Render(KPI_SPECS).value, Summary(facts).sums);
            && Eval(model, depth, facts, map[], MeasureRef("Sent")) == Lookup(sums, Sent)
            && Eval(model, depth, facts, map[], MeasureRef("Failed")) == Lookup(sums, Failed)
            && Eval(model, depth, facts, map[], MeasureRef("Delivered")) == Lookup(sums, Delivered)
            && Eval(model, depth, facts, map[], MeasureRef("Impressions")) == Lookup(sums, UniqueImpressions)
            && Eval(model, depth, facts, map[], MeasureRef("Clicks")) == Lookup(sums, UniqueClicks)
            && Eval(model, depth, facts, map[], MeasureRef("Conversions")) == Lookup(sums, UniqueConversions)
            && Eval(model, depth, facts, map[], MeasureRef("Impression-Through Conversions")) == Lookup(sums, ImpressionThroughConversions)
            && Eval(model, depth, facts, map[], MeasureRef("Click-Through Conversions")) == Lookup(sums, ClickThroughConversions)
            && Eval(model, depth, facts, map[], MeasureRef("Revenue")) == Lookup(sums, RevenueInr)
            && Eval(model, depth, facts, map[], MeasureRef("Impression-Through Revenue")) == Lookup(sums, ImpressionThroughRevenue)
            && Eval(model, depth, facts, map[], MeasureRef("Click-Through Revenue")) == Lookup(sums, ClickThroughRevenue)
            && Eval(model, depth, facts, map[], MeasureRef("Total Cost")) == Lookup(sums, TotalCost)
  {
    hide Render, Summary;
    AdditiveReads(0, facts, depth);
    AdditiveReads(1, facts, depth);
    AdditiveReads(2, facts, depth);
    AdditiveReads(3, facts, depth);
    AdditiveReads(4, facts, depth);
    AdditiveReads(5, facts, depth);
    AdditiveReads(6, facts, depth);
    AdditiveReads(7, facts, depth);
    AdditiveReads(8, facts, depth);
    AdditiveReads(9, facts, depth);
    AdditiveReads(10, facts, depth);
    AdditiveReads(11, facts, depth);
  }
}
