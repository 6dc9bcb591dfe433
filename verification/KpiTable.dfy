/** kpis.py `KPI_SPECS`: the table that ships, checked against what the two backends need of it.
    Ids are given by the last three digits of their UUIDs, which are otherwise equal. */
module KpiTable {
  import opened Prelude
  import opened Facts
  import opened Text
  import opened Kpis
  import opened Dax

  const SIZE: nat := 31

  function SpecAt(i: nat): KpiSpec
    requires i < SIZE
  {
    match i
    case 0 => KpiSpec(Str(201), Qa, "CTR", "ctr",
      Some(Additive(UniqueClicks)), Some(Additive(Delivered)), Divide, 1, None, Rate)
    case 1 => KpiSpec(Str(202), Qa, "Conversion Rate", "conversion_rate",
      Some(Additive(UniqueConversions)), Some(Additive(Delivered)), Divide, 2, None, Rate)
    case 2 => KpiSpec(Str(203), Qa, "ROAS", "roas",
      Some(Additive(RevenueInr)), Some(Additive(TotalCost)), Divide, 3, None, Money)
    case 3 => KpiSpec(Str(204), Qa, "Delivered Rate*", "delivered_rate_star",
      Some(Additive(Delivered)), Some(Additive(Sent)), Divide, 4, None, Rate)
    case 4 => KpiSpec(Str(205), Qa, "Cost/Conv", "cost_conv",
      Some(Additive(TotalCost)), Some(Additive(ClickThroughConversions)), Divide, 5, None, Money)
    case 5 => KpiSpec(Str(206), Qa, "Click thou Conv Rate", "click_thou_conv_rate",
      Some(Additive(ClickThroughConversions)), Some(Additive(Delivered)), Divide, 6, None, Rate)
    case 6 => KpiSpec(Str(207), Qa, "Click Through Cost/Conv", "click_through_cost_conv",
      Some(Additive(TotalCost)), Some(Additive(ClickThroughConversions)), Divide, 7, None, Money)
    case 7 => KpiSpec(Str(208), Qa, "Cost/ View through Conv ", "cost_view_through_conv",
      Some(Additive(TotalCost)), Some(Additive(ImpressionThroughConversions)), Divide, 8, None, Money)
    case 8 => KpiSpec(Str(209), Qa, "View through Conv Rate", "view_through_conv_rate",
      Some(Additive(ImpressionThroughConversions)), Some(Additive(Delivered)), Divide, 9, None, Rate)
    case 9 => KpiSpec(Str(210), Qa, "Click + View Conv ", "click_plus_view_conv",
      Some(Additive(ImpressionThroughConversions)), Some(Additive(ClickThroughConversions)), Add, 10, None, Count)
    case 10 => KpiSpec(Str(211), Qa, "Click + View Revenue", "click_plus_view_revenue",
      Some(Additive(ImpressionThroughRevenue)), Some(Additive(ClickThroughRevenue)), Add, 11, None, Money)
    case 11 => KpiSpec(Str(212), Qa, "Cost/ Click + View Conv ", "cost_click_plus_view_conv",
      Some(Additive(TotalCost)), None, Divide, 12, Some(Str(210)), Money)
    case 12 => KpiSpec(Str(213), Qa, "All Click + View Conv Rate", "all_click_plus_view_conv_rate",
      None, Some(Additive(Delivered)), Divide, 13, Some(Str(210)), Rate)
    case 13 => KpiSpec(Str(214), Qa, "Delivered to Imp. Rate", "delivered_to_imp_rate",
      Some(Additive(UniqueImpressions)), Some(Additive(Delivered)), Divide, 14, None, Rate)
    case 14 => KpiSpec(Str(215), Qa, "CTR ( Del to Click )", "ctr_del_to_click",
      Some(Additive(UniqueClicks)), Some(Additive(Delivered)), Divide, 15, None, Rate)
    case 15 => KpiSpec(Str(216), Qa, "CTR ( Impr. to Click )", "ctr_impr_to_click",
      Some(Additive(UniqueClicks)), Some(Additive(UniqueImpressions)), Divide, 16, None, Rate)
    case 16 => KpiSpec(Str(301), Client, "Delivery Rate", "delivery_rate",
      Some(Additive(Delivered)), Some(Additive(Sent)), Divide, 1, None, Rate)
    case 17 => KpiSpec(Str(302), Client, "Delivered to Imp. rate", "delivered_to_imp_rate",
      Some(Additive(UniqueImpressions)), Some(Additive(Delivered)), Divide, 2, None, Rate)
    case 18 => KpiSpec(Str(303), Client, "CTR (Del to Clicks)", "ctr_del_to_clicks",
      Some(Additive(UniqueClicks)), Some(Additive(Delivered)), Divide, 3, None, Rate)
    case 19 => KpiSpec(Str(304), Client, "CTR ( Impr. to Click )", "ctr_impr_to_click",
      Some(Additive(UniqueClicks)), Some(Additive(UniqueImpressions)), Divide, 4, None, Rate)
    case 20 => KpiSpec(Str(305), Client, "Click Through Cost/Conv", "click_through_cost_conv",
      Some(Additive(TotalCost)), Some(Additive(ClickThroughConversions)), Divide, 5, None, Money)
    case 21 => KpiSpec(Str(306), Client, "Cost/Unique Conversion", "cost_unique_conversion",
      Some(Additive(TotalCost)), Some(Additive(UniqueConversions)), Divide, 6, None, Money)
    case 22 => KpiSpec(Str(307), Client, "Delivered Thru Conv. rate", "delivered_thru_conv_rate",
      Some(Additive(UniqueConversions)), Some(Additive(Delivered)), Divide, 7, None, Rate)
    case 23 => KpiSpec(Str(308), Client, "Cost/ UCT conversion", "cost_uct_conversion",
      Some(Additive(TotalCost)), Some(Additive(ClickThroughConversions)), Divide, 8, None, Money)
    case 24 => KpiSpec(Str(309), Client, "UCT conversion rate", "uct_conversion_rate",
      Some(Additive(ClickThroughConversions)), Some(Additive(UniqueClicks)), Divide, 9, None, Rate)
    case 25 => KpiSpec(Str(310), Client, "UC to UCTC Conversions", "uc_to_uctc_conversions",
      Some(Additive(UniqueConversions)), Some(Additive(ClickThroughConversions)), Subtract, 10, None, Count)
    case 26 => KpiSpec(Str(311), Client, "UC to UCTC Revenue", "uc_to_uctc_revenue",
      Some(Additive(RevenueInr)), Some(Additive(ClickThroughRevenue)), Subtract, 11, None, Money)
    case 27 => KpiSpec(Str(312), Client, "Actual Sent", "actual_sent",
      Some(Additive(Sent)), Some(Additive(Failed)), Subtract, 12, None, Count)
    case 28 => KpiSpec(Str(313), Client, "Failed Rate SM", "failed_rate_sm",
      Some(Additive(Failed)), Some(Additive(Sent)), Divide, 13, None, Rate)
    case 29 => KpiSpec(Str(314), Client, "Unique Click Through Conv ROAS", "unique_click_through_conv_roas",
      Some(Additive(ClickThroughRevenue)), Some(Additive(TotalCost)), Divide, 14, None, Money)
    case _ => KpiSpec(Str(315), Client, "Overall ROAS", "overall_roas",
      Some(Additive(RevenueInr)), Some(Additive(TotalCost)), Divide, 15, None, Money)
  }

  function FirstSpecs(n: nat): (specs: seq<KpiSpec>)
    requires n <= SIZE
    ensures |specs| == n && forall i | 0 <= i < n :: specs[i] == SpecAt(i)
  {
    if n == 0 then [] else FirstSpecs(n - 1) + [SpecAt(n - 1)]
  }

  const KPI_SPECS: seq<KpiSpec> := FirstSpecs(SIZE)

  lemma {:induction false} SpecsAt(i: nat)
    requires i < SIZE
    ensures KPI_SPECS[i] == SpecAt(i)
  {
  }

  /** Where a specification is, from its position. */
  lemma {:induction false} PositionOf(s: KpiSpec) returns (i: nat)
    requires s in KPI_SPECS
    ensures i < SIZE && SpecAt(i) == s && KPI_SPECS[i] == s
  {
    var k :| 0 <= k < |KPI_SPECS| && KPI_SPECS[k] == s;
    i := k;
  }

  // ---- finding a string's position -----------------------------------------------------------------

  function QaPosition(s: string): int {
    match |s|
    case 3 => 0
    case 4 => 2
    case 9 => 4
    case 15 => 1
    case 16 => 14
    case 17 => 15
    case 19 => 3
    case 20 => if s[6] == 't' then 5 else 9
    case 21 => 13
    case 22 => if s[0] == 'c' then 7 else 8
    case 23 => if s[6] == 't' then 6 else 10
    case 25 => 11
    case 29 => 12
    case _ => -1
  }

  function ClientPosition(s: string): int {
    match |s|
    case 11 => 27
    case 12 => 30
    case 13 => 16
    case 14 => 28
    case 17 => if s[4] == 'd' then 18 else 19
    case 18 => 26
    case 19 => if s[0] == 'c' then 23 else 24
    case 21 => 17
    case 22 => if s[0] == 'c' then 21 else 25
    case 23 => 20
    case 24 => 22
    case 30 => 29
    case _ => -1
  }

  function TitlePosition(s: string): int {
    match |s|
    case 3 => 0
    case 4 => 2
    case 9 => 4
    case 11 => 27
    case 12 => 30
    case 13 => 16
    case 14 => 28
    case 15 => if s[0] == 'C' then 1 else 3
    case 17 => 9
    case 18 => 26
    case 19 => if s[0] == 'C' then 18 else 24
    case 20 => if s[6] == 't' then 5 else if s[6] == '+' then 10 else if s[6] == 'D' then 14 else 23
    case 22 => if s[1] == 'i' then 8 else if s[1] == 'e' then (if s[18] == 'R' then 13 else 17) else if s[1] == 'T' then 15 else if s[1] == 'o' then 21 else 25
    case 23 => if s[6] == 'T' then 6 else if s[6] == 'V' then 7 else 11
    case 25 => 22
    case 26 => 12
    case 30 => 29
    case _ => -1
  }

  /** The display name without its trailing space, if it has one. */
  function Title(i: nat): string
    requires i < SIZE
  {
    match i
    case 0 => "CTR"
    case 1 => "Conversion Rate"
    case 2 => "ROAS"
    case 3 => "Delivered Rate*"
    case 4 => "Cost/Conv"
    case 5 => "Click thou Conv Rate"
    case 6 => "Click Through Cost/Conv"
    case 7 => "Cost/ View through Conv"
    case 8 => "View through Conv Rate"
    case 9 => "Click + View Conv"
    case 10 => "Click + View Revenue"
    case 11 => "Cost/ Click + View Conv"
    case 12 => "All Click + View Conv Rate"
    case 13 => "Delivered to Imp. Rate"
    case 14 => "CTR ( Del to Click )"
    case 15 => "CTR ( Impr. to Click )"
    case 16 => "Delivery Rate"
    case 17 => "Delivered to Imp. rate"
    case 18 => "CTR (Del to Clicks)"
    case 19 => "CTR ( Impr. to Click )"
    case 20 => "Click Through Cost/Conv"
    case 21 => "Cost/Unique Conversion"
    case 22 => "Delivered Thru Conv. rate"
    case 23 => "Cost/ UCT conversion"
    case 24 => "UCT conversion rate"
    case 25 => "UC to UCTC Conversions"
    case 26 => "UC to UCTC Revenue"
    case 27 => "Actual Sent"
    case 28 => "Failed Rate SM"
    case 29 => "Unique Click Through Conv ROAS"
    case _ => "Overall ROAS"
  }

  predicate Trailing(i: nat) {
    i == 7 || i == 9 || i == 11
  }

  /** The two display names that both namespaces use. */
  predicate Shared(i: nat) {
    i == 6 || i == 15 || i == 19 || i == 20
  }

  /** The earlier of two specifications with one display name. */
  function Canonical(i: nat): nat {
    if i == 19 then 15 else if i == 20 then 6 else i
  }

  lemma {:induction false} QaFound0(i: nat)
    requires 0 <= i < 8
    ensures QaPosition(SpecAt(i).slug) == i && SpecAt(i).namespace.Qa?
  {
  }

  lemma {:induction false} QaFound1(i: nat)
    requires 8 <= i < 12
    ensures QaPosition(SpecAt(i).slug) == i && SpecAt(i).namespace.Qa?
  {
  }

  lemma {:induction false} QaFound2(i: nat)
    requires 12 <= i < 16
    ensures QaPosition(SpecAt(i).slug) == i && SpecAt(i).namespace.Qa?
  {
  }

  lemma {:induction false} QaFound(i: nat)
    requires 0 <= i < 16
    ensures QaPosition(SpecAt(i).slug) == i && SpecAt(i).namespace.Qa?
  {
    hide *;
    if i < 8 { QaFound0(i); } else if i < 12 { QaFound1(i); } else { QaFound2(i); }
  }

  lemma {:induction false} ClientFound0(i: nat)
    requires 16 <= i < 21
    ensures ClientPosition(SpecAt(i).slug) == i && SpecAt(i).namespace.Client?
  {
  }

  lemma {:induction false} ClientFound1(i: nat)
    requires 21 <= i < 26
    ensures ClientPosition(SpecAt(i).slug) == i && SpecAt(i).namespace.Client?
  {
  }

  lemma {:induction false} ClientFound2(i: nat)
    requires 26 <= i < 31
    ensures ClientPosition(SpecAt(i).slug) == i && SpecAt(i).namespace.Client?
  {
  }

  lemma {:induction false} ClientFound(i: nat)
    requires 16 <= i < 31
    ensures ClientPosition(SpecAt(i).slug) == i && SpecAt(i).namespace.Client?
  {
    hide *;
    if i < 21 { ClientFound0(i); } else if i < 26 { ClientFound1(i); } else { ClientFound2(i); }
  }

  lemma {:induction false} TitleFound0(i: nat)
    requires 0 <= i < 8
    ensures TitlePosition(Title(i)) == Canonical(i)
  {
  }

  lemma {:induction false} TitleFound1(i: nat)
    requires 8 <= i < 16
    ensures TitlePosition(Title(i)) == Canonical(i)
  {
  }

  lemma {:induction false} TitleFound2(i: nat)
    requires 16 <= i < 24
    ensures TitlePosition(Title(i)) == Canonical(i)
  {
  }

  lemma {:induction false} TitleFound3(i: nat)
    requires 24 <= i < 31
    ensures TitlePosition(Title(i)) == Canonical(i)
  {
  }

  lemma {:induction false} TitleFound(i: nat)
    requires 0 <= i < 31
    ensures TitlePosition(Title(i)) == Canonical(i)
  {
    hide *;
    if i < 8 { TitleFound0(i); } else if i < 16 { TitleFound1(i); } else if i < 24 { TitleFound2(i); } else { TitleFound3(i); }
  }

  lemma {:induction false} TitleClean0(i: nat)
    requires 0 <= i < 8
    ensures Title(i) != "" && !IsSpace(Title(i)[0]) && !IsSpace(Title(i)[|Title(i)| - 1])
  {
  }

  lemma {:induction false} TitleClean1(i: nat)
    requires 8 <= i < 16
    ensures Title(i) != "" && !IsSpace(Title(i)[0]) && !IsSpace(Title(i)[|Title(i)| - 1])
  {
  }

  lemma {:induction false} TitleClean2(i: nat)
    requires 16 <= i < 24
    ensures Title(i) != "" && !IsSpace(Title(i)[0]) && !IsSpace(Title(i)[|Title(i)| - 1])
  {
  }

  lemma {:induction false} TitleClean3(i: nat)
    requires 24 <= i < 31
    ensures Title(i) != "" && !IsSpace(Title(i)[0]) && !IsSpace(Title(i)[|Title(i)| - 1])
  {
  }

  lemma {:induction false} TitleClean(i: nat)
    requires 0 <= i < 31
    ensures Title(i) != "" && !IsSpace(Title(i)[0]) && !IsSpace(Title(i)[|Title(i)| - 1])
  {
    hide *;
    if i < 8 { TitleClean0(i); } else if i < 16 { TitleClean1(i); } else if i < 24 { TitleClean2(i); } else { TitleClean3(i); }
  }

  lemma {:induction false} Displayed0(i: nat)
    requires 0 <= i < 8
    ensures SpecAt(i).displayName == if Trailing(i) then Title(i) + " " else Title(i)
  {
  }

  lemma {:induction false} Displayed1(i: nat)
    requires 8 <= i < 16
    ensures SpecAt(i).displayName == if Trailing(i) then Title(i) + " " else Title(i)
  {
  }

  lemma {:induction false} Displayed2(i: nat)
    requires 16 <= i < 24
    ensures SpecAt(i).displayName == if Trailing(i) then Title(i) + " " else Title(i)
  {
  }

  lemma {:induction false} Displayed3(i: nat)
    requires 24 <= i < 31
    ensures SpecAt(i).displayName == if Trailing(i) then Title(i) + " " else Title(i)
  {
  }

  lemma {:induction false} Displayed(i: nat)
    requires 0 <= i < 31
    ensures SpecAt(i).displayName == if Trailing(i) then Title(i) + " " else Title(i)
  {
    hide *;
    if i < 8 { Displayed0(i); } else if i < 16 { Displayed1(i); } else if i < 24 { Displayed2(i); } else { Displayed3(i); }
  }

  function NamePosition(s: string): int {
    match |s|
    case 3 => 0
    case 4 => if s[0] == 'R' then 2 else 31
    case 6 => if s[0] == 'F' then 32 else 35
    case 7 => 39
    case 9 => if s[0] == 'C' then 4 else 33
    case 10 => 42
    case 11 => if s[0] == 'A' then 27 else if s[0] == 'I' then 34 else 36
    case 12 => 30
    case 13 => 16
    case 14 => 28
    case 15 => if s[0] == 'C' then 1 else 3
    case 17 => 9
    case 18 => 26
    case 19 => if s[0] == 'C' then 18 else 24
    case 20 => if s[6] == 't' then 5 else if s[6] == '+' then 10 else if s[6] == 'D' then 14 else 23
    case 21 => 41
    case 22 => if s[0] == 'V' then 8 else if s[0] == 'D' then (if s[18] == 'R' then 13 else 17) else if s[0] == 'C' then 21 else 25
    case 23 => if s[6] == 'V' then 7 else 11
    case 25 => if s[0] == 'Q' then 15 else if s[0] == 'D' then 22 else 38
    case 26 => if s[0] == 'Q' then 6 else if s[0] == 'A' then 12 else 40
    case 29 => 19
    case 30 => if s[0] == 'C' then 20 else if s[0] == 'U' then 29 else 37
    case _ => -1
  }

  /** The measure names: display names, told apart by a prefix where the namespaces share one. */
  function ExpectedName(i: nat): string
    requires i < SIZE
  {
    if i == 6 then "QA Click Through Cost/Conv"
    else if i == 15 then "QA CTR ( Impr. to Click )"
    else if i == 19 then "Client CTR ( Impr. to Click )"
    else if i == 20 then "Client Click Through Cost/Conv"
    else Title(i)
  }

  lemma {:induction false} NameFound0(i: nat)
    requires 0 <= i < 8
    ensures NamePosition(ExpectedName(i)) == i
  {
  }

  lemma {:induction false} NameFound1(i: nat)
    requires 8 <= i < 16
    ensures NamePosition(ExpectedName(i)) == i
  {
  }

  lemma {:induction false} NameFound2(i: nat)
    requires 16 <= i < 24
    ensures NamePosition(ExpectedName(i)) == i
  {
  }

  lemma {:induction false} NameFound3(i: nat)
    requires 24 <= i < 31
    ensures NamePosition(ExpectedName(i)) == i
  {
  }

  lemma {:induction false} NameFound(i: nat)
    requires 0 <= i < 31
    ensures NamePosition(ExpectedName(i)) == i
  {
    hide *;
    if i < 8 { NameFound0(i); } else if i < 16 { NameFound1(i); } else if i < 24 { NameFound2(i); } else { NameFound3(i); }
  }

  function IdNumber(i: nat): nat {
    if i < 16 then 201 + i else 285 + i
  }

  function DependsAt(i: nat): Option<string> {
    if i == 11 || i == 12 then Some(Str(210)) else None
  }

  lemma {:induction false} Shape0(i: nat)
    requires 0 <= i < 8
    ensures SpecAt(i).id == Str(IdNumber(i))
            && SpecAt(i).dependsOn == DependsAt(i)
            && ReadsAdditive(SpecAt(i).numerator) && ReadsAdditive(SpecAt(i).denominator)
            && (!(i == 11 || i == 12) ==> SpecAt(i).numerator.Some? && SpecAt(i).denominator.Some?)
            && (i == 11 || i == 12 ==> SpecAt(i).namespace.Qa? && SpecAt(i).solveOrder > 10 && SpecAt(i).operation.Divide?)
  {
  }

  lemma {:induction false} Shape1(i: nat)
    requires 8 <= i < 16
    ensures SpecAt(i).id == Str(IdNumber(i))
            && SpecAt(i).dependsOn == DependsAt(i)
            && ReadsAdditive(SpecAt(i).numerator) && ReadsAdditive(SpecAt(i).denominator)
            && (!(i == 11 || i == 12) ==> SpecAt(i).numerator.Some? && SpecAt(i).denominator.Some?)
            && (i == 11 || i == 12 ==> SpecAt(i).namespace.Qa? && SpecAt(i).solveOrder > 10 && SpecAt(i).operation.Divide?)
  {
  }

  lemma {:induction false} Shape2(i: nat)
    requires 16 <= i < 24
    ensures SpecAt(i).id == Str(IdNumber(i))
            && SpecAt(i).dependsOn == DependsAt(i)
            && ReadsAdditive(SpecAt(i).numerator) && ReadsAdditive(SpecAt(i).denominator)
            && (!(i == 11 || i == 12) ==> SpecAt(i).numerator.Some? && SpecAt(i).denominator.Some?)
            && (i == 11 || i == 12 ==> SpecAt(i).namespace.Qa? && SpecAt(i).solveOrder > 10 && SpecAt(i).operation.Divide?)
  {
  }

  lemma {:induction false} Shape3(i: nat)
    requires 24 <= i < 31
    ensures SpecAt(i).id == Str(IdNumber(i))
            && SpecAt(i).dependsOn == DependsAt(i)
            && ReadsAdditive(SpecAt(i).numerator) && ReadsAdditive(SpecAt(i).denominator)
            && (!(i == 11 || i == 12) ==> SpecAt(i).numerator.Some? && SpecAt(i).denominator.Some?)
            && (i == 11 || i == 12 ==> SpecAt(i).namespace.Qa? && SpecAt(i).solveOrder > 10 && SpecAt(i).operation.Divide?)
  {
  }

  lemma {:induction false} Shape(i: nat)
    requires 0 <= i < 31
    ensures SpecAt(i).id == Str(IdNumber(i))
            && SpecAt(i).dependsOn == DependsAt(i)
            && ReadsAdditive(SpecAt(i).numerator) && ReadsAdditive(SpecAt(i).denominator)
            && (!(i == 11 || i == 12) ==> SpecAt(i).numerator.Some? && SpecAt(i).denominator.Some?)
            && (i == 11 || i == 12 ==> SpecAt(i).namespace.Qa? && SpecAt(i).solveOrder > 10 && SpecAt(i).operation.Divide?)
  {
    hide *;
    if i < 8 { Shape0(i); } else if i < 16 { Shape1(i); } else if i < 24 { Shape2(i); } else { Shape3(i); }
  }

  // ---- the table is well formed ----------------------------------------------------------------------

  /** The shipped table meets every condition of the agreement theorem: unique ids and slugs, no
      native rate, and dependent KPIs only on the unrounded "Click + View Conv". */
  lemma {:induction false} TableWellFormed()
    ensures WellFormed(KPI_SPECS)
  {
    hide SpecAt, QaPosition, ClientPosition, Str;
    forall i, j | 0 <= i < j < |KPI_SPECS|
      ensures KPI_SPECS[i].id != KPI_SPECS[j].id
      ensures KPI_SPECS[i].namespace == KPI_SPECS[j].namespace ==> KPI_SPECS[i].slug != KPI_SPECS[j].slug
    {
      Shape(i);
      Shape(j);
      if KPI_SPECS[i].id == KPI_SPECS[j].id {
        StrInjective(IdNumber(i), IdNumber(j));
      }
      SlugFound(i);
      SlugFound(j);
    }
    forall s | s in KPI_SPECS
      ensures SpecOk(KPI_SPECS, s)
    {
      var i := PositionOf(s);
      Shape(i);
      if i == 11 || i == 12 {
        Parent(i);
      }
    }
  }

  function SlugPosition(s: KpiSpec): int {
    if s.namespace.Qa? then QaPosition(s.slug) else ClientPosition(s.slug)
  }

  lemma {:induction false} SlugFound(i: nat)
    requires i < SIZE
    ensures SlugPosition(SpecAt(i)) == i
  {
    hide SpecAt, QaPosition, ClientPosition;
    if i < 16 {
      QaFound(i);
    } else {
      ClientFound(i);
    }
  }

  lemma {:induction false} Parent(i: nat)
    requires i == 11 || i == 12
    ensures SpecAt(9) in KPI_SPECS && IsParent(SpecAt(9), SpecAt(i))
  {
    Shape(i);
    Shape(9);
    assert KPI_SPECS[9] == SpecAt(9);
    assert SpecAt(9).solveOrder == 10 && Unrounded(SpecAt(9)) && SpecAt(9).namespace.Qa?;
  }

  // ---- and its measure names are distinct --------------------------------------------------------------

  lemma {:induction false} CountNone(table: seq<KpiSpec>, name: string)
    requires forall i | 0 <= i < |table| :: table[i].displayName != name
    ensures SameDisplayName(table, name) == 0
  {
    if table != [] {
      CountNone(table[1..], name);
    }
  }

  lemma {:induction false} CountOne(table: seq<KpiSpec>, name: string, k: nat)
    requires k < |table| && forall i | 0 <= i < |table| :: table[i].displayName == name <==> i == k
    ensures SameDisplayName(table, name) == 1
  {
    if k == 0 {
      CountNone(table[1..], name);
    } else {
      CountOne(table[1..], name, k - 1);
    }
  }

  lemma {:induction false} CountSome(table: seq<KpiSpec>, name: string, k: nat)
    requires k < |table| && table[k].displayName == name
    ensures SameDisplayName(table, name) >= 1
  {
    if k > 0 {
      CountSome(table[1..], name, k - 1);
    }
  }

  lemma {:induction false} CountTwo(table: seq<KpiSpec>, name: string, j: nat, k: nat)
    requires j < k < |table| && table[j].displayName == name && table[k].displayName == name
    ensures SameDisplayName(table, name) >= 2
  {
    if j == 0 {
      CountSome(table[1..], name, k - 1);
    } else {
      CountTwo(table[1..], name, j - 1, k - 1);
    }
  }

  lemma {:induction false} StripTitle(t: string)
    requires t != "" && !IsSpace(t[0]) && !IsSpace(t[|t| - 1])
    ensures StripLeft(StripRight(t)) == t && StripLeft(StripRight(t + " ")) == t
  {
    assert (t + " ")[..|t|] == t;
    assert StripRight(t) == t;
    assert StripRight(t + " ") == StripRight((t + " ")[..|t|]);
  }

  /** Two specifications share a display name exactly when they are one of the two shared pairs. */
  lemma {:induction false} SameTitle(i: nat, j: nat)
    requires i < SIZE && j < SIZE && SpecAt(i).displayName == SpecAt(j).displayName
    ensures Canonical(i) == Canonical(j)
  {
    hide SpecAt, Title, TitlePosition, IsSpace, Trailing, Canonical;
    Displayed(i);
    Displayed(j);
    TitleFound(i);
    TitleFound(j);
    TitleClean(i);
    TitleClean(j);
    StripTitle(Title(i));
    StripTitle(Title(j));
  }

  lemma {:induction false} NameIsExpected(i: nat)
    requires i < SIZE
    ensures MeasureName(KPI_SPECS, SpecAt(i)) == ExpectedName(i)
  {
    hide SpecAt, Title, IsSpace, StripLeft, StripRight, SameDisplayName, ExpectedName;
    var name := SpecAt(i).displayName;
    Displayed(i);
    TitleClean(i);
    StripTitle(Title(i));
    if Shared(i) {
      SharedTwice(i);
      SharedNames(i);
    } else {
      forall j | 0 <= j < |KPI_SPECS|
        ensures KPI_SPECS[j].displayName == name <==> j == i
      {
        if KPI_SPECS[j].displayName == name {
          SameTitle(i, j);
        }
      }
      CountOne(KPI_SPECS, name, i);
      assert ExpectedName(i) == Title(i) by {
        UnsharedName(i);
      }
    }
  }

  lemma {:induction false} UnsharedName(i: nat)
    requires i < SIZE && !Shared(i)
    ensures ExpectedName(i) == Title(i)
  {
    hide Title;
  }

  lemma {:induction false} SharedTwice(i: nat)
    requires i < SIZE && Shared(i)
    ensures SameDisplayName(KPI_SPECS, SpecAt(i).displayName) >= 2
  {
    hide SameDisplayName, FirstSpecs;
    var j, k := if i == 6 || i == 20 then 6 else 15, if i == 6 || i == 20 then 20 else 19;
    assert KPI_SPECS[j] == SpecAt(j) && KPI_SPECS[k] == SpecAt(k);
    assert SpecAt(j).displayName == SpecAt(i).displayName == SpecAt(k).displayName;
    CountTwo(KPI_SPECS, SpecAt(i).displayName, j, k);
  }

  lemma {:induction false} SharedNames(i: nat)
    requires i < SIZE && Shared(i)
    ensures ExpectedName(i) == (if SpecAt(i).namespace.Qa? then "QA " else "Client ") + Title(i)
  {
    hide SpecAt, Title;
    if i < 16 {
      QaFound(i);
    } else {
      ClientFound(i);
    }
    SharedTitles();
    SharedPrefixes();
    MoreSharedPrefixes();
  }

  lemma {:induction false} SharedTitles()
    ensures Title(6) == Title(20) == "Click Through Cost/Conv"
    ensures Title(15) == Title(19) == "CTR ( Impr. to Click )"
  {
  }

  lemma {:induction false} SharedPrefixes()
    ensures "QA " + "Click Through Cost/Conv" == "QA Click Through Cost/Conv"
    ensures "Client " + "Click Through Cost/Conv" == "Client Click Through Cost/Conv"
  {
  }

  lemma {:induction false} MoreSharedPrefixes()
    ensures "QA " + "CTR ( Impr. to Click )" == "QA CTR ( Impr. to Click )"
    ensures "Client " + "CTR ( Impr. to Click )" == "Client CTR ( Impr. to Click )"
  {
  }

  /** No two measures of the shipped model have the same name, letter for letter. */
  lemma {:induction false} TableNamesDistinct()
    ensures NamesDistinct(KPI_SPECS)
  {
    hide SpecAt, MeasureName, ExpectedName, NamePosition, ADDITIVE_MODEL;
    forall i, j | 0 <= i < j < |KPI_SPECS|
      ensures MeasureName(KPI_SPECS, KPI_SPECS[i]) != MeasureName(KPI_SPECS, KPI_SPECS[j])
    {
      NameIsExpected(i);
      NameIsExpected(j);
      NameFound(i);
      NameFound(j);
    }
    forall s, a | s in KPI_SPECS && a in ADDITIVE_MODEL
      ensures a.0 != MeasureName(KPI_SPECS, s)
    {
      var i := PositionOf(s);
      NameIsExpected(i);
      NameFound(i);
      AdditiveFound(a);
    }
  }

  lemma {:induction false} AdditiveFound(a: (string, Expr))
    requires a in ADDITIVE_MODEL
    ensures NamePosition(a.0) >= SIZE
  {
  }

  /** The shipped table: whatever the facts, every KPI reads the same from the pasted DAX measures as
      from `compute_kpis`. */
  lemma {:induction false} ShippedBackendsAgree(i: nat, facts: seq<Fact>, depth: nat)
    requires i < SIZE && depth > SpecAt(i).solveOrder
    ensures Render(KPI_SPECS).Ok? && ComputeNamespace(KPI_SPECS, SpecAt(i).namespace, Summary(facts).sums).Ok?
    ensures var computed := ComputeNamespace(KPI_SPECS, SpecAt(i).namespace, Summary(facts).sums).value;
            && SpecAt(i).slug in computed
            && Rounded(SpecAt(i), Eval(Render(KPI_SPECS).value, depth, facts, map[], MeasureRef(MeasureName(KPI_SPECS, SpecAt(i)))))
               == computed[SpecAt(i).slug]
  {
    hide SpecAt, Render, ComputeNamespace, MeasureName, Rounded, Eval, Summary, WellFormed, NamesDistinct;
    TableWellFormed();
    TableNamesDistinct();
    SpecsAt(i);
    BackendsAgree(KPI_SPECS, SpecAt(i), facts, depth);
  }
}
