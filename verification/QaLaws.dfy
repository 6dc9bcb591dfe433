/** qa.py: when each finding is made, said of the fact or the run alone. */
module QaLaws {
  import opened Prelude
  import opened Facts
  import opened Text
  import opened Calendar
  import opened Kpis
  import opened KpiTable
  import opened Qa
  import opened QaKeys
  import Metrics

  /** What a fact is known by: campaign, variation and ISO day, with bars between. */
  function Entity(f: QaFact): string {
    f.campaign + "|" + f.variation + "|" + if f.day.None? then "" else IsoFormat(f.day.value)
  }

  lemma {:induction false} TextIsEntity(f: QaFact)
    ensures FactText(f) == Entity(f)
  {
  }

  /** The findings of one fact. */
  function FaultsOf(ctx: QaContext, matches: string -> bool, f: QaFact): seq<Finding> {
    FindingsOf(ctx, matches, f, FactTags())
  }

  lemma {:induction false} ListedTags(t: Tag)
    requires t in FactTags()
    ensures |t.fields| == Arity(t.rule)
  {
    hide FactTags;
    FactTagsDistinct();
  }

  /** Each check shows under its own key, and under no other check's. */
  lemma {:induction false} FaultIsChecked(ctx: QaContext, matches: string -> bool, f: QaFact, t: Tag)
    requires t in FactTags()
    ensures Finding(ctx.run, t.rule, TagKey(FactText(f), t)) in FaultsOf(ctx, matches, f) <==> Triggered(ctx, matches, f, t)
  {
    hide FactTags, Triggered, TagKey, FactText, FindingsOf;
    var x := Finding(ctx.run, t.rule, TagKey(FactText(f), t));
    if Triggered(ctx, matches, f, t) {
      TagHasFinding(ctx, matches, f, FactTags(), t);
    }
    if x in FaultsOf(ctx, matches, f) {
      var u := FindingHasTag(ctx, matches, f, FactTags(), x);
      ListedTags(t);
      ListedTags(u);
      SmallArity(t.rule);
      TagKeyInjective(FactText(f), t, FactText(f), u);
    }
  }

  lemma {:induction false} RecordTagsListed()
    ensures Tag(MissingKey, []) in FactTags() && Tag(MissingDate, []) in FactTags() && Tag(MalformedId, []) in FactTags() && Tag(ClientMismatch, []) in FactTags()
    ensures Tag(ImpossibleDelivered, [Delivered]) in FactTags() && Tag(ImpossibleFailed, [Failed]) in FactTags()
  {
    hide FieldTags, PairTags;
    var (a, b) := (RecordTags(), SentTags());
    assert a[0] in a && a[1] in a && a[2] in a && a[3] in a && b[0] in b && b[1] in b;
  }

  lemma {:induction false} FieldTagsListed(m: Measure)
    ensures Tag(if IsCount(m) then NegativeCount else NegativeMoney, [m]) in FactTags()
  {
    hide PairTags, RecordTags, SentTags;
    MeasureListed(m);
    var (fields, rule) := (if IsCount(m) then COUNT_FIELDS else MONEY_FIELDS, if IsCount(m) then NegativeCount else NegativeMoney);
    var i :| 0 <= i < |fields| && fields[i] == m;
    assert FieldTags(rule, fields)[i] == Tag(rule, [m]);
  }

  lemma {:induction false} MeasureListed(m: Measure)
    ensures if IsCount(m) then m in COUNT_FIELDS else m in MONEY_FIELDS
  {
  }

  /** The value is no identifier. */
  predicate Malformed(matches: string -> bool, value: string) {
    value == "" || !matches(value)
  }

  /** A fact is reported exactly when its campaign is blank, its day is missing, its client, run or batch is no
      identifier, or its client is not the one expected. */
  lemma {:induction false} RecordFaults(ctx: QaContext, matches: string -> bool, f: QaFact)
    ensures var found := FaultsOf(ctx, matches, f);
            && (Finding(ctx.run, MissingKey, Entity(f)) in found <==> f.campaign == "")
            && (Finding(ctx.run, MissingDate, Entity(f)) in found <==> f.day.None?)
            && (Finding(ctx.run, MalformedId, Entity(f)) in found <==>
                  Malformed(matches, f.client) || (f.runId.Some? && Malformed(matches, f.runId.value)) || (f.batchId.Some? && Malformed(matches, f.batchId.value)))
            && (Finding(ctx.run, ClientMismatch, Entity(f)) in found <==>
                  f.client != if ctx.expectedClient.None? || ctx.expectedClient.value == "" then ctx.client else ctx.expectedClient.value)
  {
    hide FactTags, FaultsOf, FactText, Entity;
    RecordTagsListed();
    TextIsEntity(f);
    FaultIsChecked(ctx, matches, f, Tag(MissingKey, []));
    FaultIsChecked(ctx, matches, f, Tag(MissingDate, []));
    FaultIsChecked(ctx, matches, f, Tag(MalformedId, []));
    FaultIsChecked(ctx, matches, f, Tag(ClientMismatch, []));
  }

  /** A measure is reported, as a count or as money, exactly when it is present and below zero; deliveries and
      failures exactly when they are present with the sent and exceed them. */
  lemma {:induction false} MeasureFaults(ctx: QaContext, matches: string -> bool, f: QaFact, m: Measure)
    ensures var found := FaultsOf(ctx, matches, f);
            && (Finding(ctx.run, if IsCount(m) then NegativeCount else NegativeMoney, Entity(f) + ":" + FieldName(m)) in found
                <==> m in f.values && f.values[m] < 0.0)
            && (Finding(ctx.run, ImpossibleDelivered, Entity(f) + ":" + FieldName(Delivered)) in found
                <==> Delivered in f.values && Sent in f.values && f.values[Delivered] > f.values[Sent])
            && (Finding(ctx.run, ImpossibleFailed, Entity(f) + ":" + FieldName(Failed)) in found
                <==> Failed in f.values && Sent in f.values && f.values[Failed] > f.values[Sent])
  {
    hide FactTags, FaultsOf, FactText, Entity, FieldName, IsCount;
    RecordTagsListed();
    FieldTagsListed(m);
    TextIsEntity(f);
    FaultIsChecked(ctx, matches, f, Tag(if IsCount(m) then NegativeCount else NegativeMoney, [m]));
    FaultIsChecked(ctx, matches, f, Tag(ImpossibleDelivered, [Delivered]));
    FaultIsChecked(ctx, matches, f, Tag(ImpossibleFailed, [Failed]));
  }

  /** The five relations between counts that QA watches. */
  predicate Watched(left: Measure, right: Measure) {
    || (left.UniqueClicks? && right.UniqueImpressions?) || (left.UniqueConversions? && right.Delivered?)
    || (left.ClickThroughConversions? && right.UniqueClicks?) || (left.ImpressionThroughConversions? && right.UniqueImpressions?)
    || (left.UniqueImpressions? && right.Delivered?)
  }

  lemma {:induction false} PairsWatched(left: Measure, right: Measure)
    ensures (left, right) in RATIO_PAIRS <==> Watched(left, right)
  {
    assert RATIO_PAIRS[0] in RATIO_PAIRS && RATIO_PAIRS[1] in RATIO_PAIRS && RATIO_PAIRS[2] in RATIO_PAIRS
           && RATIO_PAIRS[3] in RATIO_PAIRS && RATIO_PAIRS[4] in RATIO_PAIRS;
  }

  /** Two measures are reported as an inverted ratio exactly when QA watches them, both are present, and the
      first exceeds the second. */
  lemma {:induction false} RatioFaults(ctx: QaContext, matches: string -> bool, f: QaFact, left: Measure, right: Measure)
    ensures Finding(ctx.run, RatioGtOne, Entity(f) + ":" + FieldName(left) + ":" + FieldName(right)) in FaultsOf(ctx, matches, f)
            <==> Watched(left, right) && left in f.values && right in f.values && f.values[left] > f.values[right]
  {
    hide FactTags, FaultsOf, FactText, Entity, FieldName, FindingsOf, Watched;
    var t := Tag(RatioGtOne, [left, right]);
    TextIsEntity(f);
    PairsWatched(left, right);
    RatioTagsListed(left, right);
    if t in FactTags() {
      FaultIsChecked(ctx, matches, f, t);
    } else {
      UnlistedIsNotFound(ctx, matches, f, t);
    }
  }

  lemma {:induction false} RatioTagsListed(left: Measure, right: Measure)
    ensures Tag(RatioGtOne, [left, right]) in FactTags() <==> (left, right) in RATIO_PAIRS
  {
    hide RATIO_PAIRS, COUNT_FIELDS, MONEY_FIELDS;
    var (t, pairs) := (Tag(RatioGtOne, [left, right]), PairTags(RATIO_PAIRS));
    if (left, right) in RATIO_PAIRS {
      var i :| 0 <= i < |RATIO_PAIRS| && RATIO_PAIRS[i] == (left, right);
      assert pairs[i] == t;
    }
    if t in FactTags() {
      assert t in pairs;
      var i :| 0 <= i < |pairs| && pairs[i] == t;
      assert [RATIO_PAIRS[i].0, RATIO_PAIRS[i].1][0] == left && [RATIO_PAIRS[i].0, RATIO_PAIRS[i].1][1] == right;
    }
  }

  lemma {:induction false} UnlistedIsNotFound(ctx: QaContext, matches: string -> bool, f: QaFact, t: Tag)
    requires t !in FactTags() && |t.fields| == Arity(t.rule)
    ensures Finding(ctx.run, t.rule, TagKey(FactText(f), t)) !in FaultsOf(ctx, matches, f)
  {
    hide FactTags, Triggered, TagKey, FactText, FindingsOf;
    var x := Finding(ctx.run, t.rule, TagKey(FactText(f), t));
    if x in FaultsOf(ctx, matches, f) {
      var u := FindingHasTag(ctx, matches, f, FactTags(), x);
      ListedTags(u);
      SmallArity(t.rule);
      TagKeyInjective(FactText(f), t, FactText(f), u);
    }
  }

  // ---- the run --------------------------------------------------------------------------------------------

  /** The rule that a reject reason stands for. */
  lemma {:induction false} ReasonsAre(reason: string)
    ensures RuleOfReason(reason) == Some(MissingKey) <==> reason == "MISSING_CAMPAIGN_ID"
    ensures RuleOfReason(reason) == Some(MissingDate) <==> reason == "MISSING_DAY"
    ensures RuleOfReason(reason) == Some(MalformedId) <==> reason == "INVALID_DAY" || reason == "IMPOSSIBLE_ROW"
    ensures RuleOfReason(reason) == Some(InvalidNumeric) <==> reason == "INVALID_NUMERIC"
    ensures RuleOfReason(reason) == Some(DuplicateGrain) <==> reason == "DUPLICATE_GRAIN_KEY"
    ensures RuleOfReason(reason).Some? ==> RuleOfReason(reason).value in {MissingKey, MissingDate, MalformedId, InvalidNumeric, DuplicateGrain}
  {
    assert "MISSING_CAMPAIGN_ID"[0] == 'M' && "MISSING_DAY"[0] == 'M' && |"MISSING_DAY"| == 11 && |"INVALID_DAY"| == 11;
    assert |"MISSING_CAMPAIGN_ID"| == |"DUPLICATE_GRAIN_KEY"| == 19 && "DUPLICATE_GRAIN_KEY"[0] == 'D' && "INVALID_DAY"[0] == 'I';
    assert |"INVALID_NUMERIC"| == 15 && |"IMPOSSIBLE_ROW"| == 14;
  }

  /** A rejected row is reported under its row number, or else under its reason. */
  predicate ReportsReject(run: string, e: RejectedEvidence, x: Finding) {
    && RuleOfReason(e.reason).Some?
    && x == Finding(run, RuleOfReason(e.reason).value, if e.rowNumber.Some? then "row:" + Str(e.rowNumber.value) else "reject:" + e.reason)
  }

  lemma {:induction false} RejectsAre(run: string, rejected: seq<RejectedEvidence>, x: Finding)
    ensures x in RejectFindings(run, RejectPairs(rejected)) <==> exists e :: e in rejected && ReportsReject(run, e, x)
  {
    hide RuleOfReason;
    if rejected != [] {
      var (init, last) := (rejected[..|rejected| - 1], rejected[|rejected| - 1]);
      assert rejected == init + [last];
      RejectsAre(run, init, x);
      assert last in rejected && (forall e :: e in rejected <==> e in init || e == last);
      RejectSnoc(run, init, last, x);
    }
  }

  lemma {:induction false} RejectSnoc(run: string, init: seq<RejectedEvidence>, last: RejectedEvidence, x: Finding)
    ensures x in RejectFindings(run, RejectPairs(init + [last])) <==> x in RejectFindings(run, RejectPairs(init)) || ReportsReject(run, last, x)
  {
    hide RuleOfReason;
    var rejected := init + [last];
    assert rejected[..|rejected| - 1] == init;
    if RuleOfReason(last.reason).Some? {
      RenderSnoc(run, RejectPairs(init), (RuleOfReason(last.reason).value, RefOf(last)));
    }
  }

  lemma {:induction false} RenderSnoc(run: string, pairs: seq<(Rule, RowRef)>, p: (Rule, RowRef))
    ensures RejectFindings(run, pairs + [p]) == RejectFindings(run, pairs) + [Finding(run, p.0, RowKey(p.1))]
  {
    hide RowKey;
  }

  lemma {:induction false} FaultsOfSome(ctx: QaContext, matches: string -> bool, facts: seq<QaFact>, x: Finding)
    ensures x in FactFindings(ctx, matches, facts) <==> exists f :: f in facts && x in FaultsOf(ctx, matches, f)
  {
    hide FactTags, FindingsOf;
    if facts != [] {
      var (init, last) := (facts[..|facts| - 1], facts[|facts| - 1]);
      assert facts == init + [last];
      FaultsOfSome(ctx, matches, init, x);
      assert last in facts && (forall f :: f in facts <==> f in init || f == last);
      assert FactFindings(ctx, matches, facts) == FactFindings(ctx, matches, init) + FaultsOf(ctx, matches, last);
    }
  }

  /** The KPI divides, and what it divides by, a column's sum or its parent's value, is zero. */
  predicate DividesByZero(s: KpiSpec, sums: Sums, kpis: Results) {
    && s.namespace.Qa? && s.operation.Divide?
    && match s.denominator
       case Some(Additive(m)) => m in sums && sums[m] == 0.0
       case Some(NativeRate(_)) => false
       case None =>
         s.dependsOn.Some? && exists p :: p in KPI_SPECS && p.id == s.dependsOn.value && p.slug in kpis && kpis[p.slug] == Some(0.0)
  }

  lemma {:induction false} ZeroIsNamed(s: KpiSpec, sums: Sums, kpis: Results)
    requires s in KPI_SPECS
    ensures DividesByZero(s, sums, kpis) <==> s.namespace.Qa? && s.operation.Divide? && DenominatorOf(s, sums, kpis) == Some(0.0)
  {
    hide FirstSpecs, SpecOk, ById;
    TableWellFormed();
    if s.dependsOn.Some? {
      IdIsOne(s.dependsOn.value);
    }
  }

  lemma {:induction false} IdIsOne(id: string)
    ensures forall p | p in KPI_SPECS && p.id == id :: ById(KPI_SPECS, id) == Some(p)
    ensures ById(KPI_SPECS, id).Some? ==> ById(KPI_SPECS, id).value in KPI_SPECS && ById(KPI_SPECS, id).value.id == id
  {
    hide FirstSpecs, SpecOk, ById;
    TableWellFormed();
    forall p | p in KPI_SPECS && p.id == id
      ensures ById(KPI_SPECS, id) == Some(p)
    {
      ByIdFinds(KPI_SPECS, p);
    }
    ByIdIn(KPI_SPECS, id);
  }

  lemma {:induction false} ByIdIn(table: seq<KpiSpec>, id: string)
    ensures ById(table, id).Some? ==> ById(table, id).value in table && ById(table, id).value.id == id
  {
    if table != [] {
      ByIdIn(table[..|table| - 1], id);
    }
  }

  lemma {:induction false} ZerosAre(run: string, specs: seq<KpiSpec>, sums: Sums, kpis: Results, x: Finding)
    requires forall s | s in specs :: s in KPI_SPECS
    ensures x in KpiFindings(run, specs, sums, kpis) <==>
            exists s :: s in specs && DividesByZero(s, sums, kpis) && x == Finding(run, ZeroDenominator, "qa." + s.slug)
  {
    hide FirstSpecs, DenominatorOf, DividesByZero;
    if specs != [] {
      var (init, last) := (specs[..|specs| - 1], specs[|specs| - 1]);
      assert specs == init + [last] && last in specs;
      assert forall s | s in init :: s in specs;
      ZerosAre(run, init, sums, kpis, x);
      ZeroIsNamed(last, sums, kpis);
    }
  }

  /** The findings of a run, all of them: its rejected rows and that there are some; the faults of its facts; a
      failed run, a failed reconciliation, facts that are not the current publication; and each QA ratio
      whose denominator is zero. */
  lemma {:induction false} FindingsAre(ctx: QaContext, matches: string -> bool, x: Finding)
    ensures x in Findings(ctx, matches) <==>
            || (exists e :: e in ctx.rejected && ReportsReject(ctx.run, e, x))
            || (ctx.rejected != [] && x == Finding(ctx.run, RejectedRows, ctx.run))
            || (exists f :: f in ctx.facts && x in FaultsOf(ctx, matches, f))
            || (ctx.runFailed && x == Finding(ctx.run, RunFailed, ctx.run))
            || (ctx.reconcilePassed == Some(false) && x == Finding(ctx.run, ReconcileFail, ctx.run))
            || (ctx.facts != [] && ctx.isCurrent == Some(false) && x == Finding(ctx.run, UnpublishedOnly, ctx.run))
            || (ctx.facts != [] && exists s :: s in KPI_SPECS && DividesByZero(s, SumsOf(ctx.facts), QaKpis(SumsOf(ctx.facts)))
                                               && x == Finding(ctx.run, ZeroDenominator, "qa." + s.slug))
  {
    hide FirstSpecs, FactFindings, RejectFindings, RejectPairs, KpiFindings, SumsOf, QaKpis, DividesByZero, FaultsOf, ReportsReject;
    RejectsAre(ctx.run, ctx.rejected, x);
    FaultsOfSome(ctx, matches, ctx.facts, x);
    if ctx.facts != [] {
      ZerosAre(ctx.run, KPI_SPECS, SumsOf(ctx.facts), QaKpis(SumsOf(ctx.facts)), x);
    }
  }

  /** The sum of a measure over the facts that have it; there is none when none has. */
  function QaTotal(facts: seq<QaFact>, m: Measure): real {
    if facts == [] then 0.0
    else QaTotal(facts[..|facts| - 1], m) + if m in facts[|facts| - 1].values then facts[|facts| - 1].values[m] else 0.0
  }

  lemma {:induction false} SumsOfSnoc(init: seq<QaFact>, last: QaFact)
    ensures SumsOf(init + [last]) == AddSums(SumsOf(init), last.values)
  {
    hide AddSums;
    if init == [] {
      assert init + [last] == [last] && [last][1..] == [];
      NoSums();
      AddNothing(last.values);
    } else {
      assert (init + [last])[0] == init[0] && (init + [last])[1..] == init[1..] + [last];
      SumsOfSnoc(init[1..], last);
      AddRowsAssociates(Row(0, init[0].values), Row(0, SumsOf(init[1..])), Row(0, last.values));
    }
  }

  lemma {:induction false} AddNothing(sums: Sums)
    ensures AddSums(sums, map[]) == AddSums(map[], sums)
  {
  }

  lemma {:induction false} SumsAre(facts: seq<QaFact>, m: Measure)
    ensures m in SumsOf(facts) <==> exists f :: f in facts && m in f.values
    ensures m in SumsOf(facts) ==> SumsOf(facts)[m] == QaTotal(facts, m)
    ensures m !in SumsOf(facts) ==> QaTotal(facts, m) == 0.0
  {
    hide SumsOf;
    if facts == [] {
      NoSums();
    } else {
      var (init, last) := (facts[..|facts| - 1], facts[|facts| - 1]);
      assert facts == init + [last] && last in facts;
      SumsAre(init, m);
      SumsOfSnoc(init, last);
    }
  }

  lemma {:induction false} NoSums()
    ensures SumsOf([]) == map[]
  {
  }

  // ---- columns ----------------------------------------------------------------------------------------------

  /** The column is the total cost, or in rupees. */
  predicate NamesMoney(name: string) {
    name == "total_cost" || (|name| > 4 && name[|name| - 4..] == "_inr")
  }

  /** Money columns are the ones in rupees and the total cost; every other measure is a count. */
  lemma {:induction false} MoneyColumns(m: Measure)
    ensures IsCount(m) <==> !NamesMoney(FieldName(m))
  {
    hide FieldName, NamesMoney;
    if IsCount(m) {
      CountColumn(m);
    } else {
      MoneyColumn(m);
    }
  }

  lemma {:induction false} CountColumn(m: Measure)
    requires IsCount(m)
    ensures !NamesMoney(FieldName(m))
  {
    var name := FieldName(m);
    if |name| > 4 {
      assert name[|name| - 4..][3] == name[|name| - 1] != 'r';
    }
  }

  lemma {:induction false} MoneyColumn(m: Measure)
    requires !IsCount(m)
    ensures NamesMoney(FieldName(m))
  {
    var name := FieldName(m);
    assert name[|name| - 4..] == [name[|name| - 4], name[|name| - 3], name[|name| - 2], name[|name| - 1]];
  }

  /** Every metric that is a column goes by the column's name, and is money or a count as the column is; the
      others go by their KPI's. */
  lemma {:induction false} MetricsAreColumns(s: Metrics.Metric)
    requires s in Metrics.TREND_METRICS
    ensures s.source.OfMeasure? ==> s.key == FieldName(s.source.m) && s.kind == (if IsCount(s.source.m) then Metrics.CountKind else Metrics.MoneyKind)
    ensures s.source.OfKpi? ==> s.key == s.source.slug && (s.kind.RateKind? || s.kind.RoasKind?)
  {
    var j :| 0 <= j < |Metrics.TREND_METRICS| && Metrics.TREND_METRICS[j] == s;
  }
}
