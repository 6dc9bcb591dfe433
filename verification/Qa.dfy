/** qa.py: the findings of a run, and the uniqueness of their keys. */
module Qa {
  import opened Prelude
  import opened Facts
  import opened Text
  import opened Calendar
  import opened Kpis
  import opened KpiTable

  datatype Rule =
    | MissingKey | InvalidNumeric | DuplicateGrain | NegativeCount | NegativeMoney
    | ImpossibleDelivered | ImpossibleFailed | RatioGtOne | ZeroDenominator | MissingDate
    | MalformedId | ClientMismatch | RejectedRows | RunFailed | ReconcileFail | UnpublishedOnly

  /** A fact as QA reads it; its day may be missing. */
  datatype QaFact = QaFact(
    client: string, campaign: string, variation: string, day: Option<Day>,
    runId: Option<string>, batchId: Option<string>, values: Sums)

  datatype RejectedEvidence = RejectedEvidence(rowNumber: Option<nat>, reason: string)

  datatype QaContext = QaContext(
    client: string, run: string, runFailed: bool, facts: seq<QaFact>, rejected: seq<RejectedEvidence>,
    expectedClient: Option<string>, reconcilePassed: Option<bool>, isCurrent: Option<bool>)

  /** A finding's unique key; its texts are left out. */
  datatype Finding = Finding(run: string, rule: Rule, entity: string)

  // ---- rejected rows ----------------------------------------------------------------------------------

  /** `REJECT_TO_RULE`. */
  function RuleOfReason(reason: string): Option<Rule> {
    if reason == "MISSING_CAMPAIGN_ID" then Some(MissingKey)
    else if reason == "MISSING_DAY" then Some(MissingDate)
    else if reason == "INVALID_DAY" then Some(MalformedId)
    else if reason == "INVALID_NUMERIC" then Some(InvalidNumeric)
    else if reason == "DUPLICATE_GRAIN_KEY" then Some(DuplicateGrain)
    else if reason == "IMPOSSIBLE_ROW" then Some(MalformedId)
    else None
  }

  /** What a rejected row is known by. */
  datatype RowRef = AtRow(n: nat) | ByReason(reason: string)

  function RefOf(e: RejectedEvidence): RowRef {
    if e.rowNumber.Some? then AtRow(e.rowNumber.value) else ByReason(e.reason)
  }

  function RowKey(r: RowRef): string {
    match r
    case AtRow(n) => "row:" + Str(n)
    case ByReason(reason) => "reject:" + reason
  }

  /** The rule and row of each piece of evidence that has a rule. */
  function RejectPairs(rejected: seq<RejectedEvidence>): seq<(Rule, RowRef)> {
    if rejected == [] then []
    else
      var last := rejected[|rejected| - 1];
      var before := RejectPairs(rejected[..|rejected| - 1]);
      if RuleOfReason(last.reason).None? then before else before + [(RuleOfReason(last.reason).value, RefOf(last))]
  }

  function RejectFindings(run: string, pairs: seq<(Rule, RowRef)>): (r: seq<Finding>)
    ensures |r| == |pairs| && forall i | 0 <= i < |r| :: r[i] == Finding(run, pairs[i].0, RowKey(pairs[i].1))
  {
    seq(|pairs|, i requires 0 <= i < |pairs| => Finding(run, pairs[i].0, RowKey(pairs[i].1)))
  }

  // ---- facts --------------------------------------------------------------------------------------------

  function FieldName(m: Measure): string {
    match m
    case Sent => "sent"
    case Failed => "failed"
    case Delivered => "delivered"
    case UniqueImpressions => "unique_impressions"
    case UniqueClicks => "unique_clicks"
    case UniqueConversions => "unique_conversions"
    case ImpressionThroughConversions => "unique_impression_through_conversions"
    case ClickThroughConversions => "unique_click_through_conversions"
    case RevenueInr => "revenue_inr"
    case ImpressionThroughRevenue => "impression_through_revenue_inr"
    case ClickThroughRevenue => "click_through_revenue_inr"
    case TotalCost => "total_cost"
  }

  const COUNT_FIELDS: seq<Measure> := [
    Sent, Failed, Delivered, UniqueImpressions, UniqueClicks, UniqueConversions,
    ImpressionThroughConversions, ClickThroughConversions]

  const MONEY_FIELDS: seq<Measure> := [RevenueInr, ImpressionThroughRevenue, ClickThroughRevenue, TotalCost]

  const RATIO_PAIRS: seq<(Measure, Measure)> := [
    (UniqueClicks, UniqueImpressions), (UniqueConversions, Delivered), (ClickThroughConversions, UniqueClicks),
    (ImpressionThroughConversions, UniqueImpressions), (UniqueImpressions, Delivered)]

  function DayText(day: Option<Day>): string {
    if day.Some? then IsoFormat(day.value) else ""
  }

  /** `_key_for_fact`: the client is not part of it. */
  function FactText(f: QaFact): string {
    f.campaign + "|" + f.variation + "|" + DayText(f.day)
  }

  /** A check of one fact: a rule, and the measures its key names. */
  datatype Tag = Tag(rule: Rule, fields: seq<Measure>)

  function TagKey(entity: string, t: Tag): string {
    if |t.fields| == 0 then entity
    else if |t.fields| == 1 then entity + ":" + FieldName(t.fields[0])
    else entity + ":" + FieldName(t.fields[0]) + ":" + FieldName(t.fields[1])
  }

  predicate Exceeds(f: QaFact, a: Measure, b: Measure) {
    a in f.values && b in f.values && f.values[a] > f.values[b]
  }

  predicate IsUuid(matches: string -> bool, value: string) {
    value != "" && matches(value)
  }

  /** `expected_client_id or client_id`. */
  function Expected(ctx: QaContext): string {
    if ctx.expectedClient.Some? && ctx.expectedClient.value != "" then ctx.expectedClient.value else ctx.client
  }

  predicate Triggered(ctx: QaContext, matches: string -> bool, f: QaFact, t: Tag) {
    match t.rule
    case MissingKey => f.campaign == ""
    case MissingDate => f.day.None?
    case MalformedId =>
      || !IsUuid(matches, f.client)
      || (f.runId.Some? && !IsUuid(matches, f.runId.value))
      || (f.batchId.Some? && !IsUuid(matches, f.batchId.value))
    case ClientMismatch => f.client != Expected(ctx)
    case NegativeCount => |t.fields| == 1 && t.fields[0] in f.values && f.values[t.fields[0]] < 0.0
    case NegativeMoney => |t.fields| == 1 && t.fields[0] in f.values && f.values[t.fields[0]] < 0.0
    case ImpossibleDelivered => Exceeds(f, Delivered, Sent)
    case ImpossibleFailed => Exceeds(f, Failed, Sent)
    case RatioGtOne => |t.fields| == 2 && Exceeds(f, t.fields[0], t.fields[1])
    case _ => false
  }

  function FieldTags(rule: Rule, fields: seq<Measure>): (r: seq<Tag>)
    ensures |r| == |fields| && forall i | 0 <= i < |r| :: r[i] == Tag(rule, [fields[i]])
  {
    seq(|fields|, i requires 0 <= i < |fields| => Tag(rule, [fields[i]]))
  }

  function PairTags(pairs: seq<(Measure, Measure)>): (r: seq<Tag>)
    ensures |r| == |pairs| && forall i | 0 <= i < |r| :: r[i] == Tag(RatioGtOne, [pairs[i].0, pairs[i].1])
  {
    seq(|pairs|, i requires 0 <= i < |pairs| => Tag(RatioGtOne, [pairs[i].0, pairs[i].1]))
  }

  function RecordTags(): seq<Tag> {
    [Tag(MissingKey, []), Tag(MissingDate, []), Tag(MalformedId, []), Tag(ClientMismatch, [])]
  }

  function SentTags(): seq<Tag> {
    [Tag(ImpossibleDelivered, [Delivered]), Tag(ImpossibleFailed, [Failed])]
  }

  /** All the checks of a fact, in the order they are made. */
  function FactTags(): seq<Tag> {
    RecordTags() + FieldTags(NegativeCount, COUNT_FIELDS) + FieldTags(NegativeMoney, MONEY_FIELDS) + SentTags() + PairTags(RATIO_PAIRS)
  }

  /** The findings of the given checks. */
  function FindingsOf(ctx: QaContext, matches: string -> bool, f: QaFact, tags: seq<Tag>): seq<Finding> {
    if tags == [] then []
    else
      var last := tags[|tags| - 1];
      FindingsOf(ctx, matches, f, tags[..|tags| - 1])
      + if Triggered(ctx, matches, f, last) then [Finding(ctx.run, last.rule, TagKey(FactText(f), last))] else []
  }

  function FactFindings(ctx: QaContext, matches: string -> bool, facts: seq<QaFact>): seq<Finding> {
    if facts == [] then []
    else FactFindings(ctx, matches, facts[..|facts| - 1]) + FindingsOf(ctx, matches, facts[|facts| - 1], FactTags())
  }

  // ---- run and KPIs ---------------------------------------------------------------------------------------

  function RunFindings(ctx: QaContext): seq<Finding> {
    (if ctx.runFailed then [Finding(ctx.run, RunFailed, ctx.run)] else [])
    + (if ctx.reconcilePassed == Some(false) then [Finding(ctx.run, ReconcileFail, ctx.run)] else [])
    + (if ctx.facts != [] && ctx.isCurrent == Some(false) then [Finding(ctx.run, UnpublishedOnly, ctx.run)] else [])
  }

  function SumsOf(facts: seq<QaFact>): Sums {
    if facts == [] then map[] else AddSums(facts[0].values, SumsOf(facts[1..]))
  }

  function QaKpis(sums: Sums): Results {
    ComputedOrNone(ComputeNamespace(KPI_SPECS, Kpis.Namespace.Qa, sums))
  }

  function ComputedOrNone(r: Result<Results, KpiError>): Results {
    if r.Ok? then r.value else map[]
  }

  /** The denominator's sum, or the parent's value where the KPI has no denominator column. */
  function DenominatorOf(spec: KpiSpec, sums: Sums, kpis: Results): Option<real> {
    if spec.denominator.Some? then
      (if spec.denominator.value.Additive? then Lookup(sums, spec.denominator.value.m) else None)
    else
      var parent := if spec.dependsOn.Some? then ById(KPI_SPECS, spec.dependsOn.value) else None;
      if parent.Some? && parent.value.slug in kpis then kpis[parent.value.slug] else None
  }

  function KpiFindings(run: string, specs: seq<KpiSpec>, sums: Sums, kpis: Results): seq<Finding> {
    if specs == [] then []
    else
      var last := specs[|specs| - 1];
      KpiFindings(run, specs[..|specs| - 1], sums, kpis)
      + if last.namespace.Qa? && last.operation.Divide? && DenominatorOf(last, sums, kpis) == Some(0.0)
        then [Finding(run, ZeroDenominator, "qa." + last.slug)] else []
  }

  function ZeroDenominators(ctx: QaContext): seq<Finding> {
    if ctx.facts == [] then []
    else KpiFindings(ctx.run, KPI_SPECS, SumsOf(ctx.facts), QaKpis(SumsOf(ctx.facts)))
  }

  function RejectSummary(ctx: QaContext): seq<Finding> {
    if ctx.rejected == [] then [] else [Finding(ctx.run, RejectedRows, ctx.run)]
  }

  function Findings(ctx: QaContext, matches: string -> bool): seq<Finding> {
    RejectFindings(ctx.run, RejectPairs(ctx.rejected)) + RejectSummary(ctx)
    + FactFindings(ctx, matches, ctx.facts) + RunFindings(ctx) + ZeroDenominators(ctx)
  }

  // ---- `evaluate_qa` as the program runs it ------------------------------------------------------------------

  lemma {:induction false} FindingsConcat(ctx: QaContext, matches: string -> bool, f: QaFact, a: seq<Tag>, b: seq<Tag>)
    ensures FindingsOf(ctx, matches, f, a + b) == FindingsOf(ctx, matches, f, a) + FindingsOf(ctx, matches, f, b)
  {
    hide Triggered, TagKey, FactText;
    if b == [] {
      assert a + b == a;
    } else {
      var init := b[..|b| - 1];
      assert (a + b)[..|a + b| - 1] == a + init;
      assert (a + b)[|a + b| - 1] == b[|b| - 1];
      FindingsConcat(ctx, matches, f, a, init);
    }
  }

  lemma {:induction false} OneFinding(ctx: QaContext, matches: string -> bool, f: QaFact, t: Tag)
    ensures FindingsOf(ctx, matches, f, [t]) ==
            if Triggered(ctx, matches, f, t) then [Finding(ctx.run, t.rule, TagKey(FactText(f), t))] else []
  {
    hide Triggered, TagKey, FactText;
    assert [t][..0] == [];
  }

  method FieldFindings(ctx: QaContext, matches: string -> bool, f: QaFact, rule: Rule, fields: seq<Measure>) returns (r: seq<Finding>)
    requires rule.NegativeCount? || rule.NegativeMoney?
    ensures r == FindingsOf(ctx, matches, f, FieldTags(rule, fields))
  {
    hide FactText, FieldName;
    r := [];
    var tags := FieldTags(rule, fields);
    for i := 0 to |fields|
      invariant r == FindingsOf(ctx, matches, f, tags[..i])
    {
      assert tags[..i + 1][..i] == tags[..i];
      if fields[i] in f.values && f.values[fields[i]] < 0.0 {
        r := r + [Finding(ctx.run, rule, FactText(f) + ":" + FieldName(fields[i]))];
      }
    }
    assert tags[..|tags|] == tags;
  }

  method RatioFindings(ctx: QaContext, matches: string -> bool, f: QaFact) returns (r: seq<Finding>)
    ensures r == FindingsOf(ctx, matches, f, PairTags(RATIO_PAIRS))
  {
    hide FactText, FieldName;
    r := [];
    var tags := PairTags(RATIO_PAIRS);
    for i := 0 to |RATIO_PAIRS|
      invariant r == FindingsOf(ctx, matches, f, tags[..i])
    {
      assert tags[..i + 1][..i] == tags[..i];
      var (left, right) := RATIO_PAIRS[i];
      if left in f.values && right in f.values && f.values[left] > f.values[right] {
        r := r + [Finding(ctx.run, RatioGtOne, FactText(f) + ":" + FieldName(left) + ":" + FieldName(right))];
      }
    }
    assert tags[..|tags|] == tags;
  }

  lemma {:induction false} RecordFindings(ctx: QaContext, matches: string -> bool, f: QaFact)
    ensures FindingsOf(ctx, matches, f, RecordTags()) ==
            FindingsOf(ctx, matches, f, [Tag(MissingKey, [])]) + FindingsOf(ctx, matches, f, [Tag(MissingDate, [])])
            + FindingsOf(ctx, matches, f, [Tag(MalformedId, [])]) + FindingsOf(ctx, matches, f, [Tag(ClientMismatch, [])])
  {
    hide FindingsOf;
    var (a, b, c, d) := ([Tag(MissingKey, [])], [Tag(MissingDate, [])], [Tag(MalformedId, [])], [Tag(ClientMismatch, [])]);
    assert RecordTags() == a + b + c + d;
    FindingsConcat(ctx, matches, f, a + b + c, d);
    FindingsConcat(ctx, matches, f, a + b, c);
    FindingsConcat(ctx, matches, f, a, b);
  }

  lemma {:induction false} RecordFinding(ctx: QaContext, matches: string -> bool, f: QaFact, rule: Rule, found: bool)
    requires found == Triggered(ctx, matches, f, Tag(rule, []))
    ensures FindingsOf(ctx, matches, f, [Tag(rule, [])]) == if found then [Finding(ctx.run, rule, FactText(f))] else []
  {
    hide Triggered, FactText;
    OneFinding(ctx, matches, f, Tag(rule, []));
  }

  /** The four checks of the record itself. */
  method CheckRecord(ctx: QaContext, matches: string -> bool, f: QaFact) returns (r: seq<Finding>)
    ensures r == FindingsOf(ctx, matches, f, RecordTags())
  {
    hide FindingsOf, FactText, IsUuid, Expected, RecordTags;
    var malformedRun := f.runId.Some? && !IsUuid(matches, f.runId.value);
    var malformedBatch := f.batchId.Some? && !IsUuid(matches, f.batchId.value);
    var malformed := !IsUuid(matches, f.client) || malformedRun || malformedBatch;
    var entity := FactText(f);
    RecordFinding(ctx, matches, f, MissingKey, f.campaign == "");
    RecordFinding(ctx, matches, f, MissingDate, f.day.None?);
    RecordFinding(ctx, matches, f, MalformedId, malformed);
    RecordFinding(ctx, matches, f, ClientMismatch, f.client != Expected(ctx));
    RecordFindings(ctx, matches, f);
    r := [];
    if f.campaign == "" {
      r := r + [Finding(ctx.run, MissingKey, entity)];
    }
    if f.day.None? {
      r := r + [Finding(ctx.run, MissingDate, entity)];
    }
    if malformed {
      r := r + [Finding(ctx.run, MalformedId, entity)];
    }
    if f.client != Expected(ctx) {
      r := r + [Finding(ctx.run, ClientMismatch, entity)];
    }
  }

  /** The checks of one fact, one after the other. */
  method CheckFact(ctx: QaContext, matches: string -> bool, f: QaFact) returns (r: seq<Finding>)
    ensures r == FindingsOf(ctx, matches, f, FactTags())
  {
    hide FindingsOf, FactTags, RecordTags, FieldTags, SentTags, PairTags;
    r := CheckRecord(ctx, matches, f);
    var counts := FieldFindings(ctx, matches, f, NegativeCount, COUNT_FIELDS);
    var money := FieldFindings(ctx, matches, f, NegativeMoney, MONEY_FIELDS);
    var sent := SentFindings(ctx, matches, f);
    var ratios := RatioFindings(ctx, matches, f);
    r := r + counts + money + sent + ratios;
    AllFindings(ctx, matches, f);
  }

  method SentFindings(ctx: QaContext, matches: string -> bool, f: QaFact) returns (r: seq<Finding>)
    ensures r == FindingsOf(ctx, matches, f, SentTags())
  {
    hide FindingsOf, FactText, FieldName, Exceeds;
    var (a, b) := (Tag(ImpossibleDelivered, [Delivered]), Tag(ImpossibleFailed, [Failed]));
    r := [];
    OneFinding(ctx, matches, f, a);
    if Exceeds(f, Delivered, Sent) {
      r := r + [Finding(ctx.run, ImpossibleDelivered, FactText(f) + ":" + FieldName(Delivered))];
    }
    OneFinding(ctx, matches, f, b);
    if Exceeds(f, Failed, Sent) {
      r := r + [Finding(ctx.run, ImpossibleFailed, FactText(f) + ":" + FieldName(Failed))];
    }
    assert SentTags() == [a] + [b];
    FindingsConcat(ctx, matches, f, [a], [b]);
  }

  lemma {:induction false} AllFindings(ctx: QaContext, matches: string -> bool, f: QaFact)
    ensures FindingsOf(ctx, matches, f, FactTags()) ==
            FindingsOf(ctx, matches, f, RecordTags()) + FindingsOf(ctx, matches, f, FieldTags(NegativeCount, COUNT_FIELDS))
            + FindingsOf(ctx, matches, f, FieldTags(NegativeMoney, MONEY_FIELDS)) + FindingsOf(ctx, matches, f, SentTags())
            + FindingsOf(ctx, matches, f, PairTags(RATIO_PAIRS))
  {
    hide FindingsOf, RecordTags, FieldTags, SentTags, PairTags;
    var (a, b, c, d, e) := (RecordTags(), FieldTags(NegativeCount, COUNT_FIELDS), FieldTags(NegativeMoney, MONEY_FIELDS), SentTags(), PairTags(RATIO_PAIRS));
    FindingsConcat(ctx, matches, f, a + b + c + d, e);
    FindingsConcat(ctx, matches, f, a + b + c, d);
    FindingsConcat(ctx, matches, f, a + b, c);
    FindingsConcat(ctx, matches, f, a, b);
  }

  method CheckRejected(ctx: QaContext) returns (r: seq<Finding>)
    ensures r == RejectFindings(ctx.run, RejectPairs(ctx.rejected)) + RejectSummary(ctx)
  {
    hide RuleOfReason, RowKey;
    r := [];
    for i := 0 to |ctx.rejected|
      invariant r == RejectFindings(ctx.run, RejectPairs(ctx.rejected[..i]))
    {
      assert ctx.rejected[..i + 1][..i] == ctx.rejected[..i];
      var e := ctx.rejected[i];
      var mapped := RuleOfReason(e.reason);
      if mapped.None? {
        continue;
      }
      r := r + [Finding(ctx.run, mapped.value, RowKey(RefOf(e)))];
    }
    assert ctx.rejected[..|ctx.rejected|] == ctx.rejected;
    if ctx.rejected != [] {
      r := r + [Finding(ctx.run, RejectedRows, ctx.run)];
    }
  }

  method CheckDenominators(run: string, specs: seq<KpiSpec>, sums: Sums, kpis: Results) returns (r: seq<Finding>)
    ensures r == KpiFindings(run, specs, sums, kpis)
  {
    hide DenominatorOf;
    r := [];
    for i := 0 to |specs|
      invariant r == KpiFindings(run, specs[..i], sums, kpis)
    {
      assert specs[..i + 1][..i] == specs[..i];
      if !specs[i].namespace.Qa? || !specs[i].operation.Divide? {
        continue;
      }
      if DenominatorOf(specs[i], sums, kpis) == Some(0.0) {
        r := r + [Finding(run, ZeroDenominator, "qa." + specs[i].slug)];
      }
    }
    assert specs[..|specs|] == specs;
  }

  method CheckKpis(ctx: QaContext) returns (r: seq<Finding>)
    ensures r == ZeroDenominators(ctx)
  {
    hide FirstSpecs, KpiFindings, QaKpis, SumsOf;
    r := [];
    if ctx.facts != [] {
      var sums := SumsOf(ctx.facts);
      r := CheckDenominators(ctx.run, KPI_SPECS, sums, QaKpis(sums));
    }
  }

  method CheckFacts(ctx: QaContext, matches: string -> bool) returns (r: seq<Finding>)
    ensures r == FactFindings(ctx, matches, ctx.facts)
  {
    hide FindingsOf, FactTags;
    r := [];
    for i := 0 to |ctx.facts|
      invariant r == FactFindings(ctx, matches, ctx.facts[..i])
    {
      assert ctx.facts[..i + 1][..i] == ctx.facts[..i];
      var more := CheckFact(ctx, matches, ctx.facts[i]);
      r := r + more;
    }
    assert ctx.facts[..|ctx.facts|] == ctx.facts;
  }

  method CheckRun(ctx: QaContext) returns (r: seq<Finding>)
    ensures r == RunFindings(ctx)
  {
    r := [];
    if ctx.runFailed {
      r := r + [Finding(ctx.run, RunFailed, ctx.run)];
    }
    if ctx.reconcilePassed == Some(false) {
      r := r + [Finding(ctx.run, ReconcileFail, ctx.run)];
    }
    if ctx.facts != [] && ctx.isCurrent == Some(false) {
      r := r + [Finding(ctx.run, UnpublishedOnly, ctx.run)];
    }
  }

  method EvaluateQa(ctx: QaContext, matches: string -> bool) returns (findings: seq<Finding>)
    ensures findings == Findings(ctx, matches)
  {
    hide FactFindings, RejectFindings, RejectPairs, RejectSummary, RunFindings, ZeroDenominators, FirstSpecs;
    findings := CheckRejected(ctx);
    var facts := CheckFacts(ctx, matches);
    var run := CheckRun(ctx);
    var kpis := CheckKpis(ctx);
    findings := findings + facts + run + kpis;
  }

  /** `assert_unique_qa_finding_keys`: accepted, or the first finding whose key was seen before. */
  method AssertUnique(findings: seq<Finding>) returns (r: Result<nat, nat>)
    ensures r.Ok? <==> Distinct(findings)
    ensures r.Err? ==> r.error < |findings| && findings[r.error] in findings[..r.error] && Distinct(findings[..r.error])
  {
    var seen: set<Finding> := {};
    for i := 0 to |findings|
      invariant Distinct(findings[..i])
      invariant forall f :: f in seen <==> f in findings[..i]
    {
      assert findings[..i + 1] == findings[..i] + [findings[i]];
      DistinctSnoc(findings[..i], findings[i]);
      if findings[i] in seen {
        NotDistinct(findings, i);
        return Err(i);
      }
      seen := seen + {findings[i]};
    }
    assert findings[..|findings|] == findings;
    r := Ok(|findings|);
  }

  lemma {:induction false} NotDistinct(findings: seq<Finding>, i: nat)
    requires i < |findings| && findings[i] in findings[..i]
    ensures !Distinct(findings)
  {
    var j :| 0 <= j < i && findings[..i][j] == findings[i];
    assert findings[j] == findings[i];
  }
}
