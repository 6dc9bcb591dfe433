/** qa.py: when the keys of a run's findings are pairwise distinct. */
module QaKeys {
  import opened Prelude
  import opened Facts
  import opened Text
  import opened Calendar
  import opened Kpis
  import opened KpiTable
  import opened Qa

  ghost predicate Disjoint<T(!new)>(a: seq<T>, b: seq<T>) {
    forall x | x in a :: x !in b
  }

  lemma {:induction false} DistinctConcat<T(!new)>(a: seq<T>, b: seq<T>)
    ensures Distinct(a + b) <==> Distinct(a) && Distinct(b) && Disjoint(a, b)
  {
    var t := a + b;
    if Distinct(t) {
      forall i, j | 0 <= i < j < |a|
        ensures a[i] != a[j]
      {
        assert t[i] == a[i] && t[j] == a[j];
      }
      forall i, j | 0 <= i < j < |b|
        ensures b[i] != b[j]
      {
        assert t[|a| + i] == b[i] && t[|a| + j] == b[j];
      }
      forall x | x in a
        ensures x !in b
      {
        var i :| 0 <= i < |a| && a[i] == x;
        assert t[i] == x;
        forall j | 0 <= j < |b|
          ensures b[j] != x
        {
          assert t[|a| + j] == b[j];
        }
      }
    }
    if Distinct(a) && Distinct(b) && Disjoint(a, b) {
      forall i, j | 0 <= i < j < |t|
        ensures t[i] != t[j]
      {
        assert i < |a| ==> a[i] in a;
        assert j >= |a| ==> b[j - |a|] in b;
      }
    }
  }

  // ---- keys can be read back ------------------------------------------------------------------------------

  lemma {:induction false} FieldNamesDiffer(a: Measure, b: Measure)
    requires FieldName(a) == FieldName(b)
    ensures a == b
  {
    assert |FieldName(a)| == |FieldName(b)|;
    assert FieldName(a)[|FieldName(a)| - 4] == FieldName(b)[|FieldName(b)| - 4];
    assert |FieldName(a)| > 7 ==> FieldName(a)[7] == FieldName(b)[7];
  }

  lemma {:induction false} FieldNamesClean(m: Measure)
    ensures ':' !in FieldName(m)
  {
    hide FieldName;
    if IsCount(m) {
      CountNamesClean(m);
    } else {
      MoneyNamesClean(m);
    }
  }

  lemma {:induction false} MoneyNamesClean(m: Measure)
    requires !IsCount(m)
    ensures ':' !in FieldName(m)
  {
  }

  lemma {:induction false} CountNamesClean(m: Measure)
    requires IsCount(m)
    ensures ':' !in FieldName(m)
  {
  }

  lemma {:induction false} DayTextClean(day: Option<Day>)
    ensures '|' !in DayText(day)
  {
    if day.Some? {
      var c := FromOrdinal(day.value);
      DigitsAvoid(Pad(c.y, 4), '|');
      DigitsAvoid(Pad(c.m, 2), '|');
      DigitsAvoid(Pad(c.d, 2), '|');
    }
  }

  lemma {:induction false} DayTextInjective(a: Option<Day>, b: Option<Day>)
    requires DayText(a) == DayText(b)
    ensures a == b
  {
    if a.Some? && b.Some? {
      IsoFormatInjective(a.value, b.value);
    }
  }

  /** Either no campaign id has a bar in it, or no variation key has. */
  predicate BarFree(facts: seq<QaFact>) {
    (forall f | f in facts :: '|' !in f.campaign) || (forall f | f in facts :: '|' !in f.variation)
  }

  predicate SameGrain(f: QaFact, g: QaFact) {
    f.campaign == g.campaign && f.variation == g.variation && f.day == g.day
  }

  /** Two facts of a bar-free list with the same text are of the same campaign, variation and day. */
  lemma {:induction false} FactTextInjective(facts: seq<QaFact>, f: QaFact, g: QaFact)
    requires f in facts && g in facts && BarFree(facts) && FactText(f) == FactText(g)
    ensures SameGrain(f, g)
  {
    hide DayText;
    DayTextClean(f.day);
    DayTextClean(g.day);
    assert FactText(f) == (f.campaign + "|" + f.variation) + ['|'] + DayText(f.day);
    assert FactText(g) == (g.campaign + "|" + g.variation) + ['|'] + DayText(g.day);
    SplitLast(f.campaign + "|" + f.variation, DayText(f.day), g.campaign + "|" + g.variation, DayText(g.day), '|');
    DayTextInjective(f.day, g.day);
    assert f.campaign + "|" + f.variation == f.campaign + ['|'] + f.variation;
    assert g.campaign + "|" + g.variation == g.campaign + ['|'] + g.variation;
    if forall h | h in facts :: '|' !in h.campaign {
      SplitFirst(f.campaign, f.variation, g.campaign, g.variation, '|');
    } else {
      SplitLast(f.campaign, f.variation, g.campaign, g.variation, '|');
    }
  }

  /** Tags whose rules agree name the same number of measures. */
  function Arity(rule: Rule): nat {
    match rule
    case NegativeCount => 1
    case NegativeMoney => 1
    case ImpossibleDelivered => 1
    case ImpossibleFailed => 1
    case RatioGtOne => 2
    case _ => 0
  }

  lemma {:induction false} TagKeyInjective(e: string, t: Tag, e': string, t': Tag)
    requires |t.fields| == |t'.fields| <= 2 && TagKey(e, t) == TagKey(e', t')
    ensures e == e' && t.fields == t'.fields
  {
    hide FieldName;
    if |t.fields| == 1 {
      FieldNamesClean(t.fields[0]);
      FieldNamesClean(t'.fields[0]);
      assert TagKey(e, t) == e + [':'] + FieldName(t.fields[0]);
      assert TagKey(e', t') == e' + [':'] + FieldName(t'.fields[0]);
      SplitLast(e, FieldName(t.fields[0]), e', FieldName(t'.fields[0]), ':');
      FieldNamesDiffer(t.fields[0], t'.fields[0]);
    } else if |t.fields| == 2 {
      PairKeyInjective(e, t.fields[0], t.fields[1], e', t'.fields[0], t'.fields[1]);
    }
  }

  lemma {:induction false} PairKeyInjective(e: string, l: Measure, r: Measure, e': string, l': Measure, r': Measure)
    requires e + ":" + FieldName(l) + ":" + FieldName(r) == e' + ":" + FieldName(l') + ":" + FieldName(r')
    ensures e == e' && l == l' && r == r'
  {
    hide FieldName;
    FieldNamesClean(l);
    FieldNamesClean(r);
    FieldNamesClean(l');
    FieldNamesClean(r');
    var a, b := e + ":" + FieldName(l), e' + ":" + FieldName(l');
    assert a + ":" + FieldName(r) == a + [':'] + FieldName(r);
    assert b + ":" + FieldName(r') == b + [':'] + FieldName(r');
    SplitLast(a, FieldName(r), b, FieldName(r'), ':');
    assert a == e + [':'] + FieldName(l) && b == e' + [':'] + FieldName(l');
    SplitLast(e, FieldName(l), e', FieldName(l'), ':');
    FieldNamesDiffer(l, l');
    FieldNamesDiffer(r, r');
  }

  // ---- the checks of one fact are distinct --------------------------------------------------------------------

  lemma {:induction false} FieldTagsDistinct(rule: Rule, fields: seq<Measure>)
    requires Distinct(fields)
    ensures Distinct(FieldTags(rule, fields))
  {
    var tags := FieldTags(rule, fields);
    forall i, j | 0 <= i < j < |tags|
      ensures tags[i] != tags[j]
    {
      assert tags[i].fields[0] == fields[i] && tags[j].fields[0] == fields[j];
    }
  }

  lemma {:induction false} PairTagsDistinct(pairs: seq<(Measure, Measure)>)
    requires Distinct(pairs)
    ensures Distinct(PairTags(pairs))
  {
    var tags := PairTags(pairs);
    forall i, j | 0 <= i < j < |tags|
      ensures tags[i] != tags[j]
    {
      assert tags[i].fields[0] == pairs[i].0 && tags[j].fields[0] == pairs[j].0;
      assert tags[i].fields[1] == pairs[i].1 && tags[j].fields[1] == pairs[j].1;
      assert pairs[i] != pairs[j];
    }
  }

  lemma {:induction false} FieldsDistinct()
    ensures Distinct(COUNT_FIELDS) && Distinct(MONEY_FIELDS) && Distinct(RATIO_PAIRS)
  {
  }

  ghost predicate OfRules(tags: seq<Tag>, rules: set<Rule>) {
    forall t | t in tags :: t.rule in rules && |t.fields| == Arity(t.rule)
  }

  lemma {:induction false} TagRules()
    ensures OfRules(RecordTags(), {MissingKey, MissingDate, MalformedId, ClientMismatch})
    ensures OfRules(FieldTags(NegativeCount, COUNT_FIELDS), {NegativeCount})
    ensures OfRules(FieldTags(NegativeMoney, MONEY_FIELDS), {NegativeMoney})
    ensures OfRules(SentTags(), {ImpossibleDelivered, ImpossibleFailed})
    ensures OfRules(PairTags(RATIO_PAIRS), {RatioGtOne})
  {
  }

  const FACT_RULES: set<Rule> := {
    MissingKey, MissingDate, MalformedId, ClientMismatch, NegativeCount, NegativeMoney,
    ImpossibleDelivered, ImpossibleFailed, RatioGtOne}

  lemma {:induction false} OtherRulesDisjoint(a: seq<Tag>, b: seq<Tag>, ra: set<Rule>, rb: set<Rule>)
    requires OfRules(a, ra) && OfRules(b, rb) && ra !! rb
    ensures Disjoint(a, b) && OfRules(a + b, ra + rb)
  {
  }

  lemma {:induction false} FactTagsDistinct()
    ensures Distinct(FactTags()) && OfRules(FactTags(), FACT_RULES)
  {
    hide OfRules, RecordTags, FieldTags, SentTags, PairTags, Disjoint, Distinct;
    var (a, b, c, d, e) := (RecordTags(), FieldTags(NegativeCount, COUNT_FIELDS), FieldTags(NegativeMoney, MONEY_FIELDS), SentTags(), PairTags(RATIO_PAIRS));
    var (ra, rb, rc, rd) := ({MissingKey, MissingDate, MalformedId, ClientMismatch}, {NegativeCount}, {NegativeMoney}, {ImpossibleDelivered, ImpossibleFailed});
    TagRules();
    FieldsDistinct();
    SmallTagsDistinct();
    FieldTagsDistinct(NegativeCount, COUNT_FIELDS);
    FieldTagsDistinct(NegativeMoney, MONEY_FIELDS);
    PairTagsDistinct(RATIO_PAIRS);
    OtherRulesDisjoint(a, b, ra, rb);
    OtherRulesDisjoint(a + b, c, ra + rb, rc);
    OtherRulesDisjoint(a + b + c, d, ra + rb + rc, rd);
    OtherRulesDisjoint(a + b + c + d, e, ra + rb + rc + rd, {RatioGtOne});
    DistinctConcat(a, b);
    DistinctConcat(a + b, c);
    DistinctConcat(a + b + c, d);
    DistinctConcat(a + b + c + d, e);
    assert ra + rb + rc + rd + {RatioGtOne} == FACT_RULES;
  }

  lemma {:induction false} SmallTagsDistinct()
    ensures Distinct(RecordTags()) && Distinct(SentTags())
  {
  }

  /** Every finding of a fact comes from one of its checks. */
  lemma {:induction false} FindingHasTag(ctx: QaContext, matches: string -> bool, f: QaFact, tags: seq<Tag>, x: Finding) returns (t: Tag)
    requires x in FindingsOf(ctx, matches, f, tags)
    ensures t in tags && Triggered(ctx, matches, f, t) && x == Finding(ctx.run, t.rule, TagKey(FactText(f), t))
  {
    hide Triggered, TagKey, FactText;
    var last := tags[|tags| - 1];
    if x in FindingsOf(ctx, matches, f, tags[..|tags| - 1]) {
      t := FindingHasTag(ctx, matches, f, tags[..|tags| - 1], x);
    } else {
      t := last;
    }
  }

  lemma {:induction false} TagHasFinding(ctx: QaContext, matches: string -> bool, f: QaFact, tags: seq<Tag>, t: Tag)
    requires t in tags && Triggered(ctx, matches, f, t)
    ensures Finding(ctx.run, t.rule, TagKey(FactText(f), t)) in FindingsOf(ctx, matches, f, tags)
  {
    hide Triggered, TagKey, FactText;
    var init, last := tags[..|tags| - 1], tags[|tags| - 1];
    assert tags == init + [last];
    if t in init {
      TagHasFinding(ctx, matches, f, init, t);
    }
  }

  lemma {:induction false} FactFindingsDistinct(ctx: QaContext, matches: string -> bool, f: QaFact, tags: seq<Tag>)
    requires Distinct(tags) && OfRules(tags, FACT_RULES)
    ensures Distinct(FindingsOf(ctx, matches, f, tags))
  {
    hide Triggered, TagKey, FactText, FACT_RULES;
    if tags != [] {
      var init, last := tags[..|tags| - 1], tags[|tags| - 1];
      assert tags == init + [last];
      DistinctSnoc(init, last);
      FactFindingsDistinct(ctx, matches, f, init);
      var x := Finding(ctx.run, last.rule, TagKey(FactText(f), last));
      if x in FindingsOf(ctx, matches, f, init) {
        var t := FindingHasTag(ctx, matches, f, init, x);
        assert last in tags && t in tags && |t.fields| == |last.fields|;
        SmallArity(last.rule);
        TagKeyInjective(FactText(f), t, FactText(f), last);
        assert false;
      }
      DistinctSnoc(FindingsOf(ctx, matches, f, init), x);
    }
  }

  lemma {:induction false} SmallArity(rule: Rule)
    ensures Arity(rule) <= 2
  {
  }

  // ---- facts together ---------------------------------------------------------------------------------------

  /** No two facts of the same campaign, variation and day. */
  ghost predicate GrainsDistinct(facts: seq<QaFact>) {
    forall i, j | 0 <= i < j < |facts| :: !SameGrain(facts[i], facts[j])
  }

  lemma {:induction false} FindingOfSomeFact(ctx: QaContext, matches: string -> bool, facts: seq<QaFact>, x: Finding) returns (i: nat, t: Tag)
    requires x in FactFindings(ctx, matches, facts)
    ensures i < |facts| && t in FactTags() && Triggered(ctx, matches, facts[i], t)
    ensures x == Finding(ctx.run, t.rule, TagKey(FactText(facts[i]), t))
  {
    hide FindingsOf, FactTags, TagKey, FactText, Triggered;
    var last := |facts| - 1;
    if x in FactFindings(ctx, matches, facts[..last]) {
      i, t := FindingOfSomeFact(ctx, matches, facts[..last], x);
    } else {
      i := last;
      t := FindingHasTag(ctx, matches, facts[last], FactTags(), x);
    }
  }

  lemma {:induction false} FactHasFinding(ctx: QaContext, matches: string -> bool, facts: seq<QaFact>, i: nat, t: Tag)
    requires i < |facts| && t in FactTags() && Triggered(ctx, matches, facts[i], t)
    ensures Finding(ctx.run, t.rule, TagKey(FactText(facts[i]), t)) in FactFindings(ctx, matches, facts)
  {
    hide FindingsOf, FactTags, TagKey, FactText, Triggered;
    if i == |facts| - 1 {
      TagHasFinding(ctx, matches, facts[i], FactTags(), t);
    } else {
      FactHasFinding(ctx, matches, facts[..|facts| - 1], i, t);
    }
  }

  /** Two facts with one text, and a fault in common. */
  ghost predicate Clash(ctx: QaContext, matches: string -> bool, f: QaFact, g: QaFact) {
    FactText(f) == FactText(g) && exists t | t in FactTags() :: Triggered(ctx, matches, f, t) && Triggered(ctx, matches, g, t)
  }

  ghost predicate NoClash(ctx: QaContext, matches: string -> bool, facts: seq<QaFact>) {
    forall i, j | 0 <= i < j < |facts| :: !Clash(ctx, matches, facts[i], facts[j])
  }

  /** One more fact's findings are new exactly when it clashes with none before it. */
  lemma {:induction false} NewFindings(ctx: QaContext, matches: string -> bool, facts: seq<QaFact>, f: QaFact)
    ensures Disjoint(FactFindings(ctx, matches, facts), FindingsOf(ctx, matches, f, FactTags()))
            <==> forall i | 0 <= i < |facts| :: !Clash(ctx, matches, facts[i], f)
  {
    hide FindingsOf, FactFindings, FactTags, TagKey, FactText, Triggered;
    var (before, more) := (FactFindings(ctx, matches, facts), FindingsOf(ctx, matches, f, FactTags()));
    forall x | x in before && x in more
      ensures exists i | 0 <= i < |facts| :: Clash(ctx, matches, facts[i], f)
    {
      var i, t := FindingOfSomeFact(ctx, matches, facts, x);
      var u := FindingHasTag(ctx, matches, f, FactTags(), x);
      FactTagsDistinct();
      SmallArity(t.rule);
      TagKeyInjective(FactText(facts[i]), t, FactText(f), u);
      assert Clash(ctx, matches, facts[i], f);
    }
    forall i | 0 <= i < |facts| && Clash(ctx, matches, facts[i], f)
      ensures exists x | x in before :: x in more
    {
      var t :| t in FactTags() && Triggered(ctx, matches, facts[i], t) && Triggered(ctx, matches, f, t);
      FactHasFinding(ctx, matches, facts, i, t);
      TagHasFinding(ctx, matches, f, FactTags(), t);
    }
  }

  /** The facts' findings have distinct keys exactly when no two facts clash. */
  lemma {:induction false} FactKeysDistinct(ctx: QaContext, matches: string -> bool, facts: seq<QaFact>)
    ensures Distinct(FactFindings(ctx, matches, facts)) <==> NoClash(ctx, matches, facts)
  {
    hide FindingsOf, FactTags, Disjoint, Clash;
    if facts != [] {
      var n := |facts| - 1;
      var init := facts[..n];
      assert facts == init + [facts[n]];
      FactKeysDistinct(ctx, matches, init);
      FactTagsDistinct();
      FactFindingsDistinct(ctx, matches, facts[n], FactTags());
      NewFindings(ctx, matches, init, facts[n]);
      DistinctConcat(FactFindings(ctx, matches, init), FindingsOf(ctx, matches, facts[n], FactTags()));
      NoClashSnoc(ctx, matches, init, facts[n]);
    }
  }

  lemma {:induction false} NoClashSnoc(ctx: QaContext, matches: string -> bool, init: seq<QaFact>, f: QaFact)
    ensures NoClash(ctx, matches, init + [f])
            <==> NoClash(ctx, matches, init) && forall i | 0 <= i < |init| :: !Clash(ctx, matches, init[i], f)
  {
    hide Clash;
    var facts := init + [f];
    assert facts[|init|] == f && forall i | 0 <= i < |init| :: facts[i] == init[i];
    if NoClash(ctx, matches, facts) {
      forall i, j | 0 <= i < j < |init|
        ensures !Clash(ctx, matches, init[i], init[j])
      {
        assert !Clash(ctx, matches, facts[i], facts[j]);
      }
      forall i | 0 <= i < |init|
        ensures !Clash(ctx, matches, init[i], f)
      {
        assert !Clash(ctx, matches, facts[i], facts[|init|]);
      }
    }
  }

  /** Distinct grains and a free separator rule every clash out. */
  lemma {:induction false} CleanFactsDoNotClash(ctx: QaContext, matches: string -> bool, facts: seq<QaFact>)
    requires GrainsDistinct(facts) && BarFree(facts)
    ensures NoClash(ctx, matches, facts)
  {
    hide FactTags, FactText, SameGrain, BarFree, Triggered;
    forall i, j | 0 <= i < j < |facts|
      ensures !Clash(ctx, matches, facts[i], facts[j])
    {
      if FactText(facts[i]) == FactText(facts[j]) {
        FactTextInjective(facts, facts[i], facts[j]);
      }
    }
  }

  // ---- rejected rows and KPIs ----------------------------------------------------------------------------------

  lemma {:induction false} RowKeyInjective(a: RowRef, b: RowRef)
    requires RowKey(a) == RowKey(b)
    ensures a == b
  {
    assert RowKey(a)[1] == RowKey(b)[1];
    if a.AtRow? {
      assert Str(a.n) == RowKey(a)[4..] && Str(b.n) == RowKey(b)[4..];
      StrInjective(a.n, b.n);
    } else {
      assert a.reason == RowKey(a)[7..] && b.reason == RowKey(b)[7..];
    }
  }

  ghost predicate RejectsDistinct(rejected: seq<RejectedEvidence>) {
    Distinct(RejectPairs(rejected))
  }

  lemma {:induction false} RejectsRender(run: string, pairs: seq<(Rule, RowRef)>)
    ensures Distinct(RejectFindings(run, pairs)) <==> Distinct(pairs)
  {
    hide RowKey;
    var fs := RejectFindings(run, pairs);
    forall i, j | 0 <= i < j < |pairs|
      ensures fs[i] == fs[j] <==> pairs[i] == pairs[j]
    {
      if fs[i] == fs[j] {
        RowKeyInjective(pairs[i].1, pairs[j].1);
      }
    }
    if Distinct(fs) {
      forall i, j | 0 <= i < j < |pairs|
        ensures pairs[i] != pairs[j]
      {
        assert fs[i] != fs[j];
      }
    }
    if Distinct(pairs) {
      forall i, j | 0 <= i < j < |fs|
        ensures fs[i] != fs[j]
      {
        assert pairs[i] != pairs[j];
      }
    }
  }

  predicate CleanPair(p: (Rule, RowRef)) {
    && p.0 in {MissingKey, MissingDate, MalformedId, InvalidNumeric, DuplicateGrain}
    && (p.1.ByReason? ==> '|' !in p.1.reason)
  }

  lemma {:induction false} RejectPairsClean(rejected: seq<RejectedEvidence>)
    ensures forall p | p in RejectPairs(rejected) :: CleanPair(p)
  {
    hide CleanPair, RuleOfReason;
    if rejected != [] {
      var last := rejected[|rejected| - 1];
      RejectPairsClean(rejected[..|rejected| - 1]);
      if RuleOfReason(last.reason).Some? {
        KnownReason(last);
      }
    }
  }

  lemma {:induction false} KnownReason(e: RejectedEvidence)
    requires RuleOfReason(e.reason).Some?
    ensures CleanPair((RuleOfReason(e.reason).value, RefOf(e)))
  {
    hide RuleOfReason;
    ReasonClean(e.reason);
    ReasonRule(e.reason);
  }

  lemma {:induction false} ReasonRule(reason: string)
    requires RuleOfReason(reason).Some?
    ensures RuleOfReason(reason).value in {MissingKey, MissingDate, MalformedId, InvalidNumeric, DuplicateGrain}
  {
  }

  lemma {:induction false} ReasonClean(reason: string)
    requires RuleOfReason(reason).Some?
    ensures '|' !in reason
  {
    assert '|' !in "MISSING_CAMPAIGN_ID" && '|' !in "MISSING_DAY" && '|' !in "INVALID_DAY";
    assert '|' !in "INVALID_NUMERIC" && '|' !in "DUPLICATE_GRAIN_KEY" && '|' !in "IMPOSSIBLE_ROW";
  }

  lemma {:induction false} RowKeyClean(p: (Rule, RowRef))
    requires CleanPair(p)
    ensures '|' !in RowKey(p.1)
  {
    if p.1.AtRow? {
      DigitsAvoid(Str(p.1.n), '|');
    }
  }

  lemma {:induction false} FactKeyHasBar(f: QaFact, t: Tag)
    ensures '|' in TagKey(FactText(f), t)
  {
    hide FieldName, DayText;
    var key := TagKey(FactText(f), t);
    assert FactText(f)[|f.campaign|] == '|';
    assert key[|f.campaign|] == '|';
  }

  /** A rejected row's key is never a fact's. */
  lemma {:induction false} RejectsApartFromFacts(ctx: QaContext, matches: string -> bool)
    ensures Disjoint(RejectFindings(ctx.run, RejectPairs(ctx.rejected)), FactFindings(ctx, matches, ctx.facts))
  {
    hide RejectPairs, FactFindings, FactTags, TagKey, FactText, RowKey, CleanPair;
    var (pairs, fs) := (RejectPairs(ctx.rejected), RejectFindings(ctx.run, RejectPairs(ctx.rejected)));
    RejectPairsClean(ctx.rejected);
    forall x | x in fs
      ensures x !in FactFindings(ctx, matches, ctx.facts)
    {
      var k :| 0 <= k < |fs| && fs[k] == x;
      assert pairs[k] in pairs;
      RowKeyClean(pairs[k]);
      if x in FactFindings(ctx, matches, ctx.facts) {
        var i, t := FindingOfSomeFact(ctx, matches, ctx.facts, x);
        FactKeyHasBar(ctx.facts[i], t);
        assert false;
      }
    }
  }

  lemma {:induction false} KpiFindingHasSpec(run: string, specs: seq<KpiSpec>, sums: Sums, kpis: Results, x: Finding) returns (i: nat)
    requires x in KpiFindings(run, specs, sums, kpis)
    ensures i < |specs| && specs[i].namespace.Qa? && x == Finding(run, ZeroDenominator, "qa." + specs[i].slug)
  {
    hide DenominatorOf;
    var n := |specs| - 1;
    if x in KpiFindings(run, specs[..n], sums, kpis) {
      i := KpiFindingHasSpec(run, specs[..n], sums, kpis, x);
    } else {
      i := n;
    }
  }

  ghost predicate SlugsDistinct(specs: seq<KpiSpec>) {
    forall i, j | 0 <= i < j < |specs| :: specs[i].namespace == specs[j].namespace ==> specs[i].slug != specs[j].slug
  }

  lemma {:induction false} SamePrefix(p: string, a: string, b: string)
    requires p + a == p + b
    ensures a == b
  {
    assert a == (p + a)[|p|..] && b == (p + b)[|p|..];
  }

  lemma {:induction false} KpiFindingsDistinct(run: string, specs: seq<KpiSpec>, sums: Sums, kpis: Results)
    requires SlugsDistinct(specs)
    ensures Distinct(KpiFindings(run, specs, sums, kpis))
  {
    hide DenominatorOf;
    if specs != [] {
      var n := |specs| - 1;
      KpiFindingsDistinct(run, specs[..n], sums, kpis);
      var x := Finding(run, ZeroDenominator, "qa." + specs[n].slug);
      if specs[n].namespace.Qa? && x in KpiFindings(run, specs[..n], sums, kpis) {
        var i := KpiFindingHasSpec(run, specs[..n], sums, kpis, x);
        SamePrefix("qa.", specs[i].slug, specs[n].slug);
        assert false;
      }
      DistinctSnoc(KpiFindings(run, specs[..n], sums, kpis), x);
    }
  }

  lemma {:induction false} ZeroDenominatorsDistinct(ctx: QaContext)
    ensures Distinct(ZeroDenominators(ctx))
    ensures forall x | x in ZeroDenominators(ctx) :: x.rule == ZeroDenominator
  {
    hide FirstSpecs, KpiFindings, SumsOf, QaKpis, SpecOk;
    TableWellFormed();
    if ctx.facts != [] {
      KpiFindingsDistinct(ctx.run, KPI_SPECS, SumsOf(ctx.facts), QaKpis(SumsOf(ctx.facts)));
      forall x | x in ZeroDenominators(ctx)
        ensures x.rule == ZeroDenominator
      {
        var i := KpiFindingHasSpec(ctx.run, KPI_SPECS, SumsOf(ctx.facts), QaKpis(SumsOf(ctx.facts)), x);
      }
    }
  }

  // ---- the whole list -------------------------------------------------------------------------------------------

  ghost predicate RulesIn(findings: seq<Finding>, rules: set<Rule>) {
    forall x | x in findings :: x.rule in rules
  }

  lemma {:induction false} RulesApart(a: seq<Finding>, b: seq<Finding>, ra: set<Rule>, rb: set<Rule>)
    requires RulesIn(a, ra) && RulesIn(b, rb) && ra !! rb
    ensures Disjoint(a, b)
  {
  }

  lemma {:induction false} RejectRules(ctx: QaContext)
    ensures RulesIn(RejectFindings(ctx.run, RejectPairs(ctx.rejected)), {MissingKey, MissingDate, MalformedId, InvalidNumeric, DuplicateGrain})
    ensures RulesIn(RejectSummary(ctx), {RejectedRows}) && Distinct(RejectSummary(ctx))
  {
    hide RejectPairs, RowKey;
    RejectPairsClean(ctx.rejected);
    var (pairs, fs) := (RejectPairs(ctx.rejected), RejectFindings(ctx.run, RejectPairs(ctx.rejected)));
    forall x | x in fs
      ensures x.rule in {MissingKey, MissingDate, MalformedId, InvalidNumeric, DuplicateGrain}
    {
      var k :| 0 <= k < |fs| && fs[k] == x;
      assert pairs[k] in pairs;
      assert CleanPair(pairs[k]);
    }
  }

  lemma {:induction false} RunRules(ctx: QaContext)
    ensures RulesIn(RunFindings(ctx), {RunFailed, ReconcileFail, UnpublishedOnly}) && Distinct(RunFindings(ctx))
  {
  }

  lemma {:induction false} FactRules(ctx: QaContext, matches: string -> bool)
    ensures RulesIn(FactFindings(ctx, matches, ctx.facts), FACT_RULES)
  {
    hide FactFindings, FactTags, TagKey, FactText;
    FactTagsDistinct();
    forall x | x in FactFindings(ctx, matches, ctx.facts)
      ensures x.rule in FACT_RULES
    {
      var i, t := FindingOfSomeFact(ctx, matches, ctx.facts, x);
    }
  }

  /** The keys of a run's findings are pairwise distinct, so that `assert_unique_qa_finding_keys` accepts
      them, exactly when no two rejected rows share a rule and a row and no two facts clash: for every
      run, whatever its facts are. */
  lemma {:induction false} FindingKeysDistinct(ctx: QaContext, matches: string -> bool)
    ensures Distinct(Findings(ctx, matches)) <==> RejectsDistinct(ctx.rejected) && NoClash(ctx, matches, ctx.facts)
  {
    hide RejectFindings, RejectPairs, RejectSummary, FactFindings, RunFindings, ZeroDenominators, NoClash, RulesIn, Disjoint, Distinct, FirstSpecs;
    var a := RejectFindings(ctx.run, RejectPairs(ctx.rejected));
    var (b, c, d, e) := (RejectSummary(ctx), FactFindings(ctx, matches, ctx.facts), RunFindings(ctx), ZeroDenominators(ctx));
    RejectsRender(ctx.run, RejectPairs(ctx.rejected));
    RejectRules(ctx);
    FactRules(ctx, matches);
    RunRules(ctx);
    FactKeysDistinct(ctx, matches, ctx.facts);
    RejectsApartFromFacts(ctx, matches);
    ZeroRules(ctx);
    FiveParts(a, b, c, d, e);
  }

  /** For facts of distinct campaign, variation and day, with a free separator, only the rejected rows
      matter. */
  lemma {:induction false} CleanFindingKeysDistinct(ctx: QaContext, matches: string -> bool)
    requires GrainsDistinct(ctx.facts) && BarFree(ctx.facts)
    ensures Distinct(Findings(ctx, matches)) <==> RejectsDistinct(ctx.rejected)
  {
    hide Findings, GrainsDistinct, BarFree, NoClash, Distinct, RejectsDistinct;
    CleanFactsDoNotClash(ctx, matches, ctx.facts);
    FindingKeysDistinct(ctx, matches);
  }

  lemma {:induction false} ZeroRules(ctx: QaContext)
    ensures RulesIn(ZeroDenominators(ctx), {ZeroDenominator}) && Distinct(ZeroDenominators(ctx))
  {
    hide ZeroDenominators, FirstSpecs;
    ZeroDenominatorsDistinct(ctx);
  }

  lemma {:induction false} RulesJoin(a: seq<Finding>, b: seq<Finding>, ra: set<Rule>, rb: set<Rule>)
    requires RulesIn(a, ra) && RulesIn(b, rb)
    ensures RulesIn(a + b, ra + rb)
  {
  }

  lemma {:induction false} FiveParts(a: seq<Finding>, b: seq<Finding>, c: seq<Finding>, d: seq<Finding>, e: seq<Finding>)
    requires RulesIn(a, {MissingKey, MissingDate, MalformedId, InvalidNumeric, DuplicateGrain})
    requires RulesIn(b, {RejectedRows}) && RulesIn(c, FACT_RULES) && RulesIn(d, {RunFailed, ReconcileFail, UnpublishedOnly})
    requires RulesIn(e, {ZeroDenominator})
    requires Distinct(b) && Distinct(d) && Distinct(e) && Disjoint(a, c)
    ensures Distinct(a + b + c + d + e) <==> Distinct(a) && Distinct(c)
  {
    hide RulesIn, Distinct, Disjoint;
    var ra := {MissingKey, MissingDate, MalformedId, InvalidNumeric, DuplicateGrain};
    var (rb, rd, re) := ({RejectedRows}, {RunFailed, ReconcileFail, UnpublishedOnly}, {ZeroDenominator});
    RulesApart(a, b, ra, rb);
    RulesJoin(a, b, ra, rb);
    RulesApart(b, c, rb, FACT_RULES);
    JoinDisjoint(a, b, c);
    RulesJoin(a + b, c, ra + rb, FACT_RULES);
    RulesApart(a + b + c, d, ra + rb + FACT_RULES, rd);
    RulesJoin(a + b + c, d, ra + rb + FACT_RULES, rd);
    RulesApart(a + b + c + d, e, ra + rb + FACT_RULES + rd, re);
    DistinctConcat(a, b);
    DistinctConcat(a + b, c);
    DistinctConcat(a + b + c, d);
    DistinctConcat(a + b + c + d, e);
  }

  lemma {:induction false} JoinDisjoint(a: seq<Finding>, b: seq<Finding>, c: seq<Finding>)
    requires Disjoint(a, c) && Disjoint(b, c)
    ensures Disjoint(a + b, c)
  {
  }

  // ---- and where they are not -------------------------------------------------------------------------------------

  /** The key of a fact leaves out its client: two foreign clients' facts of one grain are taken for one
      finding. */
  lemma {:induction false} ClientIsNotInTheKey(f: QaFact, client: string, ctx: QaContext, matches: string -> bool)
    requires f.client != client && Expected(ctx) !in [f.client, client]
    ensures var other := f.(client := client);
            f != other && !Distinct(FactFindings(ctx, matches, [f, other]))
  {
    SharedTextCollides(f, f.(client := client), ctx, matches);
  }

  /** Nor is the separator escaped: with a bar in both parts, different grains can have one text. */
  lemma {:induction false} BarsCollide(f: QaFact, g: QaFact, ctx: QaContext, matches: string -> bool)
    requires f.campaign == "a|b" && f.variation == "c" && g.campaign == "a" && g.variation == "b|c" && f.day == g.day
    requires Expected(ctx) !in [f.client, g.client]
    ensures GrainsDistinct([f, g]) && !Distinct(FactFindings(ctx, matches, [f, g]))
  {
    hide DayText;
    assert f.campaign + "|" + f.variation == g.campaign + "|" + g.variation;
    SharedTextCollides(f, g, ctx, matches);
  }

  lemma {:induction false} SharedTextCollides(f: QaFact, g: QaFact, ctx: QaContext, matches: string -> bool)
    requires f.client != Expected(ctx) && g.client != Expected(ctx) && FactText(f) == FactText(g)
    ensures Clash(ctx, matches, f, g) && !Distinct(FactFindings(ctx, matches, [f, g]))
  {
    hide FactText, Expected;
    var t := Tag(ClientMismatch, []);
    assert RecordTags()[3] == t && FactTags()[3] == t;
    assert Triggered(ctx, matches, f, t) && Triggered(ctx, matches, g, t);
    FactKeysDistinct(ctx, matches, [f, g]);
    assert !NoClash(ctx, matches, [f, g]) by {
      assert [f, g][0] == f && [f, g][1] == g;
    }
  }
}
