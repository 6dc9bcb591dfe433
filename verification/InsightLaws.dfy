/** insights.py: what a change, its category, its score and its place in the list are, in numbers. */
module InsightLaws {
  import opened Prelude
  import opened Facts
  import opened Numbers
  import opened Ordering
  import opened Drill
  import opened Metrics
  import opened Drivers
  import opened Insights
  import opened InsightList
  import DrillLaws
  import KpiDictionary
  import Kpis

  // ---- the change of a metric ---------------------------------------------------------------------

  /** The relative change of two values is over the prior one, half up to six places, and there is none over
      zero: prior times change is the difference, within half a millionth of the prior. */
  lemma {:induction false} PctMeans(now: real, prior: real)
    ensures DeltaPct(Some(now), Some(prior)).None? <==> prior == 0.0
    ensures prior != 0.0 ==>
              var x := DeltaPct(Some(now), Some(prior)).value;
              && HalfUpTo(x, (now - prior) / prior, 1000000.0)
              && Abs(x * prior - (now - prior)) <= 0.0000005 * Abs(prior)
  {
    hide Quantize, HalfUpTo;
    if prior != 0.0 {
      var q := (now - prior) / prior;
      var x := Quantize(q, RATE_UNITS);
      QuantizeIsHalfUp(q, x, RATE_UNITS);
      QuantizeNear(q, RATE_UNITS);
      NearProduct(x, q, prior);
    }
  }

  lemma {:induction false} NearProduct(x: real, q: real, p: real)
    requires -0.0000005 <= x - q <= 0.0000005
    ensures Abs(x * p - q * p) <= 0.0000005 * Abs(p)
  {
    var e := x - q;
    assert x * p - q * p == e * p;
    if p >= 0.0 {
      SameSignProduct(0.0000005 - e, p);
      SameSignProduct(0.0000005 + e, p);
    } else {
      SameSignProduct(0.0000005 - e, -p);
      SameSignProduct(0.0000005 + e, -p);
    }
  }

  /** The absolute change of two values: exact, or for a count its whole part, toward zero. */
  lemma {:induction false} DeltaMeans(s: Metric, now: real, prior: real)
    ensures Delta(s, Some(now), Some(prior)).Some?
    ensures var d := Delta(s, Some(now), Some(prior)).value;
            if s.kind.CountKind? then IsInteger(d) && d * (now - prior) >= 0.0 && Abs(d) <= Abs(now - prior) < Abs(d) + 1.0
            else d == now - prior
  {
    if s.kind.CountKind? {
      WholePart(now - prior);
    }
  }

  lemma {:induction false} WholePart(x: real)
    ensures var d := Truncate(x) as real;
            IsInteger(d) && d * x >= 0.0 && Abs(d) <= Abs(x) < Abs(d) + 1.0
  {
    var d := Truncate(x) as real;
    if x >= 0.0 {
      assert d >= 0.0;
      SameSignProduct(d, x);
    } else {
      assert d <= 0.0;
      SameSignProduct(-d, -x);
      assert d * x == -d * -x;
    }
  }

  lemma {:induction false} SameSignProduct(a: real, b: real)
    requires a >= 0.0 && b >= 0.0
    ensures a * b >= 0.0
  {
  }

  /** A rate needs a denominator of at least one in the window, a ROAS any but zero. */
  predicate CanDivide(s: Metric, sums: Sums) {
    s.source.OfMeasure?
    || (&& s.source.denominator in sums
        && if s.kind.RateKind? then sums[s.source.denominator] >= 1.0 else sums[s.source.denominator] != 0.0)
  }

  /** What a metric reads of a window: the sum of its column, or its KPI as the client dictionary has it. */
  lemma {:induction false} PickMeans(s: Metric, facts: seq<Fact>)
    ensures var v := PickMetric(s, Summary(facts).sums);
            if s.source.OfKpi? then v == KpiDictionary.Reported(Kpis.Client, s.source.slug, Summary(facts).sums)
            else v == if exists f | f in facts :: s.source.m in f.values then Some(ColumnSum(facts, s.source.m)) else None
  {
    hide Summary, ColumnSum;
    if s.source.OfMeasure? {
      SummaryMeans(facts, s.source.m);
    }
  }

  /** What a snapshot holds: the two values; a change exactly when both are there and can be divided by; a
      relative change when, besides, the prior one is not zero. */
  lemma {:induction false} SnapshotMeans(s: Metric, current: Sums, prior: Sums)
    ensures var (snap, now, before) := (SnapshotFor(s, current, prior), PickMetric(s, current), PickMetric(s, prior));
            && snap.current == now && snap.prior == before && snap.metric == s
            && (snap.suppression == Some(InsufficientDenominator) <==> !CanDivide(s, current) || !CanDivide(s, prior))
            && (snap.delta.Some? <==> CanDivide(s, current) && CanDivide(s, prior) && now.Some? && before.Some?)
            && (snap.delta.Some? ==> snap.delta == Delta(s, now, before) && snap.pct == DeltaPct(now, before))
            && (snap.delta.None? ==> snap.pct.None?)
            && (snap.suppression.None? <==> snap.delta.Some? && before.value != 0.0)
  {
    hide PickMetric, Quantize, Change;
  }

  /** From this size on, a rounded relative change reaches a threshold of n millionths. */
  lemma {:induction false} ReachesAt(q: real, n: nat)
    requires n > 0
    ensures Abs(Quantize(q, RATE_UNITS)) >= n as real / 1000000.0 <==> Abs(q) >= (n as real - 0.5) / 1000000.0
  {
    hide Quantize;
    var (x, a) := (q * RATE_UNITS, (n as real - 0.5) / 1000000.0);
    SizeOfQuantized(q, n);
  }

  lemma {:induction false} SizeOfQuantized(q: real, n: int)
    ensures Abs(Quantize(q, RATE_UNITS)) == RoundHalfUp(Abs(q) * RATE_UNITS) as real / RATE_UNITS
    ensures RoundHalfUp(Abs(q) * RATE_UNITS) >= n <==> Abs(q) * RATE_UNITS >= n as real - 0.5
  {
    assert Abs(q) * RATE_UNITS == Abs(q * RATE_UNITS);
  }

  /** How large the difference is, against the prior value. */
  lemma {:induction false} PctReaches(now: real, prior: real, n: nat)
    requires prior != 0.0 && n > 0
    ensures Abs(DeltaPct(Some(now), Some(prior)).value) >= n as real / 1000000.0
            <==> Abs(now - prior) >= (n as real - 0.5) / 1000000.0 * Abs(prior)
  {
    hide Quantize;
    var (q, t) := ((now - prior) / prior, (n as real - 0.5) / 1000000.0);
    ReachesAt(q, n);
    QuotientReaches(now - prior, prior, t);
  }

  lemma {:induction false} QuotientReaches(d: real, p: real, t: real)
    requires p != 0.0
    ensures Abs(d / p) >= t <==> Abs(d) >= t * Abs(p)
  {
    var (a, b, c) := (Abs(d / p), Abs(p), Abs(d));
    AbsQuotient(d, p);
    if a >= t {
      assert (a - t) * b >= 0.0;
    } else {
      assert (t - a) * b > 0.0;
    }
  }

  lemma {:induction false} AbsQuotient(d: real, p: real)
    requires p != 0.0
    ensures Abs(d / p) * Abs(p) == Abs(d)
  {
    var q := d / p;
    assert q * p == d;
    if q >= 0.0 {
      if p > 0.0 { SameSignProduct(q, p); } else { SameSignProduct(q, -p); assert q * -p == -d; }
    } else {
      if p > 0.0 { SameSignProduct(-q, p); assert -q * p == -d; } else { SameSignProduct(-q, -p); assert -q * -p == d; }
    }
  }

  /** Materiality, of the two values alone: both there, over sufficient denominators, the prior not zero, and
      a difference of a tenth of the prior, rounded, and of the kind's smallest change. */
  lemma {:induction false} MaterialMeans(s: Metric, current: Sums, prior: Sums)
    ensures var (now, before) := (PickMetric(s, current), PickMetric(s, prior));
            IsMaterial(SnapshotFor(s, current, prior)) <==>
              && CanDivide(s, current) && CanDivide(s, prior) && now.Some? && before.Some? && before.value != 0.0
              && Abs(now.value - before.value) >= 0.0999995 * Abs(before.value)
              && Abs(now.value - before.value) >= Smallest(s.kind)
  {
    hide PickMetric, Quantize, DeltaPct, Delta, CanDivide, SnapshotFor;
    SnapshotMeans(s, current, prior);
    var (now, before) := (PickMetric(s, current), PickMetric(s, prior));
    if now.Some? && before.Some? {
      PctMeans(now.value, before.value);
      DeltaMeans(s, now.value, before.value);
      WholeReaches(s, now.value, before.value);
      if before.value != 0.0 {
        PctReaches(now.value, before.value, 100000);
      }
    }
  }

  lemma {:induction false} WholeReaches(s: Metric, now: real, prior: real)
    ensures Delta(s, Some(now), Some(prior)).Some?
    ensures Abs(Delta(s, Some(now), Some(prior)).value) >= AbsFloor(s.kind) <==> Abs(now - prior) >= Smallest(s.kind)
    ensures Abs(now - prior) >= Smallest(s.kind) ==> (Delta(s, Some(now), Some(prior)).value > 0.0 <==> now > prior)
  {
  }

  // ---- drafts ---------------------------------------------------------------------------------------

  /** The category of a movement: a change of a quarter of the prior, rounded, is a material change;
      otherwise a rise is a positive signal and a fall a negative one, and the other way round for cost. */
  lemma {:induction false} CategoryMeans(s: Metric, current: Sums, prior: Sums)
    requires IsMaterial(SnapshotFor(s, current, prior))
    ensures PickMetric(s, current).Some? && PickMetric(s, prior).Some?
    ensures var (now, before) := (PickMetric(s, current).value, PickMetric(s, prior).value);
            var draft := MovementDraft(SnapshotFor(s, current, prior));
            && (draft.category.MaterialChange? <==> Abs(now - before) >= 0.2499995 * Abs(before))
            && (draft.category.PositiveSignal? <==> Abs(now - before) < 0.2499995 * Abs(before) && ((now > before) == (s.key != "total_cost")))
            && (draft.category.NegativeSignal? <==> Abs(now - before) < 0.2499995 * Abs(before) && ((now > before) != (s.key != "total_cost")))
            && draft.metric == s.key && draft.related == None && draft.dim == None && draft.drivers == []
            && Some(draft.pct) == SizeOfPct(DeltaPct(Some(now), Some(before)))
            && draft.id == (if draft.category.MaterialChange? then "material_change:" else if draft.category.PositiveSignal? then "positive_signal:"
                            else "negative_signal:") + s.key
  {
    hide PickMetric, Quantize, DeltaPct, Delta, CanDivide, SnapshotFor, Score;
    MaterialMeans(s, current, prior);
    SnapshotMeans(s, current, prior);
    var (now, before) := (PickMetric(s, current).value, PickMetric(s, prior).value);
    WholeReaches(s, now, before);
    PctReaches(now, before, 250000);
  }

  /** A draft's score, as the program's own ranking text gives it: ten thousand times the relative change up
      to 10, a hundred times the change over the size of the prior up to 10, a thousand times the first
      driver's share, and the category's weight. */
  lemma {:induction false} ScoreMeans(c: Category, delta: real, pct: real, prior: real, share: real)
    ensures var over := if prior == 0.0 then Abs(delta) else Abs(delta) / Abs(prior);
            Score(c, delta, pct, prior, share) ==
              (if Abs(pct) > 10.0 then 100000.0 else 10000.0 * Abs(pct))
              + (if over > 10.0 then 1000.0 else 100.0 * over)
              + 1000.0 * share
              + (if c.DriverCategory? then 400.0 else if c.MaterialChange? then 300.0 else if c.NegativeSignal? then 250.0
                 else if c.PositiveSignal? then 200.0 else 150.0)
  {
  }

  function SizeOfPct(pct: Option<real>): Option<real> {
    if pct.None? then None else Some(if pct.value < 0.0 then -pct.value else pct.value)
  }

  /** What a driver draft shows: the first three movers of the best dimension, or all of them, and how many
      there are of how many groups; its share in the score is the first one's. */
  lemma {:induction false} DriverDraftMeans(snap: Snapshot, best: Best)
    requires IsMaterial(snap) && best.same != []
    ensures var draft := DriverDraft(snap, best);
            && draft.category.DriverCategory? && draft.metric == snap.metric.key && draft.dim == Some(best.dim)
            && |draft.drivers| == (if |best.same| < 3 then |best.same| else 3) && draft.drivers <= best.same
            && draft.groups == best.groups && draft.sameGroups == |best.same|
            && draft.score == Score(DriverCategory, snap.delta.value, snap.pct.value, snap.prior.GetOr(0.0), Abs(best.same[0].contribution.GetOr(0.0)))
            && Some(draft.pct) == SizeOfPct(snap.pct)
            && draft.id == "dominant_driver:" + snap.metric.key + ":" + DimKey(best.dim) + ":" + best.same[0].key
    ensures MovementDraft(snap).score == Score(SignedCategory(snap), snap.delta.value, snap.pct.value, snap.prior.GetOr(0.0), 0.0)
  {
    hide Score;
  }

  lemma {:induction false} SnapshotFound(metrics: seq<Metric>, current: Sums, prior: Sums, s: Metric)
    requires s in metrics && forall i, j | 0 <= i < j < |metrics| :: metrics[i].key != metrics[j].key
    ensures SnapshotOf(SnapshotsOf(metrics, current, prior), s.key) == Some(SnapshotFor(s, current, prior))
  {
    hide SnapshotFor;
    var (snaps, init) := (SnapshotsOf(metrics, current, prior), metrics[..|metrics| - 1]);
    var last := metrics[|metrics| - 1];
    SnapshotKeeps(s, current, prior);
    SnapshotKeeps(last, current, prior);
    assert snaps[..|snaps| - 1] == SnapshotsOf(init, current, prior);
    if last.key != s.key {
      assert metrics == init + [last];
      SnapshotFound(init, current, prior, s);
    } else {
      var i :| 0 <= i < |metrics| && metrics[i] == s;
    }
  }

  lemma {:induction false} SnapshotKeeps(s: Metric, current: Sums, prior: Sums)
    ensures SnapshotFor(s, current, prior).metric == s
  {
    hide PickMetric, DeltaPct, Delta;
  }

  ghost predicate Draws(drafts: seq<Draft>, a: string, b: string) {
    exists d | d in drafts :: d.metric == a && d.related == Some(b)
  }

  lemma {:induction false} DrawnFor(snaps: seq<Snapshot>, pairs: seq<(string, string)>, a: string, b: string)
    ensures Draws(RelationshipDrafts(snaps, pairs), a, b) <==> (a, b) in pairs && Opposed(SnapshotOf(snaps, a), SnapshotOf(snaps, b))
  {
    hide Opposed, SnapshotOf, RelationshipDraft;
    if pairs != [] {
      var (init, last) := (pairs[..|pairs| - 1], pairs[|pairs| - 1]);
      assert pairs == init + [last];
      DrawnFor(snaps, init, a, b);
      var (left, right) := (SnapshotOf(snaps, last.0), SnapshotOf(snaps, last.1));
      if Opposed(left, right) {
        OpposedAreMaterial(left, right);
        SnapshotKey(snaps, last.0);
        SnapshotKey(snaps, last.1);
        RelationshipDraftMeans(left.value, right.value);
        DrawsOneMore(RelationshipDrafts(snaps, init), RelationshipDraft(left.value, right.value), a, b);
      } else {
        assert RelationshipDrafts(snaps, pairs) == RelationshipDrafts(snaps, init) + [] == RelationshipDrafts(snaps, init);
      }
    }
  }

  lemma {:induction false} DrawsOneMore(drafts: seq<Draft>, d: Draft, a: string, b: string)
    ensures Draws(drafts + [d], a, b) <==> Draws(drafts, a, b) || (d.metric == a && d.related == Some(b))
  {
    assert forall e :: e in drafts + [d] <==> e in drafts || e == d;
  }

  lemma {:induction false} SnapshotKey(snaps: seq<Snapshot>, key: string)
    ensures SnapshotOf(snaps, key).Some? ==> SnapshotOf(snaps, key).value.metric.key == key
  {
    if snaps != [] {
      SnapshotKey(snaps[..|snaps| - 1], key);
    }
  }

  /** What a relationship draft shows: the two metrics, the change of the first, and in its score the larger of
      the two relative changes. */
  lemma {:induction false} RelationshipDraftMeans(left: Snapshot, right: Snapshot)
    requires IsMaterial(left) && IsMaterial(right)
    ensures var (draft, l, r) := (RelationshipDraft(left, right), SizeOfPct(left.pct).GetOr(0.0), SizeOfPct(right.pct).GetOr(0.0));
            && draft.category.Relationship? && draft.metric == left.metric.key && draft.related == Some(right.metric.key)
            && draft.dim == None && draft.drivers == [] && draft.pct == l
            && draft.score == Score(Relationship, left.delta.value, if l >= r then l else r, left.prior.GetOr(0.0), 0.0)
            && draft.id == "relationship:" + left.metric.key + ":" + right.metric.key
  {
    hide Score;
  }

  lemma {:induction false} PairsAre(a: string, b: string)
    ensures (a, b) in RELATIONSHIP_PAIRS <==> (a == "revenue_inr" && b == "overall_roas") || (a == "delivered" && b == "delivery_rate")
  {
    var (p, q) := (("revenue_inr", "overall_roas"), ("delivered", "delivery_rate"));
    assert RELATIONSHIP_PAIRS == [p, q];
    assert p in [p, q] && q in [p, q];
  }

  /** A relationship is drawn between revenue and ROAS, and between deliveries and their rate, exactly when
      both move materially and one rises while the other falls. */
  lemma {:induction false} RelationshipMeans(metrics: seq<Metric>, current: Sums, prior: Sums, left: Metric, right: Metric)
    requires left in metrics && right in metrics && forall i, j | 0 <= i < j < |metrics| :: metrics[i].key != metrics[j].key
    ensures Draws(RelationshipDrafts(SnapshotsOf(metrics, current, prior), RELATIONSHIP_PAIRS), left.key, right.key)
            <==> && ( || (left.key == "revenue_inr" && right.key == "overall_roas")
                     || (left.key == "delivered" && right.key == "delivery_rate"))
                 && IsMaterial(SnapshotFor(left, current, prior)) && IsMaterial(SnapshotFor(right, current, prior))
                 && (PickMetric(left, current).GetOr(0.0) > PickMetric(left, prior).GetOr(0.0)) !=
                    (PickMetric(right, current).GetOr(0.0) > PickMetric(right, prior).GetOr(0.0))
  {
    hide SnapshotFor, IsMaterial, PickMetric, SnapshotOf, RelationshipDraft, SnapshotsOf, Opposed;
    var snaps := SnapshotsOf(metrics, current, prior);
    SnapshotFound(metrics, current, prior, left);
    SnapshotFound(metrics, current, prior, right);
    OpposedMeans(left, right, current, prior);
    DrawnFor(snaps, RELATIONSHIP_PAIRS, left.key, right.key);
    PairsAre(left.key, right.key);
  }

  /** Opposite movements, of the four values. */
  lemma {:induction false} OpposedMeans(left: Metric, right: Metric, current: Sums, prior: Sums)
    ensures Opposed(Some(SnapshotFor(left, current, prior)), Some(SnapshotFor(right, current, prior))) <==>
              && IsMaterial(SnapshotFor(left, current, prior)) && IsMaterial(SnapshotFor(right, current, prior))
              && (PickMetric(left, current).GetOr(0.0) > PickMetric(left, prior).GetOr(0.0)) !=
                 (PickMetric(right, current).GetOr(0.0) > PickMetric(right, prior).GetOr(0.0))
  {
    hide PickMetric, SnapshotFor, IsMaterial;
    if IsMaterial(SnapshotFor(left, current, prior)) && IsMaterial(SnapshotFor(right, current, prior)) {
      RisesAre(left, current, prior);
      RisesAre(right, current, prior);
    }
  }

  lemma {:induction false} RisesAre(s: Metric, current: Sums, prior: Sums)
    requires IsMaterial(SnapshotFor(s, current, prior))
    ensures var (snap, now, before) := (SnapshotFor(s, current, prior), PickMetric(s, current), PickMetric(s, prior));
            snap.delta.Some? && now.Some? && before.Some? && (snap.delta.value > 0.0 <==> now.value > before.value)
  {
    hide PickMetric, DeltaPct, Delta, CanDivide, SnapshotFor;
    MaterialMeans(s, current, prior);
    SnapshotMeans(s, current, prior);
    WholeReaches(s, PickMetric(s, current).value, PickMetric(s, prior).value);
  }

  // ---- the list --------------------------------------------------------------------------------------

  ghost predicate IsMovement(d: Draft, snap: Snapshot) {
    IsMaterial(snap) && d == MovementDraft(snap)
  }

  ghost predicate IsDriver(d: Draft, snap: Snapshot, grouped: seq<Grouping>) {
    IsMaterial(snap)
    && var best := DominantDriver(snap.metric, snap, grouped);
       best.Some? && best.value.same != [] && d == DriverDraft(snap, best.value)
  }

  ghost predicate IsRelationship(d: Draft, left: Option<Snapshot>, right: Option<Snapshot>) {
    Opposed(left, right) && d == RelationshipDraft(left.value, right.value)
  }

  /** The drafts are exactly these: the movement of each metric that moves materially, its dominant driver if
      there is one, and the relationships of the pairs that move apart. */
  lemma {:induction false} DraftsAre(metrics: seq<Metric>, current: Sums, prior: Sums, grouped: seq<Grouping>, d: Draft)
    ensures var snaps := SnapshotsOf(metrics, current, prior);
            d in Drafts(metrics, current, prior, grouped) <==>
              || (exists s | s in metrics :: IsMovement(d, SnapshotFor(s, current, prior)) || IsDriver(d, SnapshotFor(s, current, prior), grouped))
              || (exists p | p in RELATIONSHIP_PAIRS :: IsRelationship(d, SnapshotOf(snaps, p.0), SnapshotOf(snaps, p.1)))
  {
    hide SnapshotFor, IsMovement, IsDriver, IsRelationship, DraftsOf, RelationshipDrafts, SnapshotOf;
    var snaps := SnapshotsOf(metrics, current, prior);
    MetricDraftsAre(snaps, grouped, d);
    RelationshipsAre(snaps, RELATIONSHIP_PAIRS, d);
    forall s | s in metrics
      ensures SnapshotFor(s, current, prior) in snaps
    {
      var i :| 0 <= i < |metrics| && metrics[i] == s;
      assert snaps[i] == SnapshotFor(s, current, prior);
    }
  }

  lemma {:induction false} MetricDraftsAre(snaps: seq<Snapshot>, grouped: seq<Grouping>, d: Draft)
    ensures d in DraftsOf(snaps, grouped) <==> exists snap | snap in snaps :: IsMovement(d, snap) || IsDriver(d, snap, grouped)
  {
    hide IsMaterial, DominantDriver, MovementDraft, DriverDraft;
    if snaps != [] {
      var (init, last) := (snaps[..|snaps| - 1], snaps[|snaps| - 1]);
      assert snaps == init + [last];
      MetricDraftsAre(init, grouped, d);
      assert d in MetricDrafts(last, grouped) <==> IsMovement(d, last) || IsDriver(d, last, grouped);
    }
  }

  lemma {:induction false} RelationshipsAre(snaps: seq<Snapshot>, pairs: seq<(string, string)>, d: Draft)
    ensures d in RelationshipDrafts(snaps, pairs) <==> exists p | p in pairs :: IsRelationship(d, SnapshotOf(snaps, p.0), SnapshotOf(snaps, p.1))
  {
    hide Opposed, SnapshotOf, RelationshipDraft;
    if pairs != [] {
      var (init, last) := (pairs[..|pairs| - 1], pairs[|pairs| - 1]);
      assert pairs == init + [last];
      RelationshipsAre(snaps, init, d);
      if Opposed(SnapshotOf(snaps, last.0), SnapshotOf(snaps, last.1)) {
        OpposedAreMaterial(SnapshotOf(snaps, last.0), SnapshotOf(snaps, last.1));
      }
    }
  }

  /** The larger score first; then the larger relative change, the metric, the category and the id. */
  ghost predicate RanksBefore(a: Draft, b: Draft) {
    && a.score >= b.score
    && (a.score == b.score ==> a.pct >= b.pct)
    && (a.score == b.score && a.pct == b.pct ==> StringLe(a.metric, b.metric))
    && (a.score == b.score && a.pct == b.pct && a.metric == b.metric ==> StringLe(NameOf(a.category), NameOf(b.category)))
    && (a.score == b.score && a.pct == b.pct && a.metric == b.metric && a.category == b.category ==> StringLe(a.id, b.id))
  }

  lemma {:induction false} BeforeRanks(a: Draft, b: Draft)
    requires DraftBefore(a, b)
    ensures RanksBefore(a, b)
  {
    hide NameOf;
    StringLeTotal(a.metric, a.metric);
    StringLeTotal(NameOf(a.category), NameOf(a.category));
  }

  /** What is shown and what is cut off are the drafts, each once; as many are shown as the limit allows; and
      they are in order, every one of them before every one cut off. */
  lemma {:induction false} ListedAreRanked(metrics: seq<Metric>, current: Sums, prior: Sums, grouped: seq<Grouping>, limit: nat) returns (cut: seq<Draft>)
    ensures var (drafts, shown) := (Drafts(metrics, current, prior, grouped), Listed(metrics, current, prior, grouped, limit));
            && multiset(shown) + multiset(cut) == multiset(drafts)
            && |shown| == (if |drafts| <= limit then |drafts| else limit)
            && (forall i, j | 0 <= i < j < |shown| :: RanksBefore(shown[i], shown[j]))
            && (forall a, b | a in shown && b in cut :: RanksBefore(a, b))
  {
    hide Drafts, Sort, DraftBefore, RanksBefore;
    var drafts := Drafts(metrics, current, prior, grouped);
    var ranked := Sort(drafts, DraftBefore);
    DraftBeforeIsTotal();
    SortSorts(drafts, DraftBefore);
    SortElements(drafts, DraftBefore);
    SameLength(ranked, drafts);
    var k := if |ranked| <= limit then |ranked| else limit;
    cut := ranked[k..];
    assert ranked == ranked[..k] + cut && ranked[..k] == Listed(metrics, current, prior, grouped, limit);
    CutInOrder(ranked, k);
  }

  lemma {:induction false} CutInOrder(ranked: seq<Draft>, k: nat)
    requires k <= |ranked| && forall i, j | 0 <= i < j < |ranked| :: DraftBefore(ranked[i], ranked[j])
    ensures forall i, j | 0 <= i < j < k :: RanksBefore(ranked[..k][i], ranked[..k][j])
    ensures forall a, b | a in ranked[..k] && b in ranked[k..] :: RanksBefore(a, b)
  {
    hide DraftBefore, RanksBefore;
    forall i, j | 0 <= i < j < |ranked|
      ensures RanksBefore(ranked[i], ranked[j])
    {
      BeforeRanks(ranked[i], ranked[j]);
    }
    forall a, b | a in ranked[..k] && b in ranked[k..]
      ensures RanksBefore(a, b)
    {
      var i :| 0 <= i < k && ranked[..k][i] == a;
      var j :| 0 <= j < |ranked| - k && ranked[k..][j] == b;
      assert ranked[i] == a && ranked[k + j] == b;
    }
  }

  lemma {:induction false} SameLength(a: seq<Draft>, b: seq<Draft>)
    requires multiset(a) == multiset(b)
    ensures |a| == |b|
  {
    assert |multiset(a)| == |a| && |multiset(b)| == |b|;
  }

  // ---- drivers -----------------------------------------------------------------------------------------

  /** The metric of one group in one window: zero when no fact is in the group, NULL when all are NULL. */
  function GroupAmount(facts: seq<Fact>, dim: Dim, k: string, m: Measure): Option<real> {
    if Pick(facts, ValueKey(dim), k) == [] then Some(0.0) else Lookup(Summary(Pick(facts, ValueKey(dim), k)).sums, m)
  }

  lemma {:induction false} GroupOfWindow(s: Metric, facts: seq<Fact>, dim: Dim, k: string)
    requires s.source.OfMeasure?
    ensures GroupValue(s, MapOf(Groups(facts, dim)), k) == GroupAmount(facts, dim, k, s.source.m)
    ensures var groups := MapOf(Groups(facts, dim));
            (if k in groups then groups[k].row.count else 0) == |Pick(facts, ValueKey(dim), k)|
  {
    hide Groups, MapOf, HasValue, Summary, Drill.Value;
    WindowMap(facts, dim, k);
    SummaryCount(Pick(facts, ValueKey(dim), k));
    if HasValue(facts, dim, k) {
      ValueIsPicked(facts, dim, k);
    }
  }

  lemma {:induction false} ValueIsPicked(facts: seq<Fact>, dim: Dim, k: string)
    requires HasValue(facts, dim, k)
    ensures Pick(facts, ValueKey(dim), k) != []
  {
    hide Drill.Value;
    var f :| f in facts && Drill.Value(f, dim) == k;
    assert f in Pick(facts, ValueKey(dim), k);
  }

  /** What a driver says of its group, for every additive metric and all windows: the amounts and row counts
      of the group's facts, their change, and its rounded share of the total, present when both amounts are. */
  lemma {:induction false} DriverMeans(s: Metric, c: seq<Fact>, p: seq<Fact>, dim: Dim, total: real, k: string)
    requires s.source.OfMeasure? && total != 0.0
    ensures var d := DriverOf(s, MapOf(Groups(c, dim)), MapOf(Groups(p, dim)), total, k);
            && d.key == k
            && d.current == GroupAmount(c, dim, k, s.source.m) && d.prior == GroupAmount(p, dim, k, s.source.m)
            && d.count == |Pick(c, ValueKey(dim), k)| && d.priorCount == |Pick(p, ValueKey(dim), k)|
            && (d.delta.Some? <==> d.current.Some? && d.prior.Some?)
            && (d.contribution.Some? <==> d.delta.Some?)
            && (d.delta.Some? ==> d.delta == Delta(s, d.current, d.prior) && HalfUpTo(d.contribution.value, d.delta.value / total, 1000000.0))
            && d.pct == DeltaPct(d.current, d.prior)
  {
    hide Groups, MapOf, GroupAmount, GroupValue, TitleOf, DeltaPct, Change, Pick, HalfUpTo, Quantize;
    GroupOfWindow(s, c, dim, k);
    GroupOfWindow(s, p, dim, k);
    var d := DriverOf(s, MapOf(Groups(c, dim)), MapOf(Groups(p, dim)), total, k);
    if d.delta.Some? {
      QuantizeIsHalfUp(d.delta.value / total, Quantize(d.delta.value / total, RATE_UNITS), RATE_UNITS);
    }
  }

  /** A driver goes by its group's title in the current window, and by the earlier one's when it is gone. */
  lemma {:induction false} DriverTitleMeans(s: Metric, c: seq<Fact>, p: seq<Fact>, dim: Dim, total: real, k: string)
    ensures var d := DriverOf(s, MapOf(Groups(c, dim)), MapOf(Groups(p, dim)), total, k);
            && (HasValue(c, dim, k) ==> d.title == LastLabel(c, dim, k))
            && (!HasValue(c, dim, k) && HasValue(p, dim, k) ==> d.title == LastLabel(p, dim, k))
  {
    hide Groups, MapOf, GroupValue, DeltaPct, Delta, LastLabel, HasValue, SafeDivide;
    WindowMap(c, dim, k);
    WindowMap(p, dim, k);
    if HasValue(c, dim, k) {
      LabelIsLong(c, dim, k);
    } else if HasValue(p, dim, k) {
      LabelIsLong(p, dim, k);
    }
  }

  lemma {:induction false} LabelIsLong(facts: seq<Fact>, dim: Dim, k: string)
    requires HasValue(facts, dim, k)
    ensures LastLabel(facts, dim, k) != ""
  {
    hide Drill.Value, Label;
    var last := facts[|facts| - 1];
    if Drill.Value(last, dim) == k {
      DrillLaws.CalledIsLabel(last, dim);
      CalledIsLong(last, dim);
    } else {
      var f :| f in facts && Drill.Value(f, dim) == k;
      assert f in facts[..|facts| - 1];
      LabelIsLong(facts[..|facts| - 1], dim, k);
    }
  }

  lemma {:induction false} CalledIsLong(f: Fact, dim: Dim)
    ensures DrillLaws.Called(f, dim) != ""
  {
  }

  /** Drivers are listed by the size of their share, then of their change, then by key from the last; those
      that count move the same way as the total. */
  lemma {:induction false} DriversInOrder(s: Metric, current: seq<GroupRow>, prior: seq<GroupRow>, total: real)
    requires total != 0.0
    ensures var rows := DriverRows(s, current, prior, total);
            && (forall i, j | 0 <= i < j < |rows| ::
                  && Share(rows[i]) >= Share(rows[j])
                  && (Share(rows[i]) == Share(rows[j]) ==> Size(rows[i]) >= Size(rows[j]))
                  && (Share(rows[i]) == Share(rows[j]) && Size(rows[i]) == Size(rows[j]) ==> StringLe(rows[j].key, rows[i].key)))
            && (forall d :: d in SameSign(rows, total) <==>
                  d in rows && d.delta.Some? && d.contribution.Some? && ((d.delta.value > 0.0 && total > 0.0) || (d.delta.value < 0.0 && total < 0.0)))
  {
    hide DriverRows, StringLe, WellShared, SizeOf;
    RowsAreShared(s, current, prior, total);
    var rows := DriverRows(s, current, prior, total);
    forall i, j | 0 <= i < j < |rows|
      ensures DriverBefore(rows[i], rows[j])
    {
    }
    SharesAreSizes();
  }

  /** The size of a driver's share, and of its change; zero when there is none. */
  function Share(d: Driver): real {
    if d.contribution.None? then 0.0 else if d.contribution.value < 0.0 then -d.contribution.value else d.contribution.value
  }

  function Size(d: Driver): real {
    if d.delta.None? then 0.0 else if d.delta.value < 0.0 then -d.delta.value else d.delta.value
  }

  lemma {:induction false} SharesAreSizes()
    ensures forall d: Driver :: SizeOf(d.contribution) == Share(d) && SizeOf(d.delta) == Size(d)
  {
  }
}
