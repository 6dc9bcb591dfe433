/** anomalies.py: the median, the conditions of an anomaly and its severity, in numbers. */
module AnomalyLaws {
  import opened Prelude
  import opened Facts
  import opened Numbers
  import opened Ordering
  import opened Metrics
  import opened Anomalies
  import InsightLaws

  // ---- the median -------------------------------------------------------------------------------------

  /** The value that i values precede in order: at most i are smaller, and more than i are no larger. */
  predicate IsRanked(values: seq<real>, v: real, i: nat) {
    && v in values
    && CountWhere(values, (x: real) => x < v) <= i < CountWhere(values, (x: real) => x <= v)
  }

  lemma {:induction false} SortedRank(values: seq<real>, i: nat)
    requires i < |values|
    ensures |Sort(values, RealLe)| == |values| && IsRanked(values, Sort(values, RealLe)[i], i)
  {
    hide Sort;
    var ordered := Sort(values, RealLe);
    RealLeIsTotalOrder();
    SortSorts(values, RealLe);
    SortElements(values, RealLe);
    InSort(values, RealLe);
    SameCount(ordered, values);
    var v := ordered[i];
    assert v in ordered;
    CountSort(values, (x: real) => x < v);
    CountSort(values, (x: real) => x <= v);
    FewBelow(ordered, i);
    ManyUpTo(ordered, i);
  }

  lemma {:induction false} SameCount(a: seq<real>, b: seq<real>)
    requires multiset(a) == multiset(b)
    ensures |a| == |b|
  {
    assert |multiset(a)| == |a| && |multiset(b)| == |b|;
  }

  lemma {:induction false} FewBelow(ordered: seq<real>, i: nat)
    requires Sorted(ordered, RealLe) && i < |ordered|
    ensures CountWhere(ordered, (x: real) => x < ordered[i]) <= i
  {
    forall j | i <= j < |ordered|
      ensures ordered[i] <= ordered[j]
    {
      if i < j {
        assert RealLe(ordered[i], ordered[j]);
      }
    }
    NoneFrom(ordered, (x: real) => x < ordered[i], i);
  }

  lemma {:induction false} NoneFrom(s: seq<real>, p: real -> bool, i: nat)
    requires forall j | i <= j < |s| :: !p(s[j])
    ensures CountWhere(s, p) <= i
  {
    if s != [] {
      NoneFrom(s[1..], p, if i > 0 then i - 1 else 0);
    }
  }

  lemma {:induction false} ManyUpTo(ordered: seq<real>, i: nat)
    requires Sorted(ordered, RealLe) && i < |ordered|
    ensures CountWhere(ordered, (x: real) => x <= ordered[i]) > i
  {
    forall j | 0 <= j < i + 1
      ensures ordered[j] <= ordered[i]
    {
      if j < i {
        assert RealLe(ordered[j], ordered[i]);
      }
    }
    CountAll(ordered, (x: real) => x <= ordered[i], 0, i + 1);
  }

  /** Halfway between the two values in the middle. */
  predicate Halfway(values: seq<real>, lo: real, hi: real, m: real)
    requires |values| > 1
  {
    IsRanked(values, lo, |values| / 2 - 1) && IsRanked(values, hi, |values| / 2) && m == (lo + hi) / 2.0
  }

  /** The median is the middle value, or halfway between the two in the middle. */
  lemma {:induction false} MedianMeans(values: seq<real>)
    ensures Median(values).None? <==> values == []
    ensures |values| % 2 == 1 ==> IsRanked(values, Median(values).value, |values| / 2)
    ensures values != [] && |values| % 2 == 0 ==>
              exists lo, hi :: Halfway(values, lo, hi, Median(values).value)
  {
    hide Sort, IsRanked;
    if values != [] {
      SortedRank(values, |values| / 2);
      if |values| % 2 == 0 {
        SortedRank(values, |values| / 2 - 1);
        var ordered := Sort(values, RealLe);
        assert Halfway(values, ordered[|values| / 2 - 1], ordered[|values| / 2], Median(values).value);
      }
    }
  }

  /** The spread of a baseline is the median of the distances from its median. */
  lemma {:induction false} SpreadMeans(values: seq<real>, median: real)
    ensures |Deviations(values, median)| == |values|
    ensures forall i | 0 <= i < |values| :: Deviations(values, median)[i] == if values[i] >= median then values[i] - median else median - values[i]
    ensures values != [] ==> Median(Deviations(values, median)) == Some(Mad(values, median))
  {
    hide Median;
    DistancesAre(values, median);
    if values != [] {
      MedianExists(Deviations(values, median));
    }
  }

  lemma {:induction false} DistancesAre(values: seq<real>, median: real)
    ensures |Deviations(values, median)| == |values|
    ensures forall i | 0 <= i < |values| :: Deviations(values, median)[i] == if values[i] >= median then values[i] - median else median - values[i]
  {
    if values != [] {
      DistancesAre(values[1..], median);
    }
  }

  // ---- when a month is anomalous -----------------------------------------------------------------------------

  /** The month is below every month of the baseline, or above every one. */
  predicate Beyond(current: real, baseline: seq<real>) {
    (forall x | x in baseline :: current < x) || (forall x | x in baseline :: current > x)
  }

  lemma {:induction false} BeyondIsExtreme(current: real, baseline: seq<real>)
    requires baseline != []
    ensures Beyond(current, baseline) <==> current < Least(baseline) || current > Greatest(baseline)
  {
    hide Least, Greatest;
  }

  /** The change that matters at all: five of money or of a count, a twentieth of a rate, a quarter of a ROAS. */
  function Noticed(kind: Kind): real {
    if kind.RateKind? then 0.05 else if kind.RoasKind? then 0.25 else 5.0
  }

  /** The change that a sudden spike or drop needs. */
  function NoticedAtOnce(kind: Kind): real {
    if kind.RateKind? then 0.1 else if kind.RoasKind? then 0.5 else 5.0
  }

  /** The baseline spreads widely enough for a score, and the month is three and a half deviations away. */
  predicate FarOut(s: Metric, current: real, median: real, mad: real) {
    && mad >= Noticed(s.kind) && mad >= 0.05 * Abs(median)
    && 0.6745 * Abs(current - median) >= 3.49995 * mad
  }

  /** Beyond the baseline, by half of its median unless it is a rate, and by enough. */
  predicate Jumps(s: Metric, current: real, median: real, baseline: seq<real>) {
    && Beyond(current, baseline)
    && (s.kind.RateKind? || (median != 0.0 && Abs(current - median) >= 0.4999995 * Abs(median)))
    && Abs(current - median) >= NoticedAtOnce(s.kind)
  }

  lemma {:induction false} ChangeReaches(s: Metric, x: real)
    ensures Abs(Change(s, x)) >= AbsFloor(s.kind) <==> Abs(x) >= Noticed(s.kind)
    ensures Abs(Change(s, x)) >= NonZAbs(s.kind) <==> Abs(x) >= NoticedAtOnce(s.kind)
  {
  }

  /** A score is the distance from the median in deviations, times 0.6745, to four places. */
  lemma {:induction false} ZReaches(current: real, median: real, mad: real)
    requires mad > 0.0
    ensures Abs(ZScore(current, median, mad)) >= 3.5 <==> 0.6745 * Abs(current - median) >= 3.49995 * mad
  {
    hide RoundHalfEven;
    var y := MAD_SCALE * (current - median) / mad * Z_UNITS;
    EvenReaches(y);
    ScaledSize(current - median, mad);
    assert Abs(ZScore(current, median, mad)) == Abs(RoundHalfEven(y) as real) / 10000.0;
  }

  lemma {:induction false} EvenReaches(y: real)
    ensures Abs(RoundHalfEven(y) as real) >= 35000.0 <==> Abs(y) >= 34999.5
  {
  }

  lemma {:induction false} ScaledSize(d: real, mad: real)
    requires mad > 0.0
    ensures Abs(MAD_SCALE * d / mad * Z_UNITS) >= 34999.5 <==> 0.6745 * Abs(d) >= 3.49995 * mad
  {
    var q := MAD_SCALE * d / mad;
    InsightLaws.QuotientReaches(MAD_SCALE * d, mad, 3.49995);
    assert Abs(q * Z_UNITS) == Abs(q) * Z_UNITS;
    assert Abs(MAD_SCALE * d) == 0.6745 * Abs(d);
  }

  /** Half to even, the rounding of the score: the nearest whole number, and the even one on a tie. */
  lemma {:induction false} HalfEvenMeans(x: real, n: int)
    ensures RoundHalfEven(x) == n <==>
            n as real - 0.5 <= x <= n as real + 0.5 && (x == n as real - 0.5 || x == n as real + 0.5 ==> n % 2 == 0)
  {
  }

  /** The score is n ten-thousandths, the nearest, and even on a tie. */
  predicate IsScore(n: int, z: real, current: real, median: real, mad: real)
    requires mad > 0.0
  {
    var exact := 6745.0 * (current - median) / mad;
    && z == n as real / 10000.0 && n as real - 0.5 <= exact <= n as real + 0.5
    && (exact == n as real - 0.5 || exact == n as real + 0.5 ==> n % 2 == 0)
  }

  lemma {:induction false} ScoreIs(current: real, median: real, mad: real)
    requires mad > 0.0
    ensures exists n: int :: IsScore(n, ZScore(current, median, mad), current, median, mad)
  {
    var exact := MAD_SCALE * (current - median) / mad * Z_UNITS;
    assert exact == 6745.0 * (current - median) / mad;
    var n := RoundHalfEven(exact);
    HalfEvenMeans(exact, n);
    assert IsScore(n, ZScore(current, median, mad), current, median, mad);
  }

  /** When a month is anomalous against a baseline, of the numbers alone: it differs enough from the median,
      and either lies far out against the spread, or jumps beyond every month of the baseline. */
  lemma {:induction false} ClassifyMeans(s: Metric, current: real, baseline: seq<real>)
    requires baseline != []
    ensures Median(baseline).Some?
    ensures var (v, median) := (Classify(s, current, baseline), Median(baseline).value);
            var mad := Mad(baseline, median);
            && (v.Some? <==> Abs(current - median) >= Noticed(s.kind) && (FarOut(s, current, median, mad) || Jumps(s, current, median, baseline)))
            && (v.Some? ==>
                  && (v.value.kind.Rolling? <==> FarOut(s, current, median, mad))
                  && v.value.median == median && v.value.pct == DeltaPct(Some(current), Some(median))
                  && (v.value.newExtreme <==> Beyond(current, baseline))
                  && v.value.mad == mad && (v.value.madOk <==> mad >= Noticed(s.kind) && mad >= 0.05 * Abs(median))
                  && (v.value.z.Some? <==> v.value.madOk)
                  && (v.value.z.Some? ==> mad > 0.0 && exists n: int :: IsScore(n, v.value.z.value, current, median, mad)))
  {
    hide Median, Mad, Least, Greatest, ZScore, DeltaPct, Change, Beyond, AbsFloor, NonZAbs, Noticed, NoticedAtOnce;
    MedianExists(baseline);
    var median := Median(baseline).value;
    var mad := Mad(baseline, median);
    BeyondIsExtreme(current, baseline);
    ChangeReaches(s, current - median);
    FloorsAre(s.kind);
    if mad >= Noticed(s.kind) {
      ZReaches(current, median, mad);
      ScoreIs(current, median, mad);
    }
    InsightLaws.PctMeans(current, median);
    if median != 0.0 {
      InsightLaws.PctReaches(current, median, 500000);
    }
  }

  lemma {:induction false} FloorsAre(kind: Kind)
    ensures AbsFloor(kind) == Noticed(kind) > 0.0 && NonZAbs(kind) == NoticedAtOnce(kind)
  {
  }

  /** Which months are looked at: there are three or more before, and three or more of them have a value over
      a sufficient denominator, as the month itself must. */
  lemma {:induction false} AnomalyNeeds(s: Metric, current: Sums, baseline: seq<Sums>)
    ensures var (now, values) := (Observe(s, current), Observed(s, baseline));
            && (now.Some? <==> InsightLaws.CanDivide(s, current) && PickMetric(s, current).Some?)
            && (now.Some? ==> now == PickMetric(s, current))
            && (AnomalyOf(s, current, baseline).Some? <==>
                  now.Some? && |values| >= 3 && Classify(s, now.value, values).Some?)
            && (AnomalyOf(s, current, baseline).Some? ==>
                  var a := AnomalyOf(s, current, baseline).value;
                  && a.verdict == Classify(s, now.value, values).value
                  && Some(a.delta) == Delta(s, now, Some(a.verdict.median))
                  && a.score == SeverityScore(a.verdict.z, a.verdict.pct, a.delta, a.verdict.median, a.verdict.newExtreme)
                  && a.severity == SeverityOf(a.score))
  {
    hide PickMetric, Classify, SeverityScore, SeverityOf, Change;
    FewerObserved(s, baseline);
  }

  /** The values observed are those of the months that have one over a sufficient denominator, in order. */
  lemma {:induction false} ObservedAre(s: Metric, months: seq<Sums>, next: Sums)
    ensures Observed(s, []) == []
    ensures Observed(s, months + [next]) ==
            Observed(s, months) + if InsightLaws.CanDivide(s, next) && PickMetric(s, next).Some? then [PickMetric(s, next).value] else []
  {
    hide PickMetric;
    assert (months + [next])[..|months|] == months;
  }

  lemma {:induction false} FewerObserved(s: Metric, months: seq<Sums>)
    ensures |Observed(s, months)| <= |months|
    ensures forall x | x in Observed(s, months) :: exists i :: 0 <= i < |months| && Observe(s, months[i]) == Some(x)
  {
    hide Observe;
    if months != [] {
      FewerObserved(s, months[..|months| - 1]);
    }
  }

  // ---- severity ------------------------------------------------------------------------------------------------

  /** The part of a severity that a size contributes: in proportion to a threshold, up to three times it. */
  function Part(size: real, threshold: real, points: real): real
    requires threshold > 0.0
  {
    if size >= 3.0 * threshold then 3.0 * points else points * size / threshold
  }

  lemma {:induction false} PartIs(x: real, d: real, points: real)
    requires d > 0.0
    ensures Min(Abs(x) / d, 3.0) * points == Part(Abs(x), d, points)
  {
    InsightLaws.QuotientReaches(x, d, 3.0);
    var q := Abs(x) / d;
    AbsOver(x, d);
    assert q * points == points * Abs(x) / d;
  }

  lemma {:induction false} AbsOver(x: real, d: real)
    requires d > 0.0
    ensures Abs(x / d) == Abs(x) / d
  {
    InsightLaws.AbsQuotient(x, d);
    var a := Abs(x / d);
    assert a * d == Abs(x);
  }

  function Points(z: Option<real>, pct: Option<real>, delta: real, median: real, extreme: bool): real {
    Part(Abs(z.GetOr(0.0)), 3.5, 40.0) + Part(Abs(pct.GetOr(0.0)), 0.5, 30.0)
    + (if median == 0.0 then Part(Abs(delta), 1.0, 10.0) else Part(Abs(delta), Abs(median), 10.0))
    + (if extreme then 15.0 else 0.0)
  }

  lemma {:induction false} ScoreIsPoints(z: Option<real>, pct: Option<real>, delta: real, median: real, extreme: bool)
    ensures SeverityScore(z, pct, delta, median, extreme) == Min(100.0, Points(z, pct, delta, median, extreme))
  {
    hide Abs, Part, Min;
    PartIs(z.GetOr(0.0), 3.5, 40.0);
    PartIs(pct.GetOr(0.0), 0.5, 30.0);
    AbsPositive(median);
    PartIs(delta, if median != 0.0 then Abs(median) else 1.0, 10.0);
  }

  /** Severity: forty points for a score at its threshold, thirty for a relative change of a half, ten for a
      change as large as the median, each in proportion up to three times that; fifteen for leaving the
      baseline; a hundred at most.  High from 75 on, medium from 50 on. */
  lemma {:induction false} SeverityMeans(z: Option<real>, pct: Option<real>, delta: real, median: real, extreme: bool)
    ensures var (score, points) := (SeverityScore(z, pct, delta, median, extreme), Points(z, pct, delta, median, extreme));
            && score == (if points > 100.0 then 100.0 else points)
            && (SeverityOf(score).High? <==> points >= 75.0) && (SeverityOf(score).Medium? <==> 50.0 <= points < 75.0)
  {
    hide Points, SeverityScore;
    ScoreIsPoints(z, pct, delta, median, extreme);
  }
}
