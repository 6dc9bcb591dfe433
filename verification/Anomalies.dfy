/** anomalies.py: a month against the median of the months before it. */
module Anomalies {
  import opened Prelude
  import opened Facts
  import opened Numbers
  import opened Ordering
  import opened Metrics

  const ROBUST_Z_THRESHOLD: real := 3.5
  const MAD_SCALE: real := 0.6745
  const MIN_MAD_RATIO: real := 0.05
  const PCT_VS_MEDIAN: real := 0.5
  const MIN_BASELINE_MONTHS: nat := 3
  const Z_UNITS: real := 10000.0

  function AbsFloor(kind: Kind): real {
    match kind
    case MoneyKind => 5.0
    case CountKind => 5.0
    case RateKind => 0.05
    case RoasKind => 0.25
  }

  function NonZAbs(kind: Kind): real {
    match kind
    case MoneyKind => 5.0
    case CountKind => 5.0
    case RateKind => 0.1
    case RoasKind => 0.5
  }

  // ---- median and spread -----------------------------------------------------------------------------

  function Median(values: seq<real>): Option<real> {
    var (ordered, mid) := (Sort(values, RealLe), |values| / 2);
    SortElements(values, RealLe);
    if values == [] then None
    else if |values| % 2 == 1 then Some(ordered[mid])
    else Some((ordered[mid - 1] + ordered[mid]) / 2.0)
  }

  function Deviations(values: seq<real>, median: real): seq<real> {
    if values == [] then [] else [Abs(values[0] - median)] + Deviations(values[1..], median)
  }

  /** `_mad`. */
  function Mad(values: seq<real>, median: real): real {
    Median(Deviations(values, median)).GetOr(0.0)
  }

  function Least(values: seq<real>): (r: real)
    requires values != []
    ensures r in values && forall x | x in values :: r <= x
  {
    if |values| == 1 then values[0]
    else
      assert forall x | x in values :: x == values[0] || x in values[1..];
      Min(values[0], Least(values[1..]))
  }

  function Greatest(values: seq<real>): (r: real)
    requires values != []
    ensures r in values && forall x | x in values :: x <= r
  {
    if |values| == 1 then values[0]
    else
      assert forall x | x in values :: x == values[0] || x in values[1..];
      Max(values[0], Greatest(values[1..]))
  }

  // ---- classification -----------------------------------------------------------------------------------

  datatype Direction = Spike | Drop
  datatype AnomalyKind = Rolling | Sudden(direction: Direction)

  datatype Verdict = Verdict(
    kind: AnomalyKind, direction: Direction, median: real, pct: Option<real>, z: Option<real>,
    newExtreme: bool, mad: real, madOk: bool)

  /** ROUND_HALF_EVEN, the rounding of a plain `quantize`. */
  function RoundHalfEven(x: real): int {
    var (low, part) := (x.Floor, x - x.Floor as real);
    if part < 0.5 || (part == 0.5 && low % 2 == 0) then low else low + 1
  }

  function ZScore(current: real, median: real, mad: real): real
    requires mad != 0.0
  {
    RoundHalfEven(MAD_SCALE * (current - median) / mad * Z_UNITS) as real / Z_UNITS
  }

  /** `classify_anomaly`. */
  function Classify(s: Metric, current: real, baseline: seq<real>): Option<Verdict> {
    if baseline == [] then None
    else
      var median := Median(baseline).GetOr(0.0);
      var (delta, pct, floor) := (Change(s, current - median), DeltaPct(Some(current), Some(median)), AbsFloor(s.kind));
      if Abs(delta) < floor then None
      else
        var mad := Mad(baseline, median);
        var madOk := mad >= Max(floor, Abs(median) * MIN_MAD_RATIO);
        var newExtreme := current < Least(baseline) || current > Greatest(baseline);
        var direction := if current > median then Spike else Drop;
        var z := if madOk && mad != 0.0 then Some(ZScore(current, median, mad)) else None;
        if z.Some? && Abs(z.value) >= ROBUST_Z_THRESHOLD then
          Some(Verdict(Rolling, direction, median, pct, z, newExtreme, mad, madOk))
        else if newExtreme && (s.kind.RateKind? || (pct.Some? && Abs(pct.value) >= PCT_VS_MEDIAN)) && Abs(delta) >= NonZAbs(s.kind) then
          Some(Verdict(Sudden(direction), direction, median, pct, z, newExtreme, mad, madOk))
        else None
  }

  datatype Severity = Low | Medium | High

  /** `_severity`. */
  function SeverityScore(z: Option<real>, pct: Option<real>, delta: real, median: real, extreme: bool): real {
    var zPart := Min(Abs(z.GetOr(0.0)) / ROBUST_Z_THRESHOLD, 3.0) * 40.0;
    var pctPart := Min(Abs(pct.GetOr(0.0)) / PCT_VS_MEDIAN, 3.0) * 30.0;
    var absPart := Min(Abs(delta) / (if median != 0.0 then Abs(median) else 1.0), 3.0) * 10.0;
    Min(100.0, zPart + pctPart + absPart + if extreme then 15.0 else 0.0)
  }

  function SeverityOf(score: real): Severity {
    if score >= 75.0 then High else if score >= 50.0 then Medium else Low
  }

  // ---- one metric of `build_anomalies` --------------------------------------------------------------------

  /** `_observe`. */
  function Observe(s: Metric, sums: Sums): Option<real> {
    if DenominatorOk(s, sums) then PickMetric(s, sums) else None
  }

  function Observed(s: Metric, months: seq<Sums>): seq<real> {
    if months == [] then []
    else
      var last := Observe(s, months[|months| - 1]);
      Observed(s, months[..|months| - 1]) + if last.Some? then [last.value] else []
  }

  datatype Anomaly = Anomaly(verdict: Verdict, delta: real, score: real, severity: Severity)

  function Assess(s: Metric, current: real, v: Verdict): Anomaly {
    var delta := Change(s, current - v.median);
    var score := SeverityScore(v.z, v.pct, delta, v.median, v.newExtreme);
    Anomaly(v, delta, score, SeverityOf(score))
  }

  function AnomalyOf(s: Metric, current: Sums, baseline: seq<Sums>): Option<Anomaly> {
    var (now, values) := (Observe(s, current), Observed(s, baseline));
    if |baseline| < MIN_BASELINE_MONTHS || now.None? || |values| < MIN_BASELINE_MONTHS then None
    else
      var v := Classify(s, now.value, values);
      if v.None? then None else Some(Assess(s, now.value, v.value))
  }

  method FindAnomaly(s: Metric, current: Sums, baseline: seq<Sums>) returns (r: Option<Anomaly>)
    ensures r == AnomalyOf(s, current, baseline)
  {
    hide Observe, Classify, Assess;
    if |baseline| < MIN_BASELINE_MONTHS {
      return None;
    }
    var now := Observe(s, current);
    var values: seq<real> := [];
    for i := 0 to |baseline|
      invariant values == Observed(s, baseline[..i])
    {
      assert baseline[..i + 1][..i] == baseline[..i];
      var value := Observe(s, baseline[i]);
      if value.None? {
        continue;
      }
      values := values + [value.value];
    }
    assert baseline[..|baseline|] == baseline;
    if now.None? || |values| < MIN_BASELINE_MONTHS {
      return None;
    }
    var v := Classify(s, now.value, values);
    r := if v.None? then None else Some(Assess(s, now.value, v.value));
  }

  // ---- the median is robust --------------------------------------------------------------------------------

  function CountWhere(s: seq<real>, p: real -> bool): nat {
    if s == [] then 0 else (if p(s[0]) then 1 else 0) + CountWhere(s[1..], p)
  }

  lemma {:induction false} CountInsert(x: real, s: seq<real>, p: real -> bool)
    ensures CountWhere(Insert(x, s, RealLe), p) == CountWhere(s, p) + if p(x) then 1 else 0
  {
    if s != [] {
      if RealLe(x, s[0]) {
        assert ([x] + s)[1..] == s;
      } else {
        CountInsert(x, s[1..], p);
        var rest := Insert(x, s[1..], RealLe);
        assert ([s[0]] + rest)[1..] == rest;
      }
    }
  }

  lemma {:induction false} CountSort(s: seq<real>, p: real -> bool)
    ensures CountWhere(Sort(s, RealLe), p) == CountWhere(s, p)
  {
    if s != [] {
      CountSort(s[1..], p);
      CountInsert(s[0], Sort(s[1..], RealLe), p);
    }
  }

  lemma {:induction false} CountSnoc(s: seq<real>, x: real, p: real -> bool)
    ensures CountWhere(s + [x], p) == CountWhere(s, p) + if p(x) then 1 else 0
  {
    if s == [] {
      assert s + [x] == [x] && [x][1..] == [];
    } else {
      assert (s + [x])[0] == s[0] && (s + [x])[1..] == s[1..] + [x];
      CountSnoc(s[1..], x, p);
    }
  }

  lemma {:induction false} CountAtMost(s: seq<real>, p: real -> bool, where: set<nat>)
    requires forall i: nat | i < |s| && p(s[i]) :: i in where
    ensures CountWhere(s, p) <= |where|
  {
    if s != [] {
      var n := |s| - 1;
      var init := s[..n];
      assert s == init + [s[n]];
      CountSnoc(init, s[n], p);
      forall i: nat | i < |init| && p(init[i])
        ensures i in where - {n}
      {
        assert init[i] == s[i];
      }
      CountAtMost(init, p, where - {n});
    }
  }

  lemma {:induction false} CountAll(s: seq<real>, p: real -> bool, first: nat, end: nat)
    requires first <= end <= |s| && forall i | first <= i < end :: p(s[i])
    ensures CountWhere(s, p) >= end - first
    decreases end
  {
    if first != end {
      forall i | 0 <= i < |s[1..]|
        ensures s[1..][i] == s[i + 1]
      {
      }
      CountAll(s[1..], p, if first == 0 then 0 else first - 1, end - 1);
    }
  }

  lemma {:induction false} RealLeIsTotalOrder()
    ensures TotalPreorder(RealLe) && Antisymmetric(RealLe)
  {
  }

  lemma {:induction false} MedianBetween(values: seq<real>, lo: real, hi: real, outliers: set<nat>)
    requires 2 * |outliers| < |values|
    requires forall i: nat | i < |values| && i !in outliers :: lo <= values[i] <= hi
    ensures Median(values).Some? && lo <= Median(values).value <= hi
  {
    hide RealLe, TotalPreorder, Antisymmetric, Sort;
    var (ordered, mid) := (Sort(values, RealLe), |values| / 2);
    SortElements(values, RealLe);
    MiddleAtLeast(values, lo, outliers, (|values| - 1) / 2);
    MiddleAtMost(values, hi, outliers, mid);
    RealLeIsTotalOrder();
    SortSorts(values, RealLe);
    if |values| % 2 == 0 {
      SortedMiddle(ordered, mid);
    }
  }

  lemma {:induction false} SortedMiddle(ordered: seq<real>, mid: nat)
    requires Sorted(ordered, RealLe) && 0 < mid < |ordered|
    ensures ordered[mid - 1] <= ordered[mid]
  {
    assert RealLe(ordered[mid - 1], ordered[mid]);
  }

  lemma {:induction false} MiddleAtLeast(values: seq<real>, lo: real, outliers: set<nat>, k: nat)
    requires k < |values| && |outliers| <= k
    requires forall i: nat | i < |values| && i !in outliers :: lo <= values[i]
    ensures |Sort(values, RealLe)| == |values| && lo <= Sort(values, RealLe)[k]
  {
    var ordered := Sort(values, RealLe);
    var p := (x: real) => x < lo;
    RealLeIsTotalOrder();
    SortElements(values, RealLe);
    SortSorts(values, RealLe);
    hide Sort, TotalPreorder, Antisymmetric;
    if ordered[k] < lo {
      forall i | 0 <= i < k + 1
        ensures p(ordered[i])
      {
        assert i == k || RealLe(ordered[i], ordered[k]);
      }
      CountAll(ordered, p, 0, k + 1);
      CountSort(values, p);
      CountAtMost(values, p, outliers);
    }
  }

  lemma {:induction false} MiddleAtMost(values: seq<real>, hi: real, outliers: set<nat>, k: nat)
    requires k < |values| && |outliers| < |values| - k
    requires forall i: nat | i < |values| && i !in outliers :: values[i] <= hi
    ensures |Sort(values, RealLe)| == |values| && Sort(values, RealLe)[k] <= hi
  {
    var ordered := Sort(values, RealLe);
    var p := (x: real) => x > hi;
    RealLeIsTotalOrder();
    SortElements(values, RealLe);
    SortSorts(values, RealLe);
    hide Sort, TotalPreorder, Antisymmetric;
    if ordered[k] > hi {
      forall i | k <= i < |ordered|
        ensures p(ordered[i])
      {
        assert i == k || RealLe(ordered[k], ordered[i]);
      }
      CountAll(ordered, p, k, |ordered|);
      CountSort(values, p);
      CountAtMost(values, p, outliers);
    }
  }

  /** Altering fewer than half of the baseline, in any way at all, leaves the median between the least
      and the greatest of the values that were not altered. */
  lemma {:induction false} MedianIsRobust(original: seq<real>, altered: seq<real>, changed: set<nat>)
    requires |altered| == |original| && 2 * |changed| < |original|
    requires forall i: nat | i < |original| && i !in changed :: altered[i] == original[i]
    ensures exists i: nat, j: nat :: i < |original| && j < |original| && i !in changed && j !in changed
              && original[i] <= Median(altered).GetOr(0.0) <= original[j]
  {
    hide Median;
    var i := Extreme(original, changed, true);
    var j := Extreme(original, changed, false);
    MedianBetween(altered, original[i], original[j], changed);
  }

  /** The least, or greatest, of the values outside a set too small to hold them all. */
  lemma {:induction false} Extreme(s: seq<real>, skip: set<nat>, least: bool) returns (i: nat)
    requires |skip| < |s|
    ensures i < |s| && i !in skip
    ensures forall j: nat | j < |s| && j !in skip :: if least then s[i] <= s[j] else s[j] <= s[i]
  {
    i := SomeOutside(|s|, skip);
    for k := 0 to |s|
      invariant i < |s| && i !in skip
      invariant forall j: nat | j < k && j !in skip :: if least then s[i] <= s[j] else s[j] <= s[i]
    {
      if k !in skip && (if least then s[k] < s[i] else s[i] < s[k]) {
        i := k;
      }
    }
  }

  lemma {:induction false} SomeOutside(n: nat, skip: set<nat>) returns (i: nat)
    requires |skip| < n
    ensures i < n && i !in skip
  {
    i := n - 1;
    if i in skip {
      i := SomeOutside(n - 1, skip - {n - 1});
    }
  }

  ghost predicate AgreesOutside(original: seq<real>, altered: seq<real>, changed: set<nat>) {
    |altered| == |original| && forall i: nat | i < |original| && i !in changed :: altered[i] == original[i]
  }

  /** Altering the values at these places, however it is done, leaves the median within bounds. */
  ghost predicate Withstands(original: seq<real>, changed: set<nat>) {
    exists lo, hi :: StaysWithin(original, changed, lo, hi)
  }

  ghost predicate StaysWithin(original: seq<real>, changed: set<nat>, lo: real, hi: real) {
    forall altered | AgreesOutside(original, altered, changed) :: lo <= Median(altered).GetOr(0.0) <= hi
  }

  predicate Places(changed: set<nat>, n: nat) {
    forall i | i in changed :: i < n
  }

  function Put(original: seq<real>, changed: set<nat>, x: real): (r: seq<real>)
    ensures |r| == |original|
    ensures forall i: nat | i < |r| :: r[i] == if i in changed then x else original[i]
  {
    seq(|original|, i requires 0 <= i < |original| => if i in changed then x else original[i])
  }

  /** The places left alone. */
  function Kept(n: nat, changed: set<nat>): (r: set<nat>)
    requires Places(changed, n)
    ensures forall i: nat :: i in r <==> i < n && i !in changed
    ensures |r| == n - |changed|
  {
    if n == 0 then
      assert changed == {};
      {}
    else if n - 1 in changed then Kept(n - 1, changed - {n - 1})
    else Kept(n - 1, changed) + {n - 1}
  }

  /** The median withstands altering a set of values exactly when they are fewer than half: for every
      baseline, any smaller set leaves it between two of the others, and any larger one can move it
      past every bound. */
  lemma {:induction false} MedianWithstands(original: seq<real>, changed: set<nat>)
    requires original != [] && Places(changed, |original|)
    ensures Withstands(original, changed) <==> 2 * |changed| < |original|
  {
    hide Median;
    if 2 * |changed| < |original| {
      var i := Extreme(original, changed, true);
      var j := Extreme(original, changed, false);
      forall altered | AgreesOutside(original, altered, changed)
        ensures original[i] <= Median(altered).GetOr(0.0) <= original[j]
      {
        MedianBetween(altered, original[i], original[j], changed);
      }
      assert StaysWithin(original, changed, original[i], original[j]);
    } else {
      forall lo, hi
        ensures !StaysWithin(original, changed, lo, hi)
      {
        var altered := HalfPassesAnyBound(original, changed, hi);
      }
    }
  }

  lemma {:induction false} HalfPassesAnyBound(original: seq<real>, changed: set<nat>, bound: real) returns (altered: seq<real>)
    requires original != [] && Places(changed, |original|) && 2 * |changed| >= |original|
    ensures AgreesOutside(original, altered, changed) && Median(altered).GetOr(0.0) > bound
  {
    hide Least, Sort, RealLe;
    var (n, least) := (|original|, Least(original));
    var x := Max(least, 2.0 * bound - least + 1.0);
    altered := Put(original, changed, x);
    var kept := Kept(n, changed);
    MiddleAtLeast(altered, x, kept, n / 2);
    if n % 2 == 0 {
      forall i: nat | i < n
        ensures altered[i] >= least
      {
        assert original[i] in original;
      }
      MiddleAtLeast(altered, least, {}, n / 2 - 1);
    }
  }

  /** Altering more than half puts the median anywhere. */
  lemma {:induction false} MajoritySetsTheMedian(original: seq<real>, changed: set<nat>, target: real)
    requires Places(changed, |original|) && 2 * |changed| > |original|
    ensures AgreesOutside(original, Put(original, changed, target), changed)
    ensures Median(Put(original, changed, target)) == Some(target)
  {
    hide Median;
    MedianBetween(Put(original, changed, target), target, target, Kept(|original|, changed));
  }

  // ---- order does not matter --------------------------------------------------------------------------------

  lemma {:induction false} MedianOfPermutation(a: seq<real>, b: seq<real>)
    requires multiset(a) == multiset(b)
    ensures Median(a) == Median(b)
  {
    RealLeIsTotalOrder();
    SortOfPermutation(a, b, RealLe);
    SameElements(a, b);
  }

  lemma {:induction false} DeviationsCons(y: real, s: seq<real>, median: real)
    ensures multiset(Deviations([y] + s, median)) == multiset{Abs(y - median)} + multiset(Deviations(s, median))
  {
    hide Abs;
    assert ([y] + s)[1..] == s;
  }

  lemma {:induction false} DeviationsInsert(x: real, s: seq<real>, median: real)
    ensures multiset(Deviations(Insert(x, s, RealLe), median)) == multiset(Deviations(s, median)) + multiset{Abs(x - median)}
  {
    hide Abs, Deviations;
    if s == [] || RealLe(x, s[0]) {
      DeviationsCons(x, s, median);
      assert s == [] ==> [x] + s == [x];
    } else {
      DeviationsInsert(x, s[1..], median);
      DeviationsCons(s[0], Insert(x, s[1..], RealLe), median);
      DeviationsCons(s[0], s[1..], median);
      assert s == [s[0]] + s[1..];
    }
  }

  lemma {:induction false} DeviationsSort(s: seq<real>, median: real)
    ensures multiset(Deviations(Sort(s, RealLe), median)) == multiset(Deviations(s, median))
  {
    if s != [] {
      DeviationsSort(s[1..], median);
      DeviationsInsert(s[0], Sort(s[1..], RealLe), median);
    }
  }

  lemma {:induction false} MadOfPermutation(a: seq<real>, b: seq<real>, median: real)
    requires multiset(a) == multiset(b)
    ensures Mad(a, median) == Mad(b, median)
  {
    hide Median, Deviations;
    RealLeIsTotalOrder();
    SortOfPermutation(a, b, RealLe);
    DeviationsSort(a, median);
    DeviationsSort(b, median);
    MedianOfPermutation(Deviations(a, median), Deviations(b, median));
  }

  lemma {:induction false} BoundsOfPermutation(a: seq<real>, b: seq<real>)
    requires multiset(a) == multiset(b) && a != []
    ensures b != [] && Least(a) == Least(b) && Greatest(a) == Greatest(b)
  {
    hide Least, Greatest;
    SameElements(a, b);
    SameElements(b, a);
  }

  /** The verdict does not depend on the order of the baseline. */
  lemma {:induction false} ClassifyOfPermutation(s: Metric, current: real, a: seq<real>, b: seq<real>)
    requires multiset(a) == multiset(b)
    ensures Classify(s, current, a) == Classify(s, current, b)
  {
    hide Median, Mad, Least, Greatest, ZScore, DeltaPct, Change;
    if a == [] {
      SameElements(b, a);
    } else {
      MedianOfPermutation(a, b);
      MadOfPermutation(a, b, Median(a).GetOr(0.0));
      BoundsOfPermutation(a, b);
    }
  }

  /** The last element of one arrangement, taken out of another. */
  lemma {:induction false} TakeOut(a: seq<Sums>, b: seq<Sums>) returns (front: seq<Sums>, back: seq<Sums>)
    requires a != [] && multiset(a) == multiset(b)
    ensures b == front + ([a[|a| - 1]] + back)
    ensures multiset(a[..|a| - 1]) == multiset(front + back)
  {
    var (init, last) := (a[..|a| - 1], a[|a| - 1]);
    assert a == init + [last];
    SameElements(a, b);
    assert last in b;
    var j :| 0 <= j < |b| && b[j] == last;
    front, back := b[..j], b[j + 1..];
    assert b == front + ([last] + back);
    assert multiset(b) == multiset(front + back) + multiset{last};
    assert multiset(init) == multiset(a) - multiset{last};
  }

  lemma {:induction false} ObservedOfPermutation(s: Metric, a: seq<Sums>, b: seq<Sums>)
    requires multiset(a) == multiset(b)
    ensures multiset(Observed(s, a)) == multiset(Observed(s, b))
  {
    hide Observe, Observed;
    if a == [] {
      SameElements(b, a);
    } else {
      var (init, last) := (a[..|a| - 1], a[|a| - 1]);
      var front, back := TakeOut(a, b);
      ObservedOfPermutation(s, init, front + back);
      ObservedConcat(s, front, back);
      ObservedConcat(s, front, [last] + back);
      ObservedConcat(s, [last], back);
      ObservedConcat(s, init, [last]);
      assert a == init + [last];
      Rearranged(Observed(s, init), Observed(s, front), Observed(s, [last]), Observed(s, back));
    }
  }

  lemma {:induction false} Rearranged(init: seq<real>, front: seq<real>, one: seq<real>, back: seq<real>)
    requires multiset(init) == multiset(front + back)
    ensures multiset(init + one) == multiset(front + (one + back))
  {
  }

  lemma {:induction false} ObservedConcat(s: Metric, a: seq<Sums>, b: seq<Sums>)
    ensures Observed(s, a + b) == Observed(s, a) + Observed(s, b)
  {
    hide Observe;
    if b == [] {
      assert a + b == a;
    } else {
      var init := b[..|b| - 1];
      assert (a + b)[..|a + b| - 1] == a + init;
      assert (a + b)[|a + b| - 1] == b[|b| - 1];
      ObservedConcat(s, a, init);
    }
  }

  /** A month's anomaly is the same whatever order the prior months come in. */
  lemma {:induction false} AnomalyOfPermutation(s: Metric, current: Sums, a: seq<Sums>, b: seq<Sums>)
    requires multiset(a) == multiset(b)
    ensures AnomalyOf(s, current, a) == AnomalyOf(s, current, b)
  {
    hide Observe, Observed, Classify, Assess;
    SameElements(a, b);
    ObservedOfPermutation(s, a, b);
    SameElements(Observed(s, a), Observed(s, b));
    if Observe(s, current).Some? {
      ClassifyOfPermutation(s, Observe(s, current).value, Observed(s, a), Observed(s, b));
    }
  }

  // ---- direction and severity ----------------------------------------------------------------------------------

  lemma {:induction false} RoundEvenSign(x: real)
    ensures x >= 0.0 ==> RoundHalfEven(x) >= 0
    ensures x <= 0.0 ==> RoundHalfEven(x) <= 0
  {
  }

  lemma {:induction false} ScaledSign(x: real, mad: real)
    requires mad > 0.0
    ensures x >= 0.0 ==> MAD_SCALE * x / mad * Z_UNITS >= 0.0
    ensures x <= 0.0 ==> MAD_SCALE * x / mad * Z_UNITS <= 0.0
  {
    if x >= 0.0 {
      DivideMonotone(0.0, MAD_SCALE * x, mad);
    }
    if x <= 0.0 {
      DivideMonotone(MAD_SCALE * x, 0.0, mad);
    }
    assert 0.0 / mad == 0.0;
  }

  lemma {:induction false} ZSign(current: real, median: real, mad: real)
    requires mad > 0.0
    ensures current >= median ==> ZScore(current, median, mad) >= 0.0
    ensures current <= median ==> ZScore(current, median, mad) <= 0.0
  {
    hide RoundHalfEven;
    ScaledSign(current - median, mad);
    RoundEvenSign(MAD_SCALE * (current - median) / mad * Z_UNITS);
  }

  lemma {:induction false} FloorsPositive(kind: Kind)
    ensures 0.0 < AbsFloor(kind) <= NonZAbs(kind)
  {
  }

  /** The direction of a verdict has the sign of current minus median: a count's dropped fraction and
      the rounding of z never turn it, and the month is never equal to its median. */
  lemma {:induction false} DirectionIsSign(s: Metric, current: real, baseline: seq<real>)
    requires Classify(s, current, baseline).Some?
    ensures var v := Classify(s, current, baseline).value;
            && Median(baseline) == Some(v.median)
            && (v.direction == Spike <==> current > v.median) && (v.direction == Drop <==> current < v.median)
            && (v.direction == Spike <==> Change(s, current - v.median) > 0.0)
            && (v.kind.Sudden? ==> v.kind.direction == v.direction)
            && (v.z.Some? ==> if v.direction == Spike then v.z.value >= 0.0 else v.z.value <= 0.0)
  {
    hide Mad, Least, Greatest, ZScore, DeltaPct, Change, AbsFloor, NonZAbs, Median;
    var v := Classify(s, current, baseline).value;
    FloorsPositive(s.kind);
    ChangeSign(s, current - v.median);
    MedianExists(baseline);
    if v.z.Some? {
      ZSign(current, v.median, v.mad);
    }
  }

  lemma {:induction false} MedianExists(values: seq<real>)
    requires values != []
    ensures Median(values).Some?
  {
  }

  lemma {:induction false} PartsBounded(x: real, d: real)
    requires d > 0.0
    ensures 0.0 <= Min(Abs(x) / d, 3.0) <= 3.0
  {
    DivideMonotone(0.0, Abs(x), d);
    assert 0.0 / d == 0.0;
  }

  lemma {:induction false} AtThreshold(x: real, d: real)
    requires d > 0.0 && Abs(x) >= d
    ensures Min(Abs(x) / d, 3.0) >= 1.0
  {
    DivideMonotone(d, Abs(x), d);
    DivideThenMultiply(1.0, d);
    assert d / d == 1.0;
  }

  lemma {:induction false} SeverityInRange(z: Option<real>, pct: Option<real>, delta: real, median: real, extreme: bool)
    ensures 0.0 <= SeverityScore(z, pct, delta, median, extreme) <= 100.0
  {
    hide Abs;
    PartsBounded(z.GetOr(0.0), ROBUST_Z_THRESHOLD);
    PartsBounded(pct.GetOr(0.0), PCT_VS_MEDIAN);
    AbsPositive(median);
    PartsBounded(delta, if median != 0.0 then Abs(median) else 1.0);
  }

  lemma {:induction false} AbsPositive(x: real)
    ensures x != 0.0 ==> Abs(x) > 0.0
  {
  }

  /** Severity always lies in 0..100; a rolling deviation scores at least 40, a sudden spike or drop at
      least 15, and at least 45 when the metric is not a rate. */
  lemma {:induction false} AnomalySeverity(s: Metric, current: Sums, baseline: seq<Sums>)
    requires AnomalyOf(s, current, baseline).Some?
    ensures var a := AnomalyOf(s, current, baseline).value;
            && 0.0 <= a.score <= 100.0
            && (a.verdict.kind.Rolling? ==> a.score >= 40.0)
            && (a.verdict.kind.Sudden? ==> a.score >= if s.kind.RateKind? then 15.0 else 45.0)
  {
    hide Observe, Observed, Classify, SeverityScore, SeverityOf, Change;
    var values := Observed(s, baseline);
    var now := Observe(s, current).value;
    var v := Classify(s, now, values).value;
    var delta := Change(s, now - v.median);
    SeverityInRange(v.z, v.pct, delta, v.median, v.newExtreme);
    ClassifyGuards(s, now, values);
    if v.kind.Rolling? {
      RollingSeverity(v.z, v.pct, delta, v.median, v.newExtreme);
    } else {
      SuddenSeverity(v.z, v.pct, delta, v.median);
    }
  }

  lemma {:induction false} ClassifyGuards(s: Metric, current: real, baseline: seq<real>)
    requires Classify(s, current, baseline).Some?
    ensures var v := Classify(s, current, baseline).value;
            && (v.kind.Rolling? ==> v.z.Some? && Abs(v.z.value) >= ROBUST_Z_THRESHOLD)
            && (v.kind.Sudden? ==> v.newExtreme)
            && (v.kind.Sudden? && !s.kind.RateKind? ==> v.pct.Some? && Abs(v.pct.value) >= PCT_VS_MEDIAN)
  {
    hide Mad, Least, Greatest, ZScore, DeltaPct, Change, AbsFloor, NonZAbs, Median, Abs;
  }

  lemma {:induction false} RollingSeverity(z: Option<real>, pct: Option<real>, delta: real, median: real, extreme: bool)
    requires z.Some? && Abs(z.value) >= ROBUST_Z_THRESHOLD
    ensures SeverityScore(z, pct, delta, median, extreme) >= 40.0
  {
    hide Abs;
    AtThreshold(z.value, ROBUST_Z_THRESHOLD);
    PartsBounded(pct.GetOr(0.0), PCT_VS_MEDIAN);
    AbsPositive(median);
    PartsBounded(delta, if median != 0.0 then Abs(median) else 1.0);
  }

  lemma {:induction false} SuddenSeverity(z: Option<real>, pct: Option<real>, delta: real, median: real)
    ensures SeverityScore(z, pct, delta, median, true) >= 15.0
    ensures pct.Some? && Abs(pct.value) >= PCT_VS_MEDIAN ==> SeverityScore(z, pct, delta, median, true) >= 45.0
  {
    hide Abs;
    PartsBounded(z.GetOr(0.0), ROBUST_Z_THRESHOLD);
    PartsBounded(pct.GetOr(0.0), PCT_VS_MEDIAN);
    AbsPositive(median);
    PartsBounded(delta, if median != 0.0 then Abs(median) else 1.0);
    if pct.Some? && Abs(pct.value) >= PCT_VS_MEDIAN {
      AtThreshold(pct.value, PCT_VS_MEDIAN);
    }
  }
}
