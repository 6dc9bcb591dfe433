/** insights.py: material changes, the groups that dominate them, and the list that is shown. */
module Insights {
  import opened Prelude
  import opened Facts
  import opened Numbers
  import opened Ordering
  import opened Drill
  import opened Shares
  import opened Metrics
  import opened Drivers

  const MATERIAL_PCT: real := 0.10
  const MATERIAL_HIGH_PCT: real := 0.25
  const DRIVER_SHARE: real := 0.40
  const MULTI_DRIVER_EACH: real := 0.25
  const MULTI_DRIVER_TOGETHER: real := 0.60
  const MIN_DRIVER_GROUPS: nat := 2
  const MAX_DRIVERS_EVIDENCE: nat := 3

  function AbsFloor(kind: Kind): real {
    match kind
    case MoneyKind => 1.0
    case CountKind => 1.0
    case RateKind => 0.01
    case RoasKind => 0.1
  }

  // ---- snapshots -----------------------------------------------------------------------------------

  datatype Suppression = InsufficientDenominator | NullOrMissing

  datatype Snapshot = Snapshot(
    metric: Metric, current: Option<real>, prior: Option<real>,
    delta: Option<real>, pct: Option<real>, suppression: Option<Suppression>)

  /** `snapshot_for`. */
  function SnapshotFor(s: Metric, current: Sums, prior: Sums): Snapshot {
    var (now, before) := (PickMetric(s, current), PickMetric(s, prior));
    if !DenominatorOk(s, current) || !DenominatorOk(s, prior) then
      Snapshot(s, now, before, None, None, Some(InsufficientDenominator))
    else if now.None? || before.None? then
      Snapshot(s, now, before, None, None, Some(NullOrMissing))
    else
      var (delta, pct) := (Delta(s, now, before), DeltaPct(now, before));
      Snapshot(s, now, before, delta, pct, if delta.None? || pct.None? then Some(NullOrMissing) else None)
  }

  predicate IsMaterial(snap: Snapshot) {
    && snap.suppression.None? && snap.delta.Some? && snap.pct.Some?
    && Abs(snap.pct.value) >= MATERIAL_PCT
    && Abs(snap.delta.value) >= AbsFloor(snap.metric.kind)
  }

  // ---- the dominant driver -----------------------------------------------------------------------------

  /** The groups of one dimension in the two windows. */
  datatype Grouping = Grouping(dim: FilterDim, current: seq<GroupRow>, prior: seq<GroupRow>)

  datatype Best = Best(top: real, dim: FilterDim, same: seq<Driver>, groups: nat)

  /** What a dimension offers: nothing when it has fewer than two groups, or none that moves with
      the total. */
  function Offer(s: Metric, total: real, g: Grouping): Option<Best> {
    var same := SameSign(DriverRows(s, g.current, g.prior, total), total);
    if |KeysOf(g.current, g.prior)| < MIN_DRIVER_GROUPS || same == [] then None
    else Some(Best(SizeOf(same[0].contribution), g.dim, same, |KeysOf(g.current, g.prior)|))
  }

  function Better(best: Option<Best>, offer: Option<Best>): Option<Best> {
    if offer.None? then best
    else if best.None? || offer.value.top > best.value.top then offer
    else best
  }

  function BestOf(s: Metric, total: real, grouped: seq<Grouping>): Option<Best> {
    if grouped == [] then None
    else Better(BestOf(s, total, grouped[..|grouped| - 1]), Offer(s, total, grouped[|grouped| - 1]))
  }

  /** `_driver_qualifies`. */
  predicate Qualifies(s: Metric, d: Driver, share: real) {
    && d.delta.Some? && Abs(d.delta.value) >= AbsFloor(s.kind)
    && d.contribution.Some? && Abs(d.contribution.value) >= share
  }

  predicate TwoTogether(s: Metric, same: seq<Driver>) {
    && |same| >= 2
    && Qualifies(s, same[0], MULTI_DRIVER_EACH)
    && Qualifies(s, same[1], MULTI_DRIVER_EACH)
    && Abs(same[0].contribution.GetOr(0.0) + same[1].contribution.GetOr(0.0)) >= MULTI_DRIVER_TOGETHER
  }

  predicate Dominated(s: Metric, same: seq<Driver>) {
    (exists d | d in same :: Qualifies(s, d, DRIVER_SHARE)) || TwoTogether(s, same)
  }

  /** The dimension of the dominant_driver draft of a metric, when there is one. */
  function DominantDriver(s: Metric, snap: Snapshot, grouped: seq<Grouping>): Option<Best> {
    if !IsMaterial(snap) || !s.Adds() || snap.delta.value == 0.0 then None
    else
      var best := BestOf(s, snap.delta.value, grouped);
      if best.Some? && Dominated(s, best.value.same) then best else None
  }

  /** The search over dimensions, as `build_insights` runs it. */
  method FindDominantDriver(s: Metric, snap: Snapshot, grouped: seq<Grouping>) returns (r: Option<Best>)
    ensures r == DominantDriver(s, snap, grouped)
  {
    hide Dominated, DriverRows, SameSign, IsMaterial, KeysOf;
    if !IsMaterial(snap) {
      return None;
    }
    assert snap.delta.Some? by { MaterialHasDelta(snap); }
    if !s.Adds() || snap.delta.value == 0.0 {
      return None;
    }
    var total := snap.delta.value;
    var best: Option<Best> := None;
    for i := 0 to |grouped|
      invariant best == BestOf(s, total, grouped[..i])
    {
      assert grouped[..i + 1][..i] == grouped[..i];
      var rows, count := ListDrivers(s, grouped[i].current, grouped[i].prior, total);
      var same := ListSameSign(rows, total);
      if count < MIN_DRIVER_GROUPS || same == [] {
        continue;
      }
      var top := SizeOf(same[0].contribution);
      if best.None? || top > best.value.top {
        best := Some(Best(top, grouped[i].dim, same, count));
      }
    }
    assert grouped[..|grouped|] == grouped;
    if best.None? {
      return None;
    }
    var qualifying := AnyQualifies(s, best.value.same);
    DominatedBy(s, best.value.same);
    r := if !qualifying && !TwoTogether(s, best.value.same) then None else best;
  }

  lemma {:induction false} MaterialHasDelta(snap: Snapshot)
    requires IsMaterial(snap)
    ensures snap.delta.Some? && snap.pct.Some?
  {
  }

  lemma {:induction false} DominatedBy(s: Metric, same: seq<Driver>)
    ensures Dominated(s, same) <==> (exists d | d in same :: Qualifies(s, d, DRIVER_SHARE)) || TwoTogether(s, same)
  {
  }

  method AnyQualifies(s: Metric, same: seq<Driver>) returns (r: bool)
    ensures r <==> exists d | d in same :: Qualifies(s, d, DRIVER_SHARE)
  {
    hide Qualifies;
    r := false;
    for i := 0 to |same|
      invariant r <==> exists j | 0 <= j < i :: Qualifies(s, same[j], DRIVER_SHARE)
    {
      if Qualifies(s, same[i], DRIVER_SHARE) {
        r := true;
      }
    }
    if d :| d in same && Qualifies(s, d, DRIVER_SHARE) {
      var j :| 0 <= j < |same| && same[j] == d;
      assert Qualifies(s, same[j], DRIVER_SHARE);
    }
  }

  // ---- when a dominant driver must be found ------------------------------------------------------------------

  lemma {:induction false} BestBeats(s: Metric, total: real, grouped: seq<Grouping>, i: nat)
    requires i < |grouped| && Offer(s, total, grouped[i]).Some?
    ensures BestOf(s, total, grouped).Some?
    ensures BestOf(s, total, grouped).value.top >= Offer(s, total, grouped[i]).value.top
  {
    hide Offer;
    if i < |grouped| - 1 {
      BestBeats(s, total, grouped[..|grouped| - 1], i);
    }
  }

  /** The best dimension is the first of those offered whose first share no other exceeds. */
  lemma {:induction false} BestIsOffered(s: Metric, total: real, grouped: seq<Grouping>) returns (i: nat)
    requires BestOf(s, total, grouped).Some?
    ensures i < |grouped| && Offer(s, total, grouped[i]) == BestOf(s, total, grouped)
    ensures forall j | 0 <= j < |grouped| && j != i && Offer(s, total, grouped[j]).Some? ::
              var top := Offer(s, total, grouped[j]).value.top;
              if j < i then top < BestOf(s, total, grouped).value.top else top <= BestOf(s, total, grouped).value.top
  {
    hide Offer;
    var (last, init) := (|grouped| - 1, grouped[..|grouped| - 1]);
    if BestOf(s, total, init) == BestOf(s, total, grouped) && BestOf(s, total, init).Some? {
      i := BestIsOffered(s, total, init);
    } else {
      i := last;
      forall j | 0 <= j < last && Offer(s, total, grouped[j]).Some?
        ensures Offer(s, total, grouped[j]).value.top < Offer(s, total, grouped[last]).value.top
      {
        BestBeats(s, total, init, j);
      }
    }
  }

  /** Every driver row states its share, and a count's delta is a whole number. */
  predicate WellShared(s: Metric, rows: seq<Driver>, total: real) {
    && Shared(rows, total)
    && (s.kind.CountKind? ==> forall d | d in rows && d.delta.Some? && d.delta.value != 0.0 :: Abs(d.delta.value) >= 1.0)
  }

  lemma {:induction false} DriverIsShared(s: Metric, now: map<string, GroupRow>, before: map<string, GroupRow>, total: real, k: string)
    ensures var d := DriverOf(s, now, before, total, k);
            && d.contribution == SafeDivide(d.delta, Some(total), RATE_UNITS)
            && (s.kind.CountKind? && d.delta.Some? && d.delta.value != 0.0 ==> Abs(d.delta.value) >= 1.0)
  {
    hide GroupValue, TitleOf, DeltaPct, SafeDivide;
    var x := SafeSubtract(GroupValue(s, now, k), GroupValue(s, before, k), None);
    if x.Some? {
      ChangeSign(s, x.value);
    }
  }

  lemma {:induction false} RowsAreShared(s: Metric, current: seq<GroupRow>, prior: seq<GroupRow>, total: real)
    requires total != 0.0
    ensures WellShared(s, DriverRows(s, current, prior, total), total)
    ensures Sorted(DriverRows(s, current, prior, total), DriverBefore)
  {
    hide DriverOf, DriverBefore, MapOf, KeysOf, SafeDivide, TotalPreorder;
    var (now, before, keys) := (MapOf(current), MapOf(prior), KeysOf(current, prior));
    var listed := DriversFor(s, now, before, total, keys);
    DriverBeforeIsTotal();
    SortSorts(listed, DriverBefore);
    InSort(listed, DriverBefore);
    forall d | d in listed
      ensures d.contribution == SafeDivide(d.delta, Some(total), RATE_UNITS)
      ensures s.kind.CountKind? && d.delta.Some? && d.delta.value != 0.0 ==> Abs(d.delta.value) >= 1.0
    {
      var i :| 0 <= i < |listed| && listed[i] == d;
      DriverIsShared(s, now, before, total, keys[i]);
    }
  }

  /** A driver of a count that moves with the total and has share enough is never below the floor. */
  lemma {:induction false} CountQualifies(s: Metric, rows: seq<Driver>, total: real, d: Driver, share: real)
    requires s.kind.CountKind? && WellShared(s, rows, total)
    requires d in SameSign(rows, total) && SizeOf(d.contribution) >= share
    ensures Qualifies(s, d, share)
  {
    hide SafeDivide;
    assert d in rows && MovesWith(d, total);
  }

  lemma {:induction false} HalfShare()
    ensures Quantize(1.0 / 2.0, RATE_UNITS) == 0.5
    ensures Quantize(1.0 / 1.0, RATE_UNITS) == 1.0
  {
    QuantizeMultiple(1.0 / 2.0, 500000, RATE_UNITS);
    QuantizeMultiple(1.0 / 1.0, 1000000, RATE_UNITS);
  }

  /** The groupings of two windows of facts. */
  function Window(c: seq<Fact>, p: seq<Fact>, d: FilterDim): Grouping {
    Grouping(d, Groups(c, Of(d)), Groups(p, Of(d)))
  }

  /** The groupings that `build_insights` is given: one for each dimension asked for. */
  function Windows(c: seq<Fact>, p: seq<Fact>, dims: seq<FilterDim>): (r: seq<Grouping>)
    ensures |r| == |dims| && forall i | 0 <= i < |dims| :: r[i] == Window(c, p, dims[i])
  {
    if dims == [] then [] else Windows(c, p, dims[..|dims| - 1]) + [Window(c, p, dims[|dims| - 1])]
  }

  ghost predicate Material(s: Metric, c: seq<Fact>, p: seq<Fact>) {
    IsMaterial(SnapshotFor(s, Summary(c).sums, Summary(p).sums))
  }

  function DeltaOf(s: Metric, c: seq<Fact>, p: seq<Fact>): real {
    SnapshotFor(s, Summary(c).sums, Summary(p).sums).delta.GetOr(0.0)
  }

  lemma {:induction false} MaterialDelta(s: Metric, c: seq<Fact>, p: seq<Fact>)
    requires Material(s, c, p)
    ensures Delta(s, PickMetric(s, Summary(c).sums), PickMetric(s, Summary(p).sums)) == Some(DeltaOf(s, c, p))
    ensures Abs(DeltaOf(s, c, p)) >= AbsFloor(s.kind) && DeltaOf(s, c, p) != 0.0
    ensures SnapshotFor(s, Summary(c).sums, Summary(p).sums).delta == Some(DeltaOf(s, c, p))
  {
    hide Summary, PickMetric, Delta, DeltaPct, DenominatorOk;
  }

  predicate AllShown(s: Metric, c: seq<Fact>, p: seq<Fact>, d: FilterDim)
    requires Typed(s)
  {
    HiddenAmount(s, c, p, Of(d)) == 0.0
  }

  /** Whenever an additive metric moves materially, in every dimension whose all-NULL groups hide
      nothing some group moves with it, and the first of the n that do has a share of at least 1/n
      (rounded). */
  lemma {:induction false} SomeGroupMoves(s: Metric, c: seq<Fact>, p: seq<Fact>, d: FilterDim)
    requires Typed(s) && WholeCounts(c) && WholeCounts(p) && Material(s, c, p) && AllShown(s, c, p, d)
    ensures var same := SameSign(DriverRows(s, Groups(c, Of(d)), Groups(p, Of(d)), DeltaOf(s, c, p)), DeltaOf(s, c, p));
            && same != []
            && SumReals(Deltas(same)) / DeltaOf(s, c, p) >= 1.0
            && SizeOf(same[0].contribution) >= Quantize(1.0 / |same| as real, RATE_UNITS)
  {
    hide Groups, Summary, DriverRows, SameSign, DeltaOf, SizeOf, Quantize, SumReals, Shared, Sorted, WholeCounts, PickMetric, Material;
    MaterialDelta(s, c, p);
    var total := DeltaOf(s, c, p);
    DriversConserve(s, c, p, Of(d), total);
    RowsAreShared(s, Groups(c, Of(d)), Groups(p, Of(d)), total);
    TopShare(DriverRows(s, Groups(c, Of(d)), Groups(p, Of(d)), total), total);
  }

  function SameIn(s: Metric, c: seq<Fact>, p: seq<Fact>, d: FilterDim): seq<Driver> {
    SameSign(DriverRows(s, Groups(c, Of(d)), Groups(p, Of(d)), DeltaOf(s, c, p)), DeltaOf(s, c, p))
  }

  function Found(s: Metric, c: seq<Fact>, p: seq<Fact>, grouped: seq<Grouping>): Option<Best> {
    DominantDriver(s, SnapshotFor(s, Summary(c).sums, Summary(p).sums), grouped)
  }

  /** A count that moves materially always gets a dominant_driver draft when some dimension has two
      groups or more of which at most two move with it, whatever the other dimensions look like. */
  lemma {:induction false} TwoMoversAreFound(s: Metric, c: seq<Fact>, p: seq<Fact>, grouped: seq<Grouping>, i: nat, d: FilterDim)
    requires Typed(s) && s.kind.CountKind? && WholeCounts(c) && WholeCounts(p) && Material(s, c, p)
    requires i < |grouped| && grouped[i] == Window(c, p, d) && AllShown(s, c, p, d)
    requires |KeysOf(Groups(c, Of(d)), Groups(p, Of(d)))| >= MIN_DRIVER_GROUPS && |SameIn(s, c, p, d)| <= 2
    ensures Found(s, c, p, grouped).Some?
  {
    hide Groups, Summary, DriverRows, SameSign, DeltaOf, SizeOf, Quantize, SumReals, WholeCounts, KeysOf, Qualifies, TwoTogether, IsMaterial, SnapshotFor, AllShown;
    SomeGroupMoves(s, c, p, d);
    MaterialDelta(s, c, p);
    var total := DeltaOf(s, c, p);
    HalfShare();
    BestBeats(s, total, grouped, i);
    var best := BestOf(s, total, grouped).value;
    assert best.top >= 0.5;
    var k := BestIsOffered(s, total, grouped);
    RowsAreShared(s, grouped[k].current, grouped[k].prior, total);
    CountQualifies(s, DriverRows(s, grouped[k].current, grouped[k].prior, total), total, best.same[0], DRIVER_SHARE);
  }

  /** Three shares in descending order that add up to nearly 1 always pass one of the two tests. */
  lemma {:induction false} ThreeShares(s: Metric, rows: seq<Driver>, total: real)
    requires s.kind.CountKind? && WellShared(s, rows, total) && Sorted(rows, DriverBefore)
    requires var same := SameSign(rows, total); 1 <= |same| <= 3 && SumReals(Deltas(same)) / total >= 1.0
    ensures Dominated(s, SameSign(rows, total))
  {
    hide WellShared, DriverBefore, SameSign, SizeOf, Qualifies, SumReals, Deltas, Sorted;
    var same := SameSign(rows, total);
    SameSignSorted(rows, total);
    SharesOfMovers(s, rows, total);
    assert same[0] in same;
    ThreeSum(Contributions(same));
    if SizeOf(same[0].contribution) >= DRIVER_SHARE {
      CountQualifies(s, rows, total, same[0], DRIVER_SHARE);
    } else {
      TwoAreNotThree(same);
      assert same[1] in same && same[2] in same;
      SecondIsLarger(same);
      CountQualifies(s, rows, total, same[0], MULTI_DRIVER_EACH);
      CountQualifies(s, rows, total, same[1], MULTI_DRIVER_EACH);
    }
  }

  lemma {:induction false} TwoAreNotThree(same: seq<Driver>)
    requires 1 <= |same| <= 3 && Sorted(same, DriverBefore) && SizeOf(same[0].contribution) < DRIVER_SHARE
    requires forall d | d in same :: d.contribution.Some? && d.contribution.value >= 0.0 && SizeOf(d.contribution) == d.contribution.value
    requires SumReals(Contributions(same)) >= 1.0 - (0.5 / RATE_UNITS) * |same| as real
    ensures |same| == 3
  {
    hide SizeOf, SumReals, DriverBefore, Sorted;
    ThreeSum(Contributions(same));
    assert same[0] in same;
    if |same| == 2 {
      assert same[1] in same;
      FirstIsLargest(same, 1);
    }
  }

  lemma {:induction false} SecondIsLarger(same: seq<Driver>)
    requires Sorted(same, DriverBefore) && |same| == 3
    ensures SizeOf(same[0].contribution) >= SizeOf(same[1].contribution) >= SizeOf(same[2].contribution)
  {
    hide SizeOf, StringLe;
    assert DriverBefore(same[0], same[1]) && DriverBefore(same[1], same[2]);
  }

  lemma {:induction false} ThreeSum(xs: seq<real>)
    requires 1 <= |xs| <= 3
    ensures |xs| == 1 ==> SumReals(xs) == xs[0]
    ensures |xs| == 2 ==> SumReals(xs) == xs[0] + xs[1]
    ensures |xs| == 3 ==> SumReals(xs) == xs[0] + xs[1] + xs[2]
  {
    SumOne(xs[0]);
    if |xs| == 1 {
      assert xs == [xs[0]];
    } else {
      SumOne(xs[1]);
      SumConcat([xs[0]], [xs[1]]);
      if |xs| == 2 {
        assert xs == [xs[0]] + [xs[1]];
      } else {
        SumOne(xs[2]);
        SumConcat([xs[0]] + [xs[1]], [xs[2]]);
        assert xs == [xs[0]] + [xs[1]] + [xs[2]];
      }
    }
  }

  /** The rounded shares of the movers: each is present and not negative, and they add up to 1 or
      more, within the rounding. */
  lemma {:induction false} SharesOfMovers(s: Metric, rows: seq<Driver>, total: real)
    requires WellShared(s, rows, total)
    requires SumReals(Deltas(SameSign(rows, total))) / total >= 1.0
    ensures var same := SameSign(rows, total);
            && (forall d | d in same :: d.contribution.Some? && d.contribution.value >= 0.0 && SizeOf(d.contribution) == d.contribution.value)
            && SumReals(Contributions(same)) >= 1.0 - (0.5 / RATE_UNITS) * |same| as real
  {
    hide SafeDivide, MovesWith, Quantize, SizeOf, SumReals;
    var same := SameSign(rows, total);
    forall d | d in same
      ensures d.contribution.Some? && d.contribution.value >= 0.0 && SizeOf(d.contribution) == d.contribution.value
      ensures d.contribution.value == Quantize(d.delta.GetOr(0.0) / total, RATE_UNITS)
    {
      assert d in rows && MovesWith(d, total);
      MovingShare(d, total);
      MovesSome(d, total);
    }
    forall i | 0 <= i < |same|
      ensures Contributions(same)[i] == Quantize(Deltas(same)[i] / total, RATE_UNITS)
    {
      assert same[i] in same;
    }
    SharesAre(Deltas(same), Contributions(same), total);
    RoundedSharesNear(Deltas(same), total);
  }

  /** What the best of several dimensions offers: its first share is the best one, and its movers account
      for the change. */
  lemma {:induction false} BestOfWindows(s: Metric, c: seq<Fact>, p: seq<Fact>, dims: seq<FilterDim>) returns (i: nat)
    requires Typed(s) && WholeCounts(c) && WholeCounts(p) && Material(s, c, p)
    requires forall d | d in dims :: AllShown(s, c, p, d)
    requires exists d | d in dims :: |KeysOf(Groups(c, Of(d)), Groups(p, Of(d)))| >= MIN_DRIVER_GROUPS
    ensures var best := BestOf(s, DeltaOf(s, c, p), Windows(c, p, dims));
            && best.Some? && i < |dims| && AllShown(s, c, p, dims[i])
            && best.value.same == SameIn(s, c, p, dims[i])
  {
    hide Groups, Summary, DriverRows, SameSign, DeltaOf, SizeOf, Quantize, SumReals, WholeCounts, KeysOf, IsMaterial, SnapshotFor, AllShown, Windows;
    var (total, grouped) := (DeltaOf(s, c, p), Windows(c, p, dims));
    var d :| d in dims && |KeysOf(Groups(c, Of(d)), Groups(p, Of(d)))| >= MIN_DRIVER_GROUPS;
    var k: nat :| k < |dims| && dims[k] == d;
    SomeGroupMoves(s, c, p, d);
    BestBeats(s, total, grouped, k);
    i := BestIsOffered(s, total, grouped);
    assert dims[i] in dims;
  }

  /** Among any dimensions, three groups of the best one that move with a count are not too many either. */
  lemma {:induction false} ThreeMoversAreFound(s: Metric, c: seq<Fact>, p: seq<Fact>, dims: seq<FilterDim>)
    requires Typed(s) && s.kind.CountKind? && WholeCounts(c) && WholeCounts(p) && Material(s, c, p)
    requires forall d | d in dims :: AllShown(s, c, p, d)
    requires exists d | d in dims :: |KeysOf(Groups(c, Of(d)), Groups(p, Of(d)))| >= MIN_DRIVER_GROUPS
    ensures BestOf(s, DeltaOf(s, c, p), Windows(c, p, dims)).Some?
    ensures |BestOf(s, DeltaOf(s, c, p), Windows(c, p, dims)).value.same| <= 3 ==> Found(s, c, p, Windows(c, p, dims)).Some?
  {
    hide Groups, Summary, DriverRows, SameSign, DeltaOf, SizeOf, Quantize, SumReals, WholeCounts, KeysOf, Dominated, IsMaterial, SnapshotFor, AllShown, Windows, BestOf;
    var i := BestOfWindows(s, c, p, dims);
    var (total, d) := (DeltaOf(s, c, p), dims[i]);
    SomeGroupMoves(s, c, p, d);
    MaterialDelta(s, c, p);
    RowsAreShared(s, Groups(c, Of(d)), Groups(p, Of(d)), total);
    if |SameIn(s, c, p, d)| <= 3 {
      ThreeShares(s, DriverRows(s, Groups(c, Of(d)), Groups(p, Of(d)), total), total);
    }
  }

  lemma {:induction false} AloneBest(s: Metric, total: real, g: Grouping)
    ensures BestOf(s, total, [g]) == Offer(s, total, g)
  {
    hide Offer;
    assert [g][..0] == [];
  }

  lemma {:induction false} AloneSame(s: Metric, c: seq<Fact>, p: seq<Fact>, d: FilterDim)
    ensures var best := BestOf(s, DeltaOf(s, c, p), [Window(c, p, d)]);
            best.Some? ==> best.value.same == SameIn(s, c, p, d)
  {
    hide Groups, DriverRows, SameSign, DeltaOf, SizeOf, KeysOf, BestOf;
    AloneBest(s, DeltaOf(s, c, p), Window(c, p, d));
  }

  /** With two movers or one in the best dimension, the draft depends on the floor alone, for money as
      for counts: there is one exactly when the first mover's change is not below it. */
  lemma {:induction false} FloorDecides(s: Metric, c: seq<Fact>, p: seq<Fact>, dims: seq<FilterDim>)
    requires Typed(s) && WholeCounts(c) && WholeCounts(p) && Material(s, c, p)
    requires forall d | d in dims :: AllShown(s, c, p, d)
    requires exists d | d in dims :: |KeysOf(Groups(c, Of(d)), Groups(p, Of(d)))| >= MIN_DRIVER_GROUPS
    ensures var best := BestOf(s, DeltaOf(s, c, p), Windows(c, p, dims));
            && best.Some? && best.value.same != []
            && (|best.value.same| <= 2 ==>
                  (Found(s, c, p, Windows(c, p, dims)).Some? <==> SizeOf(best.value.same[0].delta) >= Smallest(s.kind)))
  {
    FloorIsSmallest(s.kind);
    hide Groups, Summary, DriverRows, SameSign, DeltaOf, SizeOf, Quantize, SumReals, WholeCounts, KeysOf, Dominated, IsMaterial, SnapshotFor, AllShown, AbsFloor, Shared, Sorted, Windows, BestOf;
    var i := BestOfWindows(s, c, p, dims);
    var (total, d) := (DeltaOf(s, c, p), dims[i]);
    SomeGroupMoves(s, c, p, d);
    MaterialDelta(s, c, p);
    RowsAreShared(s, Groups(c, Of(d)), Groups(p, Of(d)), total);
    if |SameIn(s, c, p, d)| <= 2 {
      HalfShare();
      FirstOrNone(s, DriverRows(s, Groups(c, Of(d)), Groups(p, Of(d)), total), total);
    }
  }

  /** When the first mover has share enough, it alone decides. */
  lemma {:induction false} FirstOrNone(s: Metric, rows: seq<Driver>, total: real)
    requires WellShared(s, rows, total) && Sorted(rows, DriverBefore)
    requires SameSign(rows, total) != [] && SizeOf(SameSign(rows, total)[0].contribution) >= DRIVER_SHARE
    ensures Dominated(s, SameSign(rows, total)) <==> SizeOf(SameSign(rows, total)[0].delta) >= AbsFloor(s.kind)
  {
    hide SameSign, DriverBefore, MovesWith, SizeOf, Qualifies, AbsFloor, Sorted;
    var same := SameSign(rows, total);
    assert same[0] in same;
    QualifiesIs(s, same[0], DRIVER_SHARE, total);
    forall d, share | d in same && Qualifies(s, d, share)
      ensures SizeOf(same[0].delta) >= AbsFloor(s.kind)
    {
      var i :| 0 <= i < |same| && same[i] == d;
      FirstMovesMost(rows, total, i);
      QualifiesIs(s, d, share, total);
    }
  }

  lemma {:induction false} QualifiesIs(s: Metric, d: Driver, share: real, total: real)
    requires MovesWith(d, total)
    ensures Qualifies(s, d, share) <==> SizeOf(d.delta) >= AbsFloor(s.kind) && SizeOf(d.contribution) >= share
  {
    hide AbsFloor;
  }

  // ---- what decides ----------------------------------------------------------------------

  /** The smallest change that counts as one: a unit of money or count, a hundredth of a rate, a tenth of a ROAS. */
  function Smallest(kind: Kind): real {
    if kind.RateKind? then 0.01 else if kind.RoasKind? then 0.1 else 1.0
  }

  lemma {:induction false} FloorIsSmallest(kind: Kind)
    ensures AbsFloor(kind) == Smallest(kind)
  {
  }

  /** The first mover is large enough alone, with two fifths of the change; or the first two are together,
      with a quarter each and three fifths in all. */
  predicate TwoLargestPass(s: Metric, same: seq<Driver>) {
    || (same != [] && SizeOf(same[0].delta) >= Smallest(s.kind) && SizeOf(same[0].contribution) >= 0.4)
    || (&& |same| >= 2
        && SizeOf(same[1].delta) >= Smallest(s.kind) && SizeOf(same[1].contribution) >= 0.25
        && SizeOf(same[0].contribution) + SizeOf(same[1].contribution) >= 0.6)
  }

  lemma {:induction false} DominatedIsPass(s: Metric, rows: seq<Driver>, total: real)
    requires WellShared(s, rows, total) && Sorted(rows, DriverBefore)
    ensures Dominated(s, SameSign(rows, total)) <==> TwoLargestPass(s, SameSign(rows, total))
  {
    hide SameSign, DriverBefore, MovesWith, SizeOf, Qualifies, AbsFloor, Sorted, SafeDivide, Smallest;
    FloorIsSmallest(s.kind);
    var same := SameSign(rows, total);
    SameSignSorted(rows, total);
    if same != [] {
      assert same[0] in same;
      QualifiesIs(s, same[0], DRIVER_SHARE, total);
      forall d | d in same && Qualifies(s, d, DRIVER_SHARE)
        ensures Qualifies(s, same[0], DRIVER_SHARE)
      {
        var i :| 0 <= i < |same| && same[i] == d;
        FirstMovesMost(rows, total, i);
        FirstIsLargest(same, i);
        QualifiesIs(s, d, DRIVER_SHARE, total);
      }
      if |same| >= 2 {
        TogetherIs(s, rows, total);
      }
    }
  }

  lemma {:induction false} TogetherIs(s: Metric, rows: seq<Driver>, total: real)
    requires WellShared(s, rows, total) && Sorted(rows, DriverBefore) && |SameSign(rows, total)| >= 2
    ensures var same := SameSign(rows, total);
            TwoTogether(s, same) <==>
              && SizeOf(same[1].delta) >= AbsFloor(s.kind) && SizeOf(same[1].contribution) >= MULTI_DRIVER_EACH
              && SizeOf(same[0].contribution) + SizeOf(same[1].contribution) >= MULTI_DRIVER_TOGETHER
  {
    hide SameSign, DriverBefore, MovesWith, SizeOf, Qualifies, AbsFloor, Sorted, SafeDivide, Quantize;
    var same := SameSign(rows, total);
    assert same[0] in same && same[1] in same;
    SameSignSorted(rows, total);
    FirstMovesMost(rows, total, 1);
    FirstIsLargest(same, 1);
    QualifiesIs(s, same[0], MULTI_DRIVER_EACH, total);
    QualifiesIs(s, same[1], MULTI_DRIVER_EACH, total);
    MovingShare(same[0], total);
    MovingShare(same[1], total);
  }

  /** What decides, for every grouping, on all facts and for money and counts alike: a material change gets
      a dominant driver exactly when some dimension offers one and the two largest movers of the best
      dimension pass, whatever the others are and whatever all-NULL groups hide. */
  lemma {:induction false} TwoLargestDecide(s: Metric, c: seq<Fact>, p: seq<Fact>, grouped: seq<Grouping>)
    requires Typed(s) && Material(s, c, p)
    ensures var best := BestOf(s, DeltaOf(s, c, p), grouped);
            Found(s, c, p, grouped).Some? <==> best.Some? && TwoLargestPass(s, best.value.same)
  {
    hide Groups, Summary, DriverRows, SameSign, DeltaOf, SizeOf, Quantize, KeysOf, Dominated, IsMaterial, SnapshotFor, AbsFloor, Shared, Sorted, TwoLargestPass, BestOf;
    MaterialDelta(s, c, p);
    var total := DeltaOf(s, c, p);
    if BestOf(s, total, grouped).Some? {
      var i := BestIsOffered(s, total, grouped);
      RowsAreShared(s, grouped[i].current, grouped[i].prior, total);
      DominatedIsPass(s, DriverRows(s, grouped[i].current, grouped[i].prior, total), total);
    }
  }

  /** In one dimension: when it has two groups or more and its two largest movers pass. */
  lemma {:induction false} OneDimensionDecides(s: Metric, c: seq<Fact>, p: seq<Fact>, d: FilterDim)
    requires Typed(s) && Material(s, c, p)
    ensures Found(s, c, p, [Window(c, p, d)]).Some? <==>
            |KeysOf(Groups(c, Of(d)), Groups(p, Of(d)))| >= 2 && TwoLargestPass(s, SameIn(s, c, p, d))
  {
    hide Groups, Summary, DriverRows, SameSign, DeltaOf, SizeOf, KeysOf, AbsFloor, BestOf, Found, Material;
    AloneBest(s, DeltaOf(s, c, p), Window(c, p, d));
    TwoLargestDecide(s, c, p, [Window(c, p, d)]);
  }

  // ---- even movers -------------------------------------------------------------------------------------------------

  lemma {:induction false} EvenSum(rows: seq<Driver>, x: real)
    requires forall d | d in rows :: d.delta == Some(x)
    ensures SumReals(Deltas(rows)) == |rows| as real * x
  {
    hide SumReals, Deltas;
    if rows == [] {
      NoDeltas();
    } else {
      assert rows[0] in rows && forall d | d in rows[1..] :: d in rows;
      EvenSum(rows[1..], x);
      assert rows == [rows[0]] + rows[1..];
      DeltasCons(rows[0], rows[1..]);
      OneMore(|rows[1..]|, x);
    }
  }

  lemma {:induction false} OneMore(n: nat, x: real)
    ensures (n + 1) as real * x == x + n as real * x
  {
  }

  /** A part that is the n-th of the whole, for n >= 4, is at most a quarter. */
  lemma {:induction false} EvenRatio(x: real, total: real, n: nat)
    requires n >= 4 && total != 0.0 && n as real * x == total
    ensures x / total <= 0.25
  {
    var k := n as real;
    assert x == total / k;
    assert x / total == 1.0 / k;
    DivideThenMultiply(1.0, k);
  }

  lemma {:induction false} QuarterShare(d: Driver, total: real)
    requires total != 0.0 && MovesWith(d, total) && d.contribution == SafeDivide(d.delta, Some(total), RATE_UNITS)
    requires d.delta.value / total <= 0.25
    ensures SizeOf(d.contribution) <= 0.25
  {
    hide SizeOf, Quantize, SafeDivide;
    MovingShare(d, total);
    QuantizeMonotone(d.delta.value / total, 0.25, RATE_UNITS);
    QuantizeMultiple(0.25, 250000, RATE_UNITS);
  }

  /** Four or more movers of one size that account for the change never dominate it: on any facts, when the
      best dimension is like that, there is no dominant_driver draft. */
  lemma {:induction false} EvenMoversAreNotFound(s: Metric, c: seq<Fact>, p: seq<Fact>, grouped: seq<Grouping>, x: real)
    requires Typed(s) && Material(s, c, p)
    requires var best := BestOf(s, DeltaOf(s, c, p), grouped);
             best.Some? && |best.value.same| >= 4 && SumReals(Deltas(best.value.same)) == DeltaOf(s, c, p)
             && forall m | m in best.value.same :: m.delta == Some(x)
    ensures Found(s, c, p, grouped).None?
  {
    hide Groups, Summary, DriverRows, SameSign, DeltaOf, SizeOf, Quantize, SumReals, Deltas, KeysOf, IsMaterial, SnapshotFor, AbsFloor, Sorted, SafeDivide, DominantDriver, BestOf;
    var total := DeltaOf(s, c, p);
    var same := BestOf(s, total, grouped).value.same;
    MaterialDelta(s, c, p);
    var i := BestIsOffered(s, total, grouped);
    RowsAreShared(s, grouped[i].current, grouped[i].prior, total);
    EvenSum(same, x);
    EvenRatio(x, total, |same|);
    assert same[0] in same && same[1] in same;
    QuarterShare(same[0], total);
    QuarterShare(same[1], total);
    TwoLargestDecide(s, c, p, grouped);
  }
}
