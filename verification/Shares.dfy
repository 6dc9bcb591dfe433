/** analytics_service.py: ranked rows with a folded "Other", and the shares shown beside them. */
module Shares {
  import opened Prelude
  import opened Facts
  import opened Numbers
  import opened Ordering
  import opened Drill

  // ---- rounded parts of a whole -------------------------------------------------------------------

  function SumReals(xs: seq<real>): real {
    if xs == [] then 0.0 else xs[0] + SumReals(xs[1..])
  }

  /** The rounded share of each part in a total. */
  function RoundedShares(xs: seq<real>, total: real): seq<real>
    requires total != 0.0
  {
    if xs == [] then [] else [Quantize(xs[0] / total, RATE_UNITS)] + RoundedShares(xs[1..], total)
  }

  lemma {:induction false} RoundedSharesNear(xs: seq<real>, total: real)
    requires total != 0.0
    ensures -(0.5 / RATE_UNITS) * |xs| as real <= SumReals(RoundedShares(xs, total)) - SumReals(xs) / total
            <= (0.5 / RATE_UNITS) * |xs| as real
  {
    hide Quantize, SumReals, RoundedShares;
    if xs == [] {
      NoShares(total);
    } else {
      RoundedSharesNear(xs[1..], total);
      QuantizeNear(xs[0] / total, RATE_UNITS);
      DivideSum(xs[0], SumReals(xs[1..]), total);
      SharesCons(xs, total);
    }
  }

  lemma {:induction false} NoShares(total: real)
    requires total != 0.0
    ensures SumReals(RoundedShares([], total)) == 0.0 && SumReals([]) / total == 0.0
  {
  }

  lemma {:induction false} SharesCons(xs: seq<real>, total: real)
    requires total != 0.0 && xs != []
    ensures SumReals(xs) == xs[0] + SumReals(xs[1..])
    ensures SumReals(RoundedShares(xs, total)) == Quantize(xs[0] / total, RATE_UNITS) + SumReals(RoundedShares(xs[1..], total))
  {
    hide Quantize;
    assert RoundedShares(xs, total)[1..] == RoundedShares(xs[1..], total);
  }

  lemma {:induction false} OverItself(x: real)
    requires x != 0.0
    ensures x / x == 1.0
  {
  }

  /** Rounded shares of all the parts of a nonzero total add up to 1 within half a unit of 1e-6 for
      each part. */
  lemma {:induction false} SharesAddUp(xs: seq<real>)
    requires SumReals(xs) != 0.0
    ensures Abs(SumReals(RoundedShares(xs, SumReals(xs))) - 1.0) <= (0.5 / RATE_UNITS) * |xs| as real
  {
    var total := SumReals(xs);
    RoundedSharesNear(xs, total);
    OverItself(total);
  }

  // ---- drill rows -----------------------------------------------------------------------------------

  const MAX_DRILL_ROWS: nat := 50

  /** `_volume`. */
  function VolumeOf(row: Row, m: Measure): real {
    OrZero(row.sums, m)
  }

  function Volumes(groups: seq<GroupRow>, m: Measure): (r: seq<real>)
    ensures |r| == |groups| && forall i | 0 <= i < |r| :: r[i] == VolumeOf(groups[i].row, m)
  {
    if groups == [] then [] else [VolumeOf(groups[0].row, m)] + Volumes(groups[1..], m)
  }

  function CountOf(groups: seq<GroupRow>): nat {
    if groups == [] then 0 else groups[0].row.count + CountOf(groups[1..])
  }

  /** `(-volume, label.lower(), key)`. */
  predicate GroupBefore(m: Measure, lower: string -> string, a: GroupRow, b: GroupRow) {
    var (va, vb, la, lb) := (VolumeOf(a.row, m), VolumeOf(b.row, m), lower(a.title), lower(b.title));
    if va != vb then va > vb
    else if la != lb then StringLe(la, lb)
    else StringLe(a.value, b.value)
  }

  function GroupOrder(m: Measure, lower: string -> string): (GroupRow, GroupRow) -> bool {
    (a, b) => GroupBefore(m, lower, a, b)
  }

  const ALL_MEASURES: set<Measure> := {
    Sent, Failed, Delivered, UniqueImpressions, UniqueClicks, UniqueConversions,
    ImpressionThroughConversions, ClickThroughConversions,
    RevenueInr, ImpressionThroughRevenue, ClickThroughRevenue, TotalCost}

  function SumMeasureOf(groups: seq<Sums>, m: Measure): real {
    if groups == [] then 0.0 else SumMeasureOf(groups[..|groups| - 1], m) + OrZero(groups[|groups| - 1], m)
  }

  /** `_combine_measures`: every measure is present in the result, NULL read as zero, unless there
      is no group at all. */
  function Combine(groups: seq<Sums>): Sums {
    if groups == [] then map[] else map m | m in ALL_MEASURES :: SumMeasureOf(groups, m)
  }

  method CombineMeasures(groups: seq<Sums>) returns (totals: Sums)
    ensures totals == Combine(groups)
  {
    totals := map[];
    for i := 0 to |groups|
      invariant totals == Combine(groups[..i])
    {
      assert groups[..i + 1][..i] == groups[..i];
      assert i == 0 ==> groups[..i] == [];
      ghost var before := totals;
      var next: Sums := totals;
      var left := ALL_MEASURES;
      while left != {}
        invariant left <= ALL_MEASURES
        invariant forall m | m in left :: (m in next <==> m in before) && (m in next ==> next[m] == before[m])
        invariant forall m | m in ALL_MEASURES - left :: m in next && next[m] == OrZero(before, m) + OrZero(groups[i], m)
        invariant next.Keys <= ALL_MEASURES
        decreases left
      {
        var m :| m in left;
        next := next[m := OrZero(next, m) + OrZero(groups[i], m)];
        left := left - {m};
      }
      totals := next;
      CombineStep(groups, i, before, totals);
    }
    assert groups[..|groups|] == groups;
  }

  lemma {:induction false} CombineStep(groups: seq<Sums>, i: nat, before: Sums, after: Sums)
    requires i < |groups| && before == Combine(groups[..i]) && after.Keys == ALL_MEASURES
    requires forall m | m in ALL_MEASURES :: after[m] == OrZero(before, m) + OrZero(groups[i], m)
    ensures after == Combine(groups[..i + 1])
  {
    hide ALL_MEASURES;
    var upto := groups[..i + 1];
    assert upto[..|upto| - 1] == groups[..i] && upto[|upto| - 1] == groups[i];
    forall m | m in ALL_MEASURES
      ensures after[m] == SumMeasureOf(upto, m)
    {
      if i == 0 {
        assert groups[..i] == [] && OrZero(before, m) == 0.0;
      } else {
        assert before[m] == SumMeasureOf(groups[..i], m);
      }
    }
    assert after == Combine(upto);
  }

  datatype DrillRow = DrillRow(rank: Option<nat>, key: string, row: Row, share: Option<real>)

  function SumsIn(groups: seq<GroupRow>): (r: seq<Sums>)
    ensures |r| == |groups| && forall i | 0 <= i < |r| :: r[i] == groups[i].row.sums
  {
    seq(|groups|, i requires 0 <= i < |groups| => groups[i].row.sums)
  }

  function ShareOf(row: Row, m: Measure, total: real): Option<real> {
    SafeDivide(Some(VolumeOf(row, m)), Some(total), RATE_UNITS)
  }

  function KeptRows(kept: seq<GroupRow>, m: Measure, total: real): (rows: seq<DrillRow>)
    ensures |rows| == |kept|
    ensures forall i | 0 <= i < |rows| :: rows[i] == DrillRow(Some(i + 1), kept[i].value, kept[i].row, ShareOf(kept[i].row, m, total))
  {
    seq(|kept|, i requires 0 <= i < |kept| => DrillRow(Some(i + 1), kept[i].value, kept[i].row, ShareOf(kept[i].row, m, total)))
  }

  function OtherRow(leftover: seq<GroupRow>): Row {
    Row(CountOf(leftover), Combine(SumsIn(leftover)))
  }

  /** `_ranked_rows`: the largest groups in rank order, and one row for all the others. */
  function RankedRows(groups: seq<GroupRow>, m: Measure, lower: string -> string): seq<DrillRow> {
    var ordered := Sort(groups, GroupOrder(m, lower));
    var total := SumReals(Volumes(ordered, m));
    if |ordered| <= MAX_DRILL_ROWS then KeptRows(ordered, m, total)
    else
      var other := OtherRow(ordered[MAX_DRILL_ROWS..]);
      KeptRows(ordered[..MAX_DRILL_ROWS], m, total) + [DrillRow(None, OTHER_SERIES_KEY, other, ShareOf(other, m, total))]
  }

  function RowCounts(rows: seq<DrillRow>): nat {
    if rows == [] then 0 else rows[0].row.count + RowCounts(rows[1..])
  }

  function RowVolumes(rows: seq<DrillRow>, m: Measure): (r: seq<real>)
    ensures |r| == |rows| && forall i | 0 <= i < |r| :: r[i] == VolumeOf(rows[i].row, m)
  {
    seq(|rows|, i requires 0 <= i < |rows| => VolumeOf(rows[i].row, m))
  }

  function RowShares(rows: seq<DrillRow>): (r: seq<real>)
    ensures |r| == |rows| && forall i | 0 <= i < |r| :: r[i] == rows[i].share.GetOr(0.0)
  {
    seq(|rows|, i requires 0 <= i < |rows| => rows[i].share.GetOr(0.0))
  }

  // ---- conservation -----------------------------------------------------------------------------------

  lemma {:induction false} SumConcat(a: seq<real>, b: seq<real>)
    ensures SumReals(a + b) == SumReals(a) + SumReals(b)
  {
    if a == [] {
      assert a + b == b;
    } else {
      assert (a + b)[0] == a[0] && (a + b)[1..] == a[1..] + b;
      SumConcat(a[1..], b);
    }
  }

  lemma {:induction false} InsertKeeps(g: GroupRow, s: seq<GroupRow>, le: (GroupRow, GroupRow) -> bool, m: Measure)
    ensures SumReals(Volumes(Insert(g, s, le), m)) == VolumeOf(g.row, m) + SumReals(Volumes(s, m))
    ensures CountOf(Insert(g, s, le)) == g.row.count + CountOf(s)
  {
    if s != [] {
      if le(g, s[0]) {
        assert ([g] + s)[1..] == s;
      } else {
        InsertKeeps(g, s[1..], le, m);
        var rest := Insert(g, s[1..], le);
        assert ([s[0]] + rest)[1..] == rest;
      }
    }
  }

  lemma {:induction false} SortKeeps(s: seq<GroupRow>, le: (GroupRow, GroupRow) -> bool, m: Measure)
    ensures SumReals(Volumes(Sort(s, le), m)) == SumReals(Volumes(s, m))
    ensures CountOf(Sort(s, le)) == CountOf(s)
  {
    if s != [] {
      SortKeeps(s[1..], le, m);
      InsertKeeps(s[0], Sort(s[1..], le), le, m);
    }
  }

  lemma {:induction false} CountConcat(a: seq<GroupRow>, b: seq<GroupRow>)
    ensures CountOf(a + b) == CountOf(a) + CountOf(b)
  {
    if a == [] {
      assert a + b == b;
    } else {
      assert (a + b)[0] == a[0] && (a + b)[1..] == a[1..] + b;
      CountConcat(a[1..], b);
    }
  }

  lemma {:induction false} KeptCounts(kept: seq<GroupRow>, rows: seq<DrillRow>)
    requires |rows| == |kept| && forall i | 0 <= i < |rows| :: rows[i].row == kept[i].row
    ensures RowCounts(rows) == CountOf(kept)
  {
    if rows != [] {
      KeptCounts(kept[1..], rows[1..]);
    }
  }

  lemma {:induction false} RowCountsSnoc(rows: seq<DrillRow>, r: DrillRow)
    ensures RowCounts(rows + [r]) == RowCounts(rows) + r.row.count
  {
    if rows == [] {
      assert rows + [r] == [r];
    } else {
      assert (rows + [r])[0] == rows[0] && (rows + [r])[1..] == rows[1..] + [r];
      RowCountsSnoc(rows[1..], r);
    }
  }

  lemma {:induction false} AllMeasuresAre(m: Measure)
    ensures m in ALL_MEASURES
  {
  }

  lemma {:induction false} VolumesSnoc(groups: seq<GroupRow>, g: GroupRow, m: Measure)
    ensures SumReals(Volumes(groups + [g], m)) == SumReals(Volumes(groups, m)) + VolumeOf(g.row, m)
  {
    hide VolumeOf;
    if groups == [] {
      assert groups + [g] == [g] && [g][1..] == [];
    } else {
      assert (groups + [g])[0] == groups[0] && (groups + [g])[1..] == groups[1..] + [g];
      VolumesSnoc(groups[1..], g, m);
    }
  }

  lemma {:induction false} VolumesConcat(a: seq<GroupRow>, b: seq<GroupRow>, m: Measure)
    ensures SumReals(Volumes(a + b, m)) == SumReals(Volumes(a, m)) + SumReals(Volumes(b, m))
  {
    hide VolumeOf;
    if a == [] {
      assert a + b == b;
    } else {
      assert (a + b)[0] == a[0] && (a + b)[1..] == a[1..] + b;
      VolumesConcat(a[1..], b, m);
    }
  }

  lemma {:induction false} SumsSnoc(groups: seq<GroupRow>, g: GroupRow, m: Measure)
    ensures SumMeasureOf(SumsIn(groups + [g]), m) == SumMeasureOf(SumsIn(groups), m) + VolumeOf(g.row, m)
  {
    hide OrZero;
    var all := SumsIn(groups + [g]);
    assert all[..|all| - 1] == SumsIn(groups) && all[|all| - 1] == g.row.sums;
  }

  lemma {:induction false} OtherVolume(groups: seq<GroupRow>, m: Measure)
    ensures SumMeasureOf(SumsIn(groups), m) == SumReals(Volumes(groups, m))
  {
    if groups != [] {
      hide SumMeasureOf, SumsIn, SumReals, Volumes, VolumeOf;
      var init, last := groups[..|groups| - 1], groups[|groups| - 1];
      OtherVolume(init, m);
      assert groups == init + [last];
      SumsSnoc(init, last, m);
      VolumesSnoc(init, last, m);
    }
  }

  lemma {:induction false} OtherRowVolume(groups: seq<GroupRow>, m: Measure)
    ensures VolumeOf(OtherRow(groups), m) == SumReals(Volumes(groups, m))
  {
    hide ALL_MEASURES, SumReals, CountOf;
    OtherVolume(groups, m);
    AllMeasuresAre(m);
    if groups == [] {
      SumNone();
    }
  }

  lemma {:induction false} KeptVolumes(kept: seq<GroupRow>, rows: seq<DrillRow>, m: Measure)
    requires |rows| == |kept| && forall i | 0 <= i < |rows| :: rows[i].row == kept[i].row
    ensures RowVolumes(rows, m) == Volumes(kept, m)
  {
    hide VolumeOf;
  }

  lemma {:induction false} RowVolumesSnoc(rows: seq<DrillRow>, r: DrillRow, m: Measure)
    ensures SumReals(RowVolumes(rows + [r], m)) == SumReals(RowVolumes(rows, m)) + VolumeOf(r.row, m)
  {
    hide VolumeOf, SumReals;
    assert RowVolumes(rows + [r], m) == RowVolumes(rows, m) + [VolumeOf(r.row, m)];
    SumConcat(RowVolumes(rows, m), [VolumeOf(r.row, m)]);
    SumOne(VolumeOf(r.row, m));
  }

  /** A list with Other in the place of the rows left out holds the same rows and the same volume. */
  lemma {:induction false} FoldConserves(kept: seq<GroupRow>, left: seq<GroupRow>, rows: seq<DrillRow>, other: DrillRow, m: Measure)
    requires |rows| == |kept| && forall i | 0 <= i < |rows| :: rows[i].row == kept[i].row
    requires other.row == OtherRow(left)
    ensures SumReals(RowVolumes(rows + [other], m)) == SumReals(Volumes(kept + left, m))
    ensures RowCounts(rows + [other]) == CountOf(kept + left)
  {
    hide VolumeOf, SumReals, Volumes, RowVolumes, RowCounts, CountOf, Combine;
    KeptCounts(kept, rows);
    KeptVolumes(kept, rows, m);
    RowCountsSnoc(rows, other);
    RowVolumesSnoc(rows, other, m);
    CountConcat(kept, left);
    VolumesConcat(kept, left, m);
    OtherRowVolume(left, m);
  }

  lemma {:induction false} RankedRowsFold(groups: seq<GroupRow>, m: Measure, lower: string -> string)
    ensures var (rows, ordered) := (RankedRows(groups, m, lower), Sort(groups, GroupOrder(m, lower)));
            && SumReals(RowVolumes(rows, m)) == SumReals(Volumes(ordered, m))
            && RowCounts(rows) == CountOf(ordered)
            && |rows| == (if |ordered| <= MAX_DRILL_ROWS then |ordered| else MAX_DRILL_ROWS + 1)
            && forall i | 0 <= i < |rows| :: rows[i].share == ShareOf(rows[i].row, m, SumReals(Volumes(ordered, m)))
  {
    hide OtherRow, VolumeOf, ShareOf, Sort, SumReals, CountOf, RowCounts, Volumes, RowVolumes, GroupOrder;
    var ordered := Sort(groups, GroupOrder(m, lower));
    var total := SumReals(Volumes(ordered, m));
    if |ordered| <= MAX_DRILL_ROWS {
      KeptCounts(ordered, KeptRows(ordered, m, total));
      KeptVolumes(ordered, KeptRows(ordered, m, total), m);
    } else {
      var kept, left := ordered[..MAX_DRILL_ROWS], ordered[MAX_DRILL_ROWS..];
      assert ordered == kept + left;
      var other := DrillRow(None, OTHER_SERIES_KEY, OtherRow(left), ShareOf(OtherRow(left), m, total));
      FoldConserves(kept, left, KeptRows(kept, m, total), other, m);
    }
  }

  lemma {:induction false} SumNone()
    ensures SumReals([]) == 0.0
  {
  }

  lemma {:induction false} SumOne(x: real)
    ensures SumReals([x]) == x
  {
  }

  lemma {:induction false} SharesAre(xs: seq<real>, shares: seq<real>, total: real)
    requires total != 0.0 && |shares| == |xs|
    requires forall i | 0 <= i < |xs| :: shares[i] == Quantize(xs[i] / total, RATE_UNITS)
    ensures shares == RoundedShares(xs, total)
  {
    hide Quantize;
    if xs != [] {
      SharesAre(xs[1..], shares[1..], total);
    }
  }

  /** Ranked rows conserve: for every list of groups, the kept rows and Other together hold all the
      rows and all the volume; when the volume is not zero their rounded shares add up to 1 within
      half a unit of 1e-6 for each row, and when it is zero no row has a share. */
  lemma {:induction false} RankedRowsConserve(groups: seq<GroupRow>, m: Measure, lower: string -> string)
    ensures var (rows, total) := (RankedRows(groups, m, lower), SumReals(Volumes(groups, m)));
            && |rows| == (if |groups| <= MAX_DRILL_ROWS then |groups| else MAX_DRILL_ROWS + 1)
            && RowCounts(rows) == CountOf(groups)
            && SumReals(RowVolumes(rows, m)) == total
            && (total != 0.0 ==> Abs(SumReals(RowShares(rows)) - 1.0) <= (0.5 / RATE_UNITS) * |rows| as real)
            && (total == 0.0 ==> forall r | r in rows :: r.share == None)
  {
    hide RankedRows, Quantize, Sort, SumReals, CountOf, RowCounts, Volumes, RowVolumes, RowShares, GroupOrder, ShareOf;
    SortKeeps(groups, GroupOrder(m, lower), m);
    SortElements(groups, GroupOrder(m, lower));
    RankedRowsFold(groups, m, lower);
    var (rows, total) := (RankedRows(groups, m, lower), SumReals(Volumes(groups, m)));
    RowSharesAddUp(rows, m, total);
  }

  lemma {:induction false} RowSharesAddUp(rows: seq<DrillRow>, m: Measure, total: real)
    requires total == SumReals(RowVolumes(rows, m))
    requires forall i | 0 <= i < |rows| :: rows[i].share == ShareOf(rows[i].row, m, total)
    ensures total != 0.0 ==> Abs(SumReals(RowShares(rows)) - 1.0) <= (0.5 / RATE_UNITS) * |rows| as real
    ensures total == 0.0 ==> forall r | r in rows :: r.share == None
  {
    hide Quantize, SumReals, Abs, VolumeOf;
    if total != 0.0 {
      SharesAre(RowVolumes(rows, m), RowShares(rows), total);
      SharesAddUp(RowVolumes(rows, m));
    }
  }

  lemma {:induction false} GroupOrderIsTotal(m: Measure, lower: string -> string)
    ensures TotalPreorder(GroupOrder(m, lower))
  {
    var le := GroupOrder(m, lower);
    StringLeIsTotalOrder();
    forall a, b
      ensures le(a, b) || le(b, a)
    {
      assert StringLe(lower(a.title), lower(b.title)) || StringLe(lower(b.title), lower(a.title));
      assert StringLe(a.value, b.value) || StringLe(b.value, a.value);
    }
    forall a, b, c | le(a, b) && le(b, c)
      ensures le(a, c)
    {
      GroupBeforeTransitive(m, lower, a, b, c);
    }
  }

  lemma {:induction false} GroupBeforeTransitive(m: Measure, lower: string -> string, a: GroupRow, b: GroupRow, c: GroupRow)
    requires GroupBefore(m, lower, a, b) && GroupBefore(m, lower, b, c)
    ensures GroupBefore(m, lower, a, c)
  {
    var (la, lb, lc) := (lower(a.title), lower(b.title), lower(c.title));
    if VolumeOf(a.row, m) == VolumeOf(b.row, m) == VolumeOf(c.row, m) {
      if la == lb == lc {
        StringLeTransitive(a.value, b.value, c.value);
      } else if StringLe(la, lb) && StringLe(lb, lc) {
        StringLeTransitive(la, lb, lc);
        if la == lc {
          StringLeAntisymmetric(la, lb);
        }
      }
    }
  }

  /** Nothing folded into Other is larger than a row that is shown. */
  lemma {:induction false} ShownAreLargest(groups: seq<GroupRow>, m: Measure, lower: string -> string, i: nat, j: nat)
    requires i < MAX_DRILL_ROWS <= j < |groups|
    ensures var (rows, ordered) := (RankedRows(groups, m, lower), Sort(groups, GroupOrder(m, lower)));
            |ordered| == |groups| && i < |rows| && VolumeOf(rows[i].row, m) >= VolumeOf(ordered[j].row, m)
  {
    hide Combine, ShareOf, StringLe;
    GroupOrderIsTotal(m, lower);
    SortSorts(groups, GroupOrder(m, lower));
    SortElements(groups, GroupOrder(m, lower));
    var ordered := Sort(groups, GroupOrder(m, lower));
    assert GroupOrder(m, lower)(ordered[i], ordered[j]);
  }

  // ---- shares of a time bucket --------------------------------------------------------------------------

  function PresentOf(amounts: seq<Option<real>>): seq<real> {
    if amounts == [] then []
    else if amounts[0].Some? then [amounts[0].value] + PresentOf(amounts[1..])
    else PresentOf(amounts[1..])
  }

  /** `_fill_trend_bucket_shares` for one bucket: the share of each series in the present total. */
  function BucketShares(amounts: seq<Option<real>>): (shares: seq<Option<real>>)
    ensures |shares| == |amounts|
  {
    var total := if PresentOf(amounts) == [] then None else Some(SumReals(PresentOf(amounts)));
    seq(|amounts|, i requires 0 <= i < |amounts| => SafeDivide(amounts[i], total, RATE_UNITS))
  }

  lemma {:induction false} PresentShares(amounts: seq<Option<real>>, shares: seq<Option<real>>, total: real)
    requires total != 0.0 && |shares| == |amounts|
    requires forall i | 0 <= i < |amounts| :: shares[i] == SafeDivide(amounts[i], Some(total), RATE_UNITS)
    ensures PresentOf(shares) == RoundedShares(PresentOf(amounts), total)
  {
    hide Quantize;
    if amounts != [] {
      PresentShares(amounts[1..], shares[1..], total);
      var rest := PresentOf(amounts[1..]);
      if amounts[0].Some? {
        assert ([amounts[0].value] + rest)[1..] == rest;
      }
    }
  }

  /** The shares of a bucket: a missing point has none, and the others add up to 1 within half a unit of
      1e-6 for each present point; or, when the bucket's total is zero, no point has one. */
  lemma {:induction false} BucketSharesAddUp(amounts: seq<Option<real>>)
    ensures forall i | 0 <= i < |amounts| && amounts[i].None? :: BucketShares(amounts)[i] == None
    ensures var present := PresentOf(amounts);
            SumReals(present) != 0.0 ==>
              && |PresentOf(BucketShares(amounts))| == |present|
              && Abs(SumReals(PresentOf(BucketShares(amounts))) - 1.0) <= (0.5 / RATE_UNITS) * |present| as real
    ensures SumReals(PresentOf(amounts)) == 0.0 ==> forall i | 0 <= i < |amounts| :: BucketShares(amounts)[i] == None
  {
    hide Quantize;
    var present := PresentOf(amounts);
    if SumReals(present) != 0.0 {
      PresentShares(amounts, BucketShares(amounts), SumReals(present));
      SharesAddUp(present);
      SameLength(present, SumReals(present));
    }
  }

  lemma {:induction false} SameLength(xs: seq<real>, total: real)
    requires total != 0.0
    ensures |RoundedShares(xs, total)| == |xs|
  {
    if xs != [] {
      SameLength(xs[1..], total);
    }
  }
}
