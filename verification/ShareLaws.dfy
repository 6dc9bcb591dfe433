/** analytics_service.py `_ranked_rows` and `_fill_trend_bucket_shares`: the place and the share of each row. */
module ShareLaws {
  import opened Prelude
  import opened Facts
  import opened Numbers
  import opened Ordering
  import opened Drill
  import opened Shares

  /** The volume of a group or a row, NULL as zero. */
  function Amount(row: Row, m: Measure): real {
    if m in row.sums then row.sums[m] else 0.0
  }

  /** The larger amount first; then the earlier title in lower case; then the earlier key. */
  ghost predicate GroupRanksBefore(a: GroupRow, b: GroupRow, m: Measure, lower: string -> string) {
    && Amount(a.row, m) >= Amount(b.row, m)
    && (Amount(a.row, m) == Amount(b.row, m) ==> StringLe(lower(a.title), lower(b.title)))
    && (Amount(a.row, m) == Amount(b.row, m) && lower(a.title) == lower(b.title) ==> StringLe(a.value, b.value))
  }

  lemma {:induction false} BeforeRanks(a: GroupRow, b: GroupRow, m: Measure, lower: string -> string)
    requires GroupOrder(m, lower)(a, b)
    ensures GroupRanksBefore(a, b, m, lower)
  {
    hide StringLe;
    StringLeTotal(lower(a.title), lower(a.title));
  }

  /** The groups in rank order: each once, every one ranking before those after it.  The first fifty are the
      rows, numbered from 1, and whatever is left is one more row, unnumbered, under the key of Other. */
  lemma {:induction false} RowsAreRanked(groups: seq<GroupRow>, m: Measure, lower: string -> string) returns (ordered: seq<GroupRow>)
    ensures multiset(ordered) == multiset(groups) && |ordered| == |groups|
    ensures forall i, j | 0 <= i < j < |ordered| :: GroupRanksBefore(ordered[i], ordered[j], m, lower)
    ensures var rows := RankedRows(groups, m, lower);
            && |rows| == (if |groups| <= 50 then |groups| else 51)
            && (forall i | 0 <= i < |rows| && i < 50 ::
                  rows[i].rank == Some(i + 1) && rows[i].key == ordered[i].value && rows[i].row == ordered[i].row)
            && (|groups| > 50 ==>
                  && rows[50].rank == None && rows[50].key == "__other__"
                  && rows[50].row.count == CountOf(ordered[50..])
                  && forall n: Measure :: Amount(rows[50].row, n) == SumReals(Volumes(ordered[50..], n)))
  {
    hide Sort, GroupOrder, Combine, ShareOf, CountOf, Volumes, SumReals, GroupRanksBefore, OtherRow;
    ordered := Sort(groups, GroupOrder(m, lower));
    GroupOrderIsTotal(m, lower);
    SortSorts(groups, GroupOrder(m, lower));
    SortElements(groups, GroupOrder(m, lower));
    assert |multiset(ordered)| == |ordered| && |multiset(groups)| == |groups|;
    forall i, j | 0 <= i < j < |ordered|
      ensures GroupRanksBefore(ordered[i], ordered[j], m, lower)
    {
      BeforeRanks(ordered[i], ordered[j], m, lower);
    }
    if |groups| > 50 {
      OtherIs(ordered[50..]);
    }
  }

  lemma {:induction false} OtherIs(left: seq<GroupRow>)
    ensures OtherRow(left).count == CountOf(left)
    ensures forall n: Measure :: Amount(OtherRow(left), n) == SumReals(Volumes(left, n))
  {
    hide CountOf, Volumes, SumReals;
    forall n: Measure
      ensures Amount(OtherRow(left), n) == SumReals(Volumes(left, n))
    {
      OtherRowVolume(left, n);
    }
  }

  /** Each row's share is its amount over the amount of all groups, half up to six places; none has one when
      that is zero. */
  lemma {:induction false} RowShareIs(groups: seq<GroupRow>, m: Measure, lower: string -> string, i: nat)
    requires i < |RankedRows(groups, m, lower)|
    ensures var (row, total) := (RankedRows(groups, m, lower)[i], SumReals(Volumes(groups, m)));
            && (row.share.None? <==> total == 0.0)
            && (total != 0.0 ==> HalfUpTo(row.share.value, Amount(row.row, m) / total, 1000000.0))
  {
    hide RankedRows, Volumes, SumReals, Quantize, HalfUpTo, GroupOrder, RowVolumes, RowCounts, Sort;
    SortKeeps(groups, GroupOrder(m, lower), m);
    RankedRowsFold(groups, m, lower);
    var (row, total) := (RankedRows(groups, m, lower)[i], SumReals(Volumes(groups, m)));
    assert row.share == ShareOf(row.row, m, total);
    if total != 0.0 {
      QuantizeIsHalfUp(Amount(row.row, m) / total, Quantize(Amount(row.row, m) / total, RATE_UNITS), RATE_UNITS);
    }
  }

  /** The share of a point in its bucket: its amount over the bucket's present ones, half up to six places;
      none for a missing point or over zero. */
  lemma {:induction false} BucketShareIs(amounts: seq<Option<real>>, i: nat)
    requires i < |amounts|
    ensures var (share, total) := (BucketShares(amounts)[i], SumReals(PresentOf(amounts)));
            && (share.Some? <==> amounts[i].Some? && total != 0.0)
            && (share.Some? ==> HalfUpTo(share.value, amounts[i].value / total, 1000000.0))
  {
    hide SumReals, Quantize, HalfUpTo, PresentOf;
    var total := SumReals(PresentOf(amounts));
    PresentListed(amounts, i);
    if amounts[i].Some? && total != 0.0 {
      QuantizeIsHalfUp(amounts[i].value / total, Quantize(amounts[i].value / total, RATE_UNITS), RATE_UNITS);
    }
    SumNone();
  }

  lemma {:induction false} PresentListed(amounts: seq<Option<real>>, i: nat)
    requires i < |amounts|
    ensures amounts[i].Some? ==> PresentOf(amounts) != []
  {
    if i > 0 {
      PresentListed(amounts[1..], i - 1);
    }
  }
}
