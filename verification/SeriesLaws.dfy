/** publication_store.py `list_published_history_series`: the order of the rows, which values are kept, and
    what a series is called. */
module SeriesLaws {
  import opened Prelude
  import opened Facts
  import opened Ordering
  import opened Buckets
  import opened Drill
  import opened DrillLaws
  import opened Series

  // ---- order ----------------------------------------------------------------------------------------------

  lemma {:induction false} CellLeIsTotal()
    ensures TotalPreorder(CellLe)
  {
    hide StringLe;
    forall a: (Day, string), b: (Day, string)
      ensures CellLe(a, b) || CellLe(b, a)
    {
      StringLeTotal(a.1, b.1);
    }
    forall a: (Day, string), b: (Day, string), c: (Day, string) | CellLe(a, b) && CellLe(b, c)
      ensures CellLe(a, c)
    {
      if a.0 == b.0 == c.0 {
        StringLeTransitive(a.1, b.1, c.1);
      }
    }
  }

  /** Rows come by bucket, and within a bucket by series key, no bucket and key twice. */
  lemma {:induction false} SeriesInOrder(facts: seq<Fact>, g: Grain, d: FilterDim, rank: Measure, lower: string -> string, limit: Option<int>, i: nat, j: nat)
    requires i < j < |BrokenSeries(facts, g, d, rank, lower, limit)|
    ensures var rows := BrokenSeries(facts, g, d, rank, lower, limit);
            rows[i].bucket < rows[j].bucket || (rows[i].bucket == rows[j].bucket && rows[i].key != rows[j].key && StringLe(rows[i].key, rows[j].key))
  {
    hide Summary, Pick, SeriesTitle, KeepOf, FirstSeen, CellKey, Sort, StringLe;
    var keep := KeepOf(facts, d, rank, lower, limit);
    var (seen, cells) := (FirstSeen(facts, CellKey(g, d, keep)), Cells(facts, g, d, keep));
    CellLeIsTotal();
    SortSorts(seen, CellLe);
    CellsCover(facts, g, d, keep);
    assert CellLe(cells[i], cells[j]) && cells[i] != cells[j];
  }

  lemma {:induction false} PlainInOrder(facts: seq<Fact>, g: Grain, i: nat, j: nat)
    requires i < j < |PlainSeries(facts, g)|
    ensures PlainSeries(facts, g)[i].bucket < PlainSeries(facts, g)[j].bucket
  {
    hide Summary, Pick, FirstSeen, BucketKey, Sort;
    var days := BucketsSeen(facts, g);
    BucketsCover(facts, g);
    DayLeIsTotal();
    SortSorts(FirstSeen(facts, BucketKey(g)), DayLe);
    assert DayLe(days[i], days[j]) && days[i] != days[j];
  }

  lemma {:induction false} DayLeIsTotal()
    ensures TotalPreorder(DayLe)
  {
  }

  // ---- which values are kept ------------------------------------------------------------------------------

  /** The amount a value is ranked by: the sum of its facts, NULL as zero. */
  function Amount(facts: seq<Fact>, d: FilterDim, rank: Measure, v: string): real {
    var sums := Summary(Pick(facts, ValueKey(Of(d)), v)).sums;
    if rank in sums then sums[rank] else 0.0
  }

  /** A kept value has the larger amount than a folded one; or as large a one, and the earlier title in lower
      case; or the same title too, and the earlier text. */
  lemma {:induction false} KeptMeans(facts: seq<Fact>, d: FilterDim, rank: Measure, lower: string -> string, limit: Option<int>, a: string, b: string)
    requires a in KeepOf(facts, d, rank, lower, limit)
    requires HasValue(facts, Of(d), b) && b !in KeepOf(facts, d, rank, lower, limit)
    ensures var (x, y) := (Amount(facts, d, rank, a), Amount(facts, d, rank, b));
            var (s, t) := (lower(LastLabel(facts, Of(d), a)), lower(LastLabel(facts, Of(d), b)));
            && x >= y
            && (x == y ==> StringLe(s, t))
            && (x == y && s == t ==> StringLe(a, b))
  {
    hide Summary, Pick, LastLabel, StringLe, KeepOf, HasValue;
    KeptOutranksFolded(facts, d, rank, lower, limit, a, b);
    StringLeTotal(lower(LastLabel(facts, Of(d), a)), lower(LastLabel(facts, Of(d), a)));
  }

  /** As many values are kept as asked for, when a positive number is, and else eight; or all, when there are
      fewer. */
  lemma {:induction false} KeptHowMany(facts: seq<Fact>, d: FilterDim, rank: Measure, lower: string -> string, limit: Option<int>)
    ensures var (asked, distinct) := (if limit.Some? && limit.value > 0 then limit.value else 8, |FirstSeen(facts, ValueKey(Of(d)))|);
            |KeepOf(facts, d, rank, lower, limit)| == if distinct < asked then distinct else asked
  {
    hide Volume, LastLabel, FirstSeen, StringLe, RankLe, Sort, Drill.Value, RankKeys, RankOf;
    var ranked := Ranked(facts, d, rank, lower);
    RankedLists(facts, d, rank, lower);
    RanksApart(facts, d, rank, lower);
    forall i, j | 0 <= i < j < |ranked|
      ensures ranked[i].value != ranked[j].value
    {
      assert ranked[i] in ranked && ranked[j] in ranked;
    }
    KeptExactly(ranked, CapOf(limit));
  }

  lemma {:induction false} RanksApart(facts: seq<Fact>, d: FilterDim, rank: Measure, lower: string -> string)
    ensures Distinct(Ranked(facts, d, rank, lower))
  {
    hide Volume, LastLabel, FirstSeen, RankLe, Sort, Drill.Value;
    var values := FirstSeen(facts, ValueKey(Of(d)));
    var keys := RankKeys(facts, d, rank, lower, values);
    FirstSeenCovers(facts, ValueKey(Of(d)));
    forall i, j | 0 <= i < j < |keys|
      ensures keys[i] != keys[j]
    {
      assert keys[i].value == values[i] && keys[j].value == values[j];
    }
    SortDistinct(keys, RankLe);
  }

  lemma {:induction false} KeptExactly(ranked: seq<RankKey>, cap: nat)
    requires forall i, j | 0 <= i < j < |ranked| :: ranked[i].value != ranked[j].value
    ensures |Kept(ranked, cap)| == if |ranked| < cap then |ranked| else cap
    decreases cap
  {
    hide Kept;
    if cap == 0 {
      NoneKept(ranked);
    } else {
      KeptExactly(ranked, cap - 1);
      OneMoreKept(ranked, cap - 1);
      if cap - 1 < |ranked| {
        NotKeptBefore(ranked, cap - 1);
      }
    }
  }

  lemma {:induction false} NoneKept(ranked: seq<RankKey>)
    ensures Kept(ranked, 0) == {}
  {
  }

  lemma {:induction false} OneMoreKept(ranked: seq<RankKey>, k: nat)
    ensures Kept(ranked, k + 1) == Kept(ranked, k) + if k < |ranked| then {ranked[k].value} else {}
  {
  }

  lemma {:induction false} NotKeptBefore(ranked: seq<RankKey>, k: nat)
    requires k < |ranked| && forall i, j | 0 <= i < j < |ranked| :: ranked[i].value != ranked[j].value
    ensures ranked[k].value !in Kept(ranked, k)
  {
  }

  // ---- what a series is called -------------------------------------------------------------------------------

  /** The last fact of a series names it: by its own title if its value is kept, and "Other" if it is folded. */
  lemma {:induction false} SeriesTitleMeans(facts: seq<Fact>, d: FilterDim, keep: set<string>, i: nat)
    requires i < |facts|
    requires forall j | i < j < |facts| :: SeriesKey(d, keep)(facts[j]) != SeriesKey(d, keep)(facts[i])
    ensures SeriesTitle(facts, d, keep, SeriesKey(d, keep)(facts[i])) ==
            if ColumnText(facts[i], Of(d)) in keep then Called(facts[i], Of(d)) else "Other"
    ensures forall g, r | r in CellRows(facts, g, d, keep) && r.key == SeriesKey(d, keep)(facts[i]) ::
              r.title == if ColumnText(facts[i], Of(d)) in keep then Called(facts[i], Of(d)) else "Other"
    ensures SeriesKey(d, keep)(facts[i]) == if ColumnText(facts[i], Of(d)) in keep then ColumnText(facts[i], Of(d)) else "__other__"
  {
    hide Called, Label;
    var last := facts[|facts| - 1];
    CalledIsLabel(last, Of(d));
    if i < |facts| - 1 {
      assert SeriesKey(d, keep)(last) != SeriesKey(d, keep)(facts[i]);
      SeriesTitleMeans(facts[..|facts| - 1], d, keep, i);
    }
  }
}
