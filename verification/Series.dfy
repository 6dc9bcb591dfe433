/** publication_store.py `list_published_history_series`: time series by bucket, broken down by a
    dimension whose smaller values are folded into "Other". */
module Series {
  import opened Prelude
  import opened Facts
  import opened Ordering
  import opened Buckets
  import opened Drill

  const MAX_BREAKDOWN_SERIES: nat := 8

  // ---- without a breakdown ------------------------------------------------------------------

  function BucketKey(g: Grain): Fact -> Day {
    (f: Fact) => BucketStart(f.day, g)
  }

  predicate DayLe(a: Day, b: Day) {
    a <= b
  }

  datatype BucketRow = BucketRow(bucket: Day, row: Row)

  /** One row for each bucket that has facts, by bucket. */
  function PlainSeries(facts: seq<Fact>, g: Grain): seq<BucketRow> {
    var keys := Sort(FirstSeen(facts, BucketKey(g)), DayLe);
    seq(|keys|, i requires 0 <= i < |keys| => BucketRow(keys[i], Summary(Pick(facts, BucketKey(g), keys[i]))))
  }

  // ---- ranking and folding --------------------------------------------------------------------

  /** The volume a value is ranked by; NULL counts as zero. */
  function Volume(facts: seq<Fact>, d: FilterDim, rank: Measure, v: string): real {
    OrZero(Summary(Pick(facts, ValueKey(Of(d)), v)).sums, rank)
  }

  /** The ranking key, largest volume first, then lower-cased label, then value. */
  datatype RankKey = RankKey(volume: real, lowered: string, value: string)

  predicate RankLe(a: RankKey, b: RankKey) {
    if a.volume != b.volume then a.volume > b.volume
    else if a.lowered != b.lowered then StringLe(a.lowered, b.lowered)
    else StringLe(a.value, b.value)
  }

  function RankKeys(facts: seq<Fact>, d: FilterDim, rank: Measure, lower: string -> string, values: seq<string>): (keys: seq<RankKey>)
    ensures |keys| == |values|
    ensures forall i | 0 <= i < |keys| ::
              keys[i] == RankKey(Volume(facts, d, rank, values[i]), lower(LastLabel(facts, Of(d), values[i])), values[i])
  {
    if values == [] then []
    else [RankKey(Volume(facts, d, rank, values[0]), lower(LastLabel(facts, Of(d), values[0])), values[0])]
         + RankKeys(facts, d, rank, lower, values[1..])
  }

  /** The dimension's values, best ranked first. */
  function Ranked(facts: seq<Fact>, d: FilterDim, rank: Measure, lower: string -> string): seq<RankKey> {
    Sort(RankKeys(facts, d, rank, lower, FirstSeen(facts, ValueKey(Of(d)))), RankLe)
  }

  function Kept(ranked: seq<RankKey>, cap: nat): set<string> {
    set i | 0 <= i < |ranked| && i < cap :: ranked[i].value
  }

  /** A kept value keeps its name as its series key, and every other value gets the key of "Other".  A kept
      value of that very name shares its series with what is folded: `KeptRowsAreOwn` says exactly when. */
  function SeriesKey(d: FilterDim, keep: set<string>): Fact -> string {
    f => if TextOf(f, d) in keep then TextOf(f, d) else OTHER_SERIES_KEY
  }

  function CellKey(g: Grain, d: FilterDim, keep: set<string>): Fact -> (Day, string) {
    (f: Fact) => (BucketStart(f.day, g), SeriesKey(d, keep)(f))
  }

  predicate CellLe(a: (Day, string), b: (Day, string)) {
    a.0 < b.0 || (a.0 == b.0 && StringLe(a.1, b.1))
  }

  datatype SeriesRow = SeriesRow(bucket: Day, key: string, title: string, row: Row)

  /** `grouped_labels`: the label last given to a series key. */
  function SeriesTitle(facts: seq<Fact>, d: FilterDim, keep: set<string>, key: string): string {
    if facts == [] then ""
    else
      var last := facts[|facts| - 1];
      if SeriesKey(d, keep)(last) == key
      then (if TextOf(last, d) in keep then Label(last, Of(d)) else "Other")
      else SeriesTitle(facts[..|facts| - 1], d, keep, key)
  }

  function Cells(facts: seq<Fact>, g: Grain, d: FilterDim, keep: set<string>): seq<(Day, string)> {
    Sort(FirstSeen(facts, CellKey(g, d, keep)), CellLe)
  }

  function CapOf(limit: Option<int>): nat {
    if limit.Some? && limit.value > 0 then limit.value else MAX_BREAKDOWN_SERIES
  }

  function KeepOf(facts: seq<Fact>, d: FilterDim, rank: Measure, lower: string -> string, limit: Option<int>): set<string> {
    Kept(Ranked(facts, d, rank, lower), CapOf(limit))
  }

  function CellRows(facts: seq<Fact>, g: Grain, d: FilterDim, keep: set<string>): seq<SeriesRow> {
    var cells := Cells(facts, g, d, keep);
    seq(|cells|, i requires 0 <= i < |cells| =>
      SeriesRow(cells[i].0, cells[i].1, SeriesTitle(facts, d, keep, cells[i].1),
                Summary(Pick(facts, CellKey(g, d, keep), cells[i]))))
  }

  /** The breakdown rows, by bucket and series key. */
  function BrokenSeries(facts: seq<Fact>, g: Grain, d: FilterDim, rank: Measure, lower: string -> string, limit: Option<int>): seq<SeriesRow> {
    CellRows(facts, g, d, KeepOf(facts, d, rank, lower, limit))
  }

  /** `list_published_history_series` with no breakdown, on the facts of its scope. */
  method ListPlainSeries(facts: seq<Fact>, g: Grain) returns (rows: seq<BucketRow>)
    ensures rows == PlainSeries(facts, g)
  {
    hide FirstSeen, Pick, Summary, Sort;
    var order, grouped := GroupFacts(facts, BucketKey(g));
    InSort(order, DayLe);
    var sorted := Sort(order, DayLe);
    rows := [];
    for i := 0 to |sorted|
      invariant rows == PlainSeries(facts, g)[..i]
    {
      assert sorted[i] in sorted;
      rows := rows + [BucketRow(sorted[i], Summary(grouped[sorted[i]]))];
    }
  }

  /** The same read with a breakdown: rank the values, keep the first ones, fold the rest, and
      group again by bucket and series. */
  method ListBrokenSeries(facts: seq<Fact>, g: Grain, d: FilterDim, rank: Measure, lower: string -> string, limit: Option<int>)
    returns (rows: seq<SeriesRow>, distinct: nat)
    ensures rows == BrokenSeries(facts, g, d, rank, lower, limit)
    ensures distinct == |FirstSeen(facts, ValueKey(Of(d)))|
  {
    hide FirstSeen, Pick, Summary, Sort, LastLabel, SeriesTitle, RankLe, CellRows, RankKeys;
    var values, byDim := GroupFacts(facts, ValueKey(Of(d)));
    var keys := RankValues(facts, d, rank, lower, values, byDim);
    var keep := Kept(Sort(keys, RankLe), CapOf(limit));
    rows := ListCells(facts, g, d, keep);
    distinct := |values|;
  }

  method RankValues(facts: seq<Fact>, d: FilterDim, rank: Measure, lower: string -> string, values: seq<string>, byDim: map<string, seq<Fact>>)
    returns (keys: seq<RankKey>)
    requires forall v | v in values :: v in byDim && byDim[v] == Pick(facts, ValueKey(Of(d)), v)
    ensures keys == RankKeys(facts, d, rank, lower, values)
  {
    hide Pick, Summary, LastLabel, RankKeys;
    keys := [];
    for i := 0 to |values|
      invariant |keys| == i
      invariant forall j | 0 <= j < i ::
                  keys[j] == RankKey(Volume(facts, d, rank, values[j]), lower(LastLabel(facts, Of(d), values[j])), values[j])
    {
      assert values[i] in values;
      keys := keys + [RankKey(OrZero(Summary(byDim[values[i]]).sums, rank), lower(LastLabel(facts, Of(d), values[i])), values[i])];
    }
  }

  method ListCells(facts: seq<Fact>, g: Grain, d: FilterDim, keep: set<string>) returns (rows: seq<SeriesRow>)
    ensures rows == CellRows(facts, g, d, keep)
  {
    hide FirstSeen, Pick, Summary, Sort, SeriesTitle, CellLe;
    var order, grouped := GroupFacts(facts, CellKey(g, d, keep));
    InSort(order, CellLe);
    var cells := Sort(order, CellLe);
    rows := [];
    for i := 0 to |cells|
      invariant rows == CellRows(facts, g, d, keep)[..i]
    {
      assert cells[i] in cells;
      rows := rows + [SeriesRow(cells[i].0, cells[i].1, SeriesTitle(facts, d, keep, cells[i].1), Summary(grouped[cells[i]]))];
    }
  }

  // ---- conservation ---------------------------------------------------------------------------

  /** The rows of one bucket, in order. */
  function OfBucket(rows: seq<SeriesRow>, b: Day): seq<Row> {
    if rows == [] then []
    else if rows[0].bucket == b then [rows[0].row] + OfBucket(rows[1..], b)
    else OfBucket(rows[1..], b)
  }

  function InBucket(b: Day): ((Day, string)) -> bool {
    (k: (Day, string)) => k.0 == b
  }

  lemma {:induction false} OfBucketRows(facts: seq<Fact>, key: Fact -> (Day, string), cells: seq<(Day, string)>, rows: seq<SeriesRow>, b: Day)
    requires |rows| == |cells|
    requires forall i | 0 <= i < |cells| ::
               rows[i].bucket == cells[i].0 && rows[i].row == Summary(Pick(facts, key, cells[i]))
    ensures OfBucket(rows, b) == RowsBy(facts, key, Those(cells, InBucket(b)))
  {
    if cells != [] {
      OfBucketRows(facts, key, cells[1..], rows[1..], b);
      if cells[0].0 == b {
        assert Those(cells, InBucket(b))[1..] == Those(cells[1..], InBucket(b));
      }
    }
  }

  lemma {:induction false} CellsCover(facts: seq<Fact>, g: Grain, d: FilterDim, keep: set<string>)
    ensures Distinct(Cells(facts, g, d, keep)) && Covers(facts, CellKey(g, d, keep), Cells(facts, g, d, keep))
    ensures forall k :: k in Cells(facts, g, d, keep) ==> exists f :: f in facts && CellKey(g, d, keep)(f) == k
  {
    var key := CellKey(g, d, keep);
    FirstSeenCovers(facts, key);
    SortDistinct(FirstSeen(facts, key), CellLe);
    InSort(FirstSeen(facts, key), CellLe);
  }

  /** Top-K plus Other conserves: for every cap and ranking, the series of a bucket add up to the
      unbroken row of that bucket, every measure and the row count. */
  lemma {:induction false} BreakdownConserves(facts: seq<Fact>, g: Grain, d: FilterDim, rank: Measure, lower: string -> string, limit: Option<int>, b: Day)
    ensures Total(OfBucket(BrokenSeries(facts, g, d, rank, lower, limit), b)) == Summary(Pick(facts, BucketKey(g), b))
  {
    hide Summary, Pick, TextOf, BucketStart, SeriesTitle, KeepOf, Cells;
    var keep := KeepOf(facts, d, rank, lower, limit);
    var key, cells := CellKey(g, d, keep), Cells(facts, g, d, keep);
    CellsCover(facts, g, d, keep);
    OfBucketRows(facts, key, cells, BrokenSeries(facts, g, d, rank, lower, limit), b);
    var ks := Those(cells, InBucket(b));
    forall f | f in facts
      ensures BucketKey(g)(f) == b <==> key(f) in ks
    {
      assert key(f) in cells;
    }
    RollUp(facts, key, BucketKey(g), b, ks);
  }

  // ---- the rows of a kept value --------------------------------------------------------------------

  function OwnKey(g: Grain, d: FilterDim): Fact -> (Day, string) {
    (f: Fact) => (BucketStart(f.day, g), TextOf(f, d))
  }

  /** In every bucket the row listed under the value is that of the value's own facts. */
  ghost predicate OwnRows(facts: seq<Fact>, g: Grain, d: FilterDim, rows: seq<SeriesRow>, v: string) {
    forall b :: RowAt(rows, b, v) == Summary(Pick(facts, OwnKey(g, d), (b, v)))
  }

  predicate NothingFolded(facts: seq<Fact>, d: FilterDim, keep: set<string>) {
    forall f | f in facts :: TextOf(f, d) in keep
  }

  lemma {:induction false} PickAgree<K>(facts: seq<Fact>, p: Fact -> K, q: Fact -> K, k: K)
    requires forall f | f in facts :: p(f) == k <==> q(f) == k
    ensures Pick(facts, p, k) == Pick(facts, q, k)
  {
    if facts != [] {
      assert facts[0] in facts && forall f | f in facts[1..] :: f in facts;
      PickAgree(facts[1..], p, q, k);
    }
  }

  lemma {:induction false} PickFewer<K>(facts: seq<Fact>, p: Fact -> K, q: Fact -> K, k: K, odd: Fact)
    requires forall f | f in facts :: p(f) == k ==> q(f) == k
    ensures |Pick(facts, p, k)| <= |Pick(facts, q, k)|
    ensures odd in facts && p(odd) != k && q(odd) == k ==> |Pick(facts, p, k)| < |Pick(facts, q, k)|
  {
    if facts != [] {
      assert facts[0] in facts && forall f | f in facts[1..] :: f in facts;
      PickFewer(facts[1..], p, q, k, odd);
    }
  }

  lemma {:induction false} RowOfCell(facts: seq<Fact>, g: Grain, d: FilterDim, rank: Measure, lower: string -> string, limit: Option<int>, b: Day, key: string)
    ensures RowAt(BrokenSeries(facts, g, d, rank, lower, limit), b, key)
            == Summary(Pick(facts, CellKey(g, d, KeepOf(facts, d, rank, lower, limit)), (b, key)))
  {
    hide Summary, Pick, TextOf, KeepOf, Cells, SeriesTitle, BucketStart, CellKey;
    var keep := KeepOf(facts, d, rank, lower, limit);
    RowAtPicks(facts, CellKey(g, d, keep), Cells(facts, g, d, keep), BrokenSeries(facts, g, d, rank, lower, limit), b, key);
    if (b, key) !in Cells(facts, g, d, keep) {
      NotListedIsEmpty(facts, g, d, keep, (b, key));
    }
  }

  /** What a kept value's cell holds: its own facts, and under the name of "Other" the folded ones. */
  lemma {:induction false} CellOfKept(f: Fact, g: Grain, d: FilterDim, keep: set<string>, b: Day, v: string)
    requires v in keep
    ensures OwnKey(g, d)(f) == (b, v) <==> BucketStart(f.day, g) == b && TextOf(f, d) == v
    ensures CellKey(g, d, keep)(f) == (b, v) <==>
            BucketStart(f.day, g) == b && (TextOf(f, d) == v || (v == OTHER_SERIES_KEY && TextOf(f, d) !in keep))
  {
    hide BucketStart;
    var k := SeriesKey(d, keep)(f);
    assert TextOf(f, d) in keep ==> k == TextOf(f, d);
    assert TextOf(f, d) !in keep ==> k == OTHER_SERIES_KEY;
    assert CellKey(g, d, keep)(f) == (BucketStart(f.day, g), k);
  }

  /** The rows listed under a kept value are the value's own, in every bucket, if and only if the value is
      not the key of "Other" or nothing is folded. */
  lemma {:induction false} KeptRowsAreOwn(facts: seq<Fact>, g: Grain, d: FilterDim, rank: Measure, lower: string -> string, limit: Option<int>, v: string)
    requires v in KeepOf(facts, d, rank, lower, limit)
    ensures OwnRows(facts, g, d, BrokenSeries(facts, g, d, rank, lower, limit), v)
            <==> v != OTHER_SERIES_KEY || NothingFolded(facts, d, KeepOf(facts, d, rank, lower, limit))
  {
    hide Summary, Pick, TextOf, KeepOf, BucketStart, BrokenSeries, RowAt, OwnKey, CellKey;
    var keep := KeepOf(facts, d, rank, lower, limit);
    forall f: Fact, b: Day
      ensures OwnKey(g, d)(f) == (b, v) <==> BucketStart(f.day, g) == b && TextOf(f, d) == v
      ensures CellKey(g, d, keep)(f) == (b, v) <==>
              BucketStart(f.day, g) == b && (TextOf(f, d) == v || (v == OTHER_SERIES_KEY && TextOf(f, d) !in keep))
    {
      CellOfKept(f, g, d, keep, b, v);
    }
    if v != OTHER_SERIES_KEY || NothingFolded(facts, d, keep) {
      forall b
        ensures RowAt(BrokenSeries(facts, g, d, rank, lower, limit), b, v) == Summary(Pick(facts, OwnKey(g, d), (b, v)))
      {
        RowOfCell(facts, g, d, rank, lower, limit, b, v);
        PickAgree(facts, OwnKey(g, d), CellKey(g, d, keep), (b, v));
      }
    } else {
      var f :| f in facts && TextOf(f, d) !in keep;
      var b := BucketStart(f.day, g);
      RowOfCell(facts, g, d, rank, lower, limit, b, v);
      PickFewer(facts, OwnKey(g, d), CellKey(g, d, keep), (b, v), f);
      SummaryCount(Pick(facts, OwnKey(g, d), (b, v)));
      SummaryCount(Pick(facts, CellKey(g, d, keep), (b, v)));
    }
  }

  // ---- re-bucketing ---------------------------------------------------------------------------

  /** The row listed for a bucket and a series, if there is one. */
  function RowAt(rows: seq<SeriesRow>, b: Day, key: string): Row {
    if rows == [] then EMPTY_ROW
    else if rows[0].bucket == b && rows[0].key == key then rows[0].row
    else RowAt(rows[1..], b, key)
  }

  /** The rows of one series whose days lie in a coarser bucket. */
  function DaysWithin(rows: seq<SeriesRow>, g: Grain, b: Day, key: string): seq<Row> {
    if rows == [] then []
    else if BucketStart(rows[0].bucket, g) == b && rows[0].key == key then [rows[0].row] + DaysWithin(rows[1..], g, b, key)
    else DaysWithin(rows[1..], g, b, key)
  }

  function CellWithin(g: Grain, b: Day, key: string): ((Day, string)) -> bool {
    (k: (Day, string)) => BucketStart(k.0, g) == b && k.1 == key
  }

  lemma {:induction false} DaysWithinRows(facts: seq<Fact>, f: Fact -> (Day, string), cells: seq<(Day, string)>, rows: seq<SeriesRow>, g: Grain, b: Day, key: string)
    requires |rows| == |cells|
    requires forall i | 0 <= i < |cells| ::
               rows[i].bucket == cells[i].0 && rows[i].key == cells[i].1 && rows[i].row == Summary(Pick(facts, f, cells[i]))
    ensures DaysWithin(rows, g, b, key) == RowsBy(facts, f, Those(cells, CellWithin(g, b, key)))
  {
    hide BucketStart, Pick, Summary;
    if cells != [] {
      DaysWithinRows(facts, f, cells[1..], rows[1..], g, b, key);
      if CellWithin(g, b, key)(cells[0]) {
        assert Those(cells, CellWithin(g, b, key))[1..] == Those(cells[1..], CellWithin(g, b, key));
      }
    }
  }

  lemma {:induction false} RowAtPicks(facts: seq<Fact>, f: Fact -> (Day, string), cells: seq<(Day, string)>, rows: seq<SeriesRow>, b: Day, key: string)
    requires |rows| == |cells|
    requires forall i | 0 <= i < |cells| ::
               rows[i].bucket == cells[i].0 && rows[i].key == cells[i].1 && rows[i].row == Summary(Pick(facts, f, cells[i]))
    ensures RowAt(rows, b, key) == if (b, key) in cells then Summary(Pick(facts, f, (b, key))) else EMPTY_ROW
  {
    hide Pick, Summary;
    if cells != [] {
      RowAtPicks(facts, f, cells[1..], rows[1..], b, key);
      assert cells == [cells[0]] + cells[1..];
    }
  }

  lemma {:induction false} NotListedIsEmpty(facts: seq<Fact>, g: Grain, d: FilterDim, keep: set<string>, cell: (Day, string))
    requires cell !in Cells(facts, g, d, keep)
    ensures Summary(Pick(facts, CellKey(g, d, keep), cell)) == EMPTY_ROW
  {
    hide TextOf, BucketStart, Cells;
    CellsCover(facts, g, d, keep);
    PickNothing(facts, CellKey(g, d, keep), cell);
  }

  /** Re-bucketing: what a breakdown lists for a week or a month, or for a day, is the sum of the day rows
      that it covers, series by series, Other included; a bucket that is not listed covers no rows. */
  lemma {:induction false} RebucketingAgrees(facts: seq<Fact>, g: Grain, d: FilterDim, rank: Measure, lower: string -> string, limit: Option<int>, b: Day, key: string)
    ensures Total(DaysWithin(BrokenSeries(facts, ByDay, d, rank, lower, limit), g, b, key))
            == RowAt(BrokenSeries(facts, g, d, rank, lower, limit), b, key)
  {
    hide Summary, Pick, TextOf, KeepOf, Cells, SeriesTitle, BucketStart;
    var keep := KeepOf(facts, d, rank, lower, limit);
    var (fine, coarse) := (CellKey(ByDay, d, keep), CellKey(g, d, keep));
    var (cells, days) := (Cells(facts, ByDay, d, keep), Those(Cells(facts, ByDay, d, keep), CellWithin(g, b, key)));
    CellsCover(facts, ByDay, d, keep);
    DaysWithinRows(facts, fine, cells, BrokenSeries(facts, ByDay, d, rank, lower, limit), g, b, key);
    RowAtPicks(facts, coarse, Cells(facts, g, d, keep), BrokenSeries(facts, g, d, rank, lower, limit), b, key);
    if (b, key) !in Cells(facts, g, d, keep) {
      NotListedIsEmpty(facts, g, d, keep, (b, key));
    }
    forall f | f in facts
      ensures coarse(f) == (b, key) <==> fine(f) in days
    {
      DayCell(f, d, keep);
      assert fine(f) in cells;
    }
    RollUp(facts, fine, coarse, (b, key), days);
  }

  lemma {:induction false} DayCell(f: Fact, d: FilterDim, keep: set<string>)
    ensures CellKey(ByDay, d, keep)(f) == (f.day, SeriesKey(d, keep)(f))
  {
    hide TextOf;
  }

  function PlainRowAt(rows: seq<BucketRow>, b: Day): Row {
    if rows == [] then EMPTY_ROW
    else if rows[0].bucket == b then rows[0].row
    else PlainRowAt(rows[1..], b)
  }

  function PlainDaysWithin(rows: seq<BucketRow>, g: Grain, b: Day): seq<Row> {
    if rows == [] then []
    else if BucketStart(rows[0].bucket, g) == b then [rows[0].row] + PlainDaysWithin(rows[1..], g, b)
    else PlainDaysWithin(rows[1..], g, b)
  }

  function DayWithin(g: Grain, b: Day): Day -> bool {
    (k: Day) => BucketStart(k, g) == b
  }

  lemma {:induction false} PlainRows(facts: seq<Fact>, f: Fact -> Day, days: seq<Day>, rows: seq<BucketRow>, g: Grain, b: Day)
    requires |rows| == |days| && forall i | 0 <= i < |days| :: rows[i] == BucketRow(days[i], Summary(Pick(facts, f, days[i])))
    ensures PlainDaysWithin(rows, g, b) == RowsBy(facts, f, Those(days, DayWithin(g, b)))
    ensures PlainRowAt(rows, b) == if b in days then Summary(Pick(facts, f, b)) else EMPTY_ROW
  {
    hide BucketStart, Pick, Summary;
    if days != [] {
      PlainRows(facts, f, days[1..], rows[1..], g, b);
      assert days == [days[0]] + days[1..];
      if DayWithin(g, b)(days[0]) {
        assert Those(days, DayWithin(g, b))[1..] == Those(days[1..], DayWithin(g, b));
      }
    }
  }

  function BucketsSeen(facts: seq<Fact>, g: Grain): seq<Day> {
    Sort(FirstSeen(facts, BucketKey(g)), DayLe)
  }

  lemma {:induction false} BucketsCover(facts: seq<Fact>, g: Grain)
    ensures Distinct(BucketsSeen(facts, g)) && Covers(facts, BucketKey(g), BucketsSeen(facts, g))
  {
    hide Sort, FirstSeen;
    FirstSeenCovers(facts, BucketKey(g));
    SortDistinct(FirstSeen(facts, BucketKey(g)), DayLe);
    InSort(FirstSeen(facts, BucketKey(g)), DayLe);
  }

  lemma {:induction false} PlainRowIs(facts: seq<Fact>, g: Grain, b: Day)
    ensures PlainRowAt(PlainSeries(facts, g), b) == Summary(Pick(facts, BucketKey(g), b))
  {
    hide Summary, Pick, BucketStart, FirstSeen, Sort;
    BucketsCover(facts, g);
    PlainRows(facts, BucketKey(g), BucketsSeen(facts, g), PlainSeries(facts, g), g, b);
    if b !in BucketsSeen(facts, g) {
      PickNothing(facts, BucketKey(g), b);
      NothingSummed();
    }
  }

  /** The same for the series without a breakdown. */
  lemma {:induction false} PlainRebucketingAgrees(facts: seq<Fact>, g: Grain, b: Day)
    ensures Total(PlainDaysWithin(PlainSeries(facts, ByDay), g, b)) == PlainRowAt(PlainSeries(facts, g), b)
  {
    hide Summary, Pick, BucketStart, FirstSeen, Sort, PlainRowAt, PlainDaysWithin, Total;
    var (fine, coarse, days) := (BucketKey(ByDay), BucketKey(g), BucketsSeen(facts, ByDay));
    BucketsCover(facts, ByDay);
    PlainRows(facts, fine, days, PlainSeries(facts, ByDay), g, b);
    PlainRowIs(facts, g, b);
    var within := Those(days, DayWithin(g, b));
    forall f | f in facts
      ensures coarse(f) == b <==> fine(f) in within
    {
      DayBucket(f);
      assert fine(f) in days;
    }
    RollUp(facts, fine, coarse, b, within);
  }

  lemma {:induction false} DayBucket(f: Fact)
    ensures BucketKey(ByDay)(f) == f.day
  {
  }

  lemma {:induction false} NothingSummed()
    ensures Summary([]) == EMPTY_ROW
  {
  }

  // ---- the cap --------------------------------------------------------------------------------

  lemma {:induction false} KeptCount(ranked: seq<RankKey>, cap: nat)
    ensures |Kept(ranked, cap)| <= cap
    decreases cap
  {
    if cap == 0 {
      assert Kept(ranked, 0) == {};
    } else {
      KeptCount(ranked, cap - 1);
      if cap - 1 < |ranked| {
        assert Kept(ranked, cap) == Kept(ranked, cap - 1) + {ranked[cap - 1].value};
      } else {
        assert Kept(ranked, cap) == Kept(ranked, cap - 1);
      }
    }
  }

  function KeysIn(rows: seq<SeriesRow>): set<string> {
    set r | r in rows :: r.key
  }

  /** At most cap + 1 series appear. */
  lemma {:induction false} AtMostCapSeries(facts: seq<Fact>, g: Grain, d: FilterDim, rank: Measure, lower: string -> string, limit: Option<int>)
    ensures |KeysIn(BrokenSeries(facts, g, d, rank, lower, limit))| <= CapOf(limit) + 1
  {
    hide Summary, Pick, TextOf, BucketStart, SeriesTitle, Ranked, Cells, Kept;
    var keep := KeepOf(facts, d, rank, lower, limit);
    var rows := BrokenSeries(facts, g, d, rank, lower, limit);
    KeptCount(Ranked(facts, d, rank, lower), CapOf(limit));
    CellsCover(facts, g, d, keep);
    forall r | r in rows
      ensures r.key in keep + {OTHER_SERIES_KEY}
    {
      var i :| 0 <= i < |rows| && rows[i] == r;
      assert Cells(facts, g, d, keep)[i] in Cells(facts, g, d, keep);
      var f :| f in facts && CellKey(g, d, keep)(f) == Cells(facts, g, d, keep)[i];
      assert SeriesKey(d, keep)(f) == r.key;
    }
    SubsetSize(KeysIn(rows), keep + {OTHER_SERIES_KEY});
  }

  lemma {:induction false} SubsetSize<T>(a: set<T>, b: set<T>)
    requires a <= b
    ensures |a| <= |b|
  {
    assert b == a + (b - a);
  }

  lemma {:induction false} RankLeIsTotal()
    ensures TotalPreorder(RankLe)
  {
    StringLeIsTotalOrder();
    forall a, b
      ensures RankLe(a, b) || RankLe(b, a)
    {
      assert StringLe(a.lowered, b.lowered) || StringLe(b.lowered, a.lowered);
      assert StringLe(a.value, b.value) || StringLe(b.value, a.value);
    }
    forall a, b, c | RankLe(a, b) && RankLe(b, c)
      ensures RankLe(a, c)
    {
      RankTransitive(a, b, c);
    }
  }

  lemma {:induction false} RankTransitive(a: RankKey, b: RankKey, c: RankKey)
    requires RankLe(a, b) && RankLe(b, c)
    ensures RankLe(a, c)
  {
    if a.volume == b.volume == c.volume {
      if a.lowered == b.lowered == c.lowered {
        StringLeTransitive(a.value, b.value, c.value);
      } else if StringLe(a.lowered, b.lowered) && StringLe(b.lowered, c.lowered) {
        StringLeTransitive(a.lowered, b.lowered, c.lowered);
        if a.lowered == c.lowered {
          StringLeAntisymmetric(a.lowered, b.lowered);
        }
      }
    }
  }

  function RankOf(facts: seq<Fact>, d: FilterDim, rank: Measure, lower: string -> string, v: string): RankKey {
    RankKey(Volume(facts, d, rank, v), lower(LastLabel(facts, Of(d), v)), v)
  }

  /** The ranking lists exactly the ranks of the values present. */
  lemma {:induction false} RankedLists(facts: seq<Fact>, d: FilterDim, rank: Measure, lower: string -> string)
    ensures forall k | k in Ranked(facts, d, rank, lower) :: k == RankOf(facts, d, rank, lower, k.value)
    ensures forall v | HasValue(facts, Of(d), v) :: RankOf(facts, d, rank, lower, v) in Ranked(facts, d, rank, lower)
    ensures |Ranked(facts, d, rank, lower)| == |FirstSeen(facts, ValueKey(Of(d)))|
  {
    hide Volume, LastLabel, FirstSeen, StringLe, RankLe, Sort, Value;
    var values := FirstSeen(facts, ValueKey(Of(d)));
    var keys := RankKeys(facts, d, rank, lower, values);
    SortElements(keys, RankLe);
    InSort(keys, RankLe);
    FirstSeenCovers(facts, ValueKey(Of(d)));
    forall v | HasValue(facts, Of(d), v)
      ensures RankOf(facts, d, rank, lower, v) in keys
    {
      var f :| f in facts && Value(f, Of(d)) == v;
      assert ValueKey(Of(d))(f) == v;
      var k :| 0 <= k < |values| && values[k] == v;
      assert keys[k] in keys;
    }
  }

  /** Every kept value outranks every folded one, and folding happens only beyond the cap. */
  lemma {:induction false} KeptOutranksFolded(facts: seq<Fact>, d: FilterDim, rank: Measure, lower: string -> string, limit: Option<int>, a: string, b: string)
    requires a in KeepOf(facts, d, rank, lower, limit)
    requires HasValue(facts, Of(d), b) && b !in KeepOf(facts, d, rank, lower, limit)
    ensures RankLe(RankOf(facts, d, rank, lower, a), RankOf(facts, d, rank, lower, b))
    ensures Volume(facts, d, rank, a) >= Volume(facts, d, rank, b)
    ensures |FirstSeen(facts, ValueKey(Of(d)))| > CapOf(limit)
  {
    hide Volume, LastLabel, FirstSeen, StringLe, HasValue, RankKeys, Sort;
    var ranked := Ranked(facts, d, rank, lower);
    RankedLists(facts, d, rank, lower);
    RankingSorted(facts, d, rank, lower);
    var i :| 0 <= i < |ranked| && i < CapOf(limit) && ranked[i].value == a;
    var j :| 0 <= j < |ranked| && ranked[j] == RankOf(facts, d, rank, lower, b);
    assert j >= CapOf(limit);
    assert ranked[i] in ranked;
    SortedAt(ranked, i, j);
  }

  lemma {:induction false} RankingSorted(facts: seq<Fact>, d: FilterDim, rank: Measure, lower: string -> string)
    ensures Sorted(Ranked(facts, d, rank, lower), RankLe)
  {
    hide RankKeys, FirstSeen, RankLe;
    RankLeIsTotal();
    SortSorts(RankKeys(facts, d, rank, lower, FirstSeen(facts, ValueKey(Of(d)))), RankLe);
  }

  lemma {:induction false} SortedAt(ranked: seq<RankKey>, i: nat, j: nat)
    requires Sorted(ranked, RankLe) && i < j < |ranked|
    ensures RankLe(ranked[i], ranked[j])
  {
  }
}
