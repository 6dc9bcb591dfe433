/** trends.py, drill.py and analytics_service.py: three pieces of code that compute where a day,
    week or month bucket ends, proved to agree and to tile every window of the calendar. */
module Buckets {
  import opened Prelude
  import opened Facts
  import opened Calendar

  /** The grains that `parse_trend_grain` lets through. */
  datatype Grain = ByDay | ByWeek | ByMonth

  /** trends.py `bucket_start`. */
  function BucketStart(n: Day, g: Grain): Day {
    match g
    case ByDay => n
    case ByWeek => WeekStart(n)
    case ByMonth => MonthStart(n)
  }

  /** drill.py `bucket_end_exclusive`. */
  function BucketEnd(b: Day, g: Grain): Day {
    match g
    case ByDay => b + 1
    case ByWeek => b + 7
    case ByMonth => AddCalendarMonth(b)
  }

  /** A bucket runs from its start to its end, and its days are exactly those that map to it. */
  lemma {:induction false} BucketIsSpan(n: Day, k: Day, g: Grain)
    ensures BucketStart(n, g) <= k < BucketEnd(BucketStart(n, g), g) <==> BucketStart(k, g) == BucketStart(n, g)
  {
    match g
    case ByDay =>
    case ByWeek => WeekIsSpan(n, k);
    case ByMonth =>
      MonthSpan(n);
      MonthOfSpan(n, k);
  }

  lemma {:induction false} WeekIsSpan(n: Day, k: Day)
    ensures WeekStart(n) <= k < WeekStart(n) + 7 <==> WeekStart(k) == WeekStart(n)
  {
  }

  /** The end of a bucket is the start of the next. */
  lemma {:induction false} EndIsStart(n: Day, g: Grain)
    ensures BucketStart(BucketEnd(BucketStart(n, g), g), g) == BucketEnd(BucketStart(n, g), g)
    ensures BucketStart(BucketStart(n, g), g) == BucketStart(n, g)
  {
    BucketIsSpan(n, n, g);
    BucketIsSpan(n, BucketStart(n, g), g);
    match g
    case ByDay =>
    case ByWeek =>
    case ByMonth => NextMonthIsFirst(MonthStart(n));
  }

  /** Where a bucket begins and ends on the calendar: on the day itself, on a Monday, day 1 being one, or on
      the first of a month. */
  lemma {:induction false} BucketIsOnCalendar(n: Day)
    ensures BucketStart(n, ByDay) == n && BucketEnd(BucketStart(n, ByDay), ByDay) == n + 1
    ensures var monday := BucketStart(n, ByWeek);
            monday <= n < monday + 7 && monday % 7 == 1 && BucketEnd(monday, ByWeek) == monday + 7
    ensures var (c, first) := (FromOrdinal(n), BucketStart(n, ByMonth));
            && FromOrdinal(first) == Civil(c.y, c.m, 1)
            && FromOrdinal(BucketEnd(first, ByMonth)) == (if c.m == 12 then Civil(c.y + 1, 1, 1) else Civil(c.y, c.m + 1, 1))
  {
    hide FromOrdinal, MonthStart, WeekStart, AddCalendarMonth;
    WeekStartsAre(n);
    MonthStartsAre(n);
    MonthStartsAre(MonthStart(n));
  }

  lemma {:induction false} BucketsMonotone(m: Day, n: Day, g: Grain)
    requires m <= n
    ensures BucketStart(m, g) <= BucketStart(n, g)
  {
    hide BucketStart, BucketEnd;
    BucketIsSpan(m, m, g);
    BucketIsSpan(n, n, g);
    BucketIsSpan(m, n, g);
    BucketIsSpan(n, m, g);
  }

  // ---- listing the buckets of a window ------------------------------------------------------

  /** From one bucket start to another, stepping by bucket ends. */
  function BucketsFrom(first: Day, last: Day, g: Grain): seq<Day>
    requires BucketStart(first, g) == first && BucketStart(last, g) == last
    decreases last as int - first as int
  {
    if first >= last then [first]
    else
      EndIsStart(first, g);
      BucketIsSpan(first, first, g);
      BucketIsSpan(first, last, g);
      [first] + BucketsFrom(BucketEnd(first, g), last, g)
  }

  /** The buckets of [from, to). */
  function Buckets(from: Day, to: Day, g: Grain): seq<Day> {
    if from >= to then []
    else
      EndIsStart(from, g);
      EndIsStart(to - 1, g);
      BucketsFrom(BucketStart(from, g), BucketStart(to - 1, g), g)
  }

  /** The loop's own step: one day, seven days, or the first of the month after the cursor's. */
  method NextBucket(cursor: Day, g: Grain) returns (next: Day)
    ensures next == BucketEnd(cursor, g)
  {
    match g {
      case ByDay => next := cursor + 1;
      case ByWeek => next := cursor + 7;
      case ByMonth =>
        var c := FromOrdinal(cursor);
        var year := c.y + (if c.m == 12 then 1 else 0);
        var month := if c.m == 12 then 1 else c.m + 1;
        next := Ordinal(Civil(year, month, 1));
    }
  }

  /** trends.py `iter_buckets`; the month step is written out from the civil date there. */
  method IterBuckets(from: Day, to: Day, g: Grain) returns (out: seq<Day>)
    ensures out == Buckets(from, to, g)
  {
    hide BucketsFrom, BucketStart, BucketEnd;
    if from >= to {
      return [];
    }
    var first, last := BucketStart(from, g), BucketStart(to - 1, g);
    EndIsStart(from, g);
    EndIsStart(to - 1, g);
    BucketsMonotone(from, to - 1, g);
    out := [first];
    var cursor := first;
    ghost var done: seq<Day> := [];
    while cursor < last
      invariant BucketStart(cursor, g) == cursor <= last
      invariant out == done + [cursor]
      invariant done + BucketsFrom(cursor, last, g) == BucketsFrom(first, last, g)
      decreases last as int - cursor as int
    {
      ListMore(done, cursor, last, g);
      done := out;
      cursor := NextBucket(cursor, g);
      out := out + [cursor];
    }
    BucketsFromEnd(cursor, last, g);
    assert out == Buckets(from, to, g);
  }

  lemma {:induction false} ListMore(done: seq<Day>, cursor: Day, last: Day, g: Grain)
    requires BucketStart(cursor, g) == cursor < last && BucketStart(last, g) == last
    ensures var next := BucketEnd(cursor, g);
            cursor < next <= last && BucketStart(next, g) == next
            && done + [cursor] + BucketsFrom(next, last, g) == done + BucketsFrom(cursor, last, g)
  {
    BucketsFromStep(cursor, last, g);
    Reassociate(done, [cursor], BucketsFrom(BucketEnd(cursor, g), last, g));
  }

  lemma {:induction false} BucketsFromStep(first: Day, last: Day, g: Grain)
    requires BucketStart(first, g) == first < last && BucketStart(last, g) == last
    ensures var next := BucketEnd(first, g);
            first < next <= last && BucketStart(next, g) == next
            && BucketsFrom(first, last, g) == [first] + BucketsFrom(next, last, g)
  {
    hide BucketStart, BucketEnd;
    EndIsStart(first, g);
    BucketIsSpan(first, first, g);
    BucketIsSpan(first, last, g);
  }

  lemma {:induction false} BucketsFromEnd(first: Day, last: Day, g: Grain)
    requires BucketStart(first, g) == first >= last && BucketStart(last, g) == last
    ensures BucketsFrom(first, last, g) == [first]
  {
  }

  /** Each bucket ends where the next begins. */
  ghost predicate Chained(bs: seq<Day>, g: Grain) {
    forall i | 0 <= i < |bs| - 1 :: bs[i + 1] == BucketEnd(bs[i], g)
  }

  lemma {:induction false} BucketsFromChained(first: Day, last: Day, g: Grain)
    requires BucketStart(first, g) == first && BucketStart(last, g) == last && first <= last
    ensures var bs := BucketsFrom(first, last, g);
            && bs != [] && bs[0] == first && bs[|bs| - 1] == last && Chained(bs, g)
            && (forall i | 0 <= i < |bs| :: BucketStart(bs[i], g) == bs[i])
    decreases last as int - first as int
  {
    hide BucketStart, BucketEnd;
    if first < last {
      EndIsStart(first, g);
      BucketIsSpan(first, first, g);
      BucketIsSpan(first, last, g);
      var next := BucketEnd(first, g);
      BucketsFromChained(next, last, g);
      var rest := BucketsFrom(next, last, g);
      var bs := BucketsFrom(first, last, g);
      assert bs == [first] + rest;
      forall i | 0 <= i < |bs| - 1
        ensures bs[i + 1] == BucketEnd(bs[i], g)
      {
        if i > 0 {
          assert rest[i - 1 + 1] == BucketEnd(rest[i - 1], g);
        }
      }
    }
  }

  lemma {:induction false} ChainIncreases(bs: seq<Day>, i: nat, j: nat, g: Grain)
    requires Chained(bs, g) && forall k | 0 <= k < |bs| :: BucketStart(bs[k], g) == bs[k]
    requires i < j < |bs|
    ensures BucketEnd(bs[i], g) <= bs[j] && bs[i] < bs[j]
    decreases j
  {
    hide BucketStart, BucketEnd;
    BucketIsSpan(bs[j - 1], bs[j - 1], g);
    assert bs[j - 1 + 1] == BucketEnd(bs[j - 1], g);
    if i < j - 1 {
      ChainIncreases(bs, i, j - 1, g);
    }
  }

  /** The buckets of a window are strictly increasing, each ends where the next begins, and they
      run from the bucket of the first day to the bucket of the last. */
  lemma {:induction false} BucketsTile(from: Day, to: Day, g: Grain)
    requires from < to
    ensures var bs := Buckets(from, to, g);
            && bs != [] && bs[0] == BucketStart(from, g) && bs[|bs| - 1] == BucketStart(to - 1, g)
            && Chained(bs, g)
            && (forall i, j | 0 <= i < j < |bs| :: bs[i] < bs[j])
            && (forall i | 0 <= i < |bs| :: BucketStart(bs[i], g) == bs[i])
  {
    hide BucketStart, BucketEnd;
    EndIsStart(from, g);
    EndIsStart(to - 1, g);
    BucketsMonotone(from, to - 1, g);
    BucketsFromChained(BucketStart(from, g), BucketStart(to - 1, g), g);
    var bs := Buckets(from, to, g);
    forall i, j | 0 <= i < j < |bs|
      ensures bs[i] < bs[j]
    {
      ChainIncreases(bs, i, j, g);
    }
  }

  /** Every day of the window has its bucket listed. */
  lemma {:induction false} BucketListed(from: Day, to: Day, g: Grain, n: Day)
    requires from <= n < to
    ensures BucketStart(n, g) in Buckets(from, to, g)
  {
    hide BucketStart, BucketEnd, Buckets, BucketsFrom;
    BucketsTile(from, to, g);
    var bs := Buckets(from, to, g);
    BucketsMonotone(from, n, g);
    BucketsMonotone(n, to - 1, g);
    EndIsStart(n, g);
    ChainHits(bs, |bs| - 1, BucketStart(n, g), g);
  }

  lemma {:induction false} ChainHits(bs: seq<Day>, i: nat, b: Day, g: Grain)
    requires Chained(bs, g) && i < |bs| && forall k | 0 <= k < |bs| :: BucketStart(bs[k], g) == bs[k]
    requires BucketStart(b, g) == b && bs[0] <= b <= bs[i]
    ensures b in bs
    decreases i
  {
    hide BucketStart, BucketEnd;
    if b < bs[i] {
      if i == 0 {
        assert false;
      } else if bs[i - 1] <= b {
        assert bs[i - 1 + 1] == BucketEnd(bs[i - 1], g);
        BucketIsSpan(bs[i - 1], b, g);
      } else {
        ChainHits(bs, i - 1, b, g);
      }
    }
  }

  // ---- slices -------------------------------------------------------------------------------

  datatype Window = Window(from: Day, to: Day)   // to is exclusive

  datatype SliceError = NotInPeriod | MissingSlice

  function Later(a: Day, b: Day): Day {
    if a >= b then a else b
  }

  function Sooner(a: Day, b: Day): Day {
    if a <= b then a else b
  }

  /** drill.py `intersect_slice`. */
  function IntersectSlice(w: Window, g: Grain, b: Day): Result<Window, SliceError> {
    var start, end := Later(b, w.from), Sooner(BucketEnd(b, g), w.to);
    if start >= end then Err(NotInPeriod) else Ok(Window(start, end))
  }

  /** `intersect_slice` never fails on a listed bucket. */
  lemma {:induction false} ListedSliceExists(w: Window, g: Grain, i: nat)
    requires i < |Buckets(w.from, w.to, g)|
    ensures IntersectSlice(w, g, Buckets(w.from, w.to, g)[i]).Ok?
  {
    hide BucketStart, BucketEnd;
    var bs := Buckets(w.from, w.to, g);
    BucketsTile(w.from, w.to, g);
    BucketIsSpan(bs[i], bs[i], g);
    BucketIsSpan(w.from, w.from, g);
    BucketIsSpan(w.to - 1, w.to - 1, g);
    if i > 0 {
      ChainIncreases(bs, 0, i, g);
    }
    if i < |bs| - 1 {
      ChainIncreases(bs, i, |bs| - 1, g);
    }
  }

  /** The slices partition the window: a day is in the slice of a listed bucket exactly when the
      bucket is its own, so every day of the window is in one slice and only one. */
  lemma {:induction false} SlicesPartition(w: Window, g: Grain, n: Day)
    requires w.from <= n < w.to
    ensures BucketStart(n, g) in Buckets(w.from, w.to, g)
    ensures forall b | b in Buckets(w.from, w.to, g) ::
              var s := IntersectSlice(w, g, b);
              s.Ok? && (s.value.from <= n < s.value.to <==> b == BucketStart(n, g))
  {
    hide BucketStart, BucketEnd;
    BucketListed(w.from, w.to, g, n);
    var bs := Buckets(w.from, w.to, g);
    BucketsTile(w.from, w.to, g);
    forall b | b in bs
      ensures var s := IntersectSlice(w, g, b); s.Ok? && (s.value.from <= n < s.value.to <==> b == BucketStart(n, g))
    {
      var i :| 0 <= i < |bs| && bs[i] == b;
      ListedSliceExists(w, g, i);
      BucketIsSpan(b, n, g);
    }
  }

  /** No slice reaches outside the window, and each begins where the one before it ends. */
  lemma {:induction false} SlicesAbut(w: Window, g: Grain, i: nat)
    requires i < |Buckets(w.from, w.to, g)|
    ensures var bs := Buckets(w.from, w.to, g);
            var s := IntersectSlice(w, g, bs[i]);
            && s.Ok? && w.from <= s.value.from && s.value.to <= w.to
            && (i == 0 ==> s.value.from == w.from)
            && (i == |bs| - 1 ==> s.value.to == w.to)
            && (i + 1 < |bs| ==> IntersectSlice(w, g, bs[i + 1]).Ok? && s.value.to == IntersectSlice(w, g, bs[i + 1]).value.from)
  {
    hide BucketStart, BucketEnd;
    var bs := Buckets(w.from, w.to, g);
    BucketsTile(w.from, w.to, g);
    ListedSliceExists(w, g, i);
    BucketIsSpan(w.from, w.from, g);
    BucketIsSpan(w.to - 1, w.to - 1, g);
    if i + 1 < |bs| {
      ListedSliceExists(w, g, i + 1);
      ChainIncreases(bs, 0, i + 1, g);
      BucketIsSpan(bs[i + 1], bs[i + 1], g);
      if i + 1 < |bs| - 1 {
        ChainIncreases(bs, i + 1, |bs| - 1, g);
      }
      assert bs[i + 1] == BucketEnd(bs[i], g);
    }
  }

  function IndexOf(bs: seq<Day>, b: Day): (i: nat)
    requires b in bs
    ensures i < |bs| && bs[i] == b && forall j | 0 <= j < i :: bs[j] != b
  {
    if bs[0] == b then 0 else 1 + IndexOf(bs[1..], b)
  }

  /** analytics_service.py `_bucket_period`: the first and last day shown for a bucket. */
  function BucketPeriod(w: Window, g: Grain, b: Day): (int, int)
    requires b in Buckets(w.from, w.to, g)
  {
    var bs := Buckets(w.from, w.to, g);
    var i := IndexOf(bs, b);
    var next := if i + 1 < |bs| then bs[i + 1] else w.to;
    (Later(b, w.from), EarlierOf(next - 1, w.to - 1))
  }

  function EarlierOf(a: int, b: int): int {
    if a <= b then a else b
  }

  /** It shows exactly the slice, last day included. */
  lemma {:induction false} PeriodIsSlice(w: Window, g: Grain, b: Day)
    requires b in Buckets(w.from, w.to, g)
    ensures IntersectSlice(w, g, b).Ok?
    ensures BucketPeriod(w, g, b) == (IntersectSlice(w, g, b).value.from, IntersectSlice(w, g, b).value.to - 1)
  {
    hide BucketStart, BucketEnd;
    var bs := Buckets(w.from, w.to, g);
    var i := IndexOf(bs, b);
    ListedSliceExists(w, g, i);
    SlicesAbut(w, g, i);
    BucketsTile(w.from, w.to, g);
    if i + 1 < |bs| {
      assert bs[i + 1] == BucketEnd(bs[i], g);
    }
  }

  /** analytics_service.py `_bucket_slots`: days and weeks get the slots 0, 1, 2 and so on. */
  lemma {:induction false} SlotsAreIndices(from: Day, to: Day, g: Grain, i: nat)
    requires !g.ByMonth? && i < |Buckets(from, to, g)|
    ensures var bs := Buckets(from, to, g);
            (bs[i] as int - bs[0] as int) / (if g.ByWeek? then 7 else 1) == i
  {
    BucketsTile(from, to, g);
    EvenlySpaced(Buckets(from, to, g), g, i);
  }

  /** The slot of a bucket: days from the first one, counted in weeks when the grain is weekly. */
  function SlotOf(bs: seq<Day>, g: Grain, i: nat): int
    requires i < |bs|
  {
    (bs[i] as int - bs[0] as int) / (if g.ByWeek? then 7 else 1)
  }

  lemma {:induction false} NoBuckets(from: Day, to: Day, g: Grain)
    ensures from >= to ==> Buckets(from, to, g) == []
  {
    hide BucketStart, BucketsFrom;
  }

  /** For every grain the slots start at 0 and increase from bucket to bucket, so that each bucket has its
      own slot in the map. */
  lemma {:induction false} SlotsIncrease(from: Day, to: Day, g: Grain, i: nat, j: nat)
    requires i < j < |Buckets(from, to, g)|
    ensures SlotOf(Buckets(from, to, g), g, 0) == 0
    ensures SlotOf(Buckets(from, to, g), g, i) < SlotOf(Buckets(from, to, g), g, j)
  {
    hide BucketStart, BucketEnd, Buckets, Chained;
    NoBuckets(from, to, g);
    BucketsTile(from, to, g);
    if !g.ByMonth? {
      SlotsAreIndices(from, to, g, i);
      SlotsAreIndices(from, to, g, j);
    }
  }

  lemma {:induction false} EvenlySpaced(bs: seq<Day>, g: Grain, i: nat)
    requires !g.ByMonth? && i < |bs| && Chained(bs, g)
    ensures bs[i] == bs[0] + i * (if g.ByWeek? then 7 else 1)
  {
    if i > 0 {
      EvenlySpaced(bs, g, i - 1);
      assert bs[i - 1 + 1] == BucketEnd(bs[i - 1], g);
    }
  }

  /** drill.py `resolve_slice_windows` for a trend drill with a known grain: the chosen slice of
      the current window, and the slice at the same place of the comparison window, if any. */
  function ResolveSlices(w: Window, comparison: Option<Window>, g: Grain, day: Option<Day>)
    : Result<(Window, Option<Window>), SliceError>
  {
    if day.None? then Err(MissingSlice)
    else
      var aligned := BucketStart(day.value, g);
      var bs := Buckets(w.from, w.to, g);
      if aligned !in bs then Err(NotInPeriod)
      else
        var current := IntersectSlice(w, g, aligned);
        if current.Err? then Err(current.error)
        else if comparison.None? then Ok((current.value, None))
        else
          var cs := Buckets(comparison.value.from, comparison.value.to, g);
          var i := IndexOf(bs, aligned);
          if i >= |cs| then Ok((current.value, None))
          else
            var compared := IntersectSlice(comparison.value, g, cs[i]);
            if compared.Err? then Err(compared.error) else Ok((current.value, Some(compared.value)))
  }

  /** A trend drill is refused exactly when the bucket of the day touches no day of the window;
      a chosen bucket never fails later, in either window. */
  lemma {:induction false} ResolveRefusesOutside(w: Window, comparison: Option<Window>, g: Grain, day: Day)
    ensures ResolveSlices(w, comparison, g, Some(day)).Ok? <==>
            exists n: Day :: w.from <= n < w.to && BucketStart(n, g) == BucketStart(day, g)
  {
    hide BucketStart, BucketEnd;
    var aligned := BucketStart(day, g);
    var bs := Buckets(w.from, w.to, g);
    if n: Day :| w.from <= n < w.to && BucketStart(n, g) == aligned {
      BucketListed(w.from, w.to, g, n);
    }
    if aligned in bs {
      var i := IndexOf(bs, aligned);
      ListedSliceExists(w, g, i);
      var s := IntersectSlice(w, g, aligned).value;
      BucketsTile(w.from, w.to, g);
      BucketIsSpan(aligned, s.from, g);
      assert w.from <= s.from < w.to && BucketStart(s.from, g) == aligned;
      if comparison.Some? && i < |Buckets(comparison.value.from, comparison.value.to, g)| {
        ListedSliceExists(comparison.value, g, i);
      }
    }
  }

  /** A slice holds exactly the days of its window that are in the bucket. */
  ghost predicate IsSliceOf(s: Window, w: Window, g: Grain, bucket: Day) {
    forall n: Day :: s.from <= n < s.to <==> w.from <= n < w.to && BucketStart(n, g) == bucket
  }

  lemma {:induction false} ListedSliceIs(w: Window, g: Grain, i: nat)
    requires i < |Buckets(w.from, w.to, g)|
    ensures var b := Buckets(w.from, w.to, g)[i];
            IntersectSlice(w, g, b).Ok? && IsSliceOf(IntersectSlice(w, g, b).value, w, g, b)
  {
    hide BucketStart, BucketEnd, Buckets;
    var b := Buckets(w.from, w.to, g)[i];
    ListedSliceExists(w, g, i);
    SlicesAbut(w, g, i);
    var s := IntersectSlice(w, g, b).value;
    forall n: Day
      ensures s.from <= n < s.to <==> w.from <= n < w.to && BucketStart(n, g) == b
    {
      if w.from <= n < w.to {
        SlicesPartition(w, g, n);
        assert b in Buckets(w.from, w.to, g);
      }
    }
  }

  /** What a trend drill reads: the window's days in the chosen day's bucket, and, when the comparison window
      has a bucket at the same place, that window's days in it. */
  lemma {:induction false} ResolvedSlicesAre(w: Window, comparison: Option<Window>, g: Grain, day: Day)
    requires ResolveSlices(w, comparison, g, Some(day)).Ok?
    ensures var (r, bs) := (ResolveSlices(w, comparison, g, Some(day)).value, Buckets(w.from, w.to, g));
            && IsSliceOf(r.0, w, g, BucketStart(day, g))
            && exists i :: 0 <= i < |bs| && bs[i] == BucketStart(day, g) && ComparedAt(r.1, comparison, g, i)
  {
    hide BucketStart, BucketEnd, Buckets, IntersectSlice, IsSliceOf;
    var (aligned, bs) := (BucketStart(day, g), Buckets(w.from, w.to, g));
    var i := IndexOf(bs, aligned);
    ListedSliceIs(w, g, i);
    if comparison.Some? && i < |Buckets(comparison.value.from, comparison.value.to, g)| {
      ListedSliceIs(comparison.value, g, i);
    }
    assert ComparedAt(ResolveSlices(w, comparison, g, Some(day)).value.1, comparison, g, i);
  }

  /** The slice of the comparison window at a place, if there is one. */
  ghost predicate ComparedAt(slice: Option<Window>, comparison: Option<Window>, g: Grain, i: int)
    requires i >= 0
  {
    if comparison.Some? && i < |Buckets(comparison.value.from, comparison.value.to, g)|
    then slice.Some? && IsSliceOf(slice.value, comparison.value, g, Buckets(comparison.value.from, comparison.value.to, g)[i])
    else slice.None?
  }
}
