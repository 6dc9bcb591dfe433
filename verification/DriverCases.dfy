/** insights.py: windows of facts at the edges of the driver rules. */
module DriverCases {
  import opened Prelude
  import opened Facts
  import opened Numbers
  import opened Ordering
  import opened Text
  import opened Drill
  import opened Shares
  import opened Metrics
  import opened Drivers
  import opened Insights

  const DELIVERED: Metric := Metric("delivered", CountKind, OfMeasure(Delivered))

  /** Every fact has the metric's measure. */
  predicate NoNulls(facts: seq<Fact>, m: Measure) {
    forall f | f in facts :: m in f.values
  }

  lemma {:induction false} ZerosSum(xs: seq<real>)
    requires forall x | x in xs :: x == 0.0
    ensures SumReals(xs) == 0.0
  {
    if xs != [] {
      assert xs[0] in xs && forall x | x in xs[1..] :: x in xs;
      ZerosSum(xs[1..]);
    }
  }

  lemma {:induction false} NoNullsHideNothing(s: Metric, c: seq<Fact>, p: seq<Fact>, dim: Dim)
    requires Typed(s) && NoNulls(c, s.source.m) && NoNulls(p, s.source.m)
    ensures HiddenAmount(s, c, p, dim) == 0.0
  {
    hide SumReals, KeysOf, Groups, Drill.Value, GroupChange;
    var keys := KeysOf(Groups(c, dim), Groups(p, dim));
    forall x | x in GroupHiddens(s, c, p, dim, keys)
      ensures x == 0.0
    {
    }
    ZerosSum(GroupHiddens(s, c, p, dim, keys));
  }

  // ---- n even movers ---------------------------------------------------------------------------------

  function EvenFact(i: nat, v: real): Fact {
    Fact("client", "campaign", "", 1, None, Some(Str(i)), None, None, map[Delivered := v])
  }

  /** One fact on each of n channels, with the same count delivered. */
  function EvenFacts(n: nat, v: real): (r: seq<Fact>)
    ensures |r| == n && forall i | 0 <= i < n :: r[i] == EvenFact(i, v)
  {
    if n == 0 then [] else EvenFacts(n - 1, v) + [EvenFact(n - 1, v)]
  }

  function Times(n: nat, v: real): real {
    n as real * v
  }

  lemma {:induction false} TimesNext(n: nat, v: real)
    requires n > 0
    ensures Times(n, v) == Times(n - 1, v) + v
    ensures Times(1, v) == v
  {
    OneMore(n - 1, v);
  }

  lemma {:induction false} EvenTotal(n: nat, v: real)
    requires n > 0
    ensures Lookup(Summary(EvenFacts(n, v)).sums, Delivered) == Some(Times(n, v))
  {
    hide Summary, EvenFacts, Times;
    var m := n - 1;
    EvenLast(n, v);
    SummarySnoc(EvenFacts(m, v), EvenFact(m, v));
    TimesNext(n, v);
    if m == 0 {
      EmptySummary();
      assert EvenFacts(0, v) == [];
    } else {
      EvenTotal(m, v);
    }
  }

  lemma {:induction false} EvenLast(n: nat, v: real)
    requires n > 0
    ensures EvenFacts(n, v) == EvenFacts(n - 1, v) + [EvenFact(n - 1, v)]
  {
  }

  lemma {:induction false} EmptySummary()
    ensures Summary([]) == EMPTY_ROW
  {
  }

  lemma {:induction false} EvenValue(i: nat, v: real)
    ensures ValueKey(Of(Channel))(EvenFact(i, v)) == Str(i)
  {
  }

  lemma {:induction false} EvenGroup(n: nat, v: real, i: nat)
    requires i < n
    ensures Pick(EvenFacts(n, v), ValueKey(Of(Channel)), Str(i)) == [EvenFact(i, v)]
  {
    hide Pick, Drill.Value;
    var (key, init) := (ValueKey(Of(Channel)), EvenFacts(n - 1, v));
    PickSnoc(init, EvenFact(n - 1, v), key, Str(i));
    EvenValue(n - 1, v);
    if i < n - 1 {
      EvenGroup(n - 1, v, i);
      if Str(i) == Str(n - 1) {
        StrInjective(i, n - 1);
      }
    } else {
      forall f | f in init
        ensures key(f) != Str(i)
      {
        var j :| 0 <= j < n - 1 && init[j] == f;
        EvenValue(j, v);
        if Str(j) == Str(i) {
          StrInjective(j, i);
        }
      }
      PickNothing(init, key, Str(i));
    }
  }

  lemma {:induction false} EvenChange(n: nat, i: nat)
    requires i < n
    ensures GroupChange(DELIVERED, EvenFacts(n, 2.0), EvenFacts(n, 1.0), Of(Channel), Str(i)) == 1.0
  {
    hide Pick, EvenFacts;
    EvenGroup(n, 2.0, i);
    EvenGroup(n, 1.0, i);
    OneFactSum(EvenFact(i, 2.0));
    OneFactSum(EvenFact(i, 1.0));
  }

  lemma {:induction false} OneFactSum(f: Fact)
    ensures Summary([f]).sums == f.values
  {
    AddRowsZero(Row(1, f.values));
    assert Summary([f]) == AddRows(Row(1, f.values), Summary([]));
  }

  lemma {:induction false} EvenMaterial(n: nat)
    requires n > 0
    ensures Material(DELIVERED, EvenFacts(n, 2.0), EvenFacts(n, 1.0))
    ensures DeltaOf(DELIVERED, EvenFacts(n, 2.0), EvenFacts(n, 1.0)) == n as real
  {
    hide Summary, Quantize, EvenFacts;
    var x := n as real;
    EvenTotal(n, 2.0);
    EvenTotal(n, 1.0);
    assert x * 2.0 - x * 1.0 == x;
    WholeNumber(n);
    TruncateWhole(x);
    OverItself(x);
    QuantizeMultiple(1.0, 1000000, RATE_UNITS);
  }

  lemma {:induction false} WholeNumber(n: nat)
    ensures IsInteger(n as real)
  {
  }

  lemma {:induction false} EvenWhole(n: nat, v: real)
    requires IsInteger(v)
    ensures WholeCounts(EvenFacts(n, v)) && NoNulls(EvenFacts(n, v), Delivered)
  {
    hide IsInteger;
  }

  lemma {:induction false} EvenKeys(n: nat, k: string) returns (i: nat)
    requires k in KeysOf(Groups(EvenFacts(n, 2.0), Of(Channel)), Groups(EvenFacts(n, 1.0), Of(Channel)))
    ensures i < n && k == Str(i)
  {
    hide KeysOf, Groups, MapOf, Drill.Value, Pick, Summary;
    var (c, p) := (EvenFacts(n, 2.0), EvenFacts(n, 1.0));
    KeysAreBoth(Groups(c, Of(Channel)), Groups(p, Of(Channel)));
    WindowMap(c, Of(Channel), k);
    WindowMap(p, Of(Channel), k);
    var facts := if HasValue(c, Of(Channel), k) then c else p;
    var f :| f in facts && Drill.Value(f, Of(Channel)) == k;
    i :| 0 <= i < |facts| && facts[i] == f;
    EvenValue(i, if HasValue(c, Of(Channel), k) then 2.0 else 1.0);
  }

  /** Each of the drivers changed by one. */
  lemma {:induction false} EvenDriver(n: nat, total: real, k: string)
    requires k in KeysOf(Groups(EvenFacts(n, 2.0), Of(Channel)), Groups(EvenFacts(n, 1.0), Of(Channel)))
    ensures DriverOf(DELIVERED, MapOf(Groups(EvenFacts(n, 2.0), Of(Channel))), MapOf(Groups(EvenFacts(n, 1.0), Of(Channel))), total, k).delta == Some(1.0)
  {
    hide KeysOf, Groups, MapOf, GroupChange, EvenFacts, WholeCounts, GroupValue, TitleOf, DeltaPct, SafeDivide, Change, IsInteger, NoNulls;
    var (c, p) := (EvenFacts(n, 2.0), EvenFacts(n, 1.0));
    var i := EvenKeys(n, k);
    WholeNumber(1);
    WholeNumber(2);
    EvenWhole(n, 2.0);
    EvenWhole(n, 1.0);
    EvenChange(n, i);
    NotNull(c, k);
    NotNull(p, k);
    NullGroup(DELIVERED, c, Of(Channel), k);
    NullGroup(DELIVERED, p, Of(Channel), k);
    DriverChange(DELIVERED, c, p, Of(Channel), total, k);
  }

  lemma {:induction false} NotNull(facts: seq<Fact>, k: string)
    requires NoNulls(facts, Delivered)
    ensures !AllNull(facts, Of(Channel), k, Delivered)
  {
    hide Drill.Value;
  }

  lemma {:induction false} AllMove(rows: seq<Driver>, total: real)
    requires forall d | d in rows :: MovesWith(d, total)
    ensures SameSign(rows, total) == rows
  {
    hide MovesWith;
    if rows != [] {
      assert rows[0] in rows && forall d | d in rows[1..] :: d in rows;
      AllMove(rows[1..], total);
      assert rows == [rows[0]] + rows[1..];
    }
  }

  /** All the drivers of such facts move, by one each. */
  lemma {:induction false} EvenDrivers(n: nat, total: real)
    requires total > 0.0
    ensures var rows := DriverRows(DELIVERED, Groups(EvenFacts(n, 2.0), Of(Channel)), Groups(EvenFacts(n, 1.0), Of(Channel)), total);
            SameSign(rows, total) == rows && forall d | d in rows :: d.delta == Some(1.0)
  {
    hide KeysOf, Groups, MapOf, EvenFacts, DriverRows, DriverOf, SameSign, MovesWith, Sort, Covers, Distinct;
    var (c, p) := (EvenFacts(n, 2.0), EvenFacts(n, 1.0));
    var keys := RowsAreKeys(DELIVERED, c, p, Of(Channel), total);
    var rows := DriverRows(DELIVERED, Groups(c, Of(Channel)), Groups(p, Of(Channel)), total);
    forall d | d in rows
      ensures d.delta == Some(1.0) && MovesWith(d, total)
    {
      var i :| 0 <= i < |rows| && rows[i] == d;
      EvenDriver(n, total, keys[i]);
      DriverMoves(DELIVERED, MapOf(Groups(c, Of(Channel))), MapOf(Groups(p, Of(Channel))), total, keys[i]);
    }
    AllMove(rows, total);
  }

  lemma {:induction false} EvenConserves(n: nat)
    requires n > 0
    ensures var rows := DriverRows(DELIVERED, Groups(EvenFacts(n, 2.0), Of(Channel)), Groups(EvenFacts(n, 1.0), Of(Channel)), n as real);
            SumReals(Deltas(rows)) == n as real
  {
    hide KeysOf, Groups, EvenFacts, WholeCounts, IsInteger, NoNulls, DriverRows, SumReals, Deltas, HiddenAmount, HiddenIn, Contributions, Summary, Material, DeltaOf, Abs, Delta, PickMetric;
    var (c, p, total) := (EvenFacts(n, 2.0), EvenFacts(n, 1.0), n as real);
    EvenMaterial(n);
    MaterialDelta(DELIVERED, c, p);
    WholeNumber(1);
    WholeNumber(2);
    EvenWhole(n, 2.0);
    EvenWhole(n, 1.0);
    NoNullsHideNothing(DELIVERED, c, p, Of(Channel));
    DriversConserve(DELIVERED, c, p, Of(Channel), total);
  }

  lemma {:induction false} EvenRows(n: nat)
    requires n > 0
    ensures var (c, p) := (EvenFacts(n, 2.0), EvenFacts(n, 1.0));
            && |SameIn(DELIVERED, c, p, Channel)| == n
            && (forall d | d in SameIn(DELIVERED, c, p, Channel) :: d.delta == Some(1.0))
            && SumReals(Deltas(SameIn(DELIVERED, c, p, Channel))) == n as real
  {
    hide Groups, EvenFacts, DriverRows, SameSign, SumReals, Deltas, Material, DeltaOf;
    EvenMaterial(n);
    EvenDrivers(n, n as real);
    EvenConserves(n);
    EvenSum(SameIn(DELIVERED, EvenFacts(n, 2.0), EvenFacts(n, 1.0), Channel), 1.0);
  }

  lemma {:induction false} DriverMoves(s: Metric, now: GroupMap, before: GroupMap, total: real, k: string)
    requires total > 0.0 && DriverOf(s, now, before, total, k).delta == Some(1.0)
    ensures MovesWith(DriverOf(s, now, before, total, k), total)
  {
    hide GroupValue, TitleOf, DeltaPct, Delta, Quantize;
  }

  /** For every n from four on there are such facts: n channels that each double from one delivered to
      two.  The count doubles, every channel moves with it, and none is reported. */
  lemma {:induction false} EvenMoversGoUnreported(n: nat)
    requires n >= 4
    ensures var (c, p) := (EvenFacts(n, 2.0), EvenFacts(n, 1.0));
            && Material(DELIVERED, c, p)
            && |SameIn(DELIVERED, c, p, Channel)| == n
            && Found(DELIVERED, c, p, [Window(c, p, Channel)]).None?
  {
    hide Material, SameIn, Found, EvenFacts, DeltaOf, SumReals, Deltas, BestOf, Window, TwoLargestPass;
    var (c, p) := (EvenFacts(n, 2.0), EvenFacts(n, 1.0));
    EvenMaterial(n);
    EvenRows(n);
    var grouped := [Window(c, p, Channel)];
    AloneSame(DELIVERED, c, p, Channel);
    if BestOf(DELIVERED, n as real, grouped).Some? {
      EvenMoversAreNotFound(DELIVERED, c, p, grouped, 1.0);
    } else {
      TwoLargestDecide(DELIVERED, c, p, grouped);
    }
  }

  // ---- a hidden change ------------------------------------------------------------------------------------

  /** When one group alone is all NULL in a window, what is hidden is that group's change. */
  lemma {:induction false} OneGroupHides(s: Metric, c: seq<Fact>, p: seq<Fact>, dim: Dim, keys: seq<string>, k: string)
    requires Typed(s) && Distinct(keys) && k in keys
    requires forall j | j in keys && j != k :: GroupHidden(s, c, p, dim, j) == 0.0
    ensures SumReals(GroupHiddens(s, c, p, dim, keys)) == GroupHidden(s, c, p, dim, k)
  {
    hide GroupHidden, SumReals;
    var (all, rest) := (GroupHiddens(s, c, p, dim, keys), GroupHiddens(s, c, p, dim, keys[1..]));
    assert all == [all[0]] + rest;
    SumConcat([all[0]], rest);
    SumOne(all[0]);
    assert keys[0] in keys && forall j | j in keys[1..] :: j in keys;
    if keys[0] == k {
      assert k !in keys[1..];
      forall x | x in rest
        ensures x == 0.0
      {
        var i :| 0 <= i < |rest| && rest[i] == x;
        assert keys[1..][i] in keys[1..];
      }
      ZerosSum(rest);
    } else {
      assert k in keys[1..];
      OneGroupHides(s, c, p, dim, keys[1..], k);
    }
  }

  function ChannelFact(channel: string, values: Sums): Fact {
    Fact("client", "campaign", "", 1, None, Some(channel), None, None, values)
  }

  const NOW: seq<Fact> := [ChannelFact("x", map[]), ChannelFact("y", map[Delivered := 10.0])]
  const BEFORE: seq<Fact> := [ChannelFact("x", map[Delivered := 5.0]), ChannelFact("y", map[Delivered := 1.0])]

  lemma {:induction false} TwoChannels(values: Sums, others: Sums)
    ensures var facts := [ChannelFact("x", values), ChannelFact("y", others)];
            && Pick(facts, ValueKey(Of(Channel)), "x") == [facts[0]]
            && Pick(facts, ValueKey(Of(Channel)), "y") == [facts[1]]
            && Summary(facts).sums == AddSums(values, others)
  {
    var (a, b, key) := (ChannelFact("x", values), ChannelFact("y", others), ValueKey(Of(Channel)));
    assert key(a) == "x" && key(b) == "y";
    assert "x"[0] != "y"[0];
    var facts := [a, b];
    assert facts == [a] + [b] && [a] == [] + [a];
    assert Pick([], key, "x") == [] == Pick([], key, "y");
    PickSnoc([], a, key, "x");
    PickSnoc([], a, key, "y");
    PickSnoc([a], b, key, "x");
    PickSnoc([a], b, key, "y");
    SummaryConcat([a], [b]);
    OneFactSum(a);
    OneFactSum(b);
  }

  lemma {:induction false} ChannelsAre(facts: seq<Fact>, values: Sums, others: Sums, k: string)
    requires facts == [ChannelFact("x", values), ChannelFact("y", others)]
    ensures HasValue(facts, Of(Channel), k) <==> k == "x" || k == "y"
    ensures AllNull(facts, Of(Channel), "x", Delivered) <==> Delivered !in values
    ensures AllNull(facts, Of(Channel), "y", Delivered) <==> Delivered !in others
  {
    assert "x"[0] != "y"[0];
    assert facts[0] in facts && facts[1] in facts;
    assert Drill.Value(facts[0], Of(Channel)) == "x" && Drill.Value(facts[1], Of(Channel)) == "y";
    forall f | f in facts
      ensures f == facts[0] || f == facts[1]
    {
    }
  }

  /** Facts on which the deltas do not add up: channel x goes from 5 to NULL, channel y from 1 to 10.  The
      total rises by 4, the one delta that is reported is 9, and the 5 of x are hidden. */
  lemma {:induction false} NullHidesAChange()
    ensures WholeCounts(NOW) && WholeCounts(BEFORE) && Material(DELIVERED, NOW, BEFORE)
    ensures DeltaOf(DELIVERED, NOW, BEFORE) == 4.0
    ensures HiddenAmount(DELIVERED, NOW, BEFORE, Of(Channel)) == -5.0
    ensures var rows := DriverRows(DELIVERED, Groups(NOW, Of(Channel)), Groups(BEFORE, Of(Channel)), 4.0);
            SumReals(Deltas(rows)) == 9.0
  {
    hide Groups, DriverRows, SumReals, Deltas, HiddenIn, Contributions, Material, DeltaOf, Abs, WholeCounts, KeysOf, GroupHiddens;
    HiddenMaterial();
    HiddenFive();
    MaterialDelta(DELIVERED, NOW, BEFORE);
    DriversConserve(DELIVERED, NOW, BEFORE, Of(Channel), 4.0);
  }

  lemma {:induction false} HiddenMaterial()
    ensures WholeCounts(NOW) && WholeCounts(BEFORE) && Material(DELIVERED, NOW, BEFORE)
    ensures DeltaOf(DELIVERED, NOW, BEFORE) == 4.0
  {
    hide Summary, Quantize, Pick;
    TwoChannels(map[], map[Delivered := 10.0]);
    TwoChannels(map[Delivered := 5.0], map[Delivered := 1.0]);
    WholeNumber(10);
    WholeNumber(5);
    WholeNumber(1);
    WholeNumber(4);
    TruncateWhole(4.0);
    QuantizeMonotone(0.5, 4.0 / 6.0, RATE_UNITS);
    QuantizeMultiple(0.5, 500000, RATE_UNITS);
  }

  lemma {:induction false} HiddenFive()
    ensures HiddenAmount(DELIVERED, NOW, BEFORE, Of(Channel)) == -5.0
  {
    hide KeysOf, Groups, MapOf, SumReals, GroupHiddens, HasValue, AllNull, Pick, Summary;
    var keys := KeysOf(Groups(NOW, Of(Channel)), Groups(BEFORE, Of(Channel)));
    KeysAreBoth(Groups(NOW, Of(Channel)), Groups(BEFORE, Of(Channel)));
    forall k
      ensures k in keys <==> k == "x" || k == "y"
    {
      WindowMap(NOW, Of(Channel), k);
      WindowMap(BEFORE, Of(Channel), k);
      ChannelsAre(NOW, map[], map[Delivered := 10.0], k);
      ChannelsAre(BEFORE, map[Delivered := 5.0], map[Delivered := 1.0], k);
    }
    ChannelsAre(NOW, map[], map[Delivered := 10.0], "x");
    ChannelsAre(BEFORE, map[Delivered := 5.0], map[Delivered := 1.0], "x");
    TwoChannels(map[], map[Delivered := 10.0]);
    TwoChannels(map[Delivered := 5.0], map[Delivered := 1.0]);
    OneFactSum(NOW[0]);
    OneFactSum(BEFORE[0]);
    OneGroupHides(DELIVERED, NOW, BEFORE, Of(Channel), keys, "x");
  }
}
