/** insights.py: windows of facts whose dominant driver in one dimension is lost to another dimension. */
module DimensionCases {
  import opened Prelude
  import opened Facts
  import opened Numbers
  import opened Ordering
  import opened Text
  import opened Drill
  import opened Metrics
  import opened Drivers
  import opened Insights
  import opened DriverCases

  // ---- facts from a table of campaigns and channels ---------------------------------------------------

  /** The change of one campaign on one channel. */
  datatype Cell = Cell(campaign: nat, channel: nat, change: nat)

  predicate Crossed(d: FilterDim) {
    d.Campaign? || d.Channel?
  }

  function At(cell: Cell, d: FilterDim): nat {
    if d.Campaign? then cell.campaign else cell.channel
  }

  /** One delivered before, and the change more now. */
  function Count(cell: Cell, now: bool): nat {
    if now then cell.change + 1 else 1
  }

  function CellFact(cell: Cell, now: bool): Fact {
    Fact("client", Str(cell.campaign), "", 1, None, Some(Str(cell.channel)), None, None, map[Delivered := Count(cell, now) as real])
  }

  function CellFacts(cells: seq<Cell>, now: bool): (r: seq<Fact>)
    ensures |r| == |cells| && forall i | 0 <= i < |cells| :: r[i] == CellFact(cells[i], now)
  {
    if cells == [] then [] else CellFacts(cells[..|cells| - 1], now) + [CellFact(cells[|cells| - 1], now)]
  }

  function SumAt(cells: seq<Cell>, d: FilterDim, k: nat, now: bool): nat {
    if cells == [] then 0
    else
      var last := cells[|cells| - 1];
      SumAt(cells[..|cells| - 1], d, k, now) + if At(last, d) == k then Count(last, now) else 0
  }

  function SumAll(cells: seq<Cell>, now: bool): nat {
    if cells == [] then 0 else SumAll(cells[..|cells| - 1], now) + Count(cells[|cells| - 1], now)
  }

  predicate Listed(cells: seq<Cell>, d: FilterDim, k: nat) {
    exists cell | cell in cells :: At(cell, d) == k
  }

  function ChangeAt(cells: seq<Cell>, d: FilterDim, k: nat): int {
    SumAt(cells, d, k, true) - SumAt(cells, d, k, false)
  }

  lemma {:induction false} CellKey(cell: Cell, now: bool, d: FilterDim)
    requires Crossed(d)
    ensures ValueKey(Of(d))(CellFact(cell, now)) == Str(At(cell, d))
  {
  }

  lemma {:induction false} CellsSnoc(cells: seq<Cell>, now: bool)
    requires cells != []
    ensures CellFacts(cells, now) == CellFacts(cells[..|cells| - 1], now) + [CellFact(cells[|cells| - 1], now)]
  {
  }

  lemma {:induction false} AddOrZero(row: Row, f: Fact, m: Measure)
    ensures OrZero(AddRows(row, Row(1, f.values)).sums, m) == OrZero(row.sums, m) + OrZero(f.values, m)
    ensures m in f.values ==> m in AddRows(row, Row(1, f.values)).sums
  {
  }

  lemma {:induction false} CellGroup(cells: seq<Cell>, now: bool, d: FilterDim, k: nat)
    requires Crossed(d)
    ensures OrZero(Summary(Pick(CellFacts(cells, now), ValueKey(Of(d)), Str(k))).sums, Delivered) == SumAt(cells, d, k, now) as real
  {
    hide Pick, Summary, CellFacts, ValueKey, AddRows, OrZero, At;
    if cells == [] {
      EmptySummary();
      assert CellFacts(cells, now) == [];
      PickNothing(CellFacts(cells, now), ValueKey(Of(d)), Str(k));
      assert OrZero(EMPTY_ROW.sums, Delivered) == 0.0 by { NothingIsZero(); }
    } else {
      var init, last := cells[..|cells| - 1], cells[|cells| - 1];
      CellGroup(init, now, d, k);
      CellsSnoc(cells, now);
      PickSnoc(CellFacts(init, now), CellFact(last, now), ValueKey(Of(d)), Str(k));
      CellKey(last, now, d);
      var before := Pick(CellFacts(init, now), ValueKey(Of(d)), Str(k));
      if At(last, d) == k {
        SummarySnoc(before, CellFact(last, now));
        AddOrZero(Summary(before), CellFact(last, now), Delivered);
        CellCount(last, now);
      } else {
        if Str(At(last, d)) == Str(k) {
          StrInjective(At(last, d), k);
        }
        assert before + [] == before;
      }
    }
  }

  lemma {:induction false} NothingIsZero()
    ensures OrZero(EMPTY_ROW.sums, Delivered) == 0.0
  {
  }

  lemma {:induction false} CellCount(cell: Cell, now: bool)
    ensures OrZero(CellFact(cell, now).values, Delivered) == Count(cell, now) as real
  {
  }

  lemma {:induction false} CellTotal(cells: seq<Cell>, now: bool)
    requires cells != []
    ensures Lookup(Summary(CellFacts(cells, now)).sums, Delivered) == Some(SumAll(cells, now) as real)
  {
    hide Summary, CellFacts, AddRows, SumAll, Count;
    CellSum(cells, now);
    var init, last := cells[..|cells| - 1], cells[|cells| - 1];
    CellsSnoc(cells, now);
    SummarySnoc(CellFacts(init, now), CellFact(last, now));
    AddOrZero(Summary(CellFacts(init, now)), CellFact(last, now), Delivered);
  }

  lemma {:induction false} CellSum(cells: seq<Cell>, now: bool)
    ensures OrZero(Summary(CellFacts(cells, now)).sums, Delivered) == SumAll(cells, now) as real
  {
    hide Summary, CellFacts, AddRows, OrZero;
    if cells == [] {
      EmptySummary();
      assert CellFacts(cells, now) == [];
      NothingIsZero();
    } else {
      var init, last := cells[..|cells| - 1], cells[|cells| - 1];
      CellSum(init, now);
      CellsSnoc(cells, now);
      SummarySnoc(CellFacts(init, now), CellFact(last, now));
      AddOrZero(Summary(CellFacts(init, now)), CellFact(last, now), Delivered);
      CellCount(last, now);
    }
  }

  lemma {:induction false} CellsWhole(cells: seq<Cell>, now: bool)
    ensures WholeCounts(CellFacts(cells, now)) && NoNulls(CellFacts(cells, now), Delivered)
  {
    hide IsInteger, Count;
    forall cell: Cell
      ensures IsInteger(Count(cell, now) as real)
    {
      WholeNumber(Count(cell, now));
    }
  }

  // ---- its drivers --------------------------------------------------------------------------------------

  lemma {:induction false} CellsHave(cells: seq<Cell>, now: bool, d: FilterDim, v: string)
    requires Crossed(d)
    ensures HasValue(CellFacts(cells, now), Of(d), v) <==> exists k: nat :: Listed(cells, d, k) && v == Str(k)
  {
    hide Drill.Value, At, CellFact;
    var facts := CellFacts(cells, now);
    if HasValue(facts, Of(d), v) {
      var f :| f in facts && Drill.Value(f, Of(d)) == v;
      var i :| 0 <= i < |facts| && facts[i] == f;
      CellKey(cells[i], now, d);
      assert Listed(cells, d, At(cells[i], d));
    }
    if k: nat :| Listed(cells, d, k) && v == Str(k) {
      var cell :| cell in cells && At(cell, d) == k;
      var i :| 0 <= i < |cells| && cells[i] == cell;
      CellKey(cells[i], now, d);
      assert facts[i] in facts;
    }
  }

  /** A listed coordinate is a driver whose change is the coordinate's. */
  lemma {:induction false} CellDriver(cells: seq<Cell>, d: FilterDim, total: real, k: nat)
    requires Crossed(d)
    ensures DriverOf(DELIVERED, MapOf(Groups(CellFacts(cells, true), Of(d))), MapOf(Groups(CellFacts(cells, false), Of(d))), total, Str(k)).delta
            == Some(ChangeAt(cells, d, k) as real)
  {
    hide Groups, MapOf, CellFacts, WholeCounts, GroupValue, TitleOf, DeltaPct, SafeDivide, Change, IsInteger, NoNulls, Pick, Summary, OrZero, SumAt;
    var (c, p) := (CellFacts(cells, true), CellFacts(cells, false));
    CellsWhole(cells, true);
    CellsWhole(cells, false);
    CellGroup(cells, true, d, k);
    CellGroup(cells, false, d, k);
    NeverNull(c, Of(d), Str(k));
    NeverNull(p, Of(d), Str(k));
    NullGroup(DELIVERED, c, Of(d), Str(k));
    NullGroup(DELIVERED, p, Of(d), Str(k));
    DriverChange(DELIVERED, c, p, Of(d), total, Str(k));
  }

  lemma {:induction false} NeverNull(facts: seq<Fact>, dim: Dim, k: string)
    requires NoNulls(facts, Delivered)
    ensures !AllNull(facts, dim, k, Delivered)
  {
    hide Drill.Value;
  }

  /** The driver of a coordinate in a total change of a hundred. */
  predicate IsDriver(row: Driver, cells: seq<Cell>, d: FilterDim, k: nat) {
    && row.key == Str(k) && row.delta == Some(ChangeAt(cells, d, k) as real)
    && row.contribution == Some(ChangeAt(cells, d, k) as real / 100.0)
  }

  lemma {:induction false} CellShare(cells: seq<Cell>, d: FilterDim, k: nat)
    requires Crossed(d)
    ensures IsDriver(DriverOf(DELIVERED, MapOf(Groups(CellFacts(cells, true), Of(d))), MapOf(Groups(CellFacts(cells, false), Of(d))), 100.0, Str(k)), cells, d, k)
  {
    hide Groups, MapOf, CellFacts, GroupValue, TitleOf, Delta, DeltaPct, ChangeAt, Quantize;
    CellDriver(cells, d, 100.0, k);
    var x := ChangeAt(cells, d, k);
    QuantizeMultiple(x as real / 100.0, x * 10000, RATE_UNITS);
  }

  /** The rows are the coordinates, each once, largest first. */
  ghost predicate AreDrivers(rows: seq<Driver>, cells: seq<Cell>, d: FilterDim) {
    && Sorted(rows, DriverBefore)
    && (forall i, j | 0 <= i < j < |rows| :: rows[i].key != rows[j].key)
    && (forall i | 0 <= i < |rows| :: IsListed(rows[i], cells, d))
    && (forall k: nat | Listed(cells, d, k) :: Among(rows, cells, d, k))
  }

  ghost predicate IsListed(row: Driver, cells: seq<Cell>, d: FilterDim) {
    exists k: nat :: Listed(cells, d, k) && IsDriver(row, cells, d, k)
  }

  ghost predicate Among(rows: seq<Driver>, cells: seq<Cell>, d: FilterDim, k: nat) {
    exists i :: 0 <= i < |rows| && IsDriver(rows[i], cells, d, k)
  }

  /** When every listed coordinate grows, by a hundred in all, the drivers are the coordinates. */
  lemma {:induction false} CellDrivers(cells: seq<Cell>, d: FilterDim)
    requires Crossed(d) && forall k: nat | Listed(cells, d, k) :: ChangeAt(cells, d, k) > 0
    ensures var same := SameSign(DriverRows(DELIVERED, Groups(CellFacts(cells, true), Of(d)), Groups(CellFacts(cells, false), Of(d)), 100.0), 100.0);
            && AreDrivers(same, cells, d)
            && |same| == |KeysOf(Groups(CellFacts(cells, true), Of(d)), Groups(CellFacts(cells, false), Of(d)))|
  {
    hide Groups, MapOf, CellFacts, DriverRows, DriverOf, SameSign, MovesWith, Sort, Covers, KeysOf, DriverBefore, Listed, ChangeAt, IsDriver, KeyOrder, IsListed, Among, WellShared, Sorted;
    var (c, p) := (CellFacts(cells, true), CellFacts(cells, false));
    var keys := RowsAreKeys(DELIVERED, c, p, Of(d), 100.0);
    var rows := DriverRows(DELIVERED, Groups(c, Of(d)), Groups(p, Of(d)), 100.0);
    RowsAreShared(DELIVERED, Groups(c, Of(d)), Groups(p, Of(d)), 100.0);
    forall i | 0 <= i < |rows|
      ensures MovesWith(rows[i], 100.0) && rows[i].key == keys[i] && IsListed(rows[i], cells, d)
    {
      KeyDriver(cells, d, keys[i]);
    }
    forall k: nat | Listed(cells, d, k)
      ensures Among(rows, cells, d, k)
    {
      CellsCover(cells, d, k, keys);
      CellAmong(cells, d, k, keys);
    }
    AllMove(rows, 100.0);
  }

  lemma {:induction false} KeyDriver(cells: seq<Cell>, d: FilterDim, v: string)
    requires Crossed(d) && v in KeysOf(Groups(CellFacts(cells, true), Of(d)), Groups(CellFacts(cells, false), Of(d)))
    requires forall k: nat | Listed(cells, d, k) :: ChangeAt(cells, d, k) > 0
    ensures var row := DriverOf(DELIVERED, MapOf(Groups(CellFacts(cells, true), Of(d))), MapOf(Groups(CellFacts(cells, false), Of(d))), 100.0, v);
            MovesWith(row, 100.0) && row.key == v && IsListed(row, cells, d)
  {
    hide Groups, MapOf, CellFacts, DriverOf, MovesWith, KeysOf, Listed, ChangeAt, IsDriver;
    var k := KeyListed(cells, d, v);
    CellShare(cells, d, k);
    IsDriverMoves(DriverOf(DELIVERED, MapOf(Groups(CellFacts(cells, true), Of(d))), MapOf(Groups(CellFacts(cells, false), Of(d))), 100.0, v), cells, d, k);
  }

  lemma {:induction false} CellAmong(cells: seq<Cell>, d: FilterDim, k: nat, keys: seq<string>)
    requires Crossed(d) && Str(k) in keys
    ensures Among(DriversFor(DELIVERED, MapOf(Groups(CellFacts(cells, true), Of(d))), MapOf(Groups(CellFacts(cells, false), Of(d))), 100.0, keys), cells, d, k)
  {
    hide Groups, MapOf, CellFacts, DriverOf, ChangeAt, IsDriver;
    var rows := DriversFor(DELIVERED, MapOf(Groups(CellFacts(cells, true), Of(d))), MapOf(Groups(CellFacts(cells, false), Of(d))), 100.0, keys);
    var i :| 0 <= i < |keys| && keys[i] == Str(k);
    CellShare(cells, d, k);
    assert IsDriver(rows[i], cells, d, k);
  }

  lemma {:induction false} IsDriverMoves(row: Driver, cells: seq<Cell>, d: FilterDim, k: nat)
    requires IsDriver(row, cells, d, k) && ChangeAt(cells, d, k) > 0
    ensures MovesWith(row, 100.0) && row.key == Str(k)
  {
    hide ChangeAt;
  }

  lemma {:induction false} KeyListed(cells: seq<Cell>, d: FilterDim, v: string) returns (k: nat)
    requires Crossed(d) && v in KeysOf(Groups(CellFacts(cells, true), Of(d)), Groups(CellFacts(cells, false), Of(d)))
    ensures Listed(cells, d, k) && v == Str(k)
  {
    hide KeysOf, Groups, MapOf, HasValue, Listed, CellFacts;
    var (c, p) := (CellFacts(cells, true), CellFacts(cells, false));
    KeysAreBoth(Groups(c, Of(d)), Groups(p, Of(d)));
    WindowMap(c, Of(d), v);
    WindowMap(p, Of(d), v);
    CellsHave(cells, true, d, v);
    CellsHave(cells, false, d, v);
    k :| Listed(cells, d, k) && v == Str(k);
  }

  lemma {:induction false} CellsCover(cells: seq<Cell>, d: FilterDim, k: nat, keys: seq<string>)
    requires Crossed(d) && Listed(cells, d, k) && Covers(CellFacts(cells, true), ValueKey(Of(d)), keys)
    ensures Str(k) in keys
  {
    hide Drill.Value, Listed;
    CellsHave(cells, true, d, Str(k));
    var f :| f in CellFacts(cells, true) && Drill.Value(f, Of(d)) == Str(k);
    assert ValueKey(Of(d))(f) in keys;
  }

  // ---- a table whose campaigns pass and whose channels do not ----------------------------------------------

  /** Campaigns of 38, 38 and 24 on channels of 39, 21, 20 and 20. */
  const TABLE: seq<Cell> := [Cell(1, 1, 38), Cell(2, 1, 1), Cell(2, 2, 21), Cell(2, 3, 16), Cell(3, 3, 4), Cell(3, 4, 20)]

  lemma {:induction false} SumAtSnoc(cells: seq<Cell>, cell: Cell, d: FilterDim, k: nat)
    ensures ChangeAt(cells + [cell], d, k) == ChangeAt(cells, d, k) + if At(cell, d) == k then cell.change else 0
    ensures ChangeAt([], d, k) == 0
    ensures SumAll(cells + [cell], true) == SumAll(cells, true) + cell.change + 1
    ensures SumAll(cells + [cell], false) == SumAll(cells, false) + 1
  {
    assert (cells + [cell])[..|cells|] == cells;
  }

  lemma {:induction false} TableSums(d: FilterDim, k: nat)
    ensures ChangeAt(TABLE, d, k) ==
              (if At(TABLE[0], d) == k then 38 else 0) + (if At(TABLE[1], d) == k then 1 else 0) + (if At(TABLE[2], d) == k then 21 else 0)
              + (if At(TABLE[3], d) == k then 16 else 0) + (if At(TABLE[4], d) == k then 4 else 0) + (if At(TABLE[5], d) == k then 20 else 0)
    ensures SumAll(TABLE, true) == 106 && SumAll(TABLE, false) == 6
  {
    hide ChangeAt, SumAll, At;
    var t := TABLE;
    SumAtSnoc([], t[0], d, k);
    SumAtSnoc([] + [t[0]], t[1], d, k);
    SumAtSnoc([] + [t[0]] + [t[1]], t[2], d, k);
    SumAtSnoc([] + [t[0]] + [t[1]] + [t[2]], t[3], d, k);
    SumAtSnoc([] + [t[0]] + [t[1]] + [t[2]] + [t[3]], t[4], d, k);
    SumAtSnoc([] + [t[0]] + [t[1]] + [t[2]] + [t[3]] + [t[4]], t[5], d, k);
    assert t == [] + [t[0]] + [t[1]] + [t[2]] + [t[3]] + [t[4]] + [t[5]];
    assert SumAll([], true) == 0 && SumAll([], false) == 0 by { NothingCounted(); }
  }

  lemma {:induction false} NothingCounted()
    ensures SumAll([], true) == 0 && SumAll([], false) == 0
  {
  }

  lemma {:induction false} TableListed(d: FilterDim, k: nat)
    requires Crossed(d)
    ensures Listed(TABLE, d, k) <==> 1 <= k <= if d.Campaign? then 3 else 4
  {
    if Listed(TABLE, d, k) {
      var cell :| cell in TABLE && At(cell, d) == k;
    }
    assert TABLE[0] in TABLE && TABLE[2] in TABLE && TABLE[3] in TABLE && TABLE[4] in TABLE && TABLE[5] in TABLE;
  }

  lemma {:induction false} TableChange(d: FilterDim, k: nat)
    requires Crossed(d) && Listed(TABLE, d, k)
    ensures ChangeAt(TABLE, d, k) == if d.Campaign? then (if k == 3 then 24 else 38) else if k == 1 then 39 else if k == 2 then 21 else 20
  {
    hide ChangeAt, Listed;
    TableListed(d, k);
    TableSums(d, k);
  }

  const AFTER: seq<Fact> := CellFacts(TABLE, true)
  const EARLIER: seq<Fact> := CellFacts(TABLE, false)

  lemma {:induction false} TableMaterial()
    ensures Material(DELIVERED, AFTER, EARLIER) && DeltaOf(DELIVERED, AFTER, EARLIER) == 100.0
  {
    hide Summary, Quantize, SumAll, CellFacts;
    TableSums(Campaign, 1);
    CellTotal(TABLE, true);
    CellTotal(TABLE, false);
    WholeNumber(100);
    TruncateWhole(100.0);
    QuantizeMonotone(1.0, 100.0 / 6.0, RATE_UNITS);
    QuantizeMultiple(1.0, 1000000, RATE_UNITS);
  }

  lemma {:induction false} TableDrivers(d: FilterDim)
    requires Crossed(d)
    ensures var same := SameIn(DELIVERED, AFTER, EARLIER, d);
            AreDrivers(same, TABLE, d) && |same| == |KeysOf(Groups(AFTER, Of(d)), Groups(EARLIER, Of(d)))|
  {
    hide Groups, DriverRows, SameSign, KeysOf, AreDrivers, Listed, ChangeAt, Material, DeltaOf, CellFacts;
    forall k: nat | Listed(TABLE, d, k)
      ensures ChangeAt(TABLE, d, k) > 0
    {
      TableChange(d, k);
    }
    TableMaterial();
    CellDrivers(TABLE, d);
  }

  /** A coordinate's place among the drivers, and what the driver in a place can be. */
  lemma {:induction false} PlaceOf(rows: seq<Driver>, d: FilterDim, k: nat) returns (i: nat)
    requires Crossed(d) && AreDrivers(rows, TABLE, d) && Listed(TABLE, d, k)
    ensures i < |rows| && rows[i].key == Str(k)
    ensures SizeOf(rows[i].contribution) == ChangeAt(TABLE, d, k) as real / 100.0
    ensures SizeOf(rows[i].delta) == ChangeAt(TABLE, d, k) as real
  {
    hide Listed, IsDriver, ChangeAt, SizeOf, DriverBefore;
    assert Among(rows, TABLE, d, k);
    i :| 0 <= i < |rows| && IsDriver(rows[i], TABLE, d, k);
    TableChange(d, k);
    SizeIs(rows[i], TABLE, d, k);
  }

  lemma {:induction false} InPlace(rows: seq<Driver>, d: FilterDim, i: nat) returns (k: nat)
    requires Crossed(d) && AreDrivers(rows, TABLE, d) && i < |rows|
    ensures Listed(TABLE, d, k) && rows[i].key == Str(k)
    ensures SizeOf(rows[i].contribution) == ChangeAt(TABLE, d, k) as real / 100.0
    ensures SizeOf(rows[i].delta) == ChangeAt(TABLE, d, k) as real
  {
    hide Listed, IsDriver, ChangeAt, SizeOf, DriverBefore;
    assert IsListed(rows[i], TABLE, d);
    k :| Listed(TABLE, d, k) && IsDriver(rows[i], TABLE, d, k);
    TableChange(d, k);
    SizeIs(rows[i], TABLE, d, k);
  }

  lemma {:induction false} InOrder(rows: seq<Driver>, d: FilterDim, i: nat, j: nat)
    requires AreDrivers(rows, TABLE, d) && i < j < |rows|
    ensures SizeOf(rows[i].contribution) >= SizeOf(rows[j].contribution) && rows[i].key != rows[j].key
  {
    hide SizeOf, StringLe, Among, IsListed;
    assert DriverBefore(rows[i], rows[j]);
  }

  /** Of the channels only the first is large: neither test passes. */
  lemma {:induction false} ChannelsFail()
    ensures var same := SameIn(DELIVERED, AFTER, EARLIER, Channel);
            && |same| >= 2 && SizeOf(same[0].contribution) == 0.39 && SizeOf(same[1].contribution) <= 0.21
  {
    hide SameIn, AreDrivers, Listed, ChangeAt, SizeOf, KeysOf, Groups, Str;
    TableDrivers(Channel);
    var same := SameIn(DELIVERED, AFTER, EARLIER, Channel);
    TableListed(Channel, 1);
    TableListed(Channel, 2);
    TableChange(Channel, 1);
    TableChange(Channel, 2);
    var i := PlaceOf(same, Channel, 1);
    var j := PlaceOf(same, Channel, 2);
    var k := InPlace(same, Channel, 0);
    var l := InPlace(same, Channel, 1);
    TableChange(Channel, k);
    TableChange(Channel, l);
    if i > 0 {
      InOrder(same, Channel, 0, i);
    }
    InOrder(same, Channel, 0, 1);
  }

  lemma {:induction false} SizeIs(row: Driver, cells: seq<Cell>, d: FilterDim, k: nat)
    requires IsDriver(row, cells, d, k) && ChangeAt(cells, d, k) > 0
    ensures row.key == Str(k)
    ensures SizeOf(row.contribution) == ChangeAt(cells, d, k) as real / 100.0
    ensures SizeOf(row.delta) == ChangeAt(cells, d, k) as real
  {
    hide ChangeAt;
  }

  /** Two of the campaigns are: together they pass. */
  lemma {:induction false} CampaignsPass()
    ensures var same := SameIn(DELIVERED, AFTER, EARLIER, Campaign);
            && |same| >= 2 && TwoLargestPass(DELIVERED, same) && SizeOf(same[0].contribution) == 0.38
  {
    hide SameIn, AreDrivers, Listed, ChangeAt, SizeOf, KeysOf, Groups, Str;
    TableDrivers(Campaign);
    var same := SameIn(DELIVERED, AFTER, EARLIER, Campaign);
    TableListed(Campaign, 1);
    TableListed(Campaign, 2);
    TableChange(Campaign, 1);
    TableChange(Campaign, 2);
    var i := PlaceOf(same, Campaign, 1);
    var j := PlaceOf(same, Campaign, 2);
    if i == j {
      StrInjective(1, 2);
    }
    var later := if i == 0 then j else i;
    var k := InPlace(same, Campaign, 0);
    var l := InPlace(same, Campaign, 1);
    TableChange(Campaign, k);
    TableChange(Campaign, l);
    InOrder(same, Campaign, 0, later);
    if later > 1 {
      InOrder(same, Campaign, 1, later);
    }
  }

  /** A dominant driver can be lost by looking further: on these facts the campaigns alone give one, and
      with the channels looked at as well, as the service does unless it is asked for one dimension, there
      is none.  The channels have the larger first share, so they alone are tested, and fail. */
  lemma {:induction false} AnotherDimensionHidesADriver()
    ensures Material(DELIVERED, AFTER, EARLIER)
    ensures Found(DELIVERED, AFTER, EARLIER, Windows(AFTER, EARLIER, [Campaign])).Some?
    ensures Found(DELIVERED, AFTER, EARLIER, Windows(AFTER, EARLIER, [Campaign, Channel])).None?
  {
    hide SameIn, Found, Groups, KeysOf, Offer, BestOf, SizeOf, Material, DeltaOf, AreDrivers;
    TableMaterial();
    CampaignsPass();
    ChannelsFail();
    TableDrivers(Campaign);
    TableDrivers(Channel);
    var (a, b) := (Window(AFTER, EARLIER, Campaign), Window(AFTER, EARLIER, Channel));
    assert Windows(AFTER, EARLIER, [Campaign]) == [a];
    assert Windows(AFTER, EARLIER, [Campaign, Channel]) == [a, b];
    OneDimensionDecides(DELIVERED, AFTER, EARLIER, Campaign);
    Offered(Campaign);
    Offered(Channel);
    LargerFirst(100.0, a, b);
    TwoLargestDecide(DELIVERED, AFTER, EARLIER, [a, b]);
  }

  lemma {:induction false} Offered(d: FilterDim)
    requires |KeysOf(Groups(AFTER, Of(d)), Groups(EARLIER, Of(d)))| >= 2 && SameIn(DELIVERED, AFTER, EARLIER, d) != []
    ensures var offer := Offer(DELIVERED, DeltaOf(DELIVERED, AFTER, EARLIER), Window(AFTER, EARLIER, d));
            && offer.Some? && offer.value.same == SameIn(DELIVERED, AFTER, EARLIER, d)
            && offer.value.top == SizeOf(SameIn(DELIVERED, AFTER, EARLIER, d)[0].contribution)
  {
    hide Groups, KeysOf, DriverRows, SameSign, DeltaOf, SizeOf;
  }

  lemma {:induction false} LargerFirst(total: real, a: Grouping, b: Grouping)
    requires Offer(DELIVERED, total, a).Some? && Offer(DELIVERED, total, b).Some?
    requires Offer(DELIVERED, total, b).value.top > Offer(DELIVERED, total, a).value.top
    ensures BestOf(DELIVERED, total, [a, b]) == Offer(DELIVERED, total, b)
  {
    hide Offer;
    AloneBest(DELIVERED, total, a);
    assert [a, b][..1] == [a];
  }
}
