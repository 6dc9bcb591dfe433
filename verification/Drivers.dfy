/** insights.py: which groups account for the change of an additive metric. */
module Drivers {
  import opened Prelude
  import opened Facts
  import opened Numbers
  import opened Ordering
  import opened Drill
  import opened Shares
  import opened Metrics
  import opened Ratios

  datatype Driver = Driver(
    key: string, title: string, current: Option<real>, prior: Option<real>,
    delta: Option<real>, pct: Option<real>, contribution: Option<real>, count: nat, priorCount: nat)

  type GroupMap = map<string, GroupRow>

  /** `{key: payload for ... in groups}`: the last group of a key stays. */
  function MapOf(groups: seq<GroupRow>): GroupMap {
    if groups == [] then map[]
    else MapOf(groups[..|groups| - 1])[groups[|groups| - 1].value := groups[|groups| - 1]]
  }

  /** The metric of one group; an additive metric of an absent group is zero, of a group with
      only NULLs it is NULL. */
  function GroupValue(s: Metric, groups: GroupMap, key: string): Option<real> {
    if key in groups then PickMetric(s, groups[key].row.sums)
    else if s.Adds() then Some(0.0)
    else None
  }

  function TitleOf(current: GroupMap, prior: GroupMap, key: string): string {
    var title := if key in current then current[key].title else if key in prior then prior[key].title else "";
    if title != "" then title else if key != "" then key else "(blank)"
  }

  function DriverOf(s: Metric, current: GroupMap, prior: GroupMap, total: real, key: string): Driver {
    var (now, before) := (GroupValue(s, current, key), GroupValue(s, prior, key));
    var delta := Delta(s, now, before);
    Driver(key, TitleOf(current, prior, key), now, before, delta, DeltaPct(now, before),
           SafeDivide(delta, Some(total), RATE_UNITS),
           if key in current then current[key].row.count else 0,
           if key in prior then prior[key].row.count else 0)
  }

  function SizeOf(x: Option<real>): real {
    Abs(x.GetOr(0.0))
  }

  /** `(|contribution|, |delta|, key)`, largest first. */
  predicate DriverBefore(a: Driver, b: Driver) {
    if SizeOf(a.contribution) != SizeOf(b.contribution) then SizeOf(a.contribution) > SizeOf(b.contribution)
    else if SizeOf(a.delta) != SizeOf(b.delta) then SizeOf(a.delta) > SizeOf(b.delta)
    else StringLe(b.key, a.key)
  }

  /** The keys of both windows, each once. */
  function AddKeys(keys: seq<string>, groups: seq<GroupRow>): seq<string>
    decreases groups
  {
    if groups == [] then keys
    else AddKeys(if groups[0].value in keys then keys else keys + [groups[0].value], groups[1..])
  }

  function KeysOf(current: seq<GroupRow>, prior: seq<GroupRow>): seq<string> {
    AddKeys(AddKeys([], current), prior)
  }

  function DriversFor(s: Metric, current: GroupMap, prior: GroupMap, total: real, keys: seq<string>): (rows: seq<Driver>)
    ensures |rows| == |keys| && forall i | 0 <= i < |rows| :: rows[i] == DriverOf(s, current, prior, total, keys[i])
  {
    if keys == [] then []
    else [DriverOf(s, current, prior, total, keys[0])] + DriversFor(s, current, prior, total, keys[1..])
  }

  /** `driver_rows`: no driver when there is no change to account for. */
  function DriverRows(s: Metric, current: seq<GroupRow>, prior: seq<GroupRow>, total: real): seq<Driver> {
    if total == 0.0 then []
    else Sort(DriversFor(s, MapOf(current), MapOf(prior), total, KeysOf(current, prior)), DriverBefore)
  }

  // ---- the loop over the set of keys ---------------------------------------------------------------

  /** The order of drivers, seen as an order of their keys. */
  function KeyOrder(s: Metric, current: GroupMap, prior: GroupMap, total: real): (string, string) -> bool {
    (a, b) => DriverBefore(DriverOf(s, current, prior, total, a), DriverOf(s, current, prior, total, b))
  }

  lemma {:induction false} DriverBeforeTotal(a: Driver, b: Driver)
    ensures DriverBefore(a, b) || DriverBefore(b, a)
  {
    hide SizeOf;
    StringLeTotal(a.key, b.key);
  }

  lemma {:induction false} DriverBeforeTransitive(a: Driver, b: Driver, c: Driver)
    requires DriverBefore(a, b) && DriverBefore(b, c)
    ensures DriverBefore(a, c)
  {
    hide SizeOf;
    if SizeOf(a.contribution) == SizeOf(b.contribution) == SizeOf(c.contribution) {
      if SizeOf(a.delta) == SizeOf(b.delta) == SizeOf(c.delta) {
        StringLeTransitive(c.key, b.key, a.key);
      }
    }
  }

  lemma {:induction false} DriverBeforeIsTotal()
    ensures TotalPreorder(DriverBefore)
  {
    hide DriverBefore;
    forall a, b
      ensures DriverBefore(a, b) || DriverBefore(b, a)
    {
      DriverBeforeTotal(a, b);
    }
    forall a, b, c | DriverBefore(a, b) && DriverBefore(b, c)
      ensures DriverBefore(a, c)
    {
      DriverBeforeTransitive(a, b, c);
    }
  }

  lemma {:induction false} KeyOrderIsTotal(s: Metric, current: GroupMap, prior: GroupMap, total: real)
    ensures TotalPreorder(KeyOrder(s, current, prior, total)) && Antisymmetric(KeyOrder(s, current, prior, total))
  {
    hide DriverOf, DriverBefore;
    var le := KeyOrder(s, current, prior, total);
    forall a, b
      ensures le(a, b) || le(b, a)
    {
      DriverBeforeTotal(DriverOf(s, current, prior, total, a), DriverOf(s, current, prior, total, b));
    }
    forall a, b, c | le(a, b) && le(b, c)
      ensures le(a, c)
    {
      DriverBeforeTransitive(DriverOf(s, current, prior, total, a), DriverOf(s, current, prior, total, b), DriverOf(s, current, prior, total, c));
    }
    forall a, b | le(a, b) && le(b, a)
      ensures a == b
    {
      TiedKeys(s, current, prior, total, a, b);
    }
  }

  lemma {:induction false} TiedKeys(s: Metric, current: GroupMap, prior: GroupMap, total: real, a: string, b: string)
    requires KeyOrder(s, current, prior, total)(a, b) && KeyOrder(s, current, prior, total)(b, a)
    ensures a == b
  {
    hide SizeOf, GroupValue, TitleOf, Delta, DeltaPct, SafeDivide, StringLe;
    StringLeAntisymmetric(a, b);
  }

  lemma {:induction false} InsertDrivers(s: Metric, current: GroupMap, prior: GroupMap, total: real, k: string, keys: seq<string>)
    ensures Insert(DriverOf(s, current, prior, total, k), DriversFor(s, current, prior, total, keys), DriverBefore)
            == DriversFor(s, current, prior, total, Insert(k, keys, KeyOrder(s, current, prior, total)))
  {
    hide DriverOf, DriverBefore;
    var le := KeyOrder(s, current, prior, total);
    if keys != [] {
      if le(k, keys[0]) {
        assert ([k] + keys)[1..] == keys;
      } else {
        InsertDrivers(s, current, prior, total, k, keys[1..]);
        var rest := Insert(k, keys[1..], le);
        assert ([keys[0]] + rest)[1..] == rest;
      }
    }
  }

  /** Sorting drivers is listing the drivers of the sorted keys. */
  lemma {:induction false} SortDrivers(s: Metric, current: GroupMap, prior: GroupMap, total: real, keys: seq<string>)
    ensures Sort(DriversFor(s, current, prior, total, keys), DriverBefore)
            == DriversFor(s, current, prior, total, Sort(keys, KeyOrder(s, current, prior, total)))
  {
    hide DriverOf, DriverBefore;
    if keys != [] {
      var rest := DriversFor(s, current, prior, total, keys[1..]);
      assert DriversFor(s, current, prior, total, keys)[1..] == rest;
      SortDrivers(s, current, prior, total, keys[1..]);
      InsertDrivers(s, current, prior, total, keys[0], Sort(keys[1..], KeyOrder(s, current, prior, total)));
    }
  }

  lemma {:induction false} SameKeysSameSort(s: Metric, current: GroupMap, prior: GroupMap, total: real, a: seq<string>, b: seq<string>)
    requires Distinct(a) && Distinct(b) && forall k :: k in a <==> k in b
    ensures Sort(DriversFor(s, current, prior, total, a), DriverBefore) == Sort(DriversFor(s, current, prior, total, b), DriverBefore)
  {
    hide DriverOf, DriverBefore, TotalPreorder, Antisymmetric;
    var le := KeyOrder(s, current, prior, total);
    SortDrivers(s, current, prior, total, a);
    SortDrivers(s, current, prior, total, b);
    KeyOrderIsTotal(s, current, prior, total);
    DistinctByCount(a);
    DistinctByCount(b);
    forall k
      ensures multiset(a)[k] == multiset(b)[k]
    {
      assert k in a <==> k in multiset(a);
      assert k in b <==> k in multiset(b);
    }
    assert multiset(a) == multiset(b);
    SortOfPermutation(a, b, le);
  }

  lemma {:induction false} AddKeysCollects(keys: seq<string>, groups: seq<GroupRow>)
    requires Distinct(keys)
    ensures Distinct(AddKeys(keys, groups))
    ensures forall k :: k in AddKeys(keys, groups) <==> k in keys || HasGroup(groups, k)
    decreases groups
  {
    if groups != [] {
      var k := groups[0].value;
      var more := if k in keys then keys else keys + [k];
      DistinctSnoc(keys, k);
      AddKeysCollects(more, groups[1..]);
      forall j
        ensures HasGroup(groups, j) <==> j == k || HasGroup(groups[1..], j)
      {
        if g :| g in groups && g.value == j {
          assert g == groups[0] || g in groups[1..];
        }
        assert groups[0] in groups;
      }
    }
  }

  lemma {:induction false} MapOfGroups(groups: seq<GroupRow>)
    ensures forall k :: k in MapOf(groups) <==> HasGroup(groups, k)
  {
    if groups != [] {
      var init, last := groups[..|groups| - 1], groups[|groups| - 1];
      MapOfGroups(init);
      assert groups == init + [last];
      forall k
        ensures HasGroup(groups, k) <==> k == last.value || HasGroup(init, k)
      {
        if g :| g in groups && g.value == k {
          assert g == last || g in init;
        }
        assert last in groups;
      }
    }
  }

  /** `driver_rows` as the program runs it, picking the keys of a set in any order. */
  method ListDrivers(s: Metric, current: seq<GroupRow>, prior: seq<GroupRow>, total: real) returns (rows: seq<Driver>, count: nat)
    ensures rows == DriverRows(s, current, prior, total)
    ensures count == |KeysOf(current, prior)|
  {
    hide DriverOf, DriverBefore, MapOf, Sort, HasGroup, AddKeys;
    var now, before := MapOf(current), MapOf(prior);
    var keys := now.Keys + before.Keys;
    KeysAreBoth(current, prior);
    count := |keys|;
    if total == 0.0 {
      return [], count;
    }
    rows := [];
    var left := keys;
    ghost var picked: seq<string> := [];
    while left != {}
      invariant left <= keys && Distinct(picked)
      invariant forall k :: k in picked <==> k in keys - left
      invariant rows == DriversFor(s, now, before, total, picked)
      decreases left
    {
      var k :| k in left;
      DriversSnoc(s, now, before, total, picked, k);
      DistinctSnoc(picked, k);
      rows := rows + [DriverOf(s, now, before, total, k)];
      picked := picked + [k];
      left := left - {k};
    }
    SameKeysSameSort(s, now, before, total, picked, KeysOf(current, prior));
    rows := Sort(rows, DriverBefore);
  }

  lemma {:induction false} DriversSnoc(s: Metric, now: GroupMap, before: GroupMap, total: real, keys: seq<string>, k: string)
    ensures DriversFor(s, now, before, total, keys + [k]) == DriversFor(s, now, before, total, keys) + [DriverOf(s, now, before, total, k)]
  {
    hide DriverOf;
  }

  lemma {:induction false} KeysAreBoth(current: seq<GroupRow>, prior: seq<GroupRow>)
    ensures Distinct(KeysOf(current, prior))
    ensures forall k :: k in KeysOf(current, prior) <==> k in MapOf(current).Keys + MapOf(prior).Keys
    ensures |KeysOf(current, prior)| == |MapOf(current).Keys + MapOf(prior).Keys|
  {
    hide HasGroup, MapOf, AddKeys;
    AddKeysCollects([], current);
    AddKeysCollects(AddKeys([], current), prior);
    MapOfGroups(current);
    MapOfGroups(prior);
    var keys := KeysOf(current, prior);
    CountKeys(keys);
    assert (set k | k in keys) == MapOf(current).Keys + MapOf(prior).Keys;
  }

  lemma {:induction false} CountKeys(keys: seq<string>)
    requires Distinct(keys)
    ensures |set k | k in keys| == |keys|
  {
    if keys != [] {
      var init, last := keys[..|keys| - 1], keys[|keys| - 1];
      assert keys == init + [last];
      CountKeys(init);
      assert (set k | k in keys) == (set k | k in init) + {last};
      assert last !in init;
    }
  }

  // ---- groups that move with the total ---------------------------------------------------------------

  predicate MovesWith(item: Driver, total: real) {
    && item.delta.Some? && item.contribution.Some? && item.delta.value != 0.0
    && ((item.delta.value > 0.0) == (total > 0.0))
  }

  /** `_same_sign`. */
  function SameSign(rows: seq<Driver>, total: real): (r: seq<Driver>)
    ensures forall d :: d in r <==> d in rows && MovesWith(d, total)
  {
    if rows == [] then []
    else (if MovesWith(rows[0], total) then [rows[0]] else []) + SameSign(rows[1..], total)
  }

  lemma {:induction false} SameSignSnoc(rows: seq<Driver>, d: Driver, total: real)
    ensures SameSign(rows + [d], total) == SameSign(rows, total) + if MovesWith(d, total) then [d] else []
  {
    hide MovesWith;
    if rows == [] {
      assert rows + [d] == [d];
    } else {
      assert (rows + [d])[0] == rows[0] && (rows + [d])[1..] == rows[1..] + [d];
      SameSignSnoc(rows[1..], d, total);
    }
  }

  method ListSameSign(rows: seq<Driver>, total: real) returns (out: seq<Driver>)
    ensures out == SameSign(rows, total)
  {
    hide SameSign;
    out := [];
    NoneSame(total);
    for i := 0 to |rows|
      invariant out == SameSign(rows[..i], total)
    {
      assert rows[..i + 1] == rows[..i] + [rows[i]];
      SameSignSnoc(rows[..i], rows[i], total);
      if rows[i].delta.None? || rows[i].contribution.None? {
        continue;
      }
      if rows[i].delta.value == 0.0 {
        continue;
      }
      if (rows[i].delta.value > 0.0) == (total > 0.0) {
        out := out + [rows[i]];
      }
    }
    assert rows[..|rows|] == rows;
  }

  lemma {:induction false} NoneSame(total: real)
    ensures SameSign([], total) == []
  {
  }

  lemma {:induction false} SameSignSorted(rows: seq<Driver>, total: real)
    requires Sorted(rows, DriverBefore)
    ensures Sorted(SameSign(rows, total), DriverBefore)
  {
    hide DriverBefore, MovesWith;
    if rows != [] {
      assert Sorted(rows[1..], DriverBefore);
      SameSignSorted(rows[1..], total);
      var rest := SameSign(rows[1..], total);
      if MovesWith(rows[0], total) {
        var t := [rows[0]] + rest;
        forall i, j | 0 <= i < j < |t|
          ensures DriverBefore(t[i], t[j])
        {
          if i == 0 {
            assert rest[j - 1] in rest;
            var k :| 0 <= k < |rows[1..]| && rows[1..][k] == rest[j - 1];
            assert rows[1..][k] == rows[k + 1];
          }
        }
      }
    }
  }

  // ---- conservation ------------------------------------------------------------------------------------

  function Deltas(rows: seq<Driver>): (r: seq<real>)
    ensures |r| == |rows| && forall i | 0 <= i < |r| :: r[i] == rows[i].delta.GetOr(0.0)
  {
    if rows == [] then [] else [rows[0].delta.GetOr(0.0)] + Deltas(rows[1..])
  }

  function Contributions(rows: seq<Driver>): (r: seq<real>)
    ensures |r| == |rows| && forall i | 0 <= i < |r| :: r[i] == rows[i].contribution.GetOr(0.0)
  {
    seq(|rows|, i requires 0 <= i < |rows| => rows[i].contribution.GetOr(0.0))
  }

  /** What a driver without a delta hides: one window of the group is all NULL, so the sum of the
      other one is compared with nothing. */
  function Hidden(d: Driver): real {
    if d.delta.Some? then 0.0 else d.current.GetOr(0.0) - d.prior.GetOr(0.0)
  }

  function HiddenIn(rows: seq<Driver>): (r: seq<real>)
    ensures |r| == |rows| && forall i | 0 <= i < |r| :: r[i] == Hidden(rows[i])
  {
    if rows == [] then [] else [Hidden(rows[0])] + HiddenIn(rows[1..])
  }

  /** Count columns hold whole numbers. */
  predicate WholeCounts(facts: seq<Fact>) {
    forall f, m | f in facts && m in f.values && IsCount(m) :: IsInteger(f.values[m])
  }

  lemma {:induction false} WholeSums(facts: seq<Fact>, m: Measure)
    requires WholeCounts(facts) && IsCount(m)
    ensures IsInteger(OrZero(Summary(facts).sums, m))
  {
    hide IsInteger;
    ZeroWhole();
    if facts != [] {
      assert facts[0] in facts && forall f | f in facts[1..] :: f in facts;
      WholeSums(facts[1..], m);
      if m in facts[0].values {
        IntegersAdd(facts[0].values[m], OrZero(Summary(facts[1..]).sums, m));
      }
    }
  }

  lemma {:induction false} ZeroWhole()
    ensures IsInteger(0.0)
  {
  }

  /** The metric is a measure, and its kind is the measure's. */
  predicate Typed(s: Metric) {
    s.source.OfMeasure? && s.kind == (if IsCount(s.source.m) then CountKind else MoneyKind)
  }

  lemma {:induction false} MapOfListed(groups: seq<GroupRow>, i: nat)
    requires i < |groups| && forall j, k | 0 <= j < k < |groups| :: groups[j].value != groups[k].value
    ensures groups[i].value in MapOf(groups) && MapOf(groups)[groups[i].value] == groups[i]
  {
    if i < |groups| - 1 {
      MapOfListed(groups[..|groups| - 1], i);
    }
  }

  /** The map made from a window's groups: the row of each value, and nothing else. */
  lemma {:induction false} WindowMap(facts: seq<Fact>, dim: Dim, k: string)
    ensures k in MapOf(Groups(facts, dim)) <==> HasValue(facts, dim, k)
    ensures k in MapOf(Groups(facts, dim)) ==> MapOf(Groups(facts, dim))[k].row == Summary(Pick(facts, ValueKey(dim), k))
    ensures k in MapOf(Groups(facts, dim)) ==> MapOf(Groups(facts, dim))[k].title == LastLabel(facts, dim, k)
    ensures k !in MapOf(Groups(facts, dim)) ==> Pick(facts, ValueKey(dim), k) == []
  {
    hide Value, LastLabel, Summary, Pick, FirstSeen, MapOf, HasValue;
    var groups := Groups(facts, dim);
    MapOfGroups(groups);
    GroupsAreValues(facts, dim, k);
    GroupsConserve(facts, dim);
    if HasGroup(groups, k) {
      var g :| g in groups && g.value == k;
      var i :| 0 <= i < |groups| && groups[i] == g;
      MapOfListed(groups, i);
    } else {
      NoValueNoPick(facts, dim, k);
    }
  }

  lemma {:induction false} NoValueNoPick(facts: seq<Fact>, dim: Dim, k: string)
    requires !HasValue(facts, dim, k)
    ensures Pick(facts, ValueKey(dim), k) == []
  {
    hide Value, Pick;
    forall f | f in facts
      ensures ValueKey(dim)(f) != k
    {
      assert Value(f, dim) != k;
    }
    PickNothing(facts, ValueKey(dim), k);
  }

  /** An additive metric of a group is the sum over its facts. */
  lemma {:induction false} GroupValueIsSum(s: Metric, facts: seq<Fact>, dim: Dim, k: string)
    requires Typed(s)
    ensures GroupValue(s, MapOf(Groups(facts, dim)), k).GetOr(0.0) == OrZero(Summary(Pick(facts, ValueKey(dim), k)).sums, s.source.m)
  {
    hide MapOf, Groups, Pick, HasValue;
    WindowMap(facts, dim, k);
  }

  lemma {:induction false} PickWhole(facts: seq<Fact>, dim: Dim, k: string)
    requires WholeCounts(facts)
    ensures WholeCounts(Pick(facts, ValueKey(dim), k))
  {
    hide IsInteger, Value;
  }

  /** What one group's change is. */
  function GroupChange(s: Metric, c: seq<Fact>, p: seq<Fact>, dim: Dim, k: string): real
    requires Typed(s)
  {
    OrZero(Summary(Pick(c, ValueKey(dim), k)).sums, s.source.m) - OrZero(Summary(Pick(p, ValueKey(dim), k)).sums, s.source.m)
  }

  lemma {:induction false} ChangeWhole(s: Metric, c: seq<Fact>, p: seq<Fact>, dim: Dim, k: string)
    requires Typed(s) && WholeCounts(c) && WholeCounts(p)
    ensures Change(s, GroupChange(s, c, p, dim, k)) == GroupChange(s, c, p, dim, k)
  {
    hide IsInteger, Pick, Summary, Truncate, WholeCounts;
    if s.kind.CountKind? {
      PickWhole(c, dim, k);
      PickWhole(p, dim, k);
      WholeSums(Pick(c, ValueKey(dim), k), s.source.m);
      WholeSums(Pick(p, ValueKey(dim), k), s.source.m);
      IntegersAdd(OrZero(Summary(Pick(c, ValueKey(dim), k)).sums, s.source.m), OrZero(Summary(Pick(p, ValueKey(dim), k)).sums, s.source.m));
      TruncateWhole(GroupChange(s, c, p, dim, k));
    }
  }

  /** The window has facts of the group, and the measure is NULL on all of them. */
  predicate AllNull(facts: seq<Fact>, dim: Dim, k: string, m: Measure) {
    && HasValue(facts, dim, k)
    && forall f | f in facts && Drill.Value(f, dim) == k :: m !in f.values
  }

  /** The change of a group that an all-NULL window hides. */
  function GroupHidden(s: Metric, c: seq<Fact>, p: seq<Fact>, dim: Dim, k: string): real
    requires Typed(s)
  {
    if AllNull(c, dim, k, s.source.m) || AllNull(p, dim, k, s.source.m) then GroupChange(s, c, p, dim, k) else 0.0
  }

  function GroupHiddens(s: Metric, c: seq<Fact>, p: seq<Fact>, dim: Dim, keys: seq<string>): (r: seq<real>)
    requires Typed(s)
    ensures |r| == |keys| && forall i | 0 <= i < |r| :: r[i] == GroupHidden(s, c, p, dim, keys[i])
  {
    if keys == [] then [] else [GroupHidden(s, c, p, dim, keys[0])] + GroupHiddens(s, c, p, dim, keys[1..])
  }

  /** All that two windows of facts hide in a dimension. */
  function HiddenAmount(s: Metric, c: seq<Fact>, p: seq<Fact>, dim: Dim): real
    requires Typed(s)
  {
    SumReals(GroupHiddens(s, c, p, dim, KeysOf(Groups(c, dim), Groups(p, dim))))
  }

  lemma {:induction false} NullGroup(s: Metric, facts: seq<Fact>, dim: Dim, k: string)
    requires Typed(s)
    ensures GroupValue(s, MapOf(Groups(facts, dim)), k).None? <==> AllNull(facts, dim, k, s.source.m)
  {
    hide MapOf, Groups, Pick, HasValue, Summary, Drill.Value;
    WindowMap(facts, dim, k);
    var group := Pick(facts, ValueKey(dim), k);
    SummaryNull(group, s.source.m);
    if HasValue(facts, dim, k) {
      if AllNull(facts, dim, k, s.source.m) {
        forall i | 0 <= i < |group|
          ensures s.source.m !in group[i].values
        {
          assert group[i] in group;
          assert Drill.Value(group[i], dim) == k;
        }
      } else {
        var f :| f in facts && Drill.Value(f, dim) == k && s.source.m in f.values;
        assert ValueKey(dim)(f) == k;
        assert f in group;
        var i :| 0 <= i < |group| && group[i] == f;
      }
    }
  }

  lemma {:induction false} DriverHides(s: Metric, c: seq<Fact>, p: seq<Fact>, dim: Dim, total: real, k: string)
    requires Typed(s) && WholeCounts(c) && WholeCounts(p)
    ensures Hidden(DriverOf(s, MapOf(Groups(c, dim)), MapOf(Groups(p, dim)), total, k)) == GroupHidden(s, c, p, dim, k)
  {
    hide MapOf, Groups, GroupChange, AllNull, WholeCounts, GroupValue, TitleOf, DeltaPct, SafeDivide, Change;
    NullGroup(s, c, dim, k);
    NullGroup(s, p, dim, k);
    DriverChange(s, c, p, dim, total, k);
  }

  lemma {:induction false} DriversHide(s: Metric, c: seq<Fact>, p: seq<Fact>, dim: Dim, total: real, keys: seq<string>)
    requires Typed(s) && WholeCounts(c) && WholeCounts(p)
    ensures HiddenIn(DriversFor(s, MapOf(Groups(c, dim)), MapOf(Groups(p, dim)), total, keys)) == GroupHiddens(s, c, p, dim, keys)
  {
    hide MapOf, Groups, GroupHidden, WholeCounts, DriverOf, Hidden;
    forall i | 0 <= i < |keys|
      ensures Hidden(DriverOf(s, MapOf(Groups(c, dim)), MapOf(Groups(p, dim)), total, keys[i])) == GroupHidden(s, c, p, dim, keys[i])
    {
      DriverHides(s, c, p, dim, total, keys[i]);
    }
  }

  lemma {:induction false} InsertHidden(s: Metric, c: seq<Fact>, p: seq<Fact>, dim: Dim, k: string, keys: seq<string>, le: (string, string) -> bool)
    requires Typed(s)
    ensures SumReals(GroupHiddens(s, c, p, dim, Insert(k, keys, le))) == GroupHidden(s, c, p, dim, k) + SumReals(GroupHiddens(s, c, p, dim, keys))
  {
    hide GroupHidden;
    if keys != [] {
      if le(k, keys[0]) {
        assert ([k] + keys)[1..] == keys;
      } else {
        InsertHidden(s, c, p, dim, k, keys[1..], le);
        var rest := Insert(k, keys[1..], le);
        assert ([keys[0]] + rest)[1..] == rest;
      }
    }
  }

  lemma {:induction false} SortHidden(s: Metric, c: seq<Fact>, p: seq<Fact>, dim: Dim, keys: seq<string>, le: (string, string) -> bool)
    requires Typed(s)
    ensures SumReals(GroupHiddens(s, c, p, dim, Sort(keys, le))) == SumReals(GroupHiddens(s, c, p, dim, keys))
  {
    hide GroupHidden;
    if keys != [] {
      SortHidden(s, c, p, dim, keys[1..], le);
      InsertHidden(s, c, p, dim, keys[0], Sort(keys[1..], le), le);
    }
  }

  /** A driver's delta, with what it hides, is its group's change. */
  lemma {:induction false} DriverChange(s: Metric, c: seq<Fact>, p: seq<Fact>, dim: Dim, total: real, k: string)
    requires Typed(s) && WholeCounts(c) && WholeCounts(p)
    ensures var d := DriverOf(s, MapOf(Groups(c, dim)), MapOf(Groups(p, dim)), total, k);
            d.delta.GetOr(0.0) + Hidden(d) == GroupChange(s, c, p, dim, k)
  {
    hide MapOf, Groups, Pick, Summary, WholeCounts, GroupValue, TitleOf, DeltaPct, SafeDivide, Change;
    GroupValueIsSum(s, c, dim, k);
    GroupValueIsSum(s, p, dim, k);
    ChangeWhole(s, c, p, dim, k);
  }

  function GroupChanges(s: Metric, c: seq<Fact>, p: seq<Fact>, dim: Dim, keys: seq<string>): (r: seq<real>)
    requires Typed(s)
    ensures |r| == |keys| && forall i | 0 <= i < |r| :: r[i] == GroupChange(s, c, p, dim, keys[i])
  {
    if keys == [] then [] else [GroupChange(s, c, p, dim, keys[0])] + GroupChanges(s, c, p, dim, keys[1..])
  }

  lemma {:induction false} ChangesAreDifferences(s: Metric, c: seq<Fact>, p: seq<Fact>, dim: Dim, keys: seq<string>)
    requires Typed(s)
    ensures SumReals(GroupChanges(s, c, p, dim, keys)) ==
            SumOf(RowsBy(c, ValueKey(dim), keys), s.source.m) - SumOf(RowsBy(p, ValueKey(dim), keys), s.source.m)
  {
    hide Pick, Summary, OrZero;
    if keys != [] {
      ChangesAreDifferences(s, c, p, dim, keys[1..]);
      assert GroupChanges(s, c, p, dim, keys)[1..] == GroupChanges(s, c, p, dim, keys[1..]);
      assert RowsBy(c, ValueKey(dim), keys)[1..] == RowsBy(c, ValueKey(dim), keys[1..]);
      assert RowsBy(p, ValueKey(dim), keys)[1..] == RowsBy(p, ValueKey(dim), keys[1..]);
    }
  }

  /** The changes of all the groups add up to the change of the whole. */
  lemma {:induction false} ChangesAddUp(s: Metric, c: seq<Fact>, p: seq<Fact>, dim: Dim, keys: seq<string>)
    requires Typed(s) && Distinct(keys) && Covers(c, ValueKey(dim), keys) && Covers(p, ValueKey(dim), keys)
    ensures SumReals(GroupChanges(s, c, p, dim, keys)) == OrZero(Summary(c).sums, s.source.m) - OrZero(Summary(p).sums, s.source.m)
  {
    hide Pick, Summary, OrZero, Covers, RowsBy, GroupChanges;
    ChangesAreDifferences(s, c, p, dim, keys);
    PartitionSum(c, ValueKey(dim), keys);
    PartitionSum(p, ValueKey(dim), keys);
    SumOfTotal(RowsBy(c, ValueKey(dim), keys), s.source.m);
    SumOfTotal(RowsBy(p, ValueKey(dim), keys), s.source.m);
  }

  lemma {:induction false} DriversAddUp(s: Metric, c: seq<Fact>, p: seq<Fact>, dim: Dim, total: real, keys: seq<string>)
    requires Typed(s) && WholeCounts(c) && WholeCounts(p)
    ensures var rows := DriversFor(s, MapOf(Groups(c, dim)), MapOf(Groups(p, dim)), total, keys);
            SumReals(Deltas(rows)) + SumReals(HiddenIn(rows)) == SumReals(GroupChanges(s, c, p, dim, keys))
  {
    hide DriverOf, MapOf, Groups, GroupChange, Hidden, WholeCounts;
    if keys != [] {
      DriversAddUp(s, c, p, dim, total, keys[1..]);
      DriverChange(s, c, p, dim, total, keys[0]);
      var rows := DriversFor(s, MapOf(Groups(c, dim)), MapOf(Groups(p, dim)), total, keys);
      assert rows[1..] == DriversFor(s, MapOf(Groups(c, dim)), MapOf(Groups(p, dim)), total, keys[1..]);
    }
  }

  lemma {:induction false} WindowKeysCover(c: seq<Fact>, p: seq<Fact>, dim: Dim)
    ensures var keys := KeysOf(Groups(c, dim), Groups(p, dim));
            Distinct(keys) && Covers(c, ValueKey(dim), keys) && Covers(p, ValueKey(dim), keys)
  {
    hide MapOf, Groups, Pick, Summary, AddKeys, Value;
    KeysAreBoth(Groups(c, dim), Groups(p, dim));
    forall f | f in c
      ensures ValueKey(dim)(f) in KeysOf(Groups(c, dim), Groups(p, dim))
    {
      WindowMap(c, dim, Value(f, dim));
    }
    forall f | f in p
      ensures ValueKey(dim)(f) in KeysOf(Groups(c, dim), Groups(p, dim))
    {
      WindowMap(p, dim, Value(f, dim));
    }
  }

  /** The drivers of two windows, as the keys they list in order. */
  lemma {:induction false} RowsAreKeys(s: Metric, c: seq<Fact>, p: seq<Fact>, dim: Dim, total: real) returns (keys: seq<string>)
    requires total != 0.0
    ensures DriverRows(s, Groups(c, dim), Groups(p, dim), total) == DriversFor(s, MapOf(Groups(c, dim)), MapOf(Groups(p, dim)), total, keys)
    ensures Distinct(keys) && Covers(c, ValueKey(dim), keys) && Covers(p, ValueKey(dim), keys)
    ensures |keys| == |KeysOf(Groups(c, dim), Groups(p, dim))|
    ensures forall k | k in keys :: k in KeysOf(Groups(c, dim), Groups(p, dim))
    ensures keys == Sort(KeysOf(Groups(c, dim), Groups(p, dim)), KeyOrder(s, MapOf(Groups(c, dim)), MapOf(Groups(p, dim)), total))
  {
    hide MapOf, Groups, DriverOf, DriverBefore, KeysOf, Sort;
    var (now, before) := (MapOf(Groups(c, dim)), MapOf(Groups(p, dim)));
    var listed := KeysOf(Groups(c, dim), Groups(p, dim));
    var le := KeyOrder(s, now, before, total);
    WindowKeysCover(c, p, dim);
    SortDrivers(s, now, before, total, listed);
    SortDistinct(listed, le);
    InSort(listed, le);
    SortElements(listed, le);
    keys := Sort(listed, le);
  }

  /** Drivers conserve: for the groups of any two sets of facts, the deltas together with the changes that
      all-NULL groups hide add up to the change of the whole, and the rounded contributions add up to the
      reported part of it within half a unit of 1e-6 for each driver.  So the deltas alone add up exactly
      when the groups that are all NULL in a window hide nothing in sum. */
  lemma {:induction false} DriversConserve(s: Metric, c: seq<Fact>, p: seq<Fact>, dim: Dim, total: real)
    requires Typed(s) && WholeCounts(c) && WholeCounts(p)
    requires total != 0.0 && Delta(s, PickMetric(s, Summary(c).sums), PickMetric(s, Summary(p).sums)) == Some(total)
    ensures var rows := DriverRows(s, Groups(c, dim), Groups(p, dim), total);
            && SumReals(HiddenIn(rows)) == HiddenAmount(s, c, p, dim)
            && SumReals(Deltas(rows)) + HiddenAmount(s, c, p, dim) == total
            && Abs(SumReals(Contributions(rows)) - SumReals(Deltas(rows)) / total) <= (0.5 / RATE_UNITS) * |rows| as real
            && (HiddenAmount(s, c, p, dim) == 0.0 <==> SumReals(Deltas(rows)) == total)
  {
    hide MapOf, Groups, DriverOf, DriverRows, SumReals, Covers, WholeCounts, Quantize, RoundedShares, Deltas, HiddenIn, Contributions, GroupHiddens, Sort, KeysOf, Delta;
    var keys := RowsAreKeys(s, c, p, dim, total);
    var rows := DriverRows(s, Groups(c, dim), Groups(p, dim), total);
    DriversAddUp(s, c, p, dim, total, keys);
    ChangesAddUp(s, c, p, dim, keys);
    TotalIsChange(s, c, p, total);
    DriversHide(s, c, p, dim, total, keys);
    SortHidden(s, c, p, dim, KeysOf(Groups(c, dim), Groups(p, dim)), KeyOrder(s, MapOf(Groups(c, dim)), MapOf(Groups(p, dim)), total));
    ContributionsAreShares(s, MapOf(Groups(c, dim)), MapOf(Groups(p, dim)), total, keys);
    RoundedSharesNear(Deltas(rows), total);
  }

  lemma {:induction false} TotalIsChange(s: Metric, c: seq<Fact>, p: seq<Fact>, total: real)
    requires Typed(s) && WholeCounts(c) && WholeCounts(p)
    requires Delta(s, PickMetric(s, Summary(c).sums), PickMetric(s, Summary(p).sums)) == Some(total)
    ensures total == OrZero(Summary(c).sums, s.source.m) - OrZero(Summary(p).sums, s.source.m)
  {
    hide Summary, IsInteger, WholeCounts, Truncate;
    var (x, y) := (OrZero(Summary(c).sums, s.source.m), OrZero(Summary(p).sums, s.source.m));
    if s.kind.CountKind? {
      WholeSums(c, s.source.m);
      WholeSums(p, s.source.m);
      IntegersAdd(x, y);
      TruncateWhole(x - y);
    }
  }

  lemma {:induction false} ZeroShare(total: real)
    requires total != 0.0
    ensures Quantize(0.0 / total, RATE_UNITS) == 0.0
  {
    assert 0.0 / total == 0.0;
  }

  lemma {:induction false} ContributionsAreShares(s: Metric, now: GroupMap, before: GroupMap, total: real, keys: seq<string>)
    requires total != 0.0
    ensures var rows := DriversFor(s, now, before, total, keys);
            Contributions(rows) == RoundedShares(Deltas(rows), total)
  {
    hide Quantize, GroupValue, TitleOf, Delta, DeltaPct;
    var rows := DriversFor(s, now, before, total, keys);
    ZeroShare(total);
    SharesAre(Deltas(rows), Contributions(rows), total);
  }

  // ---- some group moves with the total ---------------------------------------------------------------------

  /** No group present in a window is all NULL there. */
  predicate NoneHidden(rows: seq<Driver>) {
    forall d | d in rows :: d.delta.Some?
  }

  lemma {:induction false} NothingHidden(rows: seq<Driver>)
    requires NoneHidden(rows)
    ensures SumReals(HiddenIn(rows)) == 0.0
  {
    if rows != [] {
      assert rows[0] in rows && forall d | d in rows[1..] :: d in rows;
      NothingHidden(rows[1..]);
      assert HiddenIn(rows)[1..] == HiddenIn(rows[1..]);
    }
  }

  predicate Shared(rows: seq<Driver>, total: real) {
    total != 0.0 && forall d | d in rows :: d.contribution == SafeDivide(d.delta, Some(total), RATE_UNITS)
  }

  lemma {:induction false} DeltasCons(d: Driver, rows: seq<Driver>)
    ensures SumReals(Deltas([d] + rows)) == d.delta.GetOr(0.0) + SumReals(Deltas(rows))
  {
    assert ([d] + rows)[1..] == rows;
    assert Deltas([d] + rows)[1..] == Deltas(rows);
  }

  lemma {:induction false} OthersDoNotMove(d: Driver, total: real)
    requires total != 0.0 && d.contribution == SafeDivide(d.delta, Some(total), RATE_UNITS) && !MovesWith(d, total)
    ensures total > 0.0 ==> d.delta.GetOr(0.0) <= 0.0
    ensures total < 0.0 ==> d.delta.GetOr(0.0) >= 0.0
  {
    hide Quantize;
  }

  /** The groups that move with the total move at least as much as the total. */
  lemma {:induction false} SameSignOutweighs(rows: seq<Driver>, total: real)
    requires Shared(rows, total)
    ensures total > 0.0 ==> SumReals(Deltas(SameSign(rows, total))) >= SumReals(Deltas(rows))
    ensures total < 0.0 ==> SumReals(Deltas(SameSign(rows, total))) <= SumReals(Deltas(rows))
  {
    hide SafeDivide, MovesWith, SumReals, Deltas;
    if rows != [] {
      assert rows[0] in rows && forall d | d in rows[1..] :: d in rows;
      SameSignOutweighs(rows[1..], total);
      assert rows == [rows[0]] + rows[1..];
      DeltasCons(rows[0], rows[1..]);
      if MovesWith(rows[0], total) {
        DeltasCons(rows[0], SameSign(rows[1..], total));
      } else {
        OthersDoNotMove(rows[0], total);
        assert SameSign(rows, total) == SameSign(rows[1..], total);
      }
    }
  }

  lemma {:induction false} RatioSumAtLeast(xs: seq<real>, total: real)
    requires total != 0.0
    requires total > 0.0 ==> SumReals(xs) >= total
    requires total < 0.0 ==> SumReals(xs) <= total
    ensures SumReals(xs) / total >= 1.0
  {
    var sum := SumReals(xs);
    if total > 0.0 {
      DivideMonotone(total, sum, total);
    } else {
      DivideMonotone(-total, -sum, -total);
      assert sum / total == (-sum) / (-total);
    }
  }

  lemma {:induction false} BelowMean(xs: seq<real>, total: real, bound: real)
    requires total != 0.0 && xs != [] && forall i | 0 <= i < |xs| :: xs[i] / total < bound
    ensures SumReals(xs) / total < bound * |xs| as real
  {
    DivideSum(xs[0], SumReals(xs[1..]), total);
    if |xs| == 1 {
      SumNone();
      assert xs[1..] == [] && 0.0 / total == 0.0;
    } else {
      forall i | 0 <= i < |xs[1..]|
        ensures xs[1..][i] / total < bound
      {
        assert xs[1..][i] == xs[i + 1];
      }
      BelowMean(xs[1..], total, bound);
    }
  }

  /** One of n shares that add up to at least 1 is at least 1/n. */
  lemma {:induction false} SomeAboveMean(xs: seq<real>, total: real) returns (i: nat)
    requires total != 0.0 && xs != [] && SumReals(xs) / total >= 1.0
    ensures i < |xs| && xs[i] / total >= 1.0 / |xs| as real
  {
    var n := |xs| as real;
    if forall j | 0 <= j < |xs| :: xs[j] / total < 1.0 / n {
      BelowMean(xs, total, 1.0 / n);
      DivideThenMultiply(1.0, n);
      assert false;
    }
    i :| 0 <= i < |xs| && xs[i] / total >= 1.0 / n;
  }

  lemma {:induction false} MovingShare(d: Driver, total: real)
    requires total != 0.0 && MovesWith(d, total) && d.contribution == SafeDivide(d.delta, Some(total), RATE_UNITS)
    ensures d.contribution == Some(Quantize(d.delta.value / total, RATE_UNITS))
    ensures d.contribution.value >= 0.0 && SizeOf(d.contribution) == d.contribution.value
  {
    hide Quantize;
    if total > 0.0 {
      DivideMonotone(0.0, d.delta.value, total);
    } else {
      DivideMonotone(0.0, -d.delta.value, -total);
      assert d.delta.value / total == (-d.delta.value) / (-total);
    }
    assert 0.0 / total == 0.0;
    QuantizeMonotone(0.0, d.delta.value / total, RATE_UNITS);
    ZeroShare(total);
  }

  /** Some group moves with the total, and the first listed accounts for at least its even part. */
  lemma {:induction false} TopShare(rows: seq<Driver>, total: real)
    requires Shared(rows, total) && Sorted(rows, DriverBefore) && SumReals(Deltas(rows)) == total
    ensures var same := SameSign(rows, total);
            && same != []
            && SumReals(Deltas(same)) / total >= 1.0
            && SizeOf(same[0].contribution) >= Quantize(1.0 / |same| as real, RATE_UNITS)
  {
    hide Quantize, SumReals, SafeDivide, DriverBefore, MovesWith, Deltas;
    var same := SameSign(rows, total);
    SameSignOutweighs(rows, total);
    RatioSumAtLeast(Deltas(same), total);
    if same == [] {
      NoDeltas();
    }
    var i := SomeAboveMean(Deltas(same), total);
    assert same[i] in same;
    MovesSome(same[i], total);
    MovingShare(same[i], total);
    QuantizeMonotone(1.0 / |same| as real, Deltas(same)[i] / total, RATE_UNITS);
    SameSignSorted(rows, total);
    FirstIsLargest(same, i);
  }

  lemma {:induction false} MovesSome(d: Driver, total: real)
    requires MovesWith(d, total)
    ensures d.delta.Some? && d.delta.GetOr(0.0) == d.delta.value != 0.0
  {
  }

  lemma {:induction false} NoDeltas()
    ensures SumReals(Deltas([])) == 0.0
  {
  }

  lemma {:induction false} FirstIsLargest(rows: seq<Driver>, i: nat)
    requires Sorted(rows, DriverBefore) && i < |rows|
    ensures SizeOf(rows[0].contribution) >= SizeOf(rows[i].contribution)
  {
    hide SizeOf, StringLe;
    if i > 0 {
      assert DriverBefore(rows[0], rows[i]);
    }
  }

  /** Of the drivers that move with the total, the first moves most. */
  lemma {:induction false} FirstMovesMost(rows: seq<Driver>, total: real, i: nat)
    requires Shared(rows, total) && Sorted(rows, DriverBefore) && i < |SameSign(rows, total)|
    ensures SizeOf(SameSign(rows, total)[0].delta) >= SizeOf(SameSign(rows, total)[i].delta)
  {
    hide SafeDivide, Quantize, MovesWith, DriverBefore, SizeOf;
    var same := SameSign(rows, total);
    assert same[0] in same && same[i] in same;
    SameSignSorted(rows, total);
    MovingShare(same[0], total);
    MovingShare(same[i], total);
    if i > 0 && SizeOf(same[0].delta) < SizeOf(same[i].delta) {
      LargerMoverLargerShare(same[0], same[i], total);
      assert DriverBefore(same[0], same[i]);
      TieGoesToLarger(same[0], same[i]);
    }
  }

  lemma {:induction false} TieGoesToLarger(a: Driver, b: Driver)
    requires DriverBefore(a, b) && SizeOf(a.contribution) <= SizeOf(b.contribution)
    ensures SizeOf(a.delta) >= SizeOf(b.delta)
  {
    hide SizeOf, StringLe;
  }

  lemma {:induction false} LargerMoverLargerShare(a: Driver, b: Driver, total: real)
    requires total != 0.0 && MovesWith(a, total) && MovesWith(b, total) && SizeOf(a.delta) <= SizeOf(b.delta)
    requires a.contribution == SafeDivide(a.delta, Some(total), RATE_UNITS)
    requires b.contribution == SafeDivide(b.delta, Some(total), RATE_UNITS)
    ensures SizeOf(a.contribution) <= SizeOf(b.contribution)
  {
    hide Quantize, SafeDivide, SizeOf, MovesWith;
    MovingShare(a, total);
    MovingShare(b, total);
    MoverSize(a, total);
    MoverSize(b, total);
    var (x, y) := (a.delta.value, b.delta.value);
    if total > 0.0 {
      DivideMonotone(x, y, total);
    } else {
      DivideMonotone(-x, -y, -total);
      NegatedRatio(x, total);
      NegatedRatio(y, total);
    }
    QuantizeMonotone(x / total, y / total, RATE_UNITS);
  }

  lemma {:induction false} MoverSize(d: Driver, total: real)
    requires total != 0.0 && MovesWith(d, total)
    ensures d.delta.Some? && SizeOf(d.delta) == if total > 0.0 then d.delta.value else -d.delta.value
  {
  }

  lemma {:induction false} NegatedRatio(x: real, total: real)
    requires total != 0.0
    ensures x / total == (-x) / (-total)
  {
  }

  // ---- when nothing is hidden ---------------------------------------------------------------------------------

  /** No group of a window is all NULL in the metric's measure. */
  predicate AllPresent(s: Metric, groups: seq<GroupRow>)
    requires Typed(s)
  {
    forall g | g in groups :: s.source.m in g.row.sums
  }

  lemma {:induction false} MapHoldsGroups(groups: seq<GroupRow>)
    ensures forall k | k in MapOf(groups) :: MapOf(groups)[k] in groups
  {
    if groups != [] {
      MapHoldsGroups(groups[..|groups| - 1]);
    }
  }

  lemma {:induction false} PresentDrivers(s: Metric, current: seq<GroupRow>, prior: seq<GroupRow>, total: real, k: string)
    requires Typed(s) && AllPresent(s, current) && AllPresent(s, prior)
    ensures DriverOf(s, MapOf(current), MapOf(prior), total, k).delta.Some?
  {
    hide MapOf, TitleOf, DeltaPct, SafeDivide, Change;
    MapHoldsGroups(current);
    MapHoldsGroups(prior);
  }

  /** The drivers of two windows in which no group is all NULL: their deltas add up to the total
      change, and their rounded contributions to 1, within half a unit of 1e-6 for each. */
  lemma {:induction false} ContributionsAddUp(s: Metric, c: seq<Fact>, p: seq<Fact>, dim: Dim, total: real)
    requires Typed(s) && WholeCounts(c) && WholeCounts(p)
    requires AllPresent(s, Groups(c, dim)) && AllPresent(s, Groups(p, dim))
    requires total != 0.0 && Delta(s, PickMetric(s, Summary(c).sums), PickMetric(s, Summary(p).sums)) == Some(total)
    ensures var rows := DriverRows(s, Groups(c, dim), Groups(p, dim), total);
            && SumReals(HiddenIn(rows)) == 0.0
            && SumReals(Deltas(rows)) == total
            && Abs(SumReals(Contributions(rows)) - 1.0) <= (0.5 / RATE_UNITS) * |rows| as real
  {
    hide MapOf, Groups, DriverOf, DriverRows, SumReals, WholeCounts, AllPresent, Covers, Delta, Abs;
    var keys := RowsAreKeys(s, c, p, dim, total);
    var rows := DriverRows(s, Groups(c, dim), Groups(p, dim), total);
    forall d | d in rows
      ensures d.delta.Some?
    {
      var i :| 0 <= i < |rows| && rows[i] == d;
      PresentDrivers(s, Groups(c, dim), Groups(p, dim), total, keys[i]);
    }
    NothingHidden(rows);
    DriversConserve(s, c, p, dim, total);
    OverItself(total);
  }
}
