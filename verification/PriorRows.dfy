/** analytics_service.py `_ranked_rows`: the prior column of a drill table, read by the keys of the current
    window. */
module PriorRows {
  import opened Prelude
  import opened Facts
  import opened Ordering
  import opened Drill
  import opened Shares
  import opened Drivers
  import opened DriverCases

  /** `prior_map.get(key)`, and the metric of it. */
  function PriorValue(prior: GroupMap, key: string, m: Measure): Option<real> {
    if key in prior then Lookup(prior[key].row.sums, m) else None
  }

  function KeptPriors(kept: seq<GroupRow>, prior: GroupMap, m: Measure): (r: seq<Option<real>>)
    ensures |r| == |kept| && forall i | 0 <= i < |r| :: r[i] == PriorValue(prior, kept[i].value, m)
  {
    seq(|kept|, i requires 0 <= i < |kept| => PriorValue(prior, kept[i].value, m))
  }

  /** The prior groups of the folded keys that had one. */
  function Matched(left: seq<GroupRow>, prior: GroupMap): seq<Sums> {
    if left == [] then []
    else
      var key := left[|left| - 1].value;
      Matched(left[..|left| - 1], prior) + if key in prior then [prior[key].row.sums] else []
  }

  /** The prior values of the listed rows: the first fifty groups, and one for all the others. */
  function PriorColumn(groups: seq<GroupRow>, prior: GroupMap, m: Measure, lower: string -> string): seq<Option<real>> {
    var ordered := Sort(groups, GroupOrder(m, lower));
    if |ordered| <= MAX_DRILL_ROWS then KeptPriors(ordered, prior, m)
    else KeptPriors(ordered[..MAX_DRILL_ROWS], prior, m) + [Lookup(Combine(Matched(ordered[MAX_DRILL_ROWS..], prior)), m)]
  }

  method ListPriors(groups: seq<GroupRow>, priorGroups: seq<GroupRow>, m: Measure, lower: string -> string) returns (column: seq<Option<real>>)
    ensures column == PriorColumn(groups, MapOf(priorGroups), m, lower)
  {
    hide Sort, MapOf, Combine, GroupOrder;
    var prior := MapOf(priorGroups);
    var ordered := Sort(groups, GroupOrder(m, lower));
    var shown := if |ordered| <= MAX_DRILL_ROWS then |ordered| else MAX_DRILL_ROWS;
    column := [];
    for i := 0 to shown
      invariant column == KeptPriors(ordered[..i], prior, m)
    {
      assert ordered[..i + 1] == ordered[..i] + [ordered[i]];
      column := column + [PriorValue(prior, ordered[i].value, m)];
    }
    if shown < |ordered| {
      var left, matched := ordered[shown..], [];
      for i := 0 to |left|
        invariant matched == Matched(left[..i], prior)
      {
        assert left[..i + 1][..i] == left[..i];
        if left[i].value in prior {
          matched := matched + [prior[left[i].value].row.sums];
        }
      }
      assert left[..|left|] == left;
      var other := CombineMeasures(matched);
      column := column + [Lookup(other, m)];
    } else {
      assert ordered[..shown] == ordered;
    }
  }

  // ---- what the column adds up to -------------------------------------------------------------------------

  /** NULL and absent values read as zero. */
  function ColumnTotal(column: seq<Option<real>>): real {
    if column == [] then 0.0 else column[0].GetOr(0.0) + ColumnTotal(column[1..])
  }

  function PriorSum(groups: seq<GroupRow>, prior: GroupMap, m: Measure): real {
    if groups == [] then 0.0 else PriorValue(prior, groups[0].value, m).GetOr(0.0) + PriorSum(groups[1..], prior, m)
  }

  lemma {:induction false} InsertPriors(x: GroupRow, s: seq<GroupRow>, le: (GroupRow, GroupRow) -> bool, prior: GroupMap, m: Measure)
    ensures PriorSum(Insert(x, s, le), prior, m) == PriorSum([x] + s, prior, m)
  {
    hide PriorValue;
    assert ([x] + s)[1..] == s;
    if s != [] && !le(x, s[0]) {
      InsertPriors(x, s[1..], le, prior, m);
      var rest := Insert(x, s[1..], le);
      assert ([s[0]] + rest)[1..] == rest && ([x] + s[1..])[1..] == s[1..];
    }
  }

  lemma {:induction false} SortPriors(s: seq<GroupRow>, le: (GroupRow, GroupRow) -> bool, prior: GroupMap, m: Measure)
    ensures PriorSum(Sort(s, le), prior, m) == PriorSum(s, prior, m)
  {
    hide PriorValue;
    if s != [] {
      SortPriors(s[1..], le, prior, m);
      InsertPriors(s[0], Sort(s[1..], le), le, prior, m);
      assert ([s[0]] + Sort(s[1..], le))[1..] == Sort(s[1..], le);
    }
  }

  lemma {:induction false} KeptTotal(kept: seq<GroupRow>, prior: GroupMap, m: Measure)
    ensures ColumnTotal(KeptPriors(kept, prior, m)) == PriorSum(kept, prior, m)
  {
    hide PriorValue;
    if kept != [] {
      KeptTotal(kept[1..], prior, m);
      assert KeptPriors(kept, prior, m)[1..] == KeptPriors(kept[1..], prior, m);
    }
  }

  lemma {:induction false} ColumnSnoc(column: seq<Option<real>>, x: Option<real>)
    ensures ColumnTotal(column + [x]) == ColumnTotal(column) + x.GetOr(0.0)
  {
    if column == [] {
      assert column + [x] == [x];
    } else {
      ColumnSnoc(column[1..], x);
      assert (column + [x])[1..] == column[1..] + [x];
    }
  }

  lemma {:induction false} PriorConcat(a: seq<GroupRow>, b: seq<GroupRow>, prior: GroupMap, m: Measure)
    ensures PriorSum(a + b, prior, m) == PriorSum(a, prior, m) + PriorSum(b, prior, m)
  {
    hide PriorValue;
    if a == [] {
      assert a + b == b;
    } else {
      PriorConcat(a[1..], b, prior, m);
      assert (a + b)[0] == a[0] && (a + b)[1..] == a[1..] + b;
    }
  }

  lemma {:induction false} MatchedTotal(left: seq<GroupRow>, prior: GroupMap, m: Measure)
    ensures SumMeasureOf(Matched(left, prior), m) == PriorSum(left, prior, m)
  {
    hide SumMeasureOf, PriorSum, PriorValue;
    if left == [] {
      NothingMatched(prior, m);
    } else {
      var init, last := left[..|left| - 1], left[|left| - 1];
      assert left == init + [last];
      MatchedTotal(init, prior, m);
      PriorConcat(init, [last], prior, m);
      MatchedLast(Matched(init, prior), last, prior, m);
    }
  }

  lemma {:induction false} NothingMatched(prior: GroupMap, m: Measure)
    ensures SumMeasureOf([], m) == 0.0 == PriorSum([], prior, m)
  {
  }

  lemma {:induction false} MatchedLast(before: seq<Sums>, last: GroupRow, prior: GroupMap, m: Measure)
    ensures PriorSum([last], prior, m) == PriorValue(prior, last.value, m).GetOr(0.0)
    ensures SumMeasureOf(before + if last.value in prior then [prior[last.value].row.sums] else [], m)
            == SumMeasureOf(before, m) + PriorValue(prior, last.value, m).GetOr(0.0)
  {
    assert [last][1..] == [];
    if last.value in prior {
      assert (before + [prior[last.value].row.sums])[..|before|] == before;
    } else {
      assert before + [] == before;
    }
  }

  lemma {:induction false} CombinedValue(sums: seq<Sums>, m: Measure)
    ensures Lookup(Combine(sums), m).GetOr(0.0) == SumMeasureOf(sums, m)
  {
    assert m in ALL_MEASURES by { EveryMeasure(m); }
  }

  lemma {:induction false} EveryMeasure(m: Measure)
    ensures m in ALL_MEASURES
  {
  }

  lemma {:induction false} ColumnIsSum(groups: seq<GroupRow>, prior: GroupMap, m: Measure, lower: string -> string)
    ensures ColumnTotal(PriorColumn(groups, prior, m, lower)) == PriorSum(groups, prior, m)
  {
    hide PriorValue, Sort, GroupOrder, Combine, Matched, PriorSum, ColumnTotal, SumMeasureOf;
    var ordered := Sort(groups, GroupOrder(m, lower));
    SortPriors(groups, GroupOrder(m, lower), prior, m);
    if |ordered| <= MAX_DRILL_ROWS {
      KeptTotal(ordered, prior, m);
    } else {
      var (kept, left) := (ordered[..MAX_DRILL_ROWS], ordered[MAX_DRILL_ROWS..]);
      assert ordered == kept + left;
      KeptTotal(kept, prior, m);
      PriorConcat(kept, left, prior, m);
      MatchedTotal(left, prior, m);
      CombinedValue(Matched(left, prior), m);
      ColumnSnoc(KeptPriors(kept, prior, m), Lookup(Combine(Matched(left, prior)), m));
    }
  }

  /** Whether the fact's group is still there in the current window. */
  function StillThere(c: seq<Fact>, dim: Dim): Fact -> bool {
    f => HasValue(c, dim, Drill.Value(f, dim))
  }

  /** The facts of the prior window whose groups are gone. */
  function Vanished(c: seq<Fact>, p: seq<Fact>, dim: Dim): seq<Fact> {
    Pick(p, StillThere(c, dim), false)
  }

  lemma {:induction false} PriorIsPick(p: seq<Fact>, dim: Dim, k: string, m: Measure)
    ensures PriorValue(MapOf(Groups(p, dim)), k, m).GetOr(0.0) == OrZero(Summary(Pick(p, ValueKey(dim), k)).sums, m)
  {
    hide Groups, MapOf, HasValue, Summary, Pick;
    WindowMap(p, dim, k);
    EmptySummary();
  }

  lemma {:induction false} PriorIsRows(groups: seq<GroupRow>, keys: seq<string>, p: seq<Fact>, dim: Dim, m: Measure)
    requires |groups| == |keys| && forall i | 0 <= i < |keys| :: groups[i].value == keys[i]
    ensures PriorSum(groups, MapOf(Groups(p, dim)), m) == SumOf(RowsBy(p, ValueKey(dim), keys), m)
  {
    hide Groups, MapOf, PriorValue, Pick, Summary, OrZero;
    if keys != [] {
      PriorIsPick(p, dim, keys[0], m);
      PriorIsRows(groups[1..], keys[1..], p, dim, m);
      assert RowsBy(p, ValueKey(dim), keys)[1..] == RowsBy(p, ValueKey(dim), keys[1..]);
    }
  }

  /** The prior column holds the prior facts of the groups that are still there. */
  lemma {:induction false} ColumnIsStillThere(c: seq<Fact>, p: seq<Fact>, dim: Dim, m: Measure, lower: string -> string)
    ensures ColumnTotal(PriorColumn(Groups(c, dim), MapOf(Groups(p, dim)), m, lower))
            == OrZero(Summary(Pick(p, StillThere(c, dim), true)).sums, m)
  {
    hide PriorColumn, ColumnTotal, PriorSum, MapOf, Pick, Summary, OrZero, FirstSeen, Drill.Value, LastLabel;
    var keys := FirstSeen(c, ValueKey(dim));
    ColumnIsSum(Groups(c, dim), MapOf(Groups(p, dim)), m, lower);
    FirstSeenCovers(c, ValueKey(dim));
    PriorIsRows(Groups(c, dim), keys, p, dim, m);
    forall f | f in p
      ensures StillThere(c, dim)(f) == true <==> ValueKey(dim)(f) in keys
    {
    }
    RollUp(p, ValueKey(dim), StillThere(c, dim), true, keys);
    SumOfTotal(RowsBy(p, ValueKey(dim), keys), m);
  }

  /** For all windows, every dimension and additive measure, however many rows are folded: the prior column
      and the prior facts of vanished groups make up the prior total, so that the column adds up to it if
      and only if what vanished sums to zero. */
  lemma {:induction false} PriorsAddUp(c: seq<Fact>, p: seq<Fact>, dim: Dim, m: Measure, lower: string -> string)
    ensures var column := ColumnTotal(PriorColumn(Groups(c, dim), MapOf(Groups(p, dim)), m, lower));
            var total := OrZero(Summary(p).sums, m);
            var gone := OrZero(Summary(Vanished(c, p, dim)).sums, m);
            column + gone == total && (column == total <==> gone == 0.0)
  {
    hide PriorColumn, ColumnTotal, Groups, MapOf, Pick, Summary, OrZero, StillThere, Total;
    var key := StillThere(c, dim);
    ColumnIsStillThere(c, p, dim, m, lower);
    forall x: bool
      ensures x in [true, false]
    {
      assert [true, false][0] && ![true, false][1];
    }
    PartitionSum(p, key, [true, false]);
    var rows := RowsBy(p, key, [true, false]);
    assert rows == [Summary(Pick(p, key, true)), Summary(Pick(p, key, false))];
    TwoRows(rows[0], rows[1], m);
  }

  lemma {:induction false} TwoRows(a: Row, b: Row, m: Measure)
    ensures OrZero(Total([a, b]).sums, m) == OrZero(a.sums, m) + OrZero(b.sums, m)
  {
    hide OrZero, Total;
    SumOfTotal([a, b], m);
    assert [a, b][1..] == [b] && [b][1..] == [];
    assert SumOf([b], m) == OrZero(b.sums, m) + SumOf([], m);
  }

  /** A channel that delivered 5 before and nothing since: the column adds up to 1 of the 6 delivered. */
  lemma {:induction false} VanishedGroupIsDropped(lower: string -> string)
    ensures var (c, p) := ([ChannelFact("y", map[Delivered := 10.0])], BEFORE);
            && ColumnTotal(PriorColumn(Groups(c, Of(Channel)), MapOf(Groups(p, Of(Channel))), Delivered, lower)) == 1.0
            && OrZero(Summary(p).sums, Delivered) == 6.0
  {
  }

  /** The prior value of a numbered row is that of its own group: the sum over the prior facts of the row's key,
      and none when there is no such fact or all are NULL. */
  lemma {:induction false} PriorRowIs(c: seq<Fact>, p: seq<Fact>, dim: Dim, m: Measure, lower: string -> string, i: nat)
    requires i < |RankedRows(Groups(c, dim), m, lower)| && i < 50
    ensures var (key, column) := (RankedRows(Groups(c, dim), m, lower)[i].key, PriorColumn(Groups(c, dim), MapOf(Groups(p, dim)), m, lower));
            && |column| == |RankedRows(Groups(c, dim), m, lower)|
            && column[i] == (var facts := Pick(p, ValueKey(dim), key); if facts == [] then None else Lookup(Summary(facts).sums, m))
  {
    hide Groups, MapOf, HasValue, Summary, Pick, Sort, GroupOrder, Combine, ShareOf, Matched, OtherRow, SumReals, Volumes;
    WindowMap(p, dim, RankedRows(Groups(c, dim), m, lower)[i].key);
    KeyHasFacts(p, dim, RankedRows(Groups(c, dim), m, lower)[i].key);
  }

  lemma {:induction false} KeyHasFacts(p: seq<Fact>, dim: Dim, k: string)
    ensures HasValue(p, dim, k) ==> Pick(p, ValueKey(dim), k) != []
  {
    hide Drill.Value;
    if HasValue(p, dim, k) {
      var f :| f in p && Drill.Value(f, dim) == k;
      assert f in Pick(p, ValueKey(dim), k);
    }
  }
}
