/** FactRecord, and SUM over facts (aggregate.py): NULLs are skipped, and a measure with no
    non-NULL value at all sums to NULL.  The row the store reports for a set of facts is its
    row count together with its summed measures. */
module Facts {
  import opened Prelude

  /** Days are proleptic Gregorian ordinals, 1 being 0001-01-01; see Calendar. */
  type Day = n: int | 1 <= n witness 1

  datatype Measure =
    | Sent | Failed | Delivered | UniqueImpressions | UniqueClicks | UniqueConversions
    | ImpressionThroughConversions | ClickThroughConversions
    | RevenueInr | ImpressionThroughRevenue | ClickThroughRevenue | TotalCost

  /** A count column; the other four are money. */
  predicate IsCount(m: Measure) {
    !(m.RevenueInr? || m.ImpressionThroughRevenue? || m.ClickThroughRevenue? || m.TotalCost?)
  }

  type Sums = map<Measure, real>

  datatype FactKey = FactKey(client: string, campaign: string, variation: string, day: Day)

  /** A measure that is NULL on the record is absent from `values`. */
  datatype Fact = Fact(
    client: string, campaign: string, variation: string, day: Day,
    campaignName: Option<string>, channel: Option<string>,
    filterLogic1: Option<string>, filterLogic1Group: Option<string>,
    values: Sums)
  {
    function Key(): FactKey {
      FactKey(client, campaign, variation, day)
    }
  }

  function Lookup(sums: Sums, m: Measure): Option<real> {
    if m in sums then Some(sums[m]) else None
  }

  /** A measure with NULL read as zero. */
  function OrZero(sums: Sums, m: Measure): real {
    if m in sums then sums[m] else 0.0
  }

  // ---- rows and their sum ---------------------------------------------------------------

  datatype Row = Row(count: nat, sums: Sums)

  const EMPTY_ROW: Row := Row(0, map[])

  function AddSums(a: Sums, b: Sums): Sums {
    map m | m in a.Keys + b.Keys :: OrZero(a, m) + OrZero(b, m)
  }

  function AddRows(a: Row, b: Row): Row {
    Row(a.count + b.count, AddSums(a.sums, b.sums))
  }

  function Total(rows: seq<Row>): Row {
    if rows == [] then EMPTY_ROW else AddRows(rows[0], Total(rows[1..]))
  }

  /** What the store reports for a group of facts. */
  function Summary(facts: seq<Fact>): Row {
    if facts == [] then EMPTY_ROW else AddRows(Row(1, facts[0].values), Summary(facts[1..]))
  }

  lemma {:induction false} AddRowsZero(a: Row)
    ensures AddRows(EMPTY_ROW, a) == a == AddRows(a, EMPTY_ROW)
  {
    assert AddSums(map[], a.sums) == a.sums == AddSums(a.sums, map[]);
  }

  lemma {:induction false} AddRowsCommutes(a: Row, b: Row)
    ensures AddRows(a, b) == AddRows(b, a)
  {
    assert AddSums(a.sums, b.sums) == AddSums(b.sums, a.sums);
  }

  lemma {:induction false} AddRowsAssociates(a: Row, b: Row, c: Row)
    ensures AddRows(AddRows(a, b), c) == AddRows(a, AddRows(b, c))
  {
    var l, r := AddSums(AddSums(a.sums, b.sums), c.sums), AddSums(a.sums, AddSums(b.sums, c.sums));
    assert l.Keys == r.Keys;
    assert l == r;
  }

  /** x + (y + z) == y + (x + z) */
  lemma {:induction false} AddRowsExchange(x: Row, y: Row, z: Row)
    ensures AddRows(x, AddRows(y, z)) == AddRows(y, AddRows(x, z))
  {
    AddRowsAssociates(x, y, z);
    AddRowsAssociates(y, x, z);
    AddRowsCommutes(x, y);
  }

  lemma {:induction false} SummaryConcat(a: seq<Fact>, b: seq<Fact>)
    ensures Summary(a + b) == AddRows(Summary(a), Summary(b))
  {
    if a == [] {
      assert a + b == b;
      AddRowsZero(Summary(b));
    } else {
      assert (a + b)[0] == a[0] && (a + b)[1..] == a[1..] + b;
      SummaryConcat(a[1..], b);
      AddRowsAssociates(Row(1, a[0].values), Summary(a[1..]), Summary(b));
    }
  }

  lemma {:induction false} SummarySnoc(facts: seq<Fact>, f: Fact)
    ensures Summary(facts + [f]) == AddRows(Summary(facts), Row(1, f.values))
  {
    SummaryConcat(facts, [f]);
    AddRowsZero(Row(1, f.values));
    assert Summary([f]) == AddRows(Row(1, f.values), Summary([]));
  }

  lemma {:induction false} SummaryCount(facts: seq<Fact>)
    ensures Summary(facts).count == |facts|
  {
    if facts != [] {
      SummaryCount(facts[1..]);
    }
  }

  /** A sum is NULL exactly when every contributing value is NULL. */
  lemma {:induction false} SummaryNull(facts: seq<Fact>, m: Measure)
    ensures m in Summary(facts).sums <==> exists i | 0 <= i < |facts| :: m in facts[i].values
  {
    if facts != [] {
      SummaryNull(facts[1..], m);
      if i :| 0 <= i < |facts[1..]| && m in facts[1..][i].values {
        assert m in facts[i + 1].values;
      }
      if i :| 0 <= i < |facts| && m in facts[i].values {
        assert i == 0 || facts[1..][i - 1] == facts[i];
      }
    }
  }

  /** The values of one column added up, the missing ones left out. */
  function ColumnSum(facts: seq<Fact>, m: Measure): real {
    if facts == [] then 0.0
    else (if m in facts[0].values then facts[0].values[m] else 0.0) + ColumnSum(facts[1..], m)
  }

  /** A row counts the facts, and has for each measure the sum of its values, or nothing when there are none. */
  lemma {:induction false} SummaryMeans(facts: seq<Fact>, m: Measure)
    ensures Summary(facts).count == |facts|
    ensures m in Summary(facts).sums <==> exists f | f in facts :: m in f.values
    ensures m in Summary(facts).sums ==> Summary(facts).sums[m] == ColumnSum(facts, m)
  {
    hide Summary;
    SummaryCount(facts);
    SummaryNull(facts, m);
    SumIsOrZero(facts, m);
  }

  lemma {:induction false} SumIsOrZero(facts: seq<Fact>, m: Measure)
    ensures OrZero(Summary(facts).sums, m) == ColumnSum(facts, m)
  {
    if facts != [] {
      SumIsOrZero(facts[1..], m);
    }
  }

  lemma {:induction false} SumStep(facts: seq<Fact>, i: nat, m: Measure)
    requires i < |facts|
    ensures Lookup(Summary(facts[..i + 1]).sums, m) ==
            if m in facts[i].values then Some(OrZero(Summary(facts[..i]).sums, m) + facts[i].values[m])
            else Lookup(Summary(facts[..i]).sums, m)
    ensures Summary(facts[..0]) == EMPTY_ROW
  {
    assert facts[..i + 1] == facts[..i] + [facts[i]];
    SummarySnoc(facts[..i], facts[i]);
  }

  /** aggregate.py: `_sum_measure`, one measure at a time, against the row sum. */
  method SumMeasure(facts: seq<Fact>, m: Measure) returns (r: Option<real>)
    ensures r == Lookup(Summary(facts).sums, m)
    ensures r.Some? <==> exists f | f in facts :: m in f.values
    ensures r.Some? ==> r.value == ColumnSum(facts, m)
  {
    SummaryMeans(facts, m);
    var total, seen := 0.0, false;
    for i := 0 to |facts|
      invariant (if seen then Some(total) else None) == Lookup(Summary(facts[..i]).sums, m)
      invariant !seen ==> total == 0.0
    {
      hide Summary;
      SumStep(facts, i, m);
      if m in facts[i].values {
        seen := true;
        total := total + facts[i].values[m];
      }
    }
    assert facts[..|facts|] == facts;
    r := if seen then Some(total) else None;
  }

  // ---- grouping -------------------------------------------------------------------------

  /** The facts with one value of a key, in their order. */
  function Pick<K(==)>(facts: seq<Fact>, key: Fact -> K, k: K): (r: seq<Fact>)
    ensures forall f :: f in r <==> f in facts && key(f) == k
  {
    if facts == [] then []
    else if key(facts[0]) == k then [facts[0]] + Pick(facts[1..], key, k)
    else Pick(facts[1..], key, k)
  }

  /** One row for each listed key. */
  function RowsBy<K(==)>(facts: seq<Fact>, key: Fact -> K, keys: seq<K>): (rows: seq<Row>)
    ensures |rows| == |keys|
    ensures forall i | 0 <= i < |rows| :: rows[i] == Summary(Pick(facts, key, keys[i]))
  {
    if keys == [] then []
    else [Summary(Pick(facts, key, keys[0]))] + RowsBy(facts, key, keys[1..])
  }

  ghost predicate Covers<K>(facts: seq<Fact>, key: Fact -> K, keys: seq<K>) {
    forall f | f in facts :: key(f) in keys
  }

  /** Splitting facts by any key and adding the rows back gives the row of the whole: nothing is
      lost or counted twice, and a measure is NULL in the sum only when it is NULL throughout. */
  lemma {:induction false} PartitionSum<K>(facts: seq<Fact>, key: Fact -> K, keys: seq<K>)
    requires Distinct(keys) && Covers(facts, key, keys)
    ensures Total(RowsBy(facts, key, keys)) == Summary(facts)
  {
    if facts == [] {
      EmptyRows(key, keys);
    } else {
      var rest := facts[1..];
      assert facts[0] in facts && forall f | f in rest :: f in facts;
      PartitionSum(rest, key, keys);
      AddOneFact(facts, key, keys);
    }
  }

  lemma {:induction false} EmptyRows<K>(key: Fact -> K, keys: seq<K>)
    ensures Total(RowsBy([], key, keys)) == EMPTY_ROW
  {
    if keys != [] {
      EmptyRows(key, keys[1..]);
      AddRowsZero(EMPTY_ROW);
    }
  }

  /** Putting a fact in front adds it to the one row of its key. */
  lemma {:induction false} AddOneFact<K>(facts: seq<Fact>, key: Fact -> K, keys: seq<K>)
    requires facts != [] && Distinct(keys)
    ensures Total(RowsBy(facts, key, keys)) ==
            if key(facts[0]) in keys
            then AddRows(Row(1, facts[0].values), Total(RowsBy(facts[1..], key, keys)))
            else Total(RowsBy(facts[1..], key, keys))
  {
    if keys != [] {
      var f, rest, k := facts[0], facts[1..], keys[0];
      AddOneFact(facts, key, keys[1..]);
      if key(f) == k {
        assert k !in keys[1..];
        AddRowsAssociates(Row(1, f.values), Summary(Pick(rest, key, k)),
                          Total(RowsBy(rest, key, keys[1..])));
      } else if key(f) in keys {
        assert key(f) in keys[1..];
        AddRowsExchange(Row(1, f.values), Summary(Pick(rest, key, k)),
                        Total(RowsBy(rest, key, keys[1..])));
      } else {
        assert key(f) !in keys[1..];
      }
    }
  }

  /** Grouping a group: the facts with fine key k inside the coarse group g(k). */
  lemma {:induction false} PickWithin<K, G>(facts: seq<Fact>, fine: Fact -> K, coarse: Fact -> G, k: K, g: G)
    requires forall f | f in facts && fine(f) == k :: coarse(f) == g
    ensures Pick(Pick(facts, coarse, g), fine, k) == Pick(facts, fine, k)
  {
    if facts != [] {
      assert facts[0] in facts && forall f | f in facts[1..] :: f in facts;
      PickWithin(facts[1..], fine, coarse, k, g);
      var p := Pick(facts[1..], coarse, g);
      if coarse(facts[0]) == g {
        assert ([facts[0]] + p)[1..] == p;
      }
    }
  }

  /** Rolling up: the row of a coarse group is the sum of the rows of the fine groups in it. */
  lemma {:induction false} RollUp<K, G>(facts: seq<Fact>, fine: Fact -> K, coarse: Fact -> G, g: G, keys: seq<K>)
    requires Distinct(keys)
    requires forall f | f in facts :: coarse(f) == g <==> fine(f) in keys
    ensures Total(RowsBy(facts, fine, keys)) == Summary(Pick(facts, coarse, g))
  {
    var inside := Pick(facts, coarse, g);
    PartitionSum(inside, fine, keys);
    forall i | 0 <= i < |keys|
      ensures RowsBy(facts, fine, keys)[i] == RowsBy(inside, fine, keys)[i]
    {
      PickWithin(facts, fine, coarse, keys[i], g);
    }
    assert RowsBy(facts, fine, keys) == RowsBy(inside, fine, keys);
  }

  lemma {:induction false} PickNothing<K>(facts: seq<Fact>, key: Fact -> K, k: K)
    requires forall f | f in facts :: key(f) != k
    ensures Pick(facts, key, k) == []
  {
    if facts != [] {
      assert facts[0] in facts && forall f | f in facts[1..] :: f in facts;
      PickNothing(facts[1..], key, k);
    }
  }

  /** Keys in order of first appearance, as a dict keeps them. */
  function FirstSeen<K(==)>(facts: seq<Fact>, key: Fact -> K): seq<K> {
    if facts == [] then []
    else
      var before := FirstSeen(facts[..|facts| - 1], key);
      var k := key(facts[|facts| - 1]);
      if k in before then before else before + [k]
  }

  lemma {:induction false} FirstSeenCovers<K>(facts: seq<Fact>, key: Fact -> K)
    ensures Distinct(FirstSeen(facts, key)) && Covers(facts, key, FirstSeen(facts, key))
    ensures forall k :: k in FirstSeen(facts, key) <==> exists f :: f in facts && key(f) == k
  {
    if facts != [] {
      var init, last := facts[..|facts| - 1], facts[|facts| - 1];
      FirstSeenCovers(init, key);
      assert facts == init + [last];
      DistinctSnoc(FirstSeen(init, key), key(last));
      forall k
        ensures k in FirstSeen(facts, key) <==> exists f :: f in facts && key(f) == k
      {
        if f :| f in facts && key(f) == k {
          assert f in init || f == last;
        }
      }
    }
  }

  /** Some fact has one key before any has the other. */
  ghost predicate Precedes<K>(facts: seq<Fact>, key: Fact -> K, k: K, later: K) {
    exists a :: 0 <= a < |facts| && key(facts[a]) == k && later !in KeyList(facts[..a + 1], key)
  }

  function KeyList<K>(facts: seq<Fact>, key: Fact -> K): seq<K> {
    seq(|facts|, i requires 0 <= i < |facts| => key(facts[i]))
  }

  lemma {:induction false} FirstSeenInOrder<K>(facts: seq<Fact>, key: Fact -> K, i: nat, j: nat)
    requires i < j < |FirstSeen(facts, key)|
    ensures Precedes(facts, key, FirstSeen(facts, key)[i], FirstSeen(facts, key)[j])
  {
    var init, last := facts[..|facts| - 1], facts[|facts| - 1];
    var (k, later) := (FirstSeen(facts, key)[i], FirstSeen(facts, key)[j]);
    FirstSeenCovers(init, key);
    if j < |FirstSeen(init, key)| {
      FirstSeenInOrder(init, key, i, j);
      var a :| 0 <= a < |init| && key(init[a]) == k && later !in KeyList(init[..a + 1], key);
      assert facts[..a + 1] == init[..a + 1] && facts[a] == init[a];
    } else {
      assert k in FirstSeen(init, key) && later == key(last) && later !in FirstSeen(init, key);
      var f :| f in init && key(f) == k;
      var a :| 0 <= a < |init| && init[a] == f;
      assert facts[..a + 1] == init[..a + 1] && facts[a] == f;
      assert forall x | x in init[..a + 1] :: x in init;
    }
  }

  lemma {:induction false} PickSnoc<K>(facts: seq<Fact>, f: Fact, key: Fact -> K, k: K)
    ensures Pick(facts + [f], key, k) == Pick(facts, key, k) + if key(f) == k then [f] else []
  {
    if facts == [] {
      assert [] + [f] == [f];
    } else {
      assert (facts + [f])[0] == facts[0] && (facts + [f])[1..] == facts[1..] + [f];
      PickSnoc(facts[1..], f, key, k);
    }
  }

  lemma {:induction false} NotSeenNotPicked<K>(facts: seq<Fact>, key: Fact -> K, k: K)
    requires k !in FirstSeen(facts, key)
    ensures Pick(facts, key, k) == []
  {
    FirstSeenCovers(facts, key);
    PickNothing(facts, key, k);
  }

  lemma {:induction false} NothingSeen<K>(key: Fact -> K)
    ensures FirstSeen([], key) == []
  {
  }

  /** What one more fact does to the keys seen and to each group. */
  lemma {:induction false} GroupingStep<K>(facts: seq<Fact>, f: Fact, key: Fact -> K)
    ensures FirstSeen(facts + [f], key) ==
            if key(f) in FirstSeen(facts, key) then FirstSeen(facts, key) else FirstSeen(facts, key) + [key(f)]
    ensures forall k :: Pick(facts + [f], key, k) == if key(f) == k then Pick(facts, key, k) + [f] else Pick(facts, key, k)
  {
    assert (facts + [f])[..|facts|] == facts;
    forall k
      ensures Pick(facts + [f], key, k) == if key(f) == k then Pick(facts, key, k) + [f] else Pick(facts, key, k)
    {
      PickSnoc(facts, f, key, k);
    }
  }

  /** The grouping loop of every aggregate read: a dict of lists that keeps insertion order. */
  method GroupFacts<K(==)>(facts: seq<Fact>, key: Fact -> K) returns (order: seq<K>, grouped: map<K, seq<Fact>>)
    ensures order == FirstSeen(facts, key)
    ensures forall k :: k in order <==> k in grouped
    ensures forall k | k in grouped :: grouped[k] == Pick(facts, key, k)
  {
    hide Pick, FirstSeen;
    NothingSeen(key);
    order, grouped := [], map[];
    for i := 0 to |facts|
      invariant order == FirstSeen(facts[..i], key)
      invariant forall k :: k in order <==> k in grouped
      invariant forall k | k in grouped :: grouped[k] == Pick(facts[..i], key, k)
    {
      var k := key(facts[i]);
      assert facts[..i + 1] == facts[..i] + [facts[i]];
      GroupingStep(facts[..i], facts[i], key);
      if k !in grouped {
        NotSeenNotPicked(facts[..i], key, k);
        order, grouped := order + [k], grouped[k := []];
      }
      ghost var before := grouped;
      grouped := grouped[k := grouped[k] + [facts[i]]];
      forall j | j in grouped
        ensures grouped[j] == Pick(facts[..i + 1], key, j)
      {
        assert before[j] == Pick(facts[..i], key, j);
      }
    }
    assert facts[..|facts|] == facts;
  }

  /** Real-valued version of a row total, for one measure with NULL read as zero. */
  function SumOf(rows: seq<Row>, m: Measure): real {
    if rows == [] then 0.0 else OrZero(rows[0].sums, m) + SumOf(rows[1..], m)
  }

  lemma {:induction false} SumOfTotal(rows: seq<Row>, m: Measure)
    ensures SumOf(rows, m) == OrZero(Total(rows).sums, m)
  {
    if rows != [] {
      SumOfTotal(rows[1..], m);
    }
  }
}
