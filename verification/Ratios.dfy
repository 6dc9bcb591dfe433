/** aggregate.py and kpis.py together: ratios are taken after summing.  The ratio of the whole lies
    between the ratios of its parts, and the linear KPIs of the whole are the sums of the parts'. */
module Ratios {
  import opened Prelude
  import opened Facts
  import opened Numbers
  import opened Kpis

  /** A KPI of two columns on a row. */
  function KpiOn(s: KpiSpec, m: Measure, d: Measure, row: Row): Option<real> {
    Apply(s, Lookup(row.sums, m), Lookup(row.sums, d))
  }

  /** A KPI as `compute_kpis` reports it on summed measures. */
  function KpiValue(table: seq<KpiSpec>, s: KpiSpec, sums: Sums): Option<real> {
    var kpis := ComputeNamespace(table, s.namespace, sums);
    if kpis.Ok? && s.slug in kpis.value then kpis.value[s.slug] else None
  }

  lemma {:induction false} KpiValueMeans(table: seq<KpiSpec>, s: KpiSpec, sums: Sums)
    requires WellFormed(table) && s in table
    ensures KpiValue(table, s, sums) == Meaning(table, s, sums)
  {
    hide ComputeNamespace, Meaning, WellFormed;
    ComputeMeans(table, s.namespace, sums);
  }

  // ---- the operands of a ratio --------------------------------------------------------------------

  /** What a KPI divides, and what it divides by: a column's sum, or the value of the KPI it depends on. */
  ghost function Above(table: seq<KpiSpec>, s: KpiSpec, sums: Sums): Option<real>
    requires WellFormed(table) && s in table
  {
    OperandMeaning(table, s, s.numerator, sums)
  }

  ghost function Below(table: seq<KpiSpec>, s: KpiSpec, sums: Sums): Option<real>
    requires WellFormed(table) && s in table
  {
    OperandMeaning(table, s, s.denominator, sums)
  }

  ghost predicate Divisible(table: seq<KpiSpec>, s: KpiSpec, sums: Sums)
    requires WellFormed(table) && s in table
  {
    Above(table, s, sums).Some? && Below(table, s, sums).Some? && Below(table, s, sums).value > 0.0
  }

  ghost function RatioOf(table: seq<KpiSpec>, s: KpiSpec, sums: Sums): real
    requires WellFormed(table) && s in table && Divisible(table, s, sums)
  {
    Above(table, s, sums).value / Below(table, s, sums).value
  }

  /** An unrounded sum or difference of two columns adds over rows. */
  lemma {:induction false} ParentAdds(table: seq<KpiSpec>, p: KpiSpec, a: Row, b: Row)
    requires WellFormed(table) && p in table && Unrounded(p)
    requires Meaning(table, p, a.sums).Some? && Meaning(table, p, b.sums).Some?
    ensures Meaning(table, p, AddRows(a, b).sums) == Some(Meaning(table, p, a.sums).value + Meaning(table, p, b.sums).value)
  {
    hide WellFormed;
    SpecIsOk(table, p);
    var (m, n) := (p.numerator.value.m, p.denominator.value.m);
    forall sums: Sums
      ensures Meaning(table, p, sums) == Apply(p, Lookup(sums, m), Lookup(sums, n))
    {
    }
  }

  lemma {:induction false} SpecIsOk(table: seq<KpiSpec>, s: KpiSpec)
    requires WellFormed(table) && s in table
    ensures SpecOk(table, s)
  {
  }

  /** So does each operand of any KPI of the table. */
  lemma {:induction false} OperandAdds(table: seq<KpiSpec>, s: KpiSpec, column: Option<Column>, a: Row, b: Row)
    requires WellFormed(table) && s in table
    requires OperandMeaning(table, s, column, a.sums).Some? && OperandMeaning(table, s, column, b.sums).Some?
    ensures OperandMeaning(table, s, column, AddRows(a, b).sums)
            == Some(OperandMeaning(table, s, column, a.sums).value + OperandMeaning(table, s, column, b.sums).value)
  {
    hide WellFormed, Meaning;
    if column.None? {
      ParentAdds(table, ParentOf(table, s), a, b);
    }
  }

  // ---- the mediant ------------------------------------------------------------------------------

  lemma {:induction false} CrossMultiply(a: real, b: real, c: real, d: real)
    requires b > 0.0 && d > 0.0
    ensures a / b <= c / d <==> a * d <= c * b
  {
    var x, y := a / b, c / d;
    assert a == x * b && c == y * d;
    assert a * d == x * (b * d) && c * b == y * (b * d);
    assert b * d > 0.0;
    ScaleOrder(x, y, b * d);
  }

  lemma {:induction false} ScaleOrder(x: real, y: real, k: real)
    requires k > 0.0
    ensures x <= y <==> x * k <= y * k
  {
    if x <= y {
      ScaleMonotone(x, y, k);
    } else {
      assert (x - y) * k > 0.0;
    }
  }

  /** The ratio of sums lies between the ratios. */
  lemma {:induction false} Mediant(a: real, b: real, c: real, d: real)
    requires b > 0.0 && d > 0.0 && a / b <= c / d
    ensures a / b <= (a + c) / (b + d) <= c / d
  {
    CrossMultiply(a, b, c, d);
    CrossMultiply(a, b, a + c, b + d);
    CrossMultiply(a + c, b + d, c, d);
    assert a * (b + d) == a * b + a * d && (a + c) * b == a * b + c * b;
    assert (a + c) * d == a * d + c * d && c * (b + d) == c * b + c * d;
  }

  /** Adding two rows keeps a ratio defined, and between the two. */
  lemma {:induction false} RatioOfTwo(table: seq<KpiSpec>, s: KpiSpec, a: Row, b: Row)
    requires WellFormed(table) && s in table && Divisible(table, s, a.sums) && Divisible(table, s, b.sums)
    ensures Divisible(table, s, AddRows(a, b).sums)
    ensures var (x, y, z) := (RatioOf(table, s, a.sums), RatioOf(table, s, b.sums), RatioOf(table, s, AddRows(a, b).sums));
            x <= z <= y || y <= z <= x
  {
    hide WellFormed, OperandMeaning, AddRows;
    OperandAdds(table, s, s.numerator, a, b);
    OperandAdds(table, s, s.denominator, a, b);
    var (p, q, u, v) := (Above(table, s, a.sums).value, Below(table, s, a.sums).value, Above(table, s, b.sums).value, Below(table, s, b.sums).value);
    if p / q <= u / v {
      Mediant(p, q, u, v);
    } else {
      Mediant(u, v, p, q);
    }
  }

  /** Some part is at most, and some part at least, the whole. */
  lemma {:induction false} RatioBetweenParts(table: seq<KpiSpec>, s: KpiSpec, rows: seq<Row>) returns (low: Row, high: Row)
    requires WellFormed(table) && s in table && rows != [] && forall r | r in rows :: Divisible(table, s, r.sums)
    ensures low in rows && high in rows && Divisible(table, s, Total(rows).sums)
    ensures RatioOf(table, s, low.sums) <= RatioOf(table, s, Total(rows).sums) <= RatioOf(table, s, high.sums)
  {
    hide WellFormed, Divisible, RatioOf, AddRows;
    var head := rows[0];
    assert head in rows;
    if |rows| == 1 {
      low, high := head, head;
      assert Total(rows[1..]) == EMPTY_ROW;
      AddRowsZero(head);
    } else {
      assert forall r | r in rows[1..] :: r in rows;
      low, high := RatioBetweenParts(table, s, rows[1..]);
      var rest := Total(rows[1..]);
      RatioOfTwo(table, s, head, rest);
      if RatioOf(table, s, head.sums) <= RatioOf(table, s, rest.sums) {
        low := head;
      } else {
        high := head;
      }
    }
  }

  lemma {:induction false} RatioIsKpi(table: seq<KpiSpec>, s: KpiSpec, sums: Sums)
    requires WellFormed(table) && s in table && s.operation.Divide? && Divisible(table, s, sums)
    ensures KpiValue(table, s, sums) == Some(Quantize(RatioOf(table, s, sums), Units(s.kind)))
  {
    hide WellFormed, OperandMeaning, Quantize, KpiValue;
    KpiValueMeans(table, s, sums);
  }

  /** For any split of facts into groups in each of which the KPI's operands are non-NULL and its
      denominator positive, a divide KPI of the whole lies between the least and the greatest group KPI,
      after rounding: for every divide KPI of a well-formed table, those that depend on another included. */
  lemma {:induction false} RatioOfSumsBounded<K>(table: seq<KpiSpec>, s: KpiSpec, facts: seq<Fact>, key: Fact -> K, keys: seq<K>)
    requires WellFormed(table) && s in table && s.operation.Divide?
    requires keys != [] && Distinct(keys) && Covers(facts, key, keys)
    requires forall r | r in RowsBy(facts, key, keys) :: Divisible(table, s, r.sums)
    ensures var (rows, whole) := (RowsBy(facts, key, keys), KpiValue(table, s, Summary(facts).sums));
            && whole.Some?
            && (forall r | r in rows :: KpiValue(table, s, r.sums).Some?)
            && (exists r :: r in rows && KpiValue(table, s, r.sums).value <= whole.value)
            && (exists r :: r in rows && whole.value <= KpiValue(table, s, r.sums).value)
  {
    hide Quantize, Total, Summary, WellFormed, Divisible, RatioOf, KpiValue;
    var rows := RowsBy(facts, key, keys);
    PartitionSum(facts, key, keys);
    var low, high := RatioBetweenParts(table, s, rows);
    var whole := Summary(facts);
    forall r | r in rows
      ensures KpiValue(table, s, r.sums) == Some(Quantize(RatioOf(table, s, r.sums), Units(s.kind)))
    {
      RatioIsKpi(table, s, r.sums);
    }
    RatioIsKpi(table, s, whole.sums);
    QuantizeMonotone(RatioOf(table, s, low.sums), RatioOf(table, s, whole.sums), Units(s.kind));
    QuantizeMonotone(RatioOf(table, s, whole.sums), RatioOf(table, s, high.sums), Units(s.kind));
    assert KpiValue(table, s, low.sums).value <= KpiValue(table, s, whole.sums).value <= KpiValue(table, s, high.sums).value;
  }

  // ---- linear KPIs --------------------------------------------------------------------------------

  /** x is a whole number of units. */
  predicate OnScale(x: real, units: real) {
    IsInteger(x * units)
  }

  /** A measure that is present on every row with a whole number of units. */
  ghost predicate Present(rows: seq<Row>, m: Measure, units: real) {
    forall r | r in rows :: m in r.sums && OnScale(r.sums[m], units)
  }

  function SumKpi(s: KpiSpec, m: Measure, d: Measure, rows: seq<Row>): real {
    if rows == [] then 0.0 else KpiOn(s, m, d, rows[0]).GetOr(0.0) + SumKpi(s, m, d, rows[1..])
  }

  lemma {:induction false} OnScaleExact(x: real, units: real)
    requires units > 0.0 && OnScale(x, units)
    ensures Quantize(x, units) == x
  {
    var n := (x * units).Floor;
    QuantizeMultiple(x, n, units);
    DivideThenMultiply(x, units);
  }

  lemma {:induction false} OnScaleLinear(x: real, y: real, units: real)
    requires OnScale(x, units) && OnScale(y, units)
    ensures OnScale(x + y, units) && OnScale(x - y, units)
  {
    Distributes(x, y, units);
    IntegersAdd(x * units, y * units);
  }

  lemma {:induction false} Distributes(x: real, y: real, k: real)
    ensures (x + y) * k == x * k + y * k && (x - y) * k == x * k - y * k
  {
  }

  lemma {:induction false} WholeIsInteger(n: int)
    ensures IsInteger(n as real)
  {
  }

  lemma {:induction false} IntegersAdd(a: real, b: real)
    requires IsInteger(a) && IsInteger(b)
    ensures IsInteger(a + b) && IsInteger(a - b)
  {
    var m, n := a.Floor, b.Floor;
    WholeIsInteger(m + n);
    WholeIsInteger(m - n);
    assert a + b == (m + n) as real;
    assert a - b == (m - n) as real;
  }

  /** A linear KPI of on-scale operands is the exact sum or difference. */
  lemma {:induction false} LinearExact(s: KpiSpec, x: real, y: real)
    requires !s.operation.Divide? && OnScale(x, Units(s.kind)) && OnScale(y, Units(s.kind))
    ensures Apply(s, Some(x), Some(y)) == Some(if s.operation.Add? then x + y else x - y)
  {
    hide Quantize;
    OnScaleLinear(x, y, Units(s.kind));
    OnScaleExact(x + y, Units(s.kind));
    OnScaleExact(x - y, Units(s.kind));
  }

  lemma {:induction false} TotalPresent(rows: seq<Row>, m: Measure, units: real)
    requires rows != [] && Present(rows, m, units)
    ensures m in Total(rows).sums && OnScale(Total(rows).sums[m], units)
  {
    assert rows[0] in rows;
    if |rows| == 1 {
      assert Total(rows[1..]) == EMPTY_ROW;
      AddRowsZero(rows[0]);
    } else {
      assert forall r | r in rows[1..] :: r in rows;
      TotalPresent(rows[1..], m, units);
      OnScaleLinear(rows[0].sums[m], Total(rows[1..]).sums[m], units);
    }
  }

  lemma {:induction false} TotalStep(rows: seq<Row>, m: Measure)
    requires rows != [] && m in rows[0].sums
    ensures m in Total(rows).sums
    ensures Total(rows).sums[m] == rows[0].sums[m] + OrZero(Total(rows[1..]).sums, m)
  {
  }

  lemma {:induction false} LinearTotals(rows: seq<Row>, s: KpiSpec, m: Measure, d: Measure)
    requires !s.operation.Divide? && rows != []
    requires Present(rows, m, Units(s.kind)) && Present(rows, d, Units(s.kind))
    ensures KpiOn(s, m, d, Total(rows)) == Some(SumKpi(s, m, d, rows))
  {
    hide Apply, OnScale, Total, Units, KpiOn, SumKpi;
    LinearOn(s, m, d, rows);
    if |rows| == 1 {
      LinearOne(s, m, d, rows);
    } else {
      assert forall r | r in rows[1..] :: r in rows;
      LinearTotals(rows[1..], s, m, d);
      LinearOn(s, m, d, rows[1..]);
      LinearMore(s, m, d, rows);
    }
  }

  /** Whether m and d are added or subtracted. */
  function Linear(s: KpiSpec, x: real, y: real): real {
    if s.operation.Add? then x + y else x - y
  }

  lemma {:induction false} LinearOn(s: KpiSpec, m: Measure, d: Measure, rows: seq<Row>)
    requires !s.operation.Divide? && rows != []
    requires Present(rows, m, Units(s.kind)) && Present(rows, d, Units(s.kind))
    ensures m in Total(rows).sums && d in Total(rows).sums
    ensures KpiOn(s, m, d, Total(rows)) == Some(Linear(s, Total(rows).sums[m], Total(rows).sums[d]))
  {
    hide Apply, OnScale, Total, Units;
    TotalPresent(rows, m, Units(s.kind));
    TotalPresent(rows, d, Units(s.kind));
    LinearExact(s, Total(rows).sums[m], Total(rows).sums[d]);
  }

  lemma {:induction false} LinearOne(s: KpiSpec, m: Measure, d: Measure, rows: seq<Row>)
    requires |rows| == 1 && KpiOn(s, m, d, Total(rows)).Some?
    ensures KpiOn(s, m, d, Total(rows)) == Some(SumKpi(s, m, d, rows))
  {
    hide KpiOn, AddRows;
    EmptyTotal();
    AddRowsZero(rows[0]);
    assert rows[1..] == [];
  }

  lemma {:induction false} LinearMore(s: KpiSpec, m: Measure, d: Measure, rows: seq<Row>)
    requires !s.operation.Divide? && |rows| > 1
    requires Present(rows, m, Units(s.kind)) && Present(rows, d, Units(s.kind))
    requires m in Total(rows[1..]).sums && d in Total(rows[1..]).sums
    requires Linear(s, Total(rows[1..]).sums[m], Total(rows[1..]).sums[d]) == SumKpi(s, m, d, rows[1..])
    ensures m in Total(rows).sums && d in Total(rows).sums
    ensures Linear(s, Total(rows).sums[m], Total(rows).sums[d]) == SumKpi(s, m, d, rows)
  {
    hide Apply, OnScale, Total, Units;
    assert rows[0] in rows;
    TotalStep(rows, m);
    TotalStep(rows, d);
    LinearExact(s, rows[0].sums[m], rows[0].sums[d]);
  }

  lemma {:induction false} EmptyTotal()
    ensures Total([]) == EMPTY_ROW
  {
  }

  /** The sum of a KPI over rows, as `compute_kpis` reports it for each. */
  function SumValues(table: seq<KpiSpec>, s: KpiSpec, rows: seq<Row>): real {
    if rows == [] then 0.0 else KpiValue(table, s, rows[0].sums).GetOr(0.0) + SumValues(table, s, rows[1..])
  }

  lemma {:induction false} LinearKpiReads(table: seq<KpiSpec>, s: KpiSpec, row: Row)
    requires WellFormed(table) && s in table && !s.operation.Divide?
    ensures SpecOk(table, s)
    ensures KpiValue(table, s, row.sums) == KpiOn(s, s.numerator.value.m, s.denominator.value.m, row)
  {
    hide WellFormed, KpiValue, Apply;
    SpecIsOk(table, s);
    KpiValueMeans(table, s, row.sums);
  }

  lemma {:induction false} SumsAgree(table: seq<KpiSpec>, s: KpiSpec, rows: seq<Row>)
    requires WellFormed(table) && s in table && !s.operation.Divide?
    ensures SpecOk(table, s)
    ensures SumValues(table, s, rows) == SumKpi(s, s.numerator.value.m, s.denominator.value.m, rows)
  {
    hide WellFormed, KpiValue, KpiOn;
    SpecIsOk(table, s);
    if rows != [] {
      LinearKpiReads(table, s, rows[0]);
      SumsAgree(table, s, rows[1..]);
    }
  }

  /** For any split of facts whose operands are present and on scale in every group, an add or
      subtract KPI of the whole is the sum over the groups: for every such KPI of a well-formed table. */
  lemma {:induction false} LinearKpisAdd<K>(table: seq<KpiSpec>, s: KpiSpec, facts: seq<Fact>, key: Fact -> K, keys: seq<K>)
    requires WellFormed(table) && s in table && SpecOk(table, s) && !s.operation.Divide?
    requires keys != [] && Distinct(keys) && Covers(facts, key, keys)
    requires Present(RowsBy(facts, key, keys), s.numerator.value.m, Units(s.kind))
    requires Present(RowsBy(facts, key, keys), s.denominator.value.m, Units(s.kind))
    ensures KpiValue(table, s, Summary(facts).sums) == Some(SumValues(table, s, RowsBy(facts, key, keys)))
  {
    hide WellFormed, KpiValue, KpiOn, Present, Summary;
    PartitionSum(facts, key, keys);
    SumsAgree(table, s, RowsBy(facts, key, keys));
    LinearKpiReads(table, s, Summary(facts));
    LinearTotals(RowsBy(facts, key, keys), s, s.numerator.value.m, s.denominator.value.m);
  }
}
