/** kpis.py: KPI specifications and their evaluation, in solve order, on summed measures. */
module Kpis {
  import opened Prelude
  import opened Facts
  import opened Numbers
  import opened Ordering

  /** A fact column: one of the additive measures, or a native rate that no KPI may read. */
  datatype Column = Additive(m: Measure) | NativeRate(name: string)

  datatype Operation = Divide | Add | Subtract
  datatype ValueKind = Rate | Money | Count
  datatype Namespace = Qa | Client

  datatype KpiSpec = KpiSpec(
    id: string, namespace: Namespace, displayName: string, slug: string,
    numerator: Option<Column>, denominator: Option<Column>, operation: Operation,
    solveOrder: nat, dependsOn: Option<string>, kind: ValueKind)

  datatype KpiError = ReadsNativeRate | UnknownParent | MissingOperand

  /** `decimal_scale`, as units. */
  function Units(kind: ValueKind): (u: real)
    ensures u > 0.0
  {
    match kind
    case Rate => RATE_UNITS
    case Money => MONEY_UNITS
    case Count => 1.0
  }

  /** The operation on its two operands; counts are not rounded when added or subtracted. */
  function Apply(spec: KpiSpec, left: Option<real>, right: Option<real>): Option<real> {
    var units := if spec.kind.Count? then None else Some(Units(spec.kind));
    match spec.operation
    case Divide => SafeDivide(left, right, Units(spec.kind))
    case Add => SafeAdd(left, right, units)
    case Subtract => SafeSubtract(left, right, units)
  }

  // ---- evaluation as the program does it ------------------------------------------------------

  /** `_BY_ID`: the last specification of an id. */
  function ById(table: seq<KpiSpec>, id: string): Option<KpiSpec> {
    if table == [] then None
    else if table[|table| - 1].id == id then Some(table[|table| - 1])
    else ById(table[..|table| - 1], id)
  }

  type Results = map<string, Option<real>>

  /** `_operand`: the column's sum, or else what was computed so far for the parent. */
  function Operand(table: seq<KpiSpec>, spec: KpiSpec, column: Option<Column>, sums: Sums, computed: Results): Result<Option<real>, KpiError> {
    match column
    case Some(NativeRate(_)) => Err(ReadsNativeRate)
    case Some(Additive(m)) => Ok(Lookup(sums, m))
    case None =>
      if spec.dependsOn.None? then Ok(None)
      else
        match ById(table, spec.dependsOn.value)
        case None => Err(UnknownParent)
        case Some(parent) => Ok(if parent.slug in computed then computed[parent.slug] else None)
  }

  function Evaluate(table: seq<KpiSpec>, spec: KpiSpec, sums: Sums, computed: Results): Result<Option<real>, KpiError> {
    var left := Operand(table, spec, spec.numerator, sums, computed);
    if left.Err? then Err(left.error)
    else
      var right := Operand(table, spec, spec.denominator, sums, computed);
      if right.Err? then Err(right.error) else Ok(Apply(spec, left.value, right.value))
  }

  predicate SolveLe(a: KpiSpec, b: KpiSpec) {
    a.solveOrder <= b.solveOrder
  }

  function SpecsFor(table: seq<KpiSpec>, ns: Namespace): (r: seq<KpiSpec>)
    ensures forall s :: s in r <==> s in table && s.namespace == ns
  {
    if table == [] then []
    else (if table[0].namespace == ns then [table[0]] else []) + SpecsFor(table[1..], ns)
  }

  function InSolveOrder(table: seq<KpiSpec>, ns: Namespace): seq<KpiSpec> {
    Sort(SpecsFor(table, ns), SolveLe)
  }

  function EvaluateAll(table: seq<KpiSpec>, specs: seq<KpiSpec>, sums: Sums): Result<Results, KpiError> {
    if specs == [] then Ok(map[])
    else
      var before := EvaluateAll(table, specs[..|specs| - 1], sums);
      if before.Err? then before
      else
        var last := specs[|specs| - 1];
        match Evaluate(table, last, sums, before.value)
        case Err(e) => Err(e)
        case Ok(v) => Ok(before.value[last.slug := v])
  }

  /** One namespace of `compute_kpis`. */
  function ComputeNamespace(table: seq<KpiSpec>, ns: Namespace, sums: Sums): Result<Results, KpiError> {
    EvaluateAll(table, InSolveOrder(table, ns), sums)
  }

  method ComputeKpis(table: seq<KpiSpec>, ns: Namespace, sums: Sums) returns (r: Result<Results, KpiError>)
    ensures r == ComputeNamespace(table, ns, sums)
  {
    hide Evaluate, Sort;
    var specs := InSolveOrder(table, ns);
    var results: Results := map[];
    for i := 0 to |specs|
      invariant EvaluateAll(table, specs[..i], sums) == Ok(results)
    {
      assert specs[..i + 1][..i] == specs[..i];
      var value := Evaluate(table, specs[i], sums, results);
      if value.Err? {
        FailsForGood(table, specs, i + 1, sums);
        return Err(value.error);
      }
      results := results[specs[i].slug := value.value];
    }
    assert specs[..|specs|] == specs;
    r := Ok(results);
  }

  lemma {:induction false} FailsForGood(table: seq<KpiSpec>, specs: seq<KpiSpec>, i: nat, sums: Sums)
    requires i <= |specs| && EvaluateAll(table, specs[..i], sums).Err?
    ensures EvaluateAll(table, specs, sums) == EvaluateAll(table, specs[..i], sums)
  {
    if i == |specs| {
      assert specs[..i] == specs;
    } else {
      assert specs[..|specs| - 1][..i] == specs[..i];
      FailsForGood(table, specs[..|specs| - 1], i, sums);
    }
  }

  // ---- evaluation as the specification means it -------------------------------------------------

  predicate ReadsAdditive(column: Option<Column>) {
    column.Some? ==> column.value.Additive?
  }

  /** A parent's value is used unrounded: it adds or subtracts counts. */
  predicate Unrounded(spec: KpiSpec) {
    spec.kind.Count? && !spec.operation.Divide?
  }

  ghost predicate IsParent(parent: KpiSpec, spec: KpiSpec) {
    && spec.dependsOn == Some(parent.id)
    && parent.namespace == spec.namespace
    && parent.solveOrder < spec.solveOrder
    && Unrounded(parent)
  }

  /** Ids are unique, slugs are unique in their namespace, no native rate is read, sums and
      differences name both columns, and a missing operand has a parent that comes earlier in the
      same namespace and is not rounded. */
  ghost predicate WellFormed(table: seq<KpiSpec>) {
    && (forall i, j | 0 <= i < j < |table| :: table[i].id != table[j].id)
    && (forall i, j | 0 <= i < j < |table| :: table[i].namespace == table[j].namespace ==> table[i].slug != table[j].slug)
    && (forall s | s in table :: SpecOk(table, s))
  }

  ghost predicate SpecOk(table: seq<KpiSpec>, s: KpiSpec) {
    && ReadsAdditive(s.numerator) && ReadsAdditive(s.denominator)
    && (!s.operation.Divide? ==> s.numerator.Some? && s.denominator.Some?)
    && (s.numerator.None? || s.denominator.None? ==> s.dependsOn.Some?)
    && (s.dependsOn.Some? ==> exists p :: p in table && IsParent(p, s))
  }

  ghost function ParentOf(table: seq<KpiSpec>, s: KpiSpec): (p: KpiSpec)
    requires WellFormed(table) && s in table && s.dependsOn.Some?
    ensures p in table && IsParent(p, s)
  {
    assert SpecOk(table, s);
    var p :| p in table && IsParent(p, s);
    p
  }

  /** The value of a KPI on summed measures, by its formula alone. */
  ghost function Meaning(table: seq<KpiSpec>, s: KpiSpec, sums: Sums): Option<real>
    requires WellFormed(table) && s in table
    decreases s.solveOrder, 1
  {
    Apply(s, OperandMeaning(table, s, s.numerator, sums), OperandMeaning(table, s, s.denominator, sums))
  }

  ghost function OperandMeaning(table: seq<KpiSpec>, s: KpiSpec, column: Option<Column>, sums: Sums): Option<real>
    requires WellFormed(table) && s in table
    decreases s.solveOrder, 0
  {
    match column
    case Some(Additive(m)) => Lookup(sums, m)
    case Some(NativeRate(_)) => None
    case None => if s.dependsOn.None? then None else Meaning(table, ParentOf(table, s), sums)
  }

  lemma {:induction false} ByIdFinds(table: seq<KpiSpec>, p: KpiSpec)
    requires forall i, j | 0 <= i < j < |table| :: table[i].id != table[j].id
    requires p in table
    ensures ById(table, p.id) == Some(p)
  {
    var last := table[|table| - 1];
    if last.id != p.id {
      assert table == table[..|table| - 1] + [last];
      ByIdFinds(table[..|table| - 1], p);
    }
  }

  /** Same namespace and slug: same specification. */
  lemma {:induction false} SlugIdentifies(table: seq<KpiSpec>, s: KpiSpec, t: KpiSpec)
    requires WellFormed(table) && s in table && t in table && s.namespace == t.namespace && s.slug == t.slug
    ensures s == t
  {
    var i :| 0 <= i < |table| && table[i] == s;
    var j :| 0 <= j < |table| && table[j] == t;
  }

  /** The results so far: exactly the slugs evaluated, each with its meaning. */
  ghost predicate Computed(table: seq<KpiSpec>, done: seq<KpiSpec>, sums: Sums, results: Results)
    requires WellFormed(table) && forall s | s in done :: s in table
  {
    && (forall s | s in done :: s.slug in results && results[s.slug] == Meaning(table, s, sums))
    && (forall slug | slug in results :: exists s :: s in done && s.slug == slug)
  }

  lemma {:induction false} EvaluateMeans(table: seq<KpiSpec>, done: seq<KpiSpec>, s: KpiSpec, sums: Sums, results: Results)
    requires WellFormed(table) && s in table && forall d | d in done :: d in table
    requires Computed(table, done, sums, results)
    requires forall p | p in table && IsParent(p, s) :: p in done
    ensures Evaluate(table, s, sums, results) == Ok(Meaning(table, s, sums))
  {
    hide Apply;
    assert SpecOk(table, s);
    if s.dependsOn.Some? {
      var p := ParentOf(table, s);
      ByIdFinds(table, p);
      assert p in done;
    }
  }

  /** Every parent comes before its child. */
  ghost predicate ParentsFirst(table: seq<KpiSpec>, specs: seq<KpiSpec>) {
    forall i | 0 <= i < |specs| :: forall p | p in table && IsParent(p, specs[i]) :: p in specs[..i]
  }

  lemma {:induction false} ParentsFirstInit(table: seq<KpiSpec>, init: seq<KpiSpec>, last: KpiSpec)
    requires ParentsFirst(table, init + [last])
    ensures ParentsFirst(table, init)
    ensures forall p | p in table && IsParent(p, last) :: p in init
  {
    hide IsParent;
    var specs := init + [last];
    forall i | 0 <= i < |init|
      ensures forall p | p in table && IsParent(p, init[i]) :: p in init[..i]
    {
      assert init[i] == specs[i] && init[..i] == specs[..i];
    }
    assert specs[|init|] == last && specs[..|init|] == init;
  }

  /** Evaluating specifications one after another, each after its parent, gives their meanings. */
  lemma {:induction false} EvaluateAllMeans(table: seq<KpiSpec>, specs: seq<KpiSpec>, ns: Namespace, sums: Sums)
    requires WellFormed(table)
    requires forall s | s in specs :: s in table && s.namespace == ns
    requires ParentsFirst(table, specs)
    ensures EvaluateAll(table, specs, sums).Ok?
    ensures Computed(table, specs, sums, EvaluateAll(table, specs, sums).value)
  {
    hide Evaluate, Meaning, WellFormed, ParentsFirst, IsParent;
    if specs != [] {
      var init, last := specs[..|specs| - 1], specs[|specs| - 1];
      assert specs == init + [last];
      assert last in specs && forall s | s in init :: s in specs;
      ParentsFirstInit(table, init, last);
      EvaluateAllMeans(table, init, ns, sums);
      var before := EvaluateAll(table, init, sums).value;
      EvaluateMeans(table, init, last, sums, before);
      LastAdded(table, init, last, ns, sums, before);
    }
  }

  lemma {:induction false} LastAdded(table: seq<KpiSpec>, init: seq<KpiSpec>, last: KpiSpec, ns: Namespace, sums: Sums, before: Results)
    requires WellFormed(table) && last in table && last.namespace == ns
    requires forall s | s in init :: s in table && s.namespace == ns
    requires Computed(table, init, sums, before)
    ensures Computed(table, init + [last], sums, before[last.slug := Meaning(table, last, sums)])
  {
    hide Meaning, WellFormed;
    var specs := init + [last];
    assert forall s :: s in specs <==> s in init || s == last;
    forall s | s in init && s.slug == last.slug
      ensures s == last
    {
      SlugIdentifies(table, s, last);
    }
    assert last in specs;
  }

  lemma {:induction false} LowerOrderIsEarlier(specs: seq<KpiSpec>, j: nat, i: nat)
    requires Sorted(specs, SolveLe) && i < |specs| && j < |specs| && specs[j].solveOrder < specs[i].solveOrder
    ensures j < i
  {
  }

  /** Solve order works: on a well-formed table `compute_kpis` never fails, and gives every KPI of
      the namespace the value of its formula, dependent KPIs included. */
  lemma {:induction false} ComputeMeans(table: seq<KpiSpec>, ns: Namespace, sums: Sums)
    requires WellFormed(table)
    ensures var r := ComputeNamespace(table, ns, sums);
            && r.Ok?
            && (forall s | s in table && s.namespace == ns :: s.slug in r.value && r.value[s.slug] == Meaning(table, s, sums))
            && (forall slug | slug in r.value :: exists s :: s in table && s.namespace == ns && s.slug == slug)
  {
    hide Meaning, WellFormed, EvaluateAll, Sort;
    var specs := InSolveOrder(table, ns);
    InSort(SpecsFor(table, ns), SolveLe);
    SortSorts(SpecsFor(table, ns), SolveLe);
    forall i | 0 <= i < |specs|
      ensures forall p | p in table && IsParent(p, specs[i]) :: p in specs[..i]
    {
      assert specs[i] in specs;
      forall p | p in table && IsParent(p, specs[i])
        ensures p in specs[..i]
      {
        assert p in specs;
        var j :| 0 <= j < |specs| && specs[j] == p;
        LowerOrderIsEarlier(specs, j, i);
        assert specs[..i][j] == p;
      }
    }
    EvaluateAllMeans(table, specs, ns, sums);
    var r := EvaluateAll(table, specs, sums).value;
    forall slug | slug in r
      ensures exists s :: s in table && s.namespace == ns && s.slug == slug
    {
      var s :| s in specs && s.slug == slug;
    }
  }

  // ---- the numbers a KPI reports ------------------------------------------------------------------

  /** What a KPI reports on its two operands: nothing without both or over zero; a quotient half up, to six
      places for a rate, four for money and none for a count; a sum or difference likewise, and exactly
      for a count. */
  ghost predicate Reports(v: Option<real>, s: KpiSpec, left: Option<real>, right: Option<real>) {
    var units := if s.kind.Rate? then 1000000.0 else if s.kind.Money? then 10000.0 else 1.0;
    if left.None? || right.None? || (s.operation.Divide? && right.value == 0.0) then v == None
    else if s.operation.Divide? then v.Some? && HalfUpTo(v.value, left.value / right.value, units)
    else
      var exact := if s.operation.Add? then left.value + right.value else left.value - right.value;
      v.Some? && if s.kind.Count? then v.value == exact else HalfUpTo(v.value, exact, units)
  }

  lemma {:induction false} ApplyReports(s: KpiSpec, left: Option<real>, right: Option<real>)
    ensures Reports(Apply(s, left, right), s, left, right)
  {
    hide HalfUpTo, Quantize;
    if left.Some? && right.Some? {
      var (l, r, units) := (left.value, right.value, Units(s.kind));
      if r != 0.0 {
        QuantizeIsHalfUp(l / r, Quantize(l / r, units), units);
      }
      QuantizeIsHalfUp(l + r, Quantize(l + r, units), units);
      QuantizeIsHalfUp(l - r, Quantize(l - r, units), units);
    }
  }

  /** For every well-formed table, on all sums: each KPI that `compute_kpis` reports is the rounded quotient,
      sum or difference of its two operands, dependent ones reading their parent's reported value. */
  lemma {:induction false} KpiIsRounded(table: seq<KpiSpec>, s: KpiSpec, sums: Sums)
    requires WellFormed(table) && s in table
    ensures var r := ComputeNamespace(table, s.namespace, sums);
            && r.Ok? && s.slug in r.value
            && Reports(r.value[s.slug], s, OperandMeaning(table, s, s.numerator, sums), OperandMeaning(table, s, s.denominator, sums))
    ensures s.dependsOn.Some? ==>
              var (p, r) := (ParentOf(table, s), ComputeNamespace(table, s.namespace, sums).value);
              && p.slug in r
              && (s.numerator.None? ==> OperandMeaning(table, s, s.numerator, sums) == r[p.slug])
              && (s.denominator.None? ==> OperandMeaning(table, s, s.denominator, sums) == r[p.slug])
  {
    hide WellFormed, Apply, Reports, ComputeNamespace;
    ComputeMeans(table, s.namespace, sums);
    ApplyReports(s, OperandMeaning(table, s, s.numerator, sums), OperandMeaning(table, s, s.denominator, sums));
  }
}
