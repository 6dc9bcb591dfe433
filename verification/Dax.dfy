/** powerbi_contract.py: the second backend.  The same specifications are compiled to DAX measures;
    here the emitted text is a small syntax tree with DAX's own treatment of BLANK, and what the
    measures evaluate to is proved to be what `compute_kpis` computes. */
module Dax {
  import opened Prelude
  import opened Facts
  import opened Numbers
  import opened Ordering
  import opened Kpis

  datatype Expr =
    | Sum(m: Measure)                              // SUM ( table[column] )
    | MeasureRef(name: string)                     // [name]
    | DivideFn(left: Expr, right: Expr)            // DIVIDE ( left, right )
    | VarDef(name: string, value: Expr, body: Expr)
    | VarUse(name: string)
    | IfThenElse(cond: Cond, yes: Expr, no: Expr)
    | BlankFn
    | Plus(left: Expr, right: Expr)
    | Minus(left: Expr, right: Expr)
    | NoText                                       // the empty text left by a missing operand

  datatype Cond = IsBlank(e: Expr) | OrFn(left: Cond, right: Cond)

  /** A model: measures with their definitions, in the order they are pasted. */
  type Model = seq<(string, Expr)>

  // ---- what DAX computes ----------------------------------------------------------------------

  type Env = map<string, Option<real>>

  function Resolve(model: Model, name: string): Option<Expr> {
    if model == [] then None
    else if model[0].0 == name then Some(model[0].1)
    else Resolve(model[1..], name)
  }

  function OrBlankZero(v: Option<real>): real {
    v.GetOr(0.0)
  }

  /** The value of an expression on the facts in context, BLANK being None.  A measure reference
      is followed at most `depth` times; a name that is not defined gives BLANK. */
  function Eval(model: Model, depth: nat, facts: seq<Fact>, env: Env, e: Expr): Option<real>
    decreases depth, e
  {
    match e
    case Sum(m) => Lookup(Summary(facts).sums, m)
    case MeasureRef(name) =>
      var body := Resolve(model, name);
      if depth == 0 || body.None? then None else Eval(model, depth - 1, facts, map[], body.value)
    case DivideFn(l, r) =>
      var num, den := Eval(model, depth, facts, env, l), Eval(model, depth, facts, env, r);
      if num.None? || den.None? || den.value == 0.0 then None else Some(num.value / den.value)
    case VarDef(x, v, body) => Eval(model, depth, facts, env[x := Eval(model, depth, facts, env, v)], body)
    case VarUse(x) => if x in env then env[x] else None
    case IfThenElse(c, yes, no) =>
      if Holds(model, depth, facts, env, c) then Eval(model, depth, facts, env, yes) else Eval(model, depth, facts, env, no)
    case BlankFn => None
    // arithmetic reads BLANK as zero unless both sides are BLANK
    case Plus(l, r) =>
      var a, b := Eval(model, depth, facts, env, l), Eval(model, depth, facts, env, r);
      if a.None? && b.None? then None else Some(OrBlankZero(a) + OrBlankZero(b))
    case Minus(l, r) =>
      var a, b := Eval(model, depth, facts, env, l), Eval(model, depth, facts, env, r);
      if a.None? && b.None? then None else Some(OrBlankZero(a) - OrBlankZero(b))
    case NoText => None
  }

  predicate Holds(model: Model, depth: nat, facts: seq<Fact>, env: Env, c: Cond)
    decreases depth, c
  {
    match c
    case IsBlank(e) => Eval(model, depth, facts, env, e).None?
    case OrFn(l, r) => Holds(model, depth, facts, env, l) || Holds(model, depth, facts, env, r)
  }

  // ---- the compiler ---------------------------------------------------------------------------

  predicate IsSpace(c: char) {
    c == ' ' || '\t' <= c <= '\r'
  }

  function StripLeft(s: string): string {
    if s != "" && IsSpace(s[0]) then StripLeft(s[1..]) else s
  }

  function StripRight(s: string): string {
    if s != "" && IsSpace(s[|s| - 1]) then StripRight(s[..|s| - 1]) else s
  }

  function SameDisplayName(table: seq<KpiSpec>, name: string): nat {
    if table == [] then 0
    else (if table[0].displayName == name then 1 else 0) + SameDisplayName(table[1..], name)
  }

  /** `unique_measure_name`. */
  function MeasureName(table: seq<KpiSpec>, s: KpiSpec): string {
    var title := StripLeft(StripRight(s.displayName));
    if SameDisplayName(table, s.displayName) > 1
    then (if s.namespace.Qa? then "QA " else "Client ") + title
    else title
  }

  /** `next(item for item in KPI_SPECS if item.id == id)`. */
  function FirstById(table: seq<KpiSpec>, id: string): Option<KpiSpec> {
    if table == [] then None
    else if table[0].id == id then Some(table[0])
    else FirstById(table[1..], id)
  }

  /** `_blank_safe_binary`. */
  function BlankSafe(left: Expr, right: Expr, op: (Expr, Expr) -> Expr): Expr {
    VarDef("_left", left, VarDef("_right", right,
      IfThenElse(OrFn(IsBlank(VarUse("_left")), IsBlank(VarUse("_right"))), BlankFn,
                 op(VarUse("_left"), VarUse("_right")))))
  }

  function SumOrParent(column: Option<Column>, parent: Expr): Expr {
    match column
    case Some(Additive(m)) => Sum(m)
    case Some(NativeRate(_)) => NoText
    case None => parent
  }

  /** `dax_expression`. */
  function Compile(table: seq<KpiSpec>, s: KpiSpec): Result<Expr, KpiError> {
    if !ReadsAdditive(s.numerator) || !ReadsAdditive(s.denominator) then Err(ReadsNativeRate)
    else if s.dependsOn.Some? && FirstById(table, s.dependsOn.value).None? then Err(UnknownParent)
    else
      var parent := if s.dependsOn.Some? then MeasureRef(MeasureName(table, FirstById(table, s.dependsOn.value).value)) else NoText;
      if s.operation.Divide? then Ok(DivideFn(SumOrParent(s.numerator, parent), SumOrParent(s.denominator, parent)))
      else if s.numerator.None? || s.denominator.None? then Err(MissingOperand)
      else
        var (l, r) := (SumOrParent(s.numerator, parent), SumOrParent(s.denominator, parent));
        if s.operation.Add? then Ok(BlankSafe(l, r, (a, b) => Plus(a, b))) else Ok(BlankSafe(l, r, (a, b) => Minus(a, b)))
  }

  function CompileAll(table: seq<KpiSpec>, specs: seq<KpiSpec>): Result<Model, KpiError> {
    if specs == [] then Ok([])
    else
      match Compile(table, specs[0])
      case Err(e) => Err(e)
      case Ok(body) =>
        match CompileAll(table, specs[1..])
        case Err(e) => Err(e)
        case Ok(rest) => Ok([(MeasureName(table, specs[0]), body)] + rest)
  }

  const ADDITIVE_MODEL: Model := [
    ("Sent", Sum(Sent)), ("Failed", Sum(Failed)), ("Delivered", Sum(Delivered)),
    ("Impressions", Sum(UniqueImpressions)), ("Clicks", Sum(UniqueClicks)), ("Conversions", Sum(UniqueConversions)),
    ("Impression-Through Conversions", Sum(ImpressionThroughConversions)),
    ("Click-Through Conversions", Sum(ClickThroughConversions)), ("Revenue", Sum(RevenueInr)),
    ("Impression-Through Revenue", Sum(ImpressionThroughRevenue)),
    ("Click-Through Revenue", Sum(ClickThroughRevenue)), ("Total Cost", Sum(TotalCost))]

  /** The measures `render_measures_dax` writes: additive facts, then one for each KPI. */
  function Render(table: seq<KpiSpec>): Result<Model, KpiError> {
    match CompileAll(table, table)
    case Err(e) => Err(e)
    case Ok(kpis) => Ok(ADDITIVE_MODEL + kpis)
  }

  // ---- correctness ----------------------------------------------------------------------------

  /** No two measures of the model share a name, and no KPI takes an additive measure's. */
  ghost predicate NamesDistinct(table: seq<KpiSpec>) {
    && (forall i, j | 0 <= i < j < |table| :: MeasureName(table, table[i]) != MeasureName(table, table[j]))
    && (forall s | s in table :: forall a | a in ADDITIVE_MODEL :: a.0 != MeasureName(table, s))
  }

  lemma {:induction false} FirstByIdFinds(table: seq<KpiSpec>, p: KpiSpec)
    requires forall i, j | 0 <= i < j < |table| :: table[i].id != table[j].id
    requires p in table
    ensures FirstById(table, p.id) == Some(p)
  {
    if table[0].id != p.id {
      assert p in table[1..];
      FirstByIdFinds(table[1..], p);
    }
  }

  /** On a well-formed table the compiler never fails. */
  lemma {:induction false} CompileSucceeds(table: seq<KpiSpec>, s: KpiSpec)
    requires WellFormed(table) && s in table
    ensures Compile(table, s).Ok?
  {
    assert SpecOk(table, s);
    if s.dependsOn.Some? {
      FirstByIdFinds(table, ParentOf(table, s));
    }
  }

  lemma {:induction false} CompileAllLists(table: seq<KpiSpec>, specs: seq<KpiSpec>)
    requires WellFormed(table) && forall s | s in specs :: s in table
    ensures var r := CompileAll(table, specs);
            && r.Ok? && |r.value| == |specs|
            && forall i | 0 <= i < |specs| :: Compile(table, specs[i]).Ok? && r.value[i] == (MeasureName(table, specs[i]), Compile(table, specs[i]).value)
  {
    hide Compile, MeasureName, WellFormed;
    if specs != [] {
      assert specs[0] in specs && forall s | s in specs[1..] :: s in specs;
      CompileSucceeds(table, specs[0]);
      CompileAllLists(table, specs[1..]);
    }
  }

  lemma {:induction false} ResolveAt(model: Model, i: nat)
    requires i < |model| && forall j | 0 <= j < i :: model[j].0 != model[i].0
    ensures Resolve(model, model[i].0) == Some(model[i].1)
  {
    if i > 0 {
      assert model[1..][i - 1] == model[i];
      forall j | 0 <= j < i - 1
        ensures model[1..][j].0 != model[i].0
      {
        assert model[1..][j] == model[j + 1];
      }
      ResolveAt(model[1..], i - 1);
    }
  }

  /** Every KPI's name stands for its own definition. */
  lemma {:induction false} NameResolves(table: seq<KpiSpec>, s: KpiSpec)
    requires WellFormed(table) && NamesDistinct(table) && s in table
    ensures Render(table).Ok? && Compile(table, s).Ok?
    ensures Resolve(Render(table).value, MeasureName(table, s)) == Some(Compile(table, s).value)
  {
    hide Compile, MeasureName, WellFormed, Resolve, ADDITIVE_MODEL;
    CompileSucceeds(table, s);
    CompileAllLists(table, table);
    var kpis := CompileAll(table, table).value;
    var i :| 0 <= i < |table| && table[i] == s;
    var model := ADDITIVE_MODEL + kpis;
    var at := |ADDITIVE_MODEL| + i;
    assert model[at] == kpis[i];
    forall j | 0 <= j < at
      ensures model[j].0 != model[at].0
    {
      if j < |ADDITIVE_MODEL| {
        assert model[j] == ADDITIVE_MODEL[j] && ADDITIVE_MODEL[j] in ADDITIVE_MODEL;
      } else {
        assert model[j] == kpis[j - |ADDITIVE_MODEL|];
      }
    }
    ResolveAt(model, at);
  }

  /** The operation of a specification without its final rounding. */
  function Unquantized(s: KpiSpec, left: Option<real>, right: Option<real>): Option<real> {
    if left.None? || right.None? then None
    else
      match s.operation
      case Divide => if right.value == 0.0 then None else Some(left.value / right.value)
      case Add => Some(left.value + right.value)
      case Subtract => Some(left.value - right.value)
  }

  /** The rounding `compute_kpis` gives a specification. */
  function Rounded(s: KpiSpec, v: Option<real>): Option<real> {
    if v.None? || Unrounded(s) then v else Some(Quantize(v.value, Units(s.kind)))
  }

  lemma {:induction false} ApplyIsRounded(s: KpiSpec, left: Option<real>, right: Option<real>)
    ensures Apply(s, left, right) == Rounded(s, Unquantized(s, left, right))
  {
  }

  lemma {:induction false} VarDefEval(model: Model, depth: nat, facts: seq<Fact>, env: Env, x: string, m: Measure, body: Expr)
    ensures Eval(model, depth, facts, env, VarDef(x, Sum(m), body)) ==
            Eval(model, depth, facts, env[x := Lookup(Summary(facts).sums, m)], body)
  {
    hide Summary;
    assert Eval(model, depth, facts, env, Sum(m)) == Lookup(Summary(facts).sums, m);
  }

  /** The guarded body: BLANK if either variable is. */
  lemma {:induction false} GuardEval(model: Model, depth: nat, facts: seq<Fact>, env: Env, body: Expr)
    requires "_left" in env && "_right" in env
    ensures Eval(model, depth, facts, env, IfThenElse(OrFn(IsBlank(VarUse("_left")), IsBlank(VarUse("_right"))), BlankFn, body)) ==
            if env["_left"].None? || env["_right"].None? then None else Eval(model, depth, facts, env, body)
  {
    var l, r := IsBlank(VarUse("_left")), IsBlank(VarUse("_right"));
    assert Eval(model, depth, facts, env, VarUse("_left")) == env["_left"];
    assert Eval(model, depth, facts, env, VarUse("_right")) == env["_right"];
    assert Holds(model, depth, facts, env, l) == env["_left"].None?;
    assert Holds(model, depth, facts, env, r) == env["_right"].None?;
    assert Holds(model, depth, facts, env, OrFn(l, r)) == (env["_left"].None? || env["_right"].None?);
  }

  lemma {:induction false} ArithmeticEval(model: Model, depth: nat, facts: seq<Fact>, env: Env)
    requires "_left" in env && "_right" in env && env["_left"].Some? && env["_right"].Some?
    ensures Eval(model, depth, facts, env, Plus(VarUse("_left"), VarUse("_right"))) == Some(env["_left"].value + env["_right"].value)
    ensures Eval(model, depth, facts, env, Minus(VarUse("_left"), VarUse("_right"))) == Some(env["_left"].value - env["_right"].value)
  {
    assert Eval(model, depth, facts, env, VarUse("_left")) == env["_left"];
    assert Eval(model, depth, facts, env, VarUse("_right")) == env["_right"];
  }

  /** A BLANK-safe sum or difference is the NULL-propagating one. */
  lemma {:induction false} BlankSafeEval(model: Model, depth: nat, facts: seq<Fact>, m: Measure, n: Measure)
    ensures var (a, b) := (Lookup(Summary(facts).sums, m), Lookup(Summary(facts).sums, n));
            && Eval(model, depth, facts, map[], BlankSafe(Sum(m), Sum(n), (x, y) => Plus(x, y))) ==
               (if a.None? || b.None? then None else Some(a.value + b.value))
            && Eval(model, depth, facts, map[], BlankSafe(Sum(m), Sum(n), (x, y) => Minus(x, y))) ==
               (if a.None? || b.None? then None else Some(a.value - b.value))
  {
    hide Summary, Eval, Holds;
    var a, b := Lookup(Summary(facts).sums, m), Lookup(Summary(facts).sums, n);
    assert "_left"[1] != "_right"[1];
    var env: Env := map["_left" := a]["_right" := b];
    assert env["_left"] == a && env["_right"] == b;
    var l, r := VarUse("_left"), VarUse("_right");
    var guard := OrFn(IsBlank(l), IsBlank(r));
    forall body | body == Plus(l, r) || body == Minus(l, r)
      ensures Eval(model, depth, facts, map[], VarDef("_left", Sum(m), VarDef("_right", Sum(n), IfThenElse(guard, BlankFn, body)))) ==
              if a.None? || b.None? then None else Eval(model, depth, facts, env, body)
    {
      var inner := IfThenElse(guard, BlankFn, body);
      VarDefEval(model, depth, facts, map[], "_left", m, VarDef("_right", Sum(n), inner));
      VarDefEval(model, depth, facts, map["_left" := a], "_right", n, inner);
      assert map["_left" := a] == (map[])["_left" := a];
      GuardEval(model, depth, facts, env, body);
    }
    if a.Some? && b.Some? {
      ArithmeticEval(model, depth, facts, env);
    }
  }

  /** Compiled code computes the formula: for every well-formed table with distinct measure names,
      every KPI and every set of facts, the measure's value, rounded as the KPI is, is the KPI's
      meaning; an unrounded KPI needs no rounding at all. */
  lemma {:induction false} CompiledMeans(table: seq<KpiSpec>, s: KpiSpec, facts: seq<Fact>, depth: nat)
    requires WellFormed(table) && NamesDistinct(table) && s in table && depth >= s.solveOrder
    ensures Render(table).Ok? && Compile(table, s).Ok?
    ensures Rounded(s, Eval(Render(table).value, depth, facts, map[], Compile(table, s).value)) ==
            Meaning(table, s, Summary(facts).sums)
    decreases s.solveOrder
  {
    hide Summary, Eval, Render, MeasureName, WellFormed, NamesDistinct, Quantize, Apply;
    NameResolves(table, s);
    SpecIsOk(table, s);
    var model, sums := Render(table).value, Summary(facts).sums;
    var left, right := OperandMeaning(table, s, s.numerator, sums), OperandMeaning(table, s, s.denominator, sums);
    ApplyIsRounded(s, left, right);
    if s.operation.Divide? {
      OperandEval(table, s, s.numerator, facts, depth);
      OperandEval(table, s, s.denominator, facts, depth);
      var e := Compile(table, s).value;
      DivideEval(model, depth, facts, e.left, e.right);
    } else {
      BlankSafeEval(model, depth, facts, s.numerator.value.m, s.denominator.value.m);
    }
  }

  lemma {:induction false} SpecIsOk(table: seq<KpiSpec>, s: KpiSpec)
    requires WellFormed(table) && s in table
    ensures SpecOk(table, s)
  {
  }

  lemma {:induction false} DivideEval(model: Model, depth: nat, facts: seq<Fact>, l: Expr, r: Expr)
    ensures var (a, b) := (Eval(model, depth, facts, map[], l), Eval(model, depth, facts, map[], r));
            Eval(model, depth, facts, map[], DivideFn(l, r)) ==
            if a.None? || b.None? || b.value == 0.0 then None else Some(a.value / b.value)
  {
  }

  /** The text that Compile puts for an operand. */
  function OperandExpr(table: seq<KpiSpec>, s: KpiSpec, column: Option<Column>): Expr {
    SumOrParent(column,
      if s.dependsOn.Some? && FirstById(table, s.dependsOn.value).Some?
      then MeasureRef(MeasureName(table, FirstById(table, s.dependsOn.value).value)) else NoText)
  }

  lemma {:induction false} OperandEval(table: seq<KpiSpec>, s: KpiSpec, column: Option<Column>, facts: seq<Fact>, depth: nat)
    requires WellFormed(table) && NamesDistinct(table) && s in table && depth >= s.solveOrder
    requires ReadsAdditive(column) && (column.None? ==> s.dependsOn.Some?)
    ensures Render(table).Ok?
    ensures Eval(Render(table).value, depth, facts, map[], OperandExpr(table, s, column)) ==
            OperandMeaning(table, s, column, Summary(facts).sums)
    decreases s.solveOrder, 0
  {
    hide Summary, Render, MeasureName, WellFormed, NamesDistinct, Compile, Apply;
    NameResolves(table, s);
    if column.None? {
      var p := ParentOf(table, s);
      IdsUnique(table);
      FirstByIdFinds(table, p);
      NameResolves(table, p);
      CompiledMeans(table, p, facts, depth - 1);
    }
  }

  lemma {:induction false} IdsUnique(table: seq<KpiSpec>)
    requires WellFormed(table)
    ensures forall i, j | 0 <= i < j < |table| :: table[i].id != table[j].id
  {
  }

  /** The two backends agree: reading a KPI's measure by its name in Power BI and rounding it as the
      KPI is gives exactly what `compute_kpis` returns for that KPI on the summed facts, with BLANK
      for NULL. */
  lemma {:induction false} BackendsAgree(table: seq<KpiSpec>, s: KpiSpec, facts: seq<Fact>, depth: nat)
    requires WellFormed(table) && NamesDistinct(table) && s in table && depth > s.solveOrder
    ensures Render(table).Ok? && ComputeNamespace(table, s.namespace, Summary(facts).sums).Ok?
    ensures var computed := ComputeNamespace(table, s.namespace, Summary(facts).sums).value;
            && s.slug in computed
            && Rounded(s, Eval(Render(table).value, depth, facts, map[], MeasureRef(MeasureName(table, s)))) == computed[s.slug]
  {
    hide Summary, Render, MeasureName, WellFormed, NamesDistinct, Compile, Meaning, Resolve, ComputeNamespace, Rounded;
    NameResolves(table, s);
    CompiledMeans(table, s, facts, depth - 1);
    ComputeMeans(table, s.namespace, Summary(facts).sums);
  }

  predicate ReadsNative(s: KpiSpec) {
    !ReadsAdditive(s.numerator) || !ReadsAdditive(s.denominator)
  }

  lemma {:induction false} CompileAllRefuses(table: seq<KpiSpec>, specs: seq<KpiSpec>, s: KpiSpec)
    requires s in specs && ReadsNative(s)
    ensures CompileAll(table, specs).Err?
  {
    hide MeasureName;
    if s != specs[0] {
      assert s in specs[1..];
      CompileAllRefuses(table, specs[1..], s);
    }
  }

  lemma {:induction false} EvaluateAllRefuses(table: seq<KpiSpec>, specs: seq<KpiSpec>, s: KpiSpec, sums: Sums)
    requires s in specs && ReadsNative(s)
    ensures EvaluateAll(table, specs, sums).Err?
  {
    hide Apply, ById;
    var last := |specs| - 1;
    if s != specs[last] {
      assert specs == specs[..last] + [specs[last]];
      assert s in specs[..last];
      EvaluateAllRefuses(table, specs[..last], s, sums);
    }
  }

  /** Both backends refuse a whole table for one specification that reads a native rate: nothing is
      rendered, and `compute_kpis` fails on every input for the namespace it is in. */
  lemma {:induction false} NativeRatesRefused(table: seq<KpiSpec>, s: KpiSpec, sums: Sums)
    requires s in table && ReadsNative(s)
    ensures Render(table).Err? && ComputeNamespace(table, s.namespace, sums).Err?
  {
    hide ReadsNative, EvaluateAll, CompileAll, Sort;
    CompileAllRefuses(table, table, s);
    InSort(SpecsFor(table, s.namespace), SolveLe);
    EvaluateAllRefuses(table, InSolveOrder(table, s.namespace), s, sums);
  }

  // ---- why a parent must be unrounded -----------------------------------------------------------

  /** A money ratio and a rate over it: the parent is rounded to four places before it is used. */
  const ROUNDED_PARENT: KpiSpec :=
    KpiSpec("p", Client, "P", "p", Some(Additive(Sent)), Some(Additive(Delivered)), Divide, 1, None, Money)
  const ROUNDED_CHILD: KpiSpec :=
    KpiSpec("c", Client, "C", "c", Some(Additive(Sent)), None, Divide, 2, Some("p"), Rate)
  const ROUNDED_TABLE: seq<KpiSpec> := [ROUNDED_PARENT, ROUNDED_CHILD]

  const THIRD: Fact := Fact("client", "campaign", "", 1, None, None, None, None, map[Sent := 1.0, Delivered := 3.0])

  lemma {:induction false} ThirdSums()
    ensures Summary([THIRD]).sums == THIRD.values
  {
    AddRowsZero(Row(1, THIRD.values));
    assert Summary([THIRD]) == AddRows(Row(1, THIRD.values), Summary([]));
  }

  lemma {:induction false} ThirdRounds()
    ensures Quantize(1.0 / 3.0, MONEY_UNITS) == 0.3333
    ensures Quantize(1.0 / 0.3333, RATE_UNITS) == 3.0003
    ensures Quantize(1.0 / (1.0 / 3.0), RATE_UNITS) == 3.0
  {
    assert (1.0 / 3.0) * 10000.0 + 0.5 == 10000.0 / 3.0 + 0.5;
    assert RoundHalfUp((1.0 / 3.0) * MONEY_UNITS) == 3333;
    assert RoundHalfUp((1.0 / 0.3333) * RATE_UNITS) == 3000300;
    assert RoundHalfUp((1.0 / (1.0 / 3.0)) * RATE_UNITS) == 3000000;
  }

  /** `compute_kpis` divides by the rounded third. */
  lemma {:induction false} RoundedComputed()
    ensures ComputeNamespace(ROUNDED_TABLE, Client, Summary([THIRD]).sums) == Ok(map["p" := Some(0.3333), "c" := Some(3.0003)])
  {
    hide Summary, Quantize;
    ThirdSums();
    ThirdRounds();
    var sums := THIRD.values;
    assert ROUNDED_TABLE[1..] == [ROUNDED_CHILD] && [ROUNDED_CHILD][1..] == [];
    assert SpecsFor([ROUNDED_CHILD], Client) == [ROUNDED_CHILD];
    assert SpecsFor(ROUNDED_TABLE, Client) == ROUNDED_TABLE;
    assert Sort([ROUNDED_CHILD], SolveLe) == [ROUNDED_CHILD];
    assert InSolveOrder(ROUNDED_TABLE, Client) == ROUNDED_TABLE;
    assert "p"[0] != "c"[0];
    var first := [ROUNDED_PARENT];
    assert first[..0] == [] && ROUNDED_TABLE[..1] == first;
    assert Evaluate(ROUNDED_TABLE, ROUNDED_PARENT, sums, map[]) == Ok(Some(0.3333));
    assert EvaluateAll(ROUNDED_TABLE, first, sums) == Ok(map["p" := Some(0.3333)]);
    assert ById(ROUNDED_TABLE, "p") == Some(ROUNDED_PARENT);
    assert Evaluate(ROUNDED_TABLE, ROUNDED_CHILD, sums, map["p" := Some(0.3333)]) == Ok(Some(3.0003));
  }

  lemma {:induction false} RoundedRendered()
    ensures Render(ROUNDED_TABLE) == Ok(ADDITIVE_MODEL + [("P", DivideFn(Sum(Sent), Sum(Delivered))), ("C", DivideFn(Sum(Sent), MeasureRef("P")))])
    ensures MeasureName(ROUNDED_TABLE, ROUNDED_CHILD) == "C"
  {
    hide ADDITIVE_MODEL;
    assert "p"[0] != "c"[0] && "P"[0] != "C"[0];
    assert ROUNDED_TABLE[1..] == [ROUNDED_CHILD] && [ROUNDED_CHILD][1..] == [];
    assert SameDisplayName([], "P") == 0 && SameDisplayName([], "C") == 0;
    assert SameDisplayName([ROUNDED_CHILD], "P") == 0 && SameDisplayName([ROUNDED_CHILD], "C") == 1;
    assert SameDisplayName(ROUNDED_TABLE, "P") == 1 && SameDisplayName(ROUNDED_TABLE, "C") == 1;
    assert MeasureName(ROUNDED_TABLE, ROUNDED_PARENT) == "P" && MeasureName(ROUNDED_TABLE, ROUNDED_CHILD) == "C";
    assert FirstById(ROUNDED_TABLE, "p") == Some(ROUNDED_PARENT);
    var child := DivideFn(Sum(Sent), MeasureRef("P"));
    assert Compile(ROUNDED_TABLE, ROUNDED_CHILD) == Ok(child);
    assert CompileAll(ROUNDED_TABLE, []) == Ok([]);
    assert CompileAll(ROUNDED_TABLE, [ROUNDED_CHILD][1..]) == Ok([]);
    assert CompileAll(ROUNDED_TABLE, [ROUNDED_CHILD]) == Ok([("C", child)] + []);
    assert [("C", child)] + [] == [("C", child)];
    var parent := DivideFn(Sum(Sent), Sum(Delivered));
    assert Compile(ROUNDED_TABLE, ROUNDED_PARENT) == Ok(parent);
    assert CompileAll(ROUNDED_TABLE, ROUNDED_TABLE) == Ok([("P", parent)] + [("C", child)]);
    assert [("P", parent)] + [("C", child)] == [("P", parent), ("C", child)];
  }

  /** DAX divides by the third itself. */
  lemma {:induction false} RoundedEvaluated(depth: nat)
    requires depth >= 2
    ensures Render(ROUNDED_TABLE).Ok?
    ensures Eval(Render(ROUNDED_TABLE).value, depth, [THIRD], map[], MeasureRef(MeasureName(ROUNDED_TABLE, ROUNDED_CHILD))) == Some(1.0 / (1.0 / 3.0))
  {
    hide Summary, ROUNDED_TABLE, Render, MeasureName;
    RoundedRendered();
    ThirdSums();
    var model := Render(ROUNDED_TABLE).value;
    var n := |ADDITIVE_MODEL|;
    forall j | 0 <= j < n
      ensures |model[j].0| > 1
    {
    }
    assert model[n].0 == "P" && model[n + 1].0 == "C" && "P"[0] != "C"[0];
    ResolveAt(model, n);
    ResolveAt(model, n + 1);
    DivideEval(model, depth - 2, [THIRD], Sum(Sent), Sum(Delivered));
    DivideEval(model, depth - 1, [THIRD], Sum(Sent), MeasureRef("P"));
  }

  /** With such a parent the backends differ: on one sent and three delivered, `compute_kpis` divides
      by 0.3333 and reports 3.0003, and the pasted measures divide by one third and give 3. */
  lemma {:induction false} RoundedParentDisagrees(depth: nat)
    requires depth >= 2
    ensures Render(ROUNDED_TABLE).Ok? && ComputeNamespace(ROUNDED_TABLE, Client, Summary([THIRD]).sums).Ok?
    ensures var computed := ComputeNamespace(ROUNDED_TABLE, Client, Summary([THIRD]).sums).value;
            var measured := Eval(Render(ROUNDED_TABLE).value, depth, [THIRD], map[], MeasureRef(MeasureName(ROUNDED_TABLE, ROUNDED_CHILD)));
            "c" in computed && computed["c"] == Some(3.0003) && Rounded(ROUNDED_CHILD, measured) == Some(3.0)
  {
    hide Summary, Render, MeasureName, ComputeNamespace, Eval, Quantize;
    RoundedComputed();
    RoundedEvaluated(depth);
    ThirdRounds();
  }
}
