/** powerbi_contract.py: Power BI compares measure names without regard to case.  Which shipped names that
    makes one, and what is then read under them. */
module CaseFolding {
  import opened Prelude
  import opened Facts
  import opened Text
  import opened Kpis
  import opened Dax
  import opened KpiTable

  function LowerChar(c: char): char {
    if 'A' <= c <= 'Z' then (c as int + 32) as char else c
  }

  function Lower(s: string): (r: string)
    ensures |r| == |s| && forall i | 0 <= i < |s| :: r[i] == LowerChar(s[i])
  {
    seq(|s|, i requires 0 <= i < |s| => LowerChar(s[i]))
  }

  // ---- reading without regard to case ------------------------------------------------------------------

  function FoldExpr(e: Expr): Expr {
    match e
    case MeasureRef(name) => MeasureRef(Lower(name))
    case DivideFn(l, r) => DivideFn(FoldExpr(l), FoldExpr(r))
    case VarDef(x, v, body) => VarDef(x, FoldExpr(v), FoldExpr(body))
    case IfThenElse(c, yes, no) => IfThenElse(FoldCond(c), FoldExpr(yes), FoldExpr(no))
    case Plus(l, r) => Plus(FoldExpr(l), FoldExpr(r))
    case Minus(l, r) => Minus(FoldExpr(l), FoldExpr(r))
    case _ => e
  }

  function FoldCond(c: Cond): Cond {
    match c
    case IsBlank(e) => IsBlank(FoldExpr(e))
    case OrFn(l, r) => OrFn(FoldCond(l), FoldCond(r))
  }

  /** The model with every measure name in lower case, where it stands and where it is used. */
  function FoldModel(model: Model): (r: Model)
    ensures |r| == |model| && forall i | 0 <= i < |r| :: r[i] == (Lower(model[i].0), FoldExpr(model[i].1))
  {
    seq(|model|, i requires 0 <= i < |model| => (Lower(model[i].0), FoldExpr(model[i].1)))
  }

  function Refs(e: Expr): set<string> {
    match e
    case MeasureRef(name) => {name}
    case DivideFn(l, r) => Refs(l) + Refs(r)
    case VarDef(_, v, body) => Refs(v) + Refs(body)
    case IfThenElse(c, yes, no) => CondRefs(c) + Refs(yes) + Refs(no)
    case Plus(l, r) => Refs(l) + Refs(r)
    case Minus(l, r) => Refs(l) + Refs(r)
    case _ => {}
  }

  function CondRefs(c: Cond): set<string> {
    match c
    case IsBlank(e) => Refs(e)
    case OrFn(l, r) => CondRefs(l) + CondRefs(r)
  }

  /** Each of the names stands for the same definition with and without regard to case, and the
      definitions refer only to such names. */
  ghost predicate FoldsWell(model: Model, names: set<string>) {
    forall n | n in names ::
      && Resolve(model, n).Some?
      && Resolve(FoldModel(model), Lower(n)) == Some(FoldExpr(Resolve(model, n).value))
      && Refs(Resolve(model, n).value) <= names
  }

  /** Over such names, case makes no difference to what is computed. */
  lemma {:induction false} FoldEval(model: Model, names: set<string>, depth: nat, facts: seq<Fact>, env: Env, e: Expr)
    requires FoldsWell(model, names) && Refs(e) <= names
    ensures Eval(FoldModel(model), depth, facts, env, FoldExpr(e)) == Eval(model, depth, facts, env, e)
    decreases depth, e
  {
    hide FoldsWell, FoldModel, Lower, Resolve, Summary;
    match e
    case MeasureRef(name) =>
      FoldRef(model, names, depth, facts, env, name);
    case DivideFn(l, r) =>
      FoldEval(model, names, depth, facts, env, l);
      FoldEval(model, names, depth, facts, env, r);
    case VarDef(x, v, body) =>
      FoldEval(model, names, depth, facts, env, v);
      FoldEval(model, names, depth, facts, env[x := Eval(model, depth, facts, env, v)], body);
    case IfThenElse(c, yes, no) =>
      FoldHolds(model, names, depth, facts, env, c);
      FoldEval(model, names, depth, facts, env, yes);
      FoldEval(model, names, depth, facts, env, no);
    case Plus(l, r) =>
      FoldEval(model, names, depth, facts, env, l);
      FoldEval(model, names, depth, facts, env, r);
    case Minus(l, r) =>
      FoldEval(model, names, depth, facts, env, l);
      FoldEval(model, names, depth, facts, env, r);
    case _ =>
  }

  lemma {:induction false} FoldRef(model: Model, names: set<string>, depth: nat, facts: seq<Fact>, env: Env, name: string)
    requires FoldsWell(model, names) && name in names
    ensures Eval(FoldModel(model), depth, facts, env, FoldExpr(MeasureRef(name))) == Eval(model, depth, facts, env, MeasureRef(name))
    decreases depth, MeasureRef(name), 0
  {
    hide FoldsWell, FoldModel, Lower, Resolve, Summary;
    NameFolds(model, names, name);
    if depth > 0 {
      FoldEval(model, names, depth - 1, facts, map[], Resolve(model, name).value);
    }
  }

  lemma {:induction false} FoldHolds(model: Model, names: set<string>, depth: nat, facts: seq<Fact>, env: Env, c: Cond)
    requires FoldsWell(model, names) && CondRefs(c) <= names
    ensures Holds(FoldModel(model), depth, facts, env, FoldCond(c)) == Holds(model, depth, facts, env, c)
    decreases depth, c
  {
    hide FoldsWell, FoldModel, Lower, Resolve, Summary;
    match c
    case IsBlank(e) =>
      FoldEval(model, names, depth, facts, env, e);
    case OrFn(l, r) =>
      FoldHolds(model, names, depth, facts, env, l);
      FoldHolds(model, names, depth, facts, env, r);
  }

  lemma {:induction false} NameFolds(model: Model, names: set<string>, n: string)
    requires FoldsWell(model, names) && n in names
    ensures Resolve(model, n).Some?
    ensures Resolve(FoldModel(model), Lower(n)) == Some(FoldExpr(Resolve(model, n).value))
    ensures Refs(Resolve(model, n).value) <= names
  {
  }

  // ---- the shipped names ---------------------------------------------------------------------------------

  const FIRST_TWIN: nat := 13
  const SECOND_TWIN: nat := 17

  /** Where a name in lower case belongs; the two twins share a place. */
  function FoldPosition(s: string): int {
    match |s|
    case 3 => 0
    case 4 => if s[0] == 'r' then 2 else 31
    case 6 => if s[0] == 'f' then 32 else 35
    case 7 => 39
    case 9 => if s[0] == 'c' then 4 else 33
    case 10 => 42
    case 11 => if s[0] == 'a' then 27 else if s[0] == 'i' then 34 else 36
    case 12 => 30
    case 13 => 16
    case 14 => 28
    case 15 => if s[0] == 'c' then 1 else 3
    case 17 => 9
    case 18 => 26
    case 19 => if s[0] == 'c' then 18 else 24
    case 20 => if s[6] == 't' then 5 else if s[6] == '+' then 10 else if s[6] == 'd' then 14 else 23
    case 21 => 41
    case 22 => if s[0] == 'v' then 8 else if s[0] == 'd' then 13 else if s[0] == 'c' then 21 else 25
    case 23 => if s[6] == 'v' then 7 else 11
    case 25 => if s[0] == 'q' then 15 else if s[0] == 'd' then 22 else 38
    case 26 => if s[0] == 'q' then 6 else if s[0] == 'a' then 12 else 40
    case 29 => 19
    case 30 => if s[0] == 'c' then 20 else if s[0] == 'u' then 29 else 37
    case _ => -1
  }

  function Place(i: nat): nat {
    if i == SECOND_TWIN then FIRST_TWIN else i
  }

  lemma {:induction false} FoldFound0(i: nat)
    requires 0 <= i < 8
    ensures FoldPosition(Lower(ExpectedName(i))) == i
  {
  }

  lemma {:induction false} FoldFound1(i: nat)
    requires 8 <= i < 16
    ensures FoldPosition(Lower(ExpectedName(i))) == i
  {
  }

  lemma {:induction false} FoldFound2(i: nat)
    requires 16 <= i < 24
    ensures FoldPosition(Lower(ExpectedName(i))) == Place(i)
  {
  }

  lemma {:induction false} FoldFound3(i: nat)
    requires 24 <= i < 31
    ensures FoldPosition(Lower(ExpectedName(i))) == i
  {
  }

  lemma {:induction false} FoldFound(i: nat)
    requires i < SIZE
    ensures FoldPosition(Lower(MeasureName(KPI_SPECS, SpecAt(i)))) == Place(i)
  {
    hide FoldPosition, Lower, ExpectedName, SpecAt, MeasureName;
    NameIsExpected(i);
    if i < 8 { FoldFound0(i); } else if i < 16 { FoldFound1(i); } else if i < 24 { FoldFound2(i); } else { FoldFound3(i); }
  }

  lemma {:induction false} AdditiveFolds(a: (string, Expr))
    requires a in ADDITIVE_MODEL
    ensures FoldPosition(Lower(a.0)) >= SIZE
  {
  }

  lemma {:induction false} TwinsFoldAlike()
    ensures Lower(MeasureName(KPI_SPECS, SpecAt(FIRST_TWIN))) == Lower(MeasureName(KPI_SPECS, SpecAt(SECOND_TWIN)))
    ensures MeasureName(KPI_SPECS, SpecAt(FIRST_TWIN)) != MeasureName(KPI_SPECS, SpecAt(SECOND_TWIN))
  {
    hide SpecAt, MeasureName, SameDisplayName;
    NameIsExpected(13);
    NameIsExpected(17);
    var a, b := "Delivered to Imp. Rate", "Delivered to Imp. rate";
    assert a[18] != b[18];
    assert a[..18] == b[..18] && a[19..] == b[19..];
    assert Lower(a) == Lower(b);
  }

  /** Without regard to case, two of the shipped measure names are one, the QA and the client
      delivered-to-impression rates, and no others are: among the KPIs, or between a KPI and an additive
      measure. */
  lemma {:induction false} OnlyTwinsCollide(i: nat, j: nat)
    requires i < j < SIZE
    ensures Lower(MeasureName(KPI_SPECS, SpecAt(i))) == Lower(MeasureName(KPI_SPECS, SpecAt(j))) <==> i == FIRST_TWIN && j == SECOND_TWIN
    ensures forall a | a in ADDITIVE_MODEL :: Lower(a.0) != Lower(MeasureName(KPI_SPECS, SpecAt(i)))
  {
    hide SpecAt, MeasureName, FoldPosition, Lower, ADDITIVE_MODEL;
    FoldFound(i);
    FoldFound(j);
    TwinsFoldAlike();
    forall a | a in ADDITIVE_MODEL
      ensures Lower(a.0) != Lower(MeasureName(KPI_SPECS, SpecAt(i)))
    {
      AdditiveFolds(a);
    }
  }

  // ---- what is read under them ---------------------------------------------------------------------------------

  lemma {:induction false} NoParentNoRefs(table: seq<KpiSpec>, s: KpiSpec)
    requires Compile(table, s).Ok? && s.dependsOn.None?
    ensures Refs(Compile(table, s).value) == {}
  {
    hide MeasureName, BlankSafe;
    var (l, r) := (SumOrParent(s.numerator, NoText), SumOrParent(s.denominator, NoText));
    assert Refs(l) == {} && Refs(r) == {};
    BlankSafeRefs(l, r);
  }

  lemma {:induction false} BlankSafeRefs(l: Expr, r: Expr)
    ensures Refs(BlankSafe(l, r, (a, b) => Plus(a, b))) == Refs(l) + Refs(r)
    ensures Refs(BlankSafe(l, r, (a, b) => Minus(a, b))) == Refs(l) + Refs(r)
  {
    var (x, y) := (VarUse("_left"), VarUse("_right"));
    var guard := OrFn(IsBlank(x), IsBlank(y));
    assert CondRefs(IsBlank(x)) == {} && CondRefs(IsBlank(y)) == {} && CondRefs(guard) == {};
    forall body | body == Plus(x, y) || body == Minus(x, y)
      ensures Refs(VarDef("_left", l, VarDef("_right", r, IfThenElse(guard, BlankFn, body)))) == Refs(l) + Refs(r)
    {
      assert Refs(body) == {};
      var inner := IfThenElse(guard, BlankFn, body);
      assert Refs(inner) == {};
      assert Refs(VarDef("_right", r, inner)) == Refs(r);
    }
  }

  lemma {:induction false} ParentRefs(table: seq<KpiSpec>, s: KpiSpec, p: KpiSpec)
    requires Compile(table, s).Ok? && s.operation.Divide? && s.dependsOn == Some(p.id) && FirstById(table, p.id) == Some(p)
    ensures Refs(Compile(table, s).value) <= {MeasureName(table, p)}
  {
    hide MeasureName;
  }

  function NamesIn(table: seq<KpiSpec>, specs: seq<KpiSpec>): (r: set<string>)
    ensures forall s | s in specs :: MeasureName(table, s) in r
    ensures forall n | n in r :: exists s :: s in specs && MeasureName(table, s) == n
  {
    set s | s in specs :: MeasureName(table, s)
  }

  lemma {:induction false} ShippedRefs(i: nat)
    requires i < SIZE
    ensures Compile(KPI_SPECS, SpecAt(i)).Ok?
    ensures Refs(Compile(KPI_SPECS, SpecAt(i)).value) <= NamesIn(KPI_SPECS, KPI_SPECS)
  {
    hide SpecAt, MeasureName, WellFormed, Compile, FirstSpecs, Str;
    TableWellFormed();
    SpecsAt(i);
    CompileSucceeds(KPI_SPECS, SpecAt(i));
    Shape(i);
    if i == 11 || i == 12 {
      Parent(i);
      IdsUnique(KPI_SPECS);
      FirstByIdFinds(KPI_SPECS, SpecAt(9));
      ParentRefs(KPI_SPECS, SpecAt(i), SpecAt(9));
    } else {
      NoParentNoRefs(KPI_SPECS, SpecAt(i));
    }
  }

  /** The twins are one formula. */
  lemma {:induction false} TwinsAgree()
    ensures Compile(KPI_SPECS, SpecAt(FIRST_TWIN)) == Compile(KPI_SPECS, SpecAt(SECOND_TWIN))
  {
    hide FirstSpecs, MeasureName;
  }

  /** A name in lower case resolves to the definition of its own KPI. */
  lemma {:induction false} FoldResolves(i: nat)
    requires i < SIZE
    ensures Render(KPI_SPECS).Ok? && Compile(KPI_SPECS, SpecAt(i)).Ok?
    ensures Resolve(FoldModel(Render(KPI_SPECS).value), Lower(MeasureName(KPI_SPECS, SpecAt(i)))) == Some(FoldExpr(Compile(KPI_SPECS, SpecAt(i)).value))
  {
    hide SpecAt, MeasureName, Lower, Compile, FoldExpr, WellFormed, Resolve, ADDITIVE_MODEL, FoldPosition, FirstSpecs;
    TableWellFormed();
    CompileAllLists(KPI_SPECS, KPI_SPECS);
    var kpis := CompileAll(KPI_SPECS, KPI_SPECS).value;
    var model := ADDITIVE_MODEL + kpis;
    var (n, k) := (|ADDITIVE_MODEL|, Place(i));
    var folded := FoldModel(model);
    SpecsAt(i);
    SpecsAt(k);
    CompileSucceeds(KPI_SPECS, SpecAt(i));
    TwinsAgree();
    TwinsFoldAlike();
    assert model[n + k] == kpis[k];
    assert folded[n + k] == (Lower(MeasureName(KPI_SPECS, SpecAt(i))), FoldExpr(Compile(KPI_SPECS, SpecAt(i)).value));
    forall j | 0 <= j < n + k
      ensures folded[j].0 != folded[n + k].0
    {
      FoldFound(i);
      if j < n {
        assert model[j] == ADDITIVE_MODEL[j] && ADDITIVE_MODEL[j] in ADDITIVE_MODEL;
        AdditiveFolds(ADDITIVE_MODEL[j]);
      } else {
        assert model[j] == kpis[j - n];
        SpecsAt(j - n);
        FoldFound(j - n);
      }
    }
    ResolveAt(folded, n + k);
  }

  lemma {:induction false} ShippedFoldsWell()
    ensures Render(KPI_SPECS).Ok? && FoldsWell(Render(KPI_SPECS).value, NamesIn(KPI_SPECS, KPI_SPECS))
  {
    hide SpecAt, MeasureName, Lower, Compile, FoldExpr, FoldModel, WellFormed, NamesDistinct, Resolve, Render, FirstSpecs;
    TableWellFormed();
    TableNamesDistinct();
    FoldResolves(0);
    forall name | name in NamesIn(KPI_SPECS, KPI_SPECS)
      ensures Resolve(Render(KPI_SPECS).value, name).Some?
      ensures Resolve(FoldModel(Render(KPI_SPECS).value), Lower(name)) == Some(FoldExpr(Resolve(Render(KPI_SPECS).value, name).value))
      ensures Refs(Resolve(Render(KPI_SPECS).value, name).value) <= NamesIn(KPI_SPECS, KPI_SPECS)
    {
      var s :| s in KPI_SPECS && MeasureName(KPI_SPECS, s) == name;
      var i := PositionOf(s);
      NameResolves(KPI_SPECS, s);
      FoldResolves(i);
      ShippedRefs(i);
    }
  }

  /** The shipped table under case-insensitive names: every KPI, the twins included, still reads what
      `compute_kpis` returns, since the one clash is between two measures with one definition. */
  lemma {:induction false} ShippedBackendsAgreeIgnoringCase(i: nat, facts: seq<Fact>, depth: nat)
    requires i < SIZE && depth > SpecAt(i).solveOrder
    ensures Render(KPI_SPECS).Ok? && ComputeNamespace(KPI_SPECS, SpecAt(i).namespace, Summary(facts).sums).Ok?
    ensures var computed := ComputeNamespace(KPI_SPECS, SpecAt(i).namespace, Summary(facts).sums).value;
            var name := Lower(MeasureName(KPI_SPECS, SpecAt(i)));
            && SpecAt(i).slug in computed
            && Rounded(SpecAt(i), Eval(FoldModel(Render(KPI_SPECS).value), depth, facts, map[], MeasureRef(name))) == computed[SpecAt(i).slug]
  {
    hide SpecAt, MeasureName, Lower, FoldModel, FoldsWell, Render, ComputeNamespace, Eval, Rounded, Summary, FirstSpecs;
    ShippedBackendsAgree(i, facts, depth);
    ShippedFoldsWell();
    SpecsAt(i);
    var ref := MeasureRef(MeasureName(KPI_SPECS, SpecAt(i)));
    assert KPI_SPECS[i] in KPI_SPECS;
    FoldEval(Render(KPI_SPECS).value, NamesIn(KPI_SPECS, KPI_SPECS), depth, facts, map[], ref);
  }
}
