/** filters.py, drill.py and the grouping reads of publication_store.py: dimension filters, group
    and pair rows, and drill paths. */
module Drill {
  import opened Prelude
  import opened Facts
  import opened Calendar

  datatype FilterDim = Campaign | Channel | FilterLogic1 | FilterLogic1Group

  datatype Dim = Of(d: FilterDim) | DayDim

  datatype Filters = Filters(
    campaignIds: seq<string>, channels: seq<string>, filterLogic1: seq<string>, filterLogic1Group: seq<string>)

  function Selected(fl: Filters, d: FilterDim): seq<string> {
    match d
    case Campaign => fl.campaignIds
    case Channel => fl.channels
    case FilterLogic1 => fl.filterLogic1
    case FilterLogic1Group => fl.filterLogic1Group
  }

  function WithSelected(fl: Filters, d: FilterDim, values: seq<string>): Filters {
    match d
    case Campaign => fl.(campaignIds := values)
    case Channel => fl.(channels := values)
    case FilterLogic1 => fl.(filterLogic1 := values)
    case FilterLogic1Group => fl.(filterLogic1Group := values)
  }

  /** The text of a fact on a dimension; NULL reads as the blank value. */
  function TextOf(f: Fact, d: FilterDim): string {
    match d
    case Campaign => f.campaign
    case Channel => f.channel.GetOr("")
    case FilterLogic1 => f.filterLogic1.GetOr("")
    case FilterLogic1Group => f.filterLogic1Group.GetOr("")
  }

  /** `matches_text_filter`: no selection means no filter. */
  predicate MatchesText(text: string, selected: seq<string>) {
    selected == [] || text in selected
  }

  predicate Matches(f: Fact, fl: Filters) {
    && MatchesText(TextOf(f, Campaign), fl.campaignIds)
    && MatchesText(TextOf(f, Channel), fl.channels)
    && MatchesText(TextOf(f, FilterLogic1), fl.filterLogic1)
    && MatchesText(TextOf(f, FilterLogic1Group), fl.filterLogic1Group)
  }

  /** The facts of [from, to) that pass the filters, in order. */
  function Scope(facts: seq<Fact>, from: Day, to: Day, fl: Filters): seq<Fact> {
    if facts == [] then []
    else if from <= facts[0].day < to && Matches(facts[0], fl) then [facts[0]] + Scope(facts[1..], from, to, fl)
    else Scope(facts[1..], from, to, fl)
  }

  // ---- groups and pairs -----------------------------------------------------------------

  function Value(f: Fact, dim: Dim): string {
    match dim
    case Of(d) => TextOf(f, d)
    case DayDim => IsoFormat(f.day)
  }

  /** `a or b or "(blank)"` */
  function Label(f: Fact, dim: Dim): string {
    var value := Value(f, dim);
    if dim == Of(Campaign) && f.campaignName.Some? && f.campaignName.value != "" then f.campaignName.value
    else if dim != DayDim && value == "" then "(blank)"
    else value
  }

  datatype GroupRow = GroupRow(value: string, title: string, row: Row)

  function ValueKey(dim: Dim): Fact -> string {
    f => Value(f, dim)
  }

  /** The label of the last fact of a group is the one that stays. */
  function LastLabel(facts: seq<Fact>, dim: Dim, value: string): string {
    if facts == [] then ""
    else
      var last := facts[|facts| - 1];
      if Value(last, dim) == value then Label(last, dim) else LastLabel(facts[..|facts| - 1], dim, value)
  }

  function GroupRowsOf(facts: seq<Fact>, dim: Dim, values: seq<string>): (rows: seq<GroupRow>)
    ensures |rows| == |values|
    ensures forall i | 0 <= i < |rows| ::
              rows[i] == GroupRow(values[i], LastLabel(facts, dim, values[i]), Summary(Pick(facts, ValueKey(dim), values[i])))
  {
    seq(|values|, i requires 0 <= i < |values| =>
      GroupRow(values[i], LastLabel(facts, dim, values[i]), Summary(Pick(facts, ValueKey(dim), values[i]))))
  }

  /** `list_published_history_groups` on the facts of its scope: one row for each value, in order
      of first appearance. */
  function Groups(facts: seq<Fact>, dim: Dim): seq<GroupRow> {
    GroupRowsOf(facts, dim, FirstSeen(facts, ValueKey(dim)))
  }

  function RowsIn(groups: seq<GroupRow>): (rows: seq<Row>)
    ensures |rows| == |groups| && forall i | 0 <= i < |rows| :: rows[i] == groups[i].row
  {
    seq(|groups|, i requires 0 <= i < |groups| => groups[i].row)
  }

  /** The dimensions a drill can group by, under the names the store knows. */
  function DimNamed(name: string): Option<Dim> {
    if name == "campaign_id" then Some(Of(Campaign))
    else if name == "channel" then Some(Of(Channel))
    else if name == "filter_logic_1" then Some(Of(FilterLogic1))
    else if name == "filter_logic_1_group" then Some(Of(FilterLogic1Group))
    else if name == "day" then Some(DayDim)
    else None
  }

  /** The store's read: nothing for an unknown name; otherwise the grouping loop, and the label that each
      value was given last. */
  method ListGroups(facts: seq<Fact>, dimension: string) returns (rows: seq<GroupRow>)
    ensures rows == match DimNamed(dimension) case None => [] case Some(dim) => Groups(facts, dim)
  {
    hide Groups;
    var named := DimNamed(dimension);
    if named.None? {
      return [];
    }
    rows := GroupBy(facts, named.value);
  }

  method GroupBy(facts: seq<Fact>, dim: Dim) returns (rows: seq<GroupRow>)
    ensures rows == Groups(facts, dim)
  {
    hide LastLabel, Summary, Value, Label, FirstSeen, Pick;
    var order, grouped := GroupFacts(facts, ValueKey(dim));
    var labels: map<string, string> := map[];
    for i := 0 to |facts|
      invariant forall v :: (v in labels <==> HasValue(facts[..i], dim, v))
      invariant forall v | v in labels :: labels[v] == LastLabel(facts[..i], dim, v)
    {
      assert facts[..i + 1] == facts[..i] + [facts[i]];
      LabelStep(facts[..i], facts[i], dim);
      labels := labels[Value(facts[i], dim) := Label(facts[i], dim)];
    }
    assert facts[..|facts|] == facts;
    OrderIsValues(facts, dim);
    rows := [];
    for i := 0 to |order|
      invariant rows == Groups(facts, dim)[..i]
    {
      assert order[i] in order;
      rows := rows + [GroupRow(order[i], labels[order[i]], Summary(grouped[order[i]]))];
    }
  }

  lemma {:induction false} LabelStep(facts: seq<Fact>, f: Fact, dim: Dim)
    ensures forall v :: HasValue(facts + [f], dim, v) <==> HasValue(facts, dim, v) || v == Value(f, dim)
    ensures forall v :: LastLabel(facts + [f], dim, v) == if Value(f, dim) == v then Label(f, dim) else LastLabel(facts, dim, v)
  {
    hide Value, Label;
    assert (facts + [f])[..|facts|] == facts;
    assert forall g :: g in facts + [f] <==> g in facts || g == f;
  }

  lemma {:induction false} OrderIsValues(facts: seq<Fact>, dim: Dim)
    ensures forall v :: v in FirstSeen(facts, ValueKey(dim)) <==> HasValue(facts, dim, v)
  {
    hide Value;
    FirstSeenCovers(facts, ValueKey(dim));
    forall v
      ensures v in FirstSeen(facts, ValueKey(dim)) <==> HasValue(facts, dim, v)
    {
      if f :| f in facts && Value(f, dim) == v {
        assert ValueKey(dim)(f) == v;
      }
      if v in FirstSeen(facts, ValueKey(dim)) {
        var f :| f in facts && ValueKey(dim)(f) == v;
        assert Value(f, dim) == v;
      }
    }
  }

  predicate HasGroup(groups: seq<GroupRow>, v: string) {
    exists g | g in groups :: g.value == v
  }

  predicate HasValue(facts: seq<Fact>, dim: Dim, v: string) {
    exists f | f in facts :: Value(f, dim) == v
  }

  /** Groups conserve: values are distinct, every value of the facts has its row, and the rows add
      up to the row of the whole scope, NULLs and row counts included. */
  lemma {:induction false} GroupsConserve(facts: seq<Fact>, dim: Dim)
    ensures Total(RowsIn(Groups(facts, dim))) == Summary(facts)
    ensures forall i, j | 0 <= i < j < |Groups(facts, dim)| :: Groups(facts, dim)[i].value != Groups(facts, dim)[j].value
  {
    hide LastLabel, Value, Summary, Total;
    var key := ValueKey(dim);
    var values := FirstSeen(facts, key);
    FirstSeenCovers(facts, key);
    PartitionSum(facts, key, values);
    assert RowsIn(Groups(facts, dim)) == RowsBy(facts, key, values);
  }

  lemma {:induction false} GroupsAreValues(facts: seq<Fact>, dim: Dim, v: string)
    ensures HasGroup(Groups(facts, dim), v) <==> HasValue(facts, dim, v)
  {
    hide LastLabel, Value, Summary, FirstSeen, HasValue;
    var values, gs := FirstSeen(facts, ValueKey(dim)), Groups(facts, dim);
    OrderIsValues(facts, dim);
    if v in values {
      var i :| 0 <= i < |values| && values[i] == v;
      assert gs[i] in gs && gs[i].value == v;
    }
    if HasGroup(gs, v) {
      var g :| g in gs && g.value == v;
      var i :| 0 <= i < |gs| && gs[i] == g;
      assert values[i] in values;
    }
  }

  datatype PairRow = PairRow(primary: string, primaryTitle: string, secondary: string, secondaryTitle: string, row: Row)

  function PairKey(p: Dim, s: Dim): Fact -> (string, string) {
    f => (Value(f, p), Value(f, s))
  }

  /** The two labels of the last fact of a pair stay. */
  function LastTitles(facts: seq<Fact>, p: Dim, s: Dim, key: (string, string)): (string, string) {
    if facts == [] then ("", "")
    else
      var last := facts[|facts| - 1];
      if PairKey(p, s)(last) == key then (Label(last, p), Label(last, s)) else LastTitles(facts[..|facts| - 1], p, s, key)
  }

  function PairRowOf(facts: seq<Fact>, p: Dim, s: Dim, key: (string, string)): PairRow {
    var titles := LastTitles(facts, p, s, key);
    PairRow(key.0, titles.0, key.1, titles.1, Summary(Pick(facts, PairKey(p, s), key)))
  }

  /** `list_published_history_pairs`. */
  function Pairs(facts: seq<Fact>, p: Dim, s: Dim): (rows: seq<PairRow>)
    ensures var keys := FirstSeen(facts, PairKey(p, s));
            |rows| == |keys| && forall i | 0 <= i < |rows| :: rows[i] == PairRowOf(facts, p, s, keys[i])
  {
    var keys := FirstSeen(facts, PairKey(p, s));
    seq(|keys|, i requires 0 <= i < |keys| => PairRowOf(facts, p, s, keys[i]))
  }

  method LabelPairs(facts: seq<Fact>, p: Dim, s: Dim) returns (labels: map<(string, string), (string, string)>)
    ensures forall f | f in facts :: PairKey(p, s)(f) in labels
    ensures forall k | k in labels :: labels[k] == LastTitles(facts, p, s, k)
  {
    hide LastTitles, Label, Value, PairKey;
    labels := map[];
    for i := 0 to |facts|
      invariant forall j | 0 <= j < i :: PairKey(p, s)(facts[j]) in labels
      invariant forall k | k in labels :: labels[k] == LastTitles(facts[..i], p, s, k)
    {
      assert facts[..i + 1] == facts[..i] + [facts[i]];
      TitlesStep(facts[..i], facts[i], p, s);
      labels := labels[PairKey(p, s)(facts[i]) := (Label(facts[i], p), Label(facts[i], s))];
    }
    assert facts[..|facts|] == facts;
  }

  /** The store's read: the grouping loop, and the labels that each pair was given last. */
  method ListPairs(facts: seq<Fact>, p: Dim, s: Dim) returns (rows: seq<PairRow>)
    ensures rows == Pairs(facts, p, s)
  {
    hide FirstSeen, Pick, Summary, LastTitles, PairKey;
    var order, grouped := GroupFacts(facts, PairKey(p, s));
    var labels := LabelPairs(facts, p, s);
    FirstSeenCovers(facts, PairKey(p, s));
    rows := [];
    for i := 0 to |order|
      invariant rows == Pairs(facts, p, s)[..i]
    {
      assert order[i] in order;
      var titles := labels[order[i]];
      rows := rows + [PairRow(order[i].0, titles.0, order[i].1, titles.1, Summary(grouped[order[i]]))];
    }
  }

  lemma {:induction false} TitlesStep(facts: seq<Fact>, f: Fact, p: Dim, s: Dim)
    ensures forall k :: LastTitles(facts + [f], p, s, k) == if PairKey(p, s)(f) == k then (Label(f, p), Label(f, s)) else LastTitles(facts, p, s, k)
  {
    hide Value, Label;
    assert (facts + [f])[..|facts|] == facts;
  }

  /** The rows of one primary value, in order. */
  function OfPrimary(pairs: seq<PairRow>, v: string): seq<Row> {
    if pairs == [] then []
    else if pairs[0].primary == v then [pairs[0].row] + OfPrimary(pairs[1..], v)
    else OfPrimary(pairs[1..], v)
  }

  function Primary(v: string): ((string, string)) -> bool {
    (k: (string, string)) => k.0 == v
  }

  lemma {:induction false} OfPrimaryRows(facts: seq<Fact>, key: Fact -> (string, string), keys: seq<(string, string)>, pairs: seq<PairRow>, v: string)
    requires |pairs| == |keys|
    requires forall i | 0 <= i < |keys| :: pairs[i].primary == keys[i].0 && pairs[i].row == Summary(Pick(facts, key, keys[i]))
    ensures OfPrimary(pairs, v) == RowsBy(facts, key, Those(keys, Primary(v)))
  {
    if keys != [] {
      OfPrimaryRows(facts, key, keys[1..], pairs[1..], v);
      if keys[0].0 == v {
        var ks := Those(keys, Primary(v));
        assert ks[1..] == Those(keys[1..], Primary(v));
      }
    }
  }

  /** Pairs roll up: the pairs of a primary value, summed over the secondary dimension, are the
      primary's group row. */
  lemma {:induction false} PairsRollUp(facts: seq<Fact>, p: Dim, s: Dim, v: string)
    ensures Total(OfPrimary(Pairs(facts, p, s), v)) == Summary(Pick(facts, ValueKey(p), v))
  {
    hide Value, LastTitles;
    var key := PairKey(p, s);
    var keys := FirstSeen(facts, key);
    FirstSeenCovers(facts, key);
    OfPrimaryRows(facts, key, keys, Pairs(facts, p, s), v);
    var ks := Those(keys, Primary(v));
    forall f | f in facts
      ensures ValueKey(p)(f) == v <==> key(f) in ks
    {
      assert key(f) in keys;
    }
    RollUp(facts, key, ValueKey(p), v, ks);
  }

  // ---- drill paths ------------------------------------------------------------------------

  datatype Parent = Parent(dim: FilterDim, value: string)

  datatype PathError = TooDeep | RepeatedDimension | OtherIsNotDrillable | OutOfScope | NotInPeriod

  const MAX_DRILL_DEPTH: nat := 3
  const OTHER_SERIES_KEY: string := "__other__"

  predicate Repeats(parents: seq<Parent>, i: nat)
    requires i < |parents|
  {
    exists j | 0 <= j < i :: parents[j].dim == parents[i].dim
  }

  /** The first parent that repeats a dimension or is Other. */
  predicate FirstFault(parents: seq<Parent>, i: nat) {
    && i < |parents|
    && (Repeats(parents, i) || parents[i].value == OTHER_SERIES_KEY)
    && forall j: nat | j < i :: !Repeats(parents, j) && parents[j].value != OTHER_SERIES_KEY
  }

  /** `parse_parents` on parsed tokens: a path too deep is refused first; otherwise the first parent at
      fault decides, and a repeated dimension goes before Other. */
  method ParseParents(parents: seq<Parent>) returns (r: Result<seq<Parent>, PathError>)
    ensures |parents| > 2 ==> r == Err(TooDeep)
    ensures |parents| <= 2 ==>
              forall i: nat | FirstFault(parents, i) ::
                r == Err(if Repeats(parents, i) then RepeatedDimension else OtherIsNotDrillable)
    ensures r.Ok? <==> |parents| <= 2 && DistinctDims(parents)
                       && forall p | p in parents :: p.value != OTHER_SERIES_KEY
    ensures r.Ok? ==> r.value == parents
  {
    if |parents| > MAX_DRILL_DEPTH - 1 {
      return Err(TooDeep);
    }
    var seen: set<FilterDim> := {};
    for i := 0 to |parents|
      invariant forall d :: d in seen <==> exists j | 0 <= j < i :: parents[j].dim == d
      invariant DistinctDims(parents[..i])
      invariant forall p | p in parents[..i] :: p.value != OTHER_SERIES_KEY
      invariant forall j: nat | j < i :: !Repeats(parents, j) && parents[j].value != OTHER_SERIES_KEY
    {
      assert parents[..i + 1] == parents[..i] + [parents[i]];
      if parents[i].dim in seen {
        ghost var j :| 0 <= j < i && parents[j].dim == parents[i].dim;
        return Err(RepeatedDimension);
      }
      if parents[i].value == OTHER_SERIES_KEY {
        return Err(OtherIsNotDrillable);
      }
      seen := seen + {parents[i].dim};
    }
    assert parents[..|parents|] == parents;
    r := Ok(parents);
  }

  predicate DistinctDims(ps: seq<Parent>) {
    forall i, j | 0 <= i < j < |ps| :: ps[i].dim != ps[j].dim
  }

  /** A parent fits a selection that is empty or contains it. */
  predicate Fits(fl: Filters, p: Parent) {
    MatchesText(p.value, Selected(fl, p.dim))
  }

  /** `apply_parents`. */
  function ApplyParents(fl: Filters, ps: seq<Parent>): Result<Filters, PathError>
    decreases ps
  {
    if ps == [] then Ok(fl)
    else if !Fits(fl, ps[0]) then Err(OutOfScope)
    else ApplyParents(WithSelected(fl, ps[0].dim, [ps[0].value]), ps[1..])
  }

  method ApplyParentsLoop(fl: Filters, ps: seq<Parent>) returns (r: Result<Filters, PathError>)
    ensures r == ApplyParents(fl, ps)
  {
    var data := fl;
    for i := 0 to |ps|
      invariant ApplyParents(data, ps[i..]) == ApplyParents(fl, ps)
    {
      var existing := Selected(data, ps[i].dim);
      if existing != [] && ps[i].value !in existing {
        return Err(OutOfScope);
      }
      data := WithSelected(data, ps[i].dim, [ps[i].value]);
      assert ps[i..][1..] == ps[i + 1..];
    }
    r := Ok(data);
  }

  predicate OnPath(f: Fact, ps: seq<Parent>) {
    forall p | p in ps :: TextOf(f, p.dim) == p.value
  }

  lemma {:induction false} SelectingMatches(f: Fact, fl: Filters, p: Parent)
    requires Fits(fl, p)
    ensures Matches(f, WithSelected(fl, p.dim, [p.value])) <==> Matches(f, fl) && TextOf(f, p.dim) == p.value
  {
  }

  /** Applying a parent narrows the scope to exactly that value's group. */
  lemma {:induction false} ParentNarrows(facts: seq<Fact>, from: Day, to: Day, fl: Filters, p: Parent)
    requires Fits(fl, p)
    ensures Scope(facts, from, to, WithSelected(fl, p.dim, [p.value])) ==
            Pick(Scope(facts, from, to, fl), ValueKey(Of(p.dim)), p.value)
  {
    hide Matches;
    if facts != [] {
      ParentNarrows(facts[1..], from, to, fl, p);
      SelectingMatches(facts[0], fl, p);
      var rest := Scope(facts[1..], from, to, fl);
      if from <= facts[0].day < to && Matches(facts[0], fl) {
        assert ([facts[0]] + rest)[1..] == rest;
      }
    }
  }

  /** `_validate_parents`: each parent must be a group of the scope above it. */
  function ValidateParents(facts: seq<Fact>, from: Day, to: Day, fl: Filters, ps: seq<Parent>): Result<Filters, PathError>
    decreases ps
  {
    if ps == [] then Ok(fl)
    else if !HasGroup(Groups(Scope(facts, from, to, fl), Of(ps[0].dim)), ps[0].value)
    then Err(NotInPeriod)
    else
      var running := ApplyParents(fl, [ps[0]]);
      if running.Err? then Err(running.error) else ValidateParents(facts, from, to, running.value, ps[1..])
  }

  lemma {:induction false} InScope(facts: seq<Fact>, from: Day, to: Day, fl: Filters)
    ensures forall f :: f in Scope(facts, from, to, fl) <==> f in facts && from <= f.day < to && Matches(f, fl)
  {
    hide Matches;
    if facts != [] {
      InScope(facts[1..], from, to, fl);
      assert forall f :: f in facts <==> f == facts[0] || f in facts[1..];
    }
  }

  lemma {:induction false} GroupPresent(scope: seq<Fact>, d: FilterDim, v: string)
    ensures HasGroup(Groups(scope, Of(d)), v) <==> exists f | f in scope :: TextOf(f, d) == v
  {
    hide Groups;
    GroupsAreValues(scope, Of(d), v);
    if f :| f in scope && TextOf(f, d) == v {
      assert Value(f, Of(d)) == v;
    }
  }

  /** A value that is a group of the scope always fits the filters, so validation fails only with
      "not in this period". */
  lemma {:induction false} PresentFits(facts: seq<Fact>, from: Day, to: Day, fl: Filters, p: Parent)
    requires exists f | f in Scope(facts, from, to, fl) :: TextOf(f, p.dim) == p.value
    ensures Fits(fl, p)
  {
    InScope(facts, from, to, fl);
  }

  /** A path is accepted exactly when some fact of the scope carries all its values, and the
      accepted filters are those of `apply_parents` on the whole path. */
  lemma {:induction false} PathAccepted(facts: seq<Fact>, from: Day, to: Day, fl: Filters, ps: seq<Parent>)
    requires ps != []
    ensures ValidateParents(facts, from, to, fl, ps).Ok? <==>
            exists f | f in Scope(facts, from, to, fl) :: OnPath(f, ps)
    ensures ValidateParents(facts, from, to, fl, ps).Ok? ==>
            ValidateParents(facts, from, to, fl, ps) == ApplyParents(fl, ps)
    decreases ps
  {
    hide Groups, Matches, Selected, WithSelected, TextOf;
    var p, rest := ps[0], ps[1..];
    var scope := Scope(facts, from, to, fl);
    GroupPresent(scope, p.dim, p.value);
    assert p in ps && forall q :: q in ps <==> q == p || q in rest;
    if exists f | f in scope :: TextOf(f, p.dim) == p.value {
      PresentFits(facts, from, to, fl, p);
      var next := WithSelected(fl, p.dim, [p.value]);
      assert [p][1..] == [] && ApplyParents(fl, [p]) == Ok(next);
      ParentNarrows(facts, from, to, fl, p);
      assert forall f :: f in Scope(facts, from, to, next) <==> f in scope && ValueKey(Of(p.dim))(f) == p.value;
      if rest != [] {
        PathAccepted(facts, from, to, next, rest);
        if f :| f in Scope(facts, from, to, next) && OnPath(f, rest) {
          assert OnPath(f, ps);
        }
      } else {
        var f :| f in scope && TextOf(f, p.dim) == p.value;
        assert OnPath(f, ps);
      }
    }
  }

  /** Drilldown telescopes: on an accepted path, the total after each parent is the row that the
      level above shows for that parent's value, blanks included. */
  lemma {:induction false} DrillTelescopes(facts: seq<Fact>, from: Day, to: Day, fl: Filters, ps: seq<Parent>, i: nat)
    requires i < |ps| && ValidateParents(facts, from, to, fl, ps).Ok?
    ensures ApplyParents(fl, ps[..i]).Ok? && ApplyParents(fl, ps[..i + 1]).Ok?
    ensures var above := Scope(facts, from, to, ApplyParents(fl, ps[..i]).value);
            var below := Scope(facts, from, to, ApplyParents(fl, ps[..i + 1]).value);
            exists g :: g in Groups(above, Of(ps[i].dim)) && g.value == ps[i].value && g.row == Summary(below)
    decreases ps
  {
    hide Matches, Selected, WithSelected, Groups, Summary, Scope;
    var p := ps[0];
    PathStart(facts, from, to, fl, p, ps);
    var next := WithSelected(fl, p.dim, [p.value]);
    if i == 0 {
      assert ps[..0] == [] && ps[..1] == [p];
    } else {
      DrillTelescopes(facts, from, to, next, ps[1..], i - 1);
      assert ps[..i][0] == p && ps[..i][1..] == ps[1..][..i - 1];
      assert ps[..i + 1][0] == p && ps[..i + 1][1..] == ps[1..][..i];
      assert ps[1..][i - 1] == ps[i];
    }
  }

  /** The first step of an accepted path. */
  lemma {:induction false} PathStart(facts: seq<Fact>, from: Day, to: Day, fl: Filters, p: Parent, ps: seq<Parent>)
    requires ps != [] && ps[0] == p && ValidateParents(facts, from, to, fl, ps).Ok?
    ensures Fits(fl, p) && ApplyParents(fl, [p]) == Ok(WithSelected(fl, p.dim, [p.value]))
    ensures ValidateParents(facts, from, to, WithSelected(fl, p.dim, [p.value]), ps[1..]).Ok?
    ensures exists g :: g in Groups(Scope(facts, from, to, fl), Of(p.dim)) && g.value == p.value
                        && g.row == Summary(Scope(facts, from, to, WithSelected(fl, p.dim, [p.value])))
  {
    hide Matches, Selected, WithSelected, LastLabel, Summary;
    var scope := Scope(facts, from, to, fl);
    GroupPresent(scope, p.dim, p.value);
    PresentFits(facts, from, to, fl, p);
    assert [p][1..] == [];
    ParentNarrows(facts, from, to, fl, p);
    var gs := Groups(scope, Of(p.dim));
    var g :| g in gs && g.value == p.value;
    var i :| 0 <= i < |gs| && gs[i] == g;
    assert gs[i].row == Summary(Pick(scope, ValueKey(Of(p.dim)), g.value));
  }

  // ---- the order of parents -----------------------------------------------------------------

  /** What a path of distinct dimensions does to each selection, said without order. */
  lemma {:induction false} ApplyCharacterized(fl: Filters, ps: seq<Parent>)
    requires DistinctDims(ps)
    ensures ApplyParents(fl, ps).Ok? <==> forall p | p in ps :: Fits(fl, p)
    ensures ApplyParents(fl, ps).Err? ==> ApplyParents(fl, ps) == Err(OutOfScope)
    ensures ApplyParents(fl, ps).Ok? ==>
              && (forall p | p in ps :: Selected(ApplyParents(fl, ps).value, p.dim) == [p.value])
              && (forall d | (forall p | p in ps :: p.dim != d) :: Selected(ApplyParents(fl, ps).value, d) == Selected(fl, d))
    decreases ps
  {
    if ps != [] {
      var p, rest := ps[0], ps[1..];
      var next := WithSelected(fl, p.dim, [p.value]);
      assert p in ps && forall q :: q in ps <==> q == p || q in rest;
      assert forall q | q in rest :: q.dim != p.dim;
      assert forall d | d != p.dim :: Selected(next, d) == Selected(fl, d);
      ApplyCharacterized(next, rest);
    }
  }

  lemma {:induction false} SelectionsDetermine(a: Filters, b: Filters)
    requires forall d :: Selected(a, d) == Selected(b, d)
    ensures a == b
  {
    assert Selected(a, Campaign) == Selected(b, Campaign) && Selected(a, Channel) == Selected(b, Channel);
    assert Selected(a, FilterLogic1) == Selected(b, FilterLogic1) && Selected(a, FilterLogic1Group) == Selected(b, FilterLogic1Group);
  }

  /** The order of parents does not matter: the same parents in any order give the same filters,
      or the same refusal. */
  lemma {:induction false} ParentOrderIrrelevant(fl: Filters, ps: seq<Parent>, qs: seq<Parent>)
    requires DistinctDims(ps) && DistinctDims(qs)
    requires forall p :: p in ps <==> p in qs
    ensures ApplyParents(fl, ps) == ApplyParents(fl, qs)
  {
    hide Selected, Fits;
    ApplyCharacterized(fl, ps);
    ApplyCharacterized(fl, qs);
    if ApplyParents(fl, ps).Ok? {
      var a, b := ApplyParents(fl, ps).value, ApplyParents(fl, qs).value;
      forall d
        ensures Selected(a, d) == Selected(b, d)
      {
        if p :| p in ps && p.dim == d {
          assert p in qs;
        }
      }
      SelectionsDetermine(a, b);
    }
  }
}
