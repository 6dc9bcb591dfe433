/** filters.py and publication_store.py: which columns filters, groups and titles read. */
module DrillLaws {
  import opened Prelude
  import opened Facts
  import opened Calendar
  import opened Drill

  /** No selection, or one that has the text. */
  predicate Allows(selected: seq<string>, text: string) {
    selected == [] || text in selected
  }

  function OrBlank(text: Option<string>): string {
    if text.Some? then text.value else ""
  }

  /** The fact is of the window, and each of its four columns is selected, NULL reading as blank. */
  predicate Passes(f: Fact, from: Day, to: Day, fl: Filters) {
    && from <= f.day && f.day < to
    && Allows(fl.campaignIds, f.campaign) && Allows(fl.channels, OrBlank(f.channel))
    && Allows(fl.filterLogic1, OrBlank(f.filterLogic1)) && Allows(fl.filterLogic1Group, OrBlank(f.filterLogic1Group))
  }

  /** A scope holds exactly the facts of the window that pass the filters, each as often as it occurs. */
  lemma {:induction false} ScopeMeans(facts: seq<Fact>, from: Day, to: Day, fl: Filters, f: Fact)
    ensures multiset(Scope(facts, from, to, fl))[f] == if Passes(f, from, to, fl) then multiset(facts)[f] else 0
  {
    if facts != [] {
      var (first, rest) := (facts[0], facts[1..]);
      assert facts == [first] + rest;
      ScopeMeans(rest, from, to, fl, f);
      PassesIsMatch(first, from, to, fl);
    }
  }

  lemma {:induction false} PassesIsMatch(f: Fact, from: Day, to: Day, fl: Filters)
    ensures Passes(f, from, to, fl) <==> from <= f.day < to && Matches(f, fl)
  {
  }

  /** The column that a dimension groups by. */
  function ColumnText(f: Fact, dim: Dim): string {
    match dim
    case DayDim => IsoFormat(f.day)
    case Of(d) =>
      if d.Campaign? then f.campaign else if d.Channel? then OrBlank(f.channel)
      else if d.FilterLogic1? then OrBlank(f.filterLogic1) else OrBlank(f.filterLogic1Group)
  }

  /** A group is that of a column's text: it has a row exactly when a fact has the text, and the row is the sum
      and the number of those facts. */
  lemma {:induction false} GroupsMean(facts: seq<Fact>, dim: Dim, k: string)
    ensures HasGroup(Groups(facts, dim), k) <==> exists f :: f in facts && ColumnText(f, dim) == k
    ensures forall g | g in Groups(facts, dim) && g.value == k ::
              && g.row == Summary(Pick(facts, ValueKey(dim), k))
              && forall f :: f in Pick(facts, ValueKey(dim), k) <==> f in facts && ColumnText(f, dim) == k
  {
    hide FirstSeen, LastLabel, IsoFormat, Summary;
    GroupsAreValues(facts, dim, k);
    forall f: Fact
      ensures Drill.Value(f, dim) == ColumnText(f, dim)
    {
    }
  }

  /** What a fact's group is called: a campaign by its name if it has one; anything else by its text; the blank
      text "(blank)". */
  function Called(f: Fact, dim: Dim): string {
    var text := ColumnText(f, dim);
    if dim == Of(Campaign) && OrBlank(f.campaignName) != "" then OrBlank(f.campaignName)
    else if text == "" then "(blank)"
    else text
  }

  lemma {:induction false} CalledIsLabel(f: Fact, dim: Dim)
    ensures Label(f, dim) == Called(f, dim)
  {
    if dim == DayDim {
      DayTextIsLong(f.day);
    }
  }

  lemma {:induction false} DayTextIsLong(n: Day)
    ensures IsoFormat(n) != ""
  {
    hide FromOrdinal;
  }

  /** The last fact of a group gives it its title. */
  lemma {:induction false} TitleMeans(facts: seq<Fact>, dim: Dim, i: nat)
    requires i < |facts| && forall j | i < j < |facts| :: ColumnText(facts[j], dim) != ColumnText(facts[i], dim)
    ensures LastLabel(facts, dim, ColumnText(facts[i], dim)) == Called(facts[i], dim)
    ensures forall g | g in Groups(facts, dim) && g.value == ColumnText(facts[i], dim) :: g.title == Called(facts[i], dim)
  {
    hide IsoFormat, Called, Label;
    var last := facts[|facts| - 1];
    CalledIsLabel(last, dim);
    if i < |facts| - 1 {
      assert ColumnText(last, dim) != ColumnText(facts[i], dim);
      TitleMeans(facts[..|facts| - 1], dim, i);
    }
  }

  /** So does the last fact of a pair, twice. */
  lemma {:induction false} PairTitlesMean(facts: seq<Fact>, p: Dim, s: Dim, i: nat)
    requires i < |facts|
    requires forall j | i < j < |facts| :: ColumnText(facts[j], p) != ColumnText(facts[i], p) || ColumnText(facts[j], s) != ColumnText(facts[i], s)
    ensures LastTitles(facts, p, s, (ColumnText(facts[i], p), ColumnText(facts[i], s))) == (Called(facts[i], p), Called(facts[i], s))
    ensures forall r | r in Pairs(facts, p, s) && r.primary == ColumnText(facts[i], p) && r.secondary == ColumnText(facts[i], s) ::
              r.primaryTitle == Called(facts[i], p) && r.secondaryTitle == Called(facts[i], s)
  {
    hide IsoFormat, Called, Label;
    var last := facts[|facts| - 1];
    CalledIsLabel(last, p);
    CalledIsLabel(last, s);
    if i < |facts| - 1 {
      assert ColumnText(last, p) != ColumnText(facts[i], p) || ColumnText(last, s) != ColumnText(facts[i], s);
      PairTitlesMean(facts[..|facts| - 1], p, s, i);
    }
  }

  lemma {:induction false} ValueIsText(dim: Dim)
    ensures forall f :: Drill.Value(f, dim) == ColumnText(f, dim)
  {
    hide IsoFormat;
  }

  /** A pair is that of its two texts: its row is the sum and the number of the facts that have both. */
  lemma {:induction false} PairsMean(facts: seq<Fact>, p: Dim, s: Dim, r: PairRow)
    requires r in Pairs(facts, p, s)
    ensures var own := Pick(facts, PairKey(p, s), (r.primary, r.secondary));
            && r.row == Summary(own) && own != []
            && forall f :: f in own <==> f in facts && ColumnText(f, p) == r.primary && ColumnText(f, s) == r.secondary
  {
    hide Drill.Value, ColumnText, Summary, LastTitles, FirstSeen, Pick, Pairs;
    ValueIsText(p);
    ValueIsText(s);
    var keys := FirstSeen(facts, PairKey(p, s));
    FirstSeenCovers(facts, PairKey(p, s));
    var i :| 0 <= i < |keys| && r == PairRowOf(facts, p, s, keys[i]);
    assert keys[i] in keys && keys[i] == (r.primary, r.secondary);
    var f :| f in facts && PairKey(p, s)(f) == keys[i];
    assert f in Pick(facts, PairKey(p, s), keys[i]);
  }

  /** A parent narrows the selection of its own column, and of no other, to its value; it must be in a selection
      that is there. */
  lemma {:induction false} ParentNarrows(fl: Filters, p: Parent)
    ensures var selected := if p.dim.Campaign? then fl.campaignIds else if p.dim.Channel? then fl.channels
                            else if p.dim.FilterLogic1? then fl.filterLogic1 else fl.filterLogic1Group;
            ApplyParents(fl, [p]) ==
              if !Allows(selected, p.value) then Err(OutOfScope)
              else Ok(Filters(if p.dim.Campaign? then [p.value] else fl.campaignIds, if p.dim.Channel? then [p.value] else fl.channels,
                              if p.dim.FilterLogic1? then [p.value] else fl.filterLogic1,
                              if p.dim.FilterLogic1Group? then [p.value] else fl.filterLogic1Group))
  {
    assert [p][1..] == [];
  }

  /** Dimension names are known as the columns are. */
  lemma {:induction false} NamesMean(name: string, f: Fact)
    ensures DimNamed(name).Some? <==> name in {"campaign_id", "channel", "filter_logic_1", "filter_logic_1_group", "day"}
    ensures DimNamed("campaign_id").Some? && Drill.Value(f, DimNamed("campaign_id").value) == f.campaign
    ensures DimNamed("channel").Some? && Drill.Value(f, DimNamed("channel").value) == OrBlank(f.channel)
    ensures DimNamed("filter_logic_1").Some? && Drill.Value(f, DimNamed("filter_logic_1").value) == OrBlank(f.filterLogic1)
    ensures DimNamed("filter_logic_1_group").Some? && Drill.Value(f, DimNamed("filter_logic_1_group").value) == OrBlank(f.filterLogic1Group)
    ensures DimNamed("day").Some? && Drill.Value(f, DimNamed("day").value) == IsoFormat(f.day)
  {
    hide IsoFormat;
    assert |"campaign_id"| == 11 && |"channel"| == 7 && |"filter_logic_1"| == 14 && |"filter_logic_1_group"| == 20 && |"day"| == 3;
  }
}
