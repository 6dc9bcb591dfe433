/** insights.py `build_insights`: the drafts of all metrics, scored, ranked and cut to a limit. */
module InsightList {
  import opened Prelude
  import opened Facts
  import opened Numbers
  import opened Ordering
  import opened Drill
  import opened Metrics
  import opened Drivers
  import opened Insights

  datatype Category = DriverCategory | MaterialChange | NegativeSignal | PositiveSignal | Relationship

  function Weight(c: Category): real {
    match c
    case DriverCategory => 400.0
    case MaterialChange => 300.0
    case NegativeSignal => 250.0
    case PositiveSignal => 200.0
    case Relationship => 150.0
  }

  function NameOf(c: Category): string {
    match c
    case DriverCategory => "dominant_driver"
    case MaterialChange => "material_change"
    case NegativeSignal => "negative_signal"
    case PositiveSignal => "positive_signal"
    case Relationship => "relationship"
  }

  function DimKey(d: FilterDim): string {
    match d
    case Campaign => "campaign_id"
    case Channel => "channel"
    case FilterLogic1 => "filter_logic_1"
    case FilterLogic1Group => "filter_logic_1_group"
  }

  /** A draft without its headline and explanation; `pct` is the size of the metric's relative change. */
  datatype Draft = Draft(
    category: Category, metric: string, related: Option<string>, dim: Option<FilterDim>,
    drivers: seq<Driver>, pct: real, score: real, id: string, groups: nat, sameGroups: nat)

  const PCT_CAP: real := 10.0
  const ABS_RATIO_CAP: real := 10.0

  /** `insight_score`. */
  function Score(c: Category, delta: real, pct: real, prior: real, share: real): real {
    var baseline := if prior != 0.0 then Abs(prior) else 1.0;
    Min(Abs(pct), PCT_CAP) * 10000.0 + Min(Abs(delta) / baseline, ABS_RATIO_CAP) * 100.0 + share * 1000.0 + Weight(c)
  }

  /** `signed_category`: a rising cost is the one rise that is not an improvement. */
  function SignedCategory(snap: Snapshot): Category
    requires IsMaterial(snap)
  {
    if Abs(snap.pct.value) >= MATERIAL_HIGH_PCT then MaterialChange
    else if (if snap.metric.key != "total_cost" then snap.delta.value > 0.0 else snap.delta.value < 0.0) then PositiveSignal
    else NegativeSignal
  }

  function MovementDraft(snap: Snapshot): Draft
    requires IsMaterial(snap)
  {
    var c := SignedCategory(snap);
    Draft(c, snap.metric.key, None, None, [], Abs(snap.pct.value),
          Score(c, snap.delta.value, snap.pct.value, snap.prior.GetOr(0.0), 0.0), NameOf(c) + ":" + snap.metric.key, 0, 0)
  }

  function FirstThree(same: seq<Driver>): seq<Driver> {
    if |same| <= MAX_DRIVERS_EVIDENCE then same else same[..MAX_DRIVERS_EVIDENCE]
  }

  function DriverDraft(snap: Snapshot, best: Best): Draft
    requires IsMaterial(snap) && best.same != []
  {
    var (shown, key) := (FirstThree(best.same), snap.metric.key);
    Draft(DriverCategory, key, None, Some(best.dim), shown, Abs(snap.pct.value),
          Score(DriverCategory, snap.delta.value, snap.pct.value, snap.prior.GetOr(0.0), SizeOf(shown[0].contribution)),
          NameOf(DriverCategory) + ":" + key + ":" + DimKey(best.dim) + ":" + shown[0].key, best.groups, |best.same|)
  }

  lemma {:induction false} FoundIsNonempty(s: Metric, snap: Snapshot, grouped: seq<Grouping>)
    requires DominantDriver(s, snap, grouped).Some?
    ensures IsMaterial(snap) && DominantDriver(s, snap, grouped).value.same != []
  {
    hide Dominated, SameSign, DriverRows, KeysOf;
    var k := BestIsOffered(s, snap.delta.value, grouped);
  }

  /** What one metric contributes: a draft of its movement, and one of its dominant driver. */
  function MetricDrafts(snap: Snapshot, grouped: seq<Grouping>): seq<Draft> {
    if !IsMaterial(snap) then []
    else
      var best := DominantDriver(snap.metric, snap, grouped);
      [MovementDraft(snap)] + if best.None? || best.value.same == [] then [] else [DriverDraft(snap, best.value)]
  }

  function DraftsOf(snaps: seq<Snapshot>, grouped: seq<Grouping>): seq<Draft> {
    if snaps == [] then []
    else DraftsOf(snaps[..|snaps| - 1], grouped) + MetricDrafts(snaps[|snaps| - 1], grouped)
  }

  const RELATIONSHIP_PAIRS: seq<(string, string)> := [("revenue_inr", "overall_roas"), ("delivered", "delivery_rate")]

  /** `snapshots.get(key)`. */
  function SnapshotOf(snaps: seq<Snapshot>, key: string): Option<Snapshot> {
    if snaps == [] then None
    else if snaps[|snaps| - 1].metric.key == key then Some(snaps[|snaps| - 1])
    else SnapshotOf(snaps[..|snaps| - 1], key)
  }

  /** Two material movements in opposite directions. */
  predicate Opposed(left: Option<Snapshot>, right: Option<Snapshot>) {
    && left.Some? && right.Some? && IsMaterial(left.value) && IsMaterial(right.value)
    && (left.value.delta.value > 0.0) != (right.value.delta.value > 0.0)
  }

  function RelationshipDraft(left: Snapshot, right: Snapshot): Draft
    requires IsMaterial(left) && IsMaterial(right)
  {
    Draft(Relationship, left.metric.key, Some(right.metric.key), None, [], Abs(left.pct.value),
          Score(Relationship, left.delta.value, Max(Abs(left.pct.value), Abs(right.pct.value)), left.prior.GetOr(0.0), 0.0),
          NameOf(Relationship) + ":" + left.metric.key + ":" + right.metric.key, 0, 0)
  }

  function RelationshipDrafts(snaps: seq<Snapshot>, pairs: seq<(string, string)>): seq<Draft> {
    if pairs == [] then []
    else
      var (left, right) := (SnapshotOf(snaps, pairs[|pairs| - 1].0), SnapshotOf(snaps, pairs[|pairs| - 1].1));
      RelationshipDrafts(snaps, pairs[..|pairs| - 1]) + if Opposed(left, right) then [RelationshipDraft(left.value, right.value)] else []
  }

  function SnapshotsOf(metrics: seq<Metric>, current: Sums, prior: Sums): (r: seq<Snapshot>)
    ensures |r| == |metrics| && forall i | 0 <= i < |r| :: r[i] == SnapshotFor(metrics[i], current, prior)
  {
    seq(|metrics|, i requires 0 <= i < |metrics| => SnapshotFor(metrics[i], current, prior))
  }

  /** `(-score, -|delta_pct|, metric, category, insight_id)`. */
  predicate DraftBefore(a: Draft, b: Draft) {
    if a.score != b.score then a.score > b.score
    else if a.pct != b.pct then a.pct > b.pct
    else if a.metric != b.metric then StringLe(a.metric, b.metric)
    else if a.category != b.category then StringLe(NameOf(a.category), NameOf(b.category))
    else StringLe(a.id, b.id)
  }

  function Drafts(metrics: seq<Metric>, current: Sums, prior: Sums, grouped: seq<Grouping>): seq<Draft> {
    var snaps := SnapshotsOf(metrics, current, prior);
    DraftsOf(snaps, grouped) + RelationshipDrafts(snaps, RELATIONSHIP_PAIRS)
  }

  function Listed(metrics: seq<Metric>, current: Sums, prior: Sums, grouped: seq<Grouping>, limit: nat): seq<Draft> {
    var ranked := Sort(Drafts(metrics, current, prior, grouped), DraftBefore);
    if |ranked| <= limit then ranked else ranked[..limit]
  }

  /** The loop over metrics. */
  method ListDrafts(snaps: seq<Snapshot>, grouped: seq<Grouping>) returns (drafts: seq<Draft>)
    ensures drafts == DraftsOf(snaps, grouped)
  {
    hide DominantDriver, MovementDraft, DriverDraft, IsMaterial;
    drafts := [];
    for i := 0 to |snaps|
      invariant drafts == DraftsOf(snaps[..i], grouped)
    {
      assert snaps[..i + 1][..i] == snaps[..i];
      var snap := snaps[i];
      if !IsMaterial(snap) {
        continue;
      }
      drafts := drafts + [MovementDraft(snap)];
      var best := FindDominantDriver(snap.metric, snap, grouped);
      if best.None? {
        continue;
      }
      FoundIsNonempty(snap.metric, snap, grouped);
      drafts := drafts + [DriverDraft(snap, best.value)];
    }
    assert snaps[..|snaps|] == snaps;
  }

  /** The loop over pairs of metrics. */
  method ListRelationships(snaps: seq<Snapshot>, pairs: seq<(string, string)>) returns (drafts: seq<Draft>)
    ensures drafts == RelationshipDrafts(snaps, pairs)
  {
    hide RelationshipDraft, IsMaterial, Opposed, SnapshotOf;
    drafts := [];
    for i := 0 to |pairs|
      invariant drafts == RelationshipDrafts(snaps, pairs[..i])
    {
      assert pairs[..i + 1][..i] == pairs[..i];
      var left, right := SnapshotOf(snaps, pairs[i].0), SnapshotOf(snaps, pairs[i].1);
      if Opposed(left, right) {
        OpposedAreMaterial(left, right);
        drafts := drafts + [RelationshipDraft(left.value, right.value)];
      }
    }
    assert pairs[..|pairs|] == pairs;
  }

  method BuildInsights(metrics: seq<Metric>, current: Sums, prior: Sums, grouped: seq<Grouping>, limit: nat) returns (shown: seq<Draft>)
    ensures shown == Listed(metrics, current, prior, grouped, limit)
  {
    hide SnapshotsOf, DraftsOf, RelationshipDrafts, Sort, DraftBefore;
    var snaps := SnapshotsOf(metrics, current, prior);
    var drafts := ListDrafts(snaps, grouped);
    var relationships := ListRelationships(snaps, RELATIONSHIP_PAIRS);
    var ranked := Sort(drafts + relationships, DraftBefore);
    shown := if |ranked| <= limit then ranked else ranked[..limit];
  }

  lemma {:induction false} OpposedAreMaterial(left: Option<Snapshot>, right: Option<Snapshot>)
    requires Opposed(left, right)
    ensures left.Some? && right.Some? && IsMaterial(left.value) && IsMaterial(right.value)
  {
  }

  // ---- ranking ---------------------------------------------------------------------------------------

  lemma {:induction false} NamesDiffer(a: Category, b: Category)
    requires NameOf(a) == NameOf(b)
    ensures a == b
  {
    assert |NameOf(a)| == |NameOf(b)|;
    assert NameOf(a)[0] == NameOf(b)[0];
  }

  /** Five keys compared in turn. */
  lemma {:induction false} DraftBeforeTransitive(a: Draft, b: Draft, c: Draft)
    requires DraftBefore(a, b) && DraftBefore(b, c)
    ensures DraftBefore(a, c)
  {
    hide NameOf;
    if a.score == b.score == c.score && a.pct == b.pct == c.pct {
      if a.metric == b.metric == c.metric {
        if a.category == b.category == c.category {
          StringLeTransitive(a.id, b.id, c.id);
        } else if StringLe(NameOf(a.category), NameOf(b.category)) && StringLe(NameOf(b.category), NameOf(c.category)) {
          StringLeTransitive(NameOf(a.category), NameOf(b.category), NameOf(c.category));
          if a.category == c.category {
            StringLeAntisymmetric(NameOf(a.category), NameOf(b.category));
            NamesDiffer(a.category, b.category);
          }
        }
      } else if StringLe(a.metric, b.metric) && StringLe(b.metric, c.metric) {
        StringLeTransitive(a.metric, b.metric, c.metric);
        if a.metric == c.metric {
          StringLeAntisymmetric(a.metric, b.metric);
        }
      }
    }
  }

  lemma {:induction false} DraftBeforeIsTotal()
    ensures TotalPreorder(DraftBefore)
  {
    hide DraftBefore;
    forall a, b
      ensures DraftBefore(a, b) || DraftBefore(b, a)
    {
      DraftBeforeTotal(a, b);
    }
    forall a, b, c | DraftBefore(a, b) && DraftBefore(b, c)
      ensures DraftBefore(a, c)
    {
      DraftBeforeTransitive(a, b, c);
    }
  }

  lemma {:induction false} DraftBeforeTotal(a: Draft, b: Draft)
    ensures DraftBefore(a, b) || DraftBefore(b, a)
  {
    hide NameOf;
    StringLeTotal(a.metric, b.metric);
    StringLeTotal(NameOf(a.category), NameOf(b.category));
    StringLeTotal(a.id, b.id);
  }

  lemma {:induction false} DraftsInclude(snaps: seq<Snapshot>, grouped: seq<Grouping>, i: nat)
    requires i < |snaps|
    ensures forall d | d in MetricDrafts(snaps[i], grouped) :: d in DraftsOf(snaps, grouped)
  {
    hide MetricDrafts;
    if i < |snaps| - 1 {
      DraftsInclude(snaps[..|snaps| - 1], grouped, i);
    }
  }

  lemma {:induction false} DriverScoresHigher(snap: Snapshot, best: Best)
    requires IsMaterial(snap) && best.same != []
    ensures DriverDraft(snap, best).score > MovementDraft(snap).score
  {
    hide IsMaterial, NameOf, DimKey;
  }

  lemma {:induction false} HigherIsEarlier(ranked: seq<Draft>, i: nat, j: nat)
    requires Sorted(ranked, DraftBefore) && i < |ranked| && j < |ranked| && ranked[i].score > ranked[j].score
    ensures i < j
  {
    assert !DraftBefore(ranked[j], ranked[i]);
  }

  lemma {:induction false} HigherComesFirst(drafts: seq<Draft>, a: Draft, b: Draft, limit: nat)
    requires a in drafts && b in drafts && a.score > b.score
    ensures var ranked := Sort(drafts, DraftBefore);
            var shown := if |ranked| <= limit then ranked else ranked[..limit];
            b in shown ==> a in shown
  {
    hide Sort;
    DraftBeforeIsTotal();
    SortSorts(drafts, DraftBefore);
    InSort(drafts, DraftBefore);
    var ranked := Sort(drafts, DraftBefore);
    var shown := if |ranked| <= limit then ranked else ranked[..limit];
    if b in shown {
      var j :| 0 <= j < |shown| && shown[j] == b;
      var i :| 0 <= i < |ranked| && ranked[i] == a;
      HigherIsEarlier(ranked, i, j);
      assert i < |shown| && shown[i] == a;
    }
  }

  /** The limit never cuts off the driver of a change it shows: for every metric, whatever the limit,
      a listed movement has its dominant_driver draft listed too, if there is one. */
  lemma {:induction false} DriverIsListedWithItsChange(metrics: seq<Metric>, current: Sums, prior: Sums, grouped: seq<Grouping>, limit: nat, i: nat)
    requires i < |metrics|
    requires DominantDriver(metrics[i], SnapshotFor(metrics[i], current, prior), grouped).Some?
    ensures var snap := SnapshotFor(metrics[i], current, prior);
            var best := DominantDriver(metrics[i], snap, grouped).value;
            && IsMaterial(snap) && best.same != []
            && MovementDraft(snap) in Drafts(metrics, current, prior, grouped)
            && DriverDraft(snap, best) in Drafts(metrics, current, prior, grouped)
            && (MovementDraft(snap) in Listed(metrics, current, prior, grouped, limit)
                ==> DriverDraft(snap, best) in Listed(metrics, current, prior, grouped, limit))
  {
    hide DominantDriver, MovementDraft, DriverDraft, IsMaterial, SnapshotFor, Sort, DraftBefore, RelationshipDrafts, DraftsOf;
    var snap := SnapshotFor(metrics[i], current, prior);
    SnapshotMetric(metrics[i], current, prior);
    FoundIsNonempty(metrics[i], snap, grouped);
    var best := DominantDriver(metrics[i], snap, grouped).value;
    DraftsInclude(SnapshotsOf(metrics, current, prior), grouped, i);
    assert MovementDraft(snap) in MetricDrafts(snap, grouped) && DriverDraft(snap, best) in MetricDrafts(snap, grouped);
    DriverScoresHigher(snap, best);
    HigherComesFirst(Drafts(metrics, current, prior, grouped), DriverDraft(snap, best), MovementDraft(snap), limit);
  }

  lemma {:induction false} SnapshotMetric(s: Metric, current: Sums, prior: Sums)
    ensures SnapshotFor(s, current, prior).metric == s
  {
  }
}
