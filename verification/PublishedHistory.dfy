/** publication_store.py `list_published_history`: the reversed first-seen scan of a client's
    snapshots, the rows it lists, and the cheap token `consolidated_history_fingerprint`. */
module PublishedHistory {
  import opened Prelude
  import opened Facts
  import opened Ordering
  import opened Text
  import opened Store
  import Calendar

  // ---- the scan -------------------------------------------------------------------------

  predicate HasGrain(rows: seq<Fact>, k: FactKey) {
    exists f | f in rows :: f.Key() == k
  }

  /** One snapshot's pass: rows of the client whose grain was not seen before are kept. */
  function AddUnseen(seen: seq<Fact>, rows: seq<Fact>, c: ClientId): seq<Fact>
    decreases rows
  {
    if rows == [] then seen
    else if rows[0].client == c && !HasGrain(seen, rows[0].Key())
    then AddUnseen(seen + [rows[0]], rows[1..], c)
    else AddUnseen(seen, rows[1..], c)
  }

  /** Newest publication first. */
  function Scan(seen: seq<Fact>, vs: seq<Version>, c: ClientId): seq<Fact>
    decreases vs
  {
    if vs == [] then seen
    else Scan(AddUnseen(seen, vs[|vs| - 1].rows, c), vs[..|vs| - 1], c)
  }

  predicate KeyLe(a: FactKey, b: FactKey) {
    if a.day != b.day then a.day < b.day
    else if a.campaign != b.campaign then StringLe(a.campaign, b.campaign)
    else if a.variation != b.variation then StringLe(a.variation, b.variation)
    else StringLe(a.client, b.client)
  }

  predicate FactLe(a: Fact, b: Fact) {
    KeyLe(a.Key(), b.Key())
  }

  /** The listed history: the scan's rows by (day, campaign, variation, client). */
  function HistoryRows(vs: seq<Version>, c: ClientId): seq<Fact> {
    Sort(Scan([], vs, c), FactLe)
  }

  /** Python's `records[offset : offset + limit]` for offset, limit >= 0. */
  function Slice<T>(s: seq<T>, offset: nat, limit: nat): seq<T> {
    if offset >= |s| then []
    else if offset + limit >= |s| then s[offset..]
    else s[offset..offset + limit]
  }

  // ---- refinement -----------------------------------------------------------------------

  /** Rows as a map from their grains. */
  ghost function AsMap(rows: seq<Fact>): map<FactKey, Fact> {
    if rows == [] then map[]
    else AsMap(rows[..|rows| - 1])[rows[|rows| - 1].Key() := rows[|rows| - 1]]
  }

  lemma {:induction false} AsMapContents(rows: seq<Fact>)
    requires UniqueGrains(rows)
    ensures forall k :: k in AsMap(rows) <==> HasGrain(rows, k)
    ensures forall f | f in rows :: f.Key() in AsMap(rows) && AsMap(rows)[f.Key()] == f
  {
    if rows != [] {
      var init, last := rows[..|rows| - 1], rows[|rows| - 1];
      AsMapContents(init);
      assert rows == init + [last];
      forall k
        ensures k in AsMap(rows) <==> HasGrain(rows, k)
      {
        if HasGrain(rows, k) {
          var f :| f in rows && f.Key() == k;
          assert f in init || f == last;
        } else {
          assert last in rows;
          assert forall f | f in init :: f in rows;
        }
      }
    }
  }

  lemma {:induction false} AddUnseenMerges(seen: seq<Fact>, rows: seq<Fact>, c: ClientId)
    requires UniqueGrains(seen)
    ensures UniqueGrains(AddUnseen(seen, rows, c))
    ensures AsMap(AddUnseen(seen, rows, c)) == SnapshotMap(rows, c) + AsMap(seen)
    decreases rows
  {
    AsMapContents(seen);
    if rows != [] {
      var f := rows[0];
      if f.client == c && !HasGrain(seen, f.Key()) {
        OneMoreGrain(seen, f);
        AddUnseenMerges(seen + [f], rows[1..], c);
        OverridePushed(SnapshotMap(rows[1..], c), AsMap(seen), f.Key(), f);
      } else {
        AddUnseenMerges(seen, rows[1..], c);
        if f.client == c {
          OverrideHidden(SnapshotMap(rows[1..], c), AsMap(seen), f.Key(), f);
        }
      }
    }
  }

  lemma {:induction false} OneMoreGrain(seen: seq<Fact>, f: Fact)
    requires UniqueGrains(seen) && !HasGrain(seen, f.Key())
    ensures UniqueGrains(seen + [f]) && AsMap(seen + [f]) == AsMap(seen)[f.Key() := f]
  {
    var more := seen + [f];
    assert more[..|more| - 1] == seen;
    forall i, j | 0 <= i < j < |more|
      ensures more[i].Key() != more[j].Key()
    {
      assert seen[i] in seen;
    }
  }

  lemma {:induction false} OverridePushed<K, V>(rest: map<K, V>, m: map<K, V>, k: K, v: V)
    requires k !in m
    ensures rest[k := v] + m == rest + m[k := v]
  {
  }

  lemma {:induction false} OverrideHidden<K, V>(rest: map<K, V>, m: map<K, V>, k: K, v: V)
    requires k in m
    ensures rest[k := v] + m == rest + m
  {
  }

  lemma {:induction false} ScanMerges(seen: seq<Fact>, vs: seq<Version>, c: ClientId)
    requires UniqueGrains(seen)
    ensures UniqueGrains(Scan(seen, vs, c))
    ensures AsMap(Scan(seen, vs, c)) == History(vs, c) + AsMap(seen)
    decreases vs
  {
    if vs != [] {
      var last := vs[|vs| - 1].rows;
      AddUnseenMerges(seen, last, c);
      hide AddUnseen, SnapshotMap, AsMap;
      ScanMerges(AddUnseen(seen, last, c), vs[..|vs| - 1], c);
      OverrideAssociates(History(vs[..|vs| - 1], c), SnapshotMap(last, c), AsMap(seen));
    }
  }

  lemma {:induction false} OverrideAssociates<K, V>(a: map<K, V>, b: map<K, V>, c: map<K, V>)
    ensures a + (b + c) == (a + b) + c
  {
  }

  lemma {:induction false} KeyLeIsTotalOrder()
    ensures TotalPreorder(KeyLe) && Antisymmetric(KeyLe) && TotalPreorder(FactLe)
  {
    StringLeIsTotalOrder();
    forall a, b
      ensures KeyLe(a, b) || KeyLe(b, a)
    {
      assert StringLe(a.campaign, b.campaign) || StringLe(b.campaign, a.campaign);
      assert StringLe(a.variation, b.variation) || StringLe(b.variation, a.variation);
      assert StringLe(a.client, b.client) || StringLe(b.client, a.client);
    }
    forall a, b, c | KeyLe(a, b) && KeyLe(b, c)
      ensures KeyLe(a, c)
    {
      KeyLeTransitive(a, b, c);
    }
    forall a, b | KeyLe(a, b) && KeyLe(b, a)
      ensures a == b
    {
    }
    forall f, g
      ensures FactLe(f, g) || FactLe(g, f)
    {
      assert KeyLe(f.Key(), g.Key()) || KeyLe(g.Key(), f.Key());
    }
    forall f, g, h | FactLe(f, g) && FactLe(g, h)
      ensures FactLe(f, h)
    {
      KeyLeTransitive(f.Key(), g.Key(), h.Key());
    }
  }

  lemma {:induction false} KeyLeTransitive(a: FactKey, b: FactKey, c: FactKey)
    requires KeyLe(a, b) && KeyLe(b, c)
    ensures KeyLe(a, c)
  {
    if a.day == b.day == c.day {
      if a.campaign == b.campaign == c.campaign {
        if a.variation == b.variation == c.variation {
          StringLeTransitive(a.client, b.client, c.client);
        } else if StringLe(a.variation, b.variation) && StringLe(b.variation, c.variation) {
          StringLeTransitive(a.variation, b.variation, c.variation);
          if a.variation == c.variation {
            StringLeAntisymmetric(a.variation, b.variation);
          }
        }
      } else if StringLe(a.campaign, b.campaign) && StringLe(b.campaign, c.campaign) {
        StringLeTransitive(a.campaign, b.campaign, c.campaign);
        if a.campaign == c.campaign {
          StringLeAntisymmetric(a.campaign, b.campaign);
        }
      }
    }
  }

  ghost predicate StrictlySorted(rows: seq<Fact>) {
    forall i, j | 0 <= i < j < |rows| :: FactLe(rows[i], rows[j]) && rows[i].Key() != rows[j].Key()
  }

  /** Rows list a history: strictly by key, and grain for grain what the map holds. */
  ghost predicate Lists(rows: seq<Fact>, h: map<FactKey, Fact>) {
    && StrictlySorted(rows)
    && (forall f | f in rows :: f.Key() in h && h[f.Key()] == f)
    && (forall k | k in h :: h[k] in rows && h[k].Key() == k)
  }

  /** Earlier days come first; within a day, campaigns in string order; within a campaign, variations; and
      then clients. */
  ghost predicate InListingOrder(rows: seq<Fact>) {
    forall i, j | 0 <= i < j < |rows| ::
      && rows[i].day <= rows[j].day
      && (rows[i].day == rows[j].day ==> StringLe(rows[i].campaign, rows[j].campaign))
      && (rows[i].day == rows[j].day && rows[i].campaign == rows[j].campaign ==> StringLe(rows[i].variation, rows[j].variation))
      && (rows[i].day == rows[j].day && rows[i].campaign == rows[j].campaign && rows[i].variation == rows[j].variation
          ==> StringLe(rows[i].client, rows[j].client))
  }

  lemma {:induction false} SortedIsListingOrder(rows: seq<Fact>)
    requires Sorted(rows, FactLe)
    ensures InListingOrder(rows)
  {
    hide StringLe;
    forall i, j | 0 <= i < j < |rows|
      ensures rows[i].day < rows[j].day || (rows[i].day == rows[j].day && FactLe(rows[i], rows[j]))
    {
      assert FactLe(rows[i], rows[j]);
    }
    forall a: string
      ensures StringLe(a, a)
    {
      StringLeTotal(a, a);
    }
  }

  /** Both listings come by day first. */
  lemma {:induction false} ListingsInOrder(vs: seq<Version>, s: State, id: Id, c: ClientId)
    ensures InListingOrder(HistoryRows(vs, c)) && InListingOrder(SnapshotRows(s, id, c))
  {
    hide FactLe, Scan, OfClient, InListingOrder;
    KeyLeIsTotalOrder();
    SortSorts(Scan([], vs, c), FactLe);
    SortSorts(OfClient(SnapshotOf(s, id), c), FactLe);
    SortedIsListingOrder(HistoryRows(vs, c));
    SortedIsListingOrder(SnapshotRows(s, id, c));
  }

  /** A page holds the listed rows from its offset on, as many as there are up to its limit. */
  ghost predicate IsPage(page: seq<Fact>, rows: seq<Fact>, limit: nat, offset: nat) {
    && |page| == (if |rows| <= offset then 0 else if |rows| - offset < limit then |rows| - offset else limit)
    && forall i | 0 <= i < |page| :: page[i] == rows[offset + i]
  }

  lemma {:induction false} PageInOrder(rows: seq<Fact>, limit: nat, offset: nat)
    requires InListingOrder(rows)
    ensures IsPage(Slice(rows, offset, limit), rows, limit, offset) && InListingOrder(Slice(rows, offset, limit))
  {
    hide StringLe;
  }

  /** Newest wins: the reversed first-seen scan lists exactly the left-to-right override, by day first. */
  lemma {:induction false} HistoryRefines(vs: seq<Version>, c: ClientId)
    ensures Lists(HistoryRows(vs, c), History(vs, c)) && InListingOrder(HistoryRows(vs, c))
  {
    hide InListingOrder, HistoryRows, History, Lists;
    ListingsInOrder(vs, EMPTY, "", c);
    ScanIsOverride(vs, c);
  }

  lemma {:induction false} ScanIsOverride(vs: seq<Version>, c: ClientId)
    ensures Lists(HistoryRows(vs, c), History(vs, c))
  {
    var scan, rows := Scan([], vs, c), HistoryRows(vs, c);
    ScanMerges([], vs, c);
    assert AsMap(scan) == History(vs, c);
    AsMapContents(scan);
    InSort(scan, FactLe);
    KeyLeIsTotalOrder();
    SortSorts(scan, FactLe);
    GrainsSurviveSort(scan);
    forall k | k in History(vs, c)
      ensures History(vs, c)[k] in rows && History(vs, c)[k].Key() == k
    {
      var f :| f in scan && f.Key() == k;
    }
  }

  lemma {:induction false} GrainsOfPermutation(rows: seq<Fact>, other: seq<Fact>)
    requires UniqueGrains(rows) && multiset(rows) == multiset(other)
    ensures UniqueGrains(other)
  {
    assert Distinct(rows);
    DistinctByCount(rows);
    DistinctByCount(other);
    SameElements(other, rows);
    forall i, j | 0 <= i < j < |other|
      ensures other[i].Key() != other[j].Key()
    {
      assert other[i] in other && other[j] in other;
      var p :| 0 <= p < |rows| && rows[p] == other[i];
      var q :| 0 <= q < |rows| && rows[q] == other[j];
    }
  }

  lemma {:induction false} GrainsSurviveSort(rows: seq<Fact>)
    requires UniqueGrains(rows)
    ensures UniqueGrains(Sort(rows, FactLe))
  {
    SortElements(rows, FactLe);
    GrainsOfPermutation(rows, Sort(rows, FactLe));
  }

  /** Only one listing of a history exists, so equal histories are listed alike. */
  lemma {:induction false} ListingUnique(r: seq<Fact>, t: seq<Fact>, h: map<FactKey, Fact>)
    requires Lists(r, h) && Lists(t, h)
    ensures r == t
  {
    ListedKeys(r, h);
    ListedKeys(t, h);
    var a, b := Keys(r), Keys(t);
    KeyLeIsTotalOrder();
    SortedSetUnique(a, b, KeyLe);
    assert |r| == |a| == |b| == |t|;
    forall i | 0 <= i < |r|
      ensures r[i] == t[i]
    {
      assert r[i].Key() == a[i] == b[i] == t[i].Key();
      assert r[i] in r && t[i] in t;
    }
  }

  ghost function Keys(rows: seq<Fact>): seq<FactKey> {
    seq(|rows|, i requires 0 <= i < |rows| => rows[i].Key())
  }

  lemma {:induction false} ListedKeys(r: seq<Fact>, h: map<FactKey, Fact>)
    requires Lists(r, h)
    ensures Sorted(Keys(r), KeyLe) && Distinct(Keys(r))
    ensures forall k :: k in Keys(r) <==> k in h
  {
    var a := Keys(r);
    forall k
      ensures k in a <==> k in h
    {
      if k in a {
        var i :| 0 <= i < |a| && a[i] == k;
        assert r[i] in r;
      }
      if k in h {
        var i :| 0 <= i < |r| && r[i] == h[k];
        assert a[i] == k;
      }
    }
    forall i, j | 0 <= i < j < |a|
      ensures KeyLe(a[i], a[j]) && a[i] != a[j]
    {
      assert FactLe(r[i], r[j]);
    }
  }

  /** A publish replaces exactly the grains it has and leaves the rest. */
  lemma {:induction false} CreateReplacesItsGrains(vs: seq<Version>, v: Version, c: ClientId, k: FactKey)
    ensures var h := History(vs + [v], c);
            && (k in h <==> k in History(vs, c) || (k.client == c && HasGrain(v.rows, k)))
            && (k in h && !(k.client == c && HasGrain(v.rows, k)) ==> h[k] == History(vs, c)[k])
            && (k in h && k.client == c && HasGrain(v.rows, k) ==> h[k] in v.rows && h[k].Key() == k)
  {
    assert (vs + [v])[..|vs|] == vs;
    SnapshotMapContents(v.rows, c);
  }

  lemma {:induction false} SnapshotMapContents(rows: seq<Fact>, c: ClientId)
    ensures forall k :: k in SnapshotMap(rows, c) <==> k.client == c && HasGrain(rows, k)
    ensures forall k | k in SnapshotMap(rows, c) :: SnapshotMap(rows, c)[k] in rows && SnapshotMap(rows, c)[k].Key() == k
  {
    if rows != [] {
      SnapshotMapContents(rows[1..], c);
      assert forall f :: f in rows <==> f == rows[0] || f in rows[1..];
    }
  }

  // ---- the fingerprint ------------------------------------------------------------------

  datatype Fingerprint = Fingerprint(
    publications: string, newestId: Id, publishedAt: Stamp,
    rows: string, latestDay: Day, months: string)

  function MaxId(vs: seq<Version>): (id: Id)
    requires vs != []
    ensures id in Ids(vs)
  {
    var last := vs[|vs| - 1].publication.id;
    if |vs| == 1 then last
    else
      var m := MaxId(vs[..|vs| - 1]);
      assert Ids(vs[..|vs| - 1]) <= Ids(vs);
      if StringLe(m, last) then last else m
  }

  function MaxStamp(vs: seq<Version>): Stamp
    requires vs != []
  {
    var last := vs[|vs| - 1].publication.publishedAt;
    if |vs| == 1 then last
    else
      var m := MaxStamp(vs[..|vs| - 1]);
      if m <= last then last else m
  }

  function MaxDay(rows: seq<Fact>): Day
    requires rows != []
  {
    if |rows| == 1 || rows[0].day >= MaxDay(rows[1..]) then rows[0].day else MaxDay(rows[1..])
  }

  /** The row limit the store passes when it reads a whole history for itself. */
  const READ_LIMIT: nat := 10_000_000

  function StartOf(f: Fact): Day {
    Calendar.MonthStart(f.day)
  }

  function YearMonth(f: Fact): (int, int) {
    (Calendar.FromOrdinal(f.day).y, Calendar.FromOrdinal(f.day).m)
  }

  /** `consolidated_history_fingerprint`. */
  function FingerprintOf(vs: seq<Version>, c: ClientId): Option<Fingerprint> {
    var rows := Slice(HistoryRows(vs, c), 0, READ_LIMIT);
    if rows == [] || vs == [] then None
    else Some(Fingerprint(
      Str(|vs|), MaxId(vs), MaxStamp(vs), Str(|rows|), MaxDay(rows),
      Str(|set f | f in rows :: StartOf(f)|)))
  }

  // ---- the store object -----------------------------------------------------------------

  /** The greatest id, the latest stamp and the last day are those of some publication or row, and none is
      beyond them. */
  lemma {:induction false} GreatestId(vs: seq<Version>)
    requires vs != []
    ensures forall v | v in vs :: StringLe(v.publication.id, MaxId(vs))
  {
    hide StringLe;
    var init, last := vs[..|vs| - 1], vs[|vs| - 1];
    assert vs == init + [last];
    StringLeTotal(last.publication.id, last.publication.id);
    if |vs| > 1 {
      GreatestId(init);
      StringLeTotal(MaxId(init), last.publication.id);
      forall v | v in init
        ensures StringLe(v.publication.id, MaxId(vs))
      {
        if StringLe(MaxId(init), last.publication.id) {
          StringLeTransitive(v.publication.id, MaxId(init), last.publication.id);
        }
      }
    }
  }

  lemma {:induction false} LatestStamp(vs: seq<Version>)
    requires vs != []
    ensures forall v | v in vs :: v.publication.publishedAt <= MaxStamp(vs)
    ensures exists v | v in vs :: v.publication.publishedAt == MaxStamp(vs)
  {
    var init, last := vs[..|vs| - 1], vs[|vs| - 1];
    assert vs == init + [last] && last in vs;
    if |vs| > 1 {
      LatestStamp(init);
      var v :| v in init && v.publication.publishedAt == MaxStamp(init);
      assert v in vs;
    }
  }

  lemma {:induction false} LastDay(rows: seq<Fact>)
    requires rows != []
    ensures forall f | f in rows :: f.day <= MaxDay(rows)
    ensures exists f | f in rows :: f.day == MaxDay(rows)
  {
    assert rows == [rows[0]] + rows[1..] && rows[0] in rows;
    if |rows| > 1 {
      LastDay(rows[1..]);
      var f :| f in rows[1..] && f.day == MaxDay(rows[1..]);
      assert f in rows;
    }
  }

  /** What a fingerprint says of a history that fits one read: how many publications, the greatest id, the
      latest publication time, how many rows, the last day, and how many months. */
  lemma {:induction false} FingerprintMeans(vs: seq<Version>, c: ClientId)
    requires |HistoryRows(vs, c)| <= READ_LIMIT
    ensures FingerprintOf(vs, c).Some? <==> HistoryRows(vs, c) != []
    ensures FingerprintOf(vs, c).Some? ==>
              var (fp, rows) := (FingerprintOf(vs, c).value, HistoryRows(vs, c));
              && fp.publications == Str(|vs|) && fp.rows == Str(|rows|)
              && fp.newestId in Ids(vs) && (forall v | v in vs :: StringLe(v.publication.id, fp.newestId))
              && (exists v | v in vs :: v.publication.publishedAt == fp.publishedAt) && (forall v | v in vs :: v.publication.publishedAt <= fp.publishedAt)
              && (exists f | f in rows :: f.day == fp.latestDay) && (forall f | f in rows :: f.day <= fp.latestDay)
              && fp.months == Str(|set f | f in rows :: YearMonth(f)|)
  {
    hide HistoryRows, MaxId, MaxStamp, MaxDay, StringLe, StartOf, YearMonth, Str;
    NoRowsWithoutVersions(vs, c);
    var rows := HistoryRows(vs, c);
    assert rows[0..] == rows;
    if rows != [] {
      GreatestId(vs);
      LatestStamp(vs);
      LastDay(rows);
      MonthsCounted(rows);
    }
  }

  lemma {:induction false} NoRowsWithoutVersions(vs: seq<Version>, c: ClientId)
    ensures vs == [] ==> HistoryRows(vs, c) == []
  {
  }

  /** As many first days as pairs of year and month. */
  lemma {:induction false} MonthsCounted(rows: seq<Fact>)
    ensures |set f | f in rows :: StartOf(f)| == |set f | f in rows :: YearMonth(f)|
  {
    hide StartOf, YearMonth;
    forall f: Fact, g: Fact
      ensures StartOf(f) == StartOf(g) <==> YearMonth(f) == YearMonth(g)
    {
      SameMonth(f, g);
    }
    SameImageSize(rows, StartOf, YearMonth);
    assert Image(rows, StartOf) == set f | f in rows :: StartOf(f);
    assert Image(rows, YearMonth) == set f | f in rows :: YearMonth(f);
  }

  lemma {:induction false} SameMonth(f: Fact, g: Fact)
    ensures StartOf(f) == StartOf(g) <==> YearMonth(f) == YearMonth(g)
  {
    hide Calendar.FromOrdinal, Calendar.MonthStart;
    Calendar.SameMonthSameStart(f.day, g.day);
  }

  ghost function Image<T>(rows: seq<Fact>, p: Fact -> T): set<T> {
    set f | f in rows :: p(f)
  }

  lemma {:induction false} SameImageSize<S, T>(rows: seq<Fact>, p: Fact -> S, q: Fact -> T)
    requires forall f: Fact, g: Fact :: p(f) == p(g) <==> q(f) == q(g)
    ensures |Image(rows, p)| == |Image(rows, q)|
  {
    hide Image;
    ImageOfNone(p);
    ImageOfNone(q);
    if rows != [] {
      var (init, last) := (rows[..|rows| - 1], rows[|rows| - 1]);
      assert rows == init + [last];
      SameImageSize(init, p, q);
      ImageSnoc(init, last, p);
      ImageSnoc(init, last, q);
      if f :| f in init && p(f) == p(last) {
        assert q(f) == q(last);
      }
      if f :| f in init && q(f) == q(last) {
        assert p(f) == p(last);
      }
      OneMore(Image(init, p), p(last));
      OneMore(Image(init, q), q(last));
    } else {
      assert rows == [];
    }
  }

  lemma {:induction false} OneMore<T>(s: set<T>, x: T)
    ensures |s + {x}| == |s| + if x in s then 0 else 1
  {
    if x in s {
      assert s + {x} == s;
    }
  }

  lemma {:induction false} ImageOfNone<T>(p: Fact -> T)
    ensures Image([], p) == {}
  {
  }

  lemma {:induction false} ImageSnoc<T>(init: seq<Fact>, last: Fact, p: Fact -> T)
    ensures Image(init + [last], p) == Image(init, p) + {p(last)}
    ensures p(last) in Image(init, p) <==> exists f :: f in init && p(f) == p(last)
  {
    assert forall f :: f in init + [last] <==> f in init || f == last;
  }

  function OfClient(rows: seq<Fact>, c: ClientId): seq<Fact> {
    if rows == [] then []
    else (if rows[0].client == c then [rows[0]] else []) + OfClient(rows[1..], c)
  }

  /** `list_snapshot` before paging. */
  function SnapshotRows(s: State, id: Id, c: ClientId): seq<Fact> {
    Sort(OfClient(SnapshotOf(s, id), c), FactLe)
  }

  /** Rows list a client's part of a snapshot: each of its rows as often as the snapshot holds it,
      no other client's, in (day, campaign, variation, client) order. */
  ghost predicate ListsSnapshot(rows: seq<Fact>, snapshot: seq<Fact>, c: ClientId) {
    && Sorted(rows, FactLe)
    && forall f :: multiset(rows)[f] == if f.client == c then multiset(snapshot)[f] else 0
  }

  lemma {:induction false} OfClientHolds(rows: seq<Fact>, c: ClientId)
    ensures forall f :: multiset(OfClient(rows, c))[f] == if f.client == c then multiset(rows)[f] else 0
  {
    if rows != [] {
      OfClientHolds(rows[1..], c);
      assert rows == [rows[0]] + rows[1..];
    }
  }

  lemma {:induction false} OfClientSnoc(rows: seq<Fact>, f: Fact, c: ClientId)
    ensures OfClient(rows + [f], c) == OfClient(rows, c) + if f.client == c then [f] else []
  {
    if rows == [] {
      assert rows + [f] == [f] && [f][1..] == [];
    } else {
      assert (rows + [f])[0] == rows[0] && (rows + [f])[1..] == rows[1..] + [f];
      OfClientSnoc(rows[1..], f, c);
      Reassociate(if rows[0].client == c then [rows[0]] else [], OfClient(rows[1..], c), if f.client == c then [f] else []);
    }
  }

  /** The rows a paged read of a snapshot walks over are the client's part of it, in order. */
  lemma {:induction false} SnapshotListed(s: State, id: Id, c: ClientId)
    ensures ListsSnapshot(SnapshotRows(s, id, c), SnapshotOf(s, id), c)
  {
    var own := OfClient(SnapshotOf(s, id), c);
    KeyLeIsTotalOrder();
    SortSorts(own, FactLe);
    SortElements(own, FactLe);
    OfClientHolds(SnapshotOf(s, id), c);
  }

  /** A snapshot with one row per grain has only one such listing. */
  lemma {:induction false} SnapshotListingUnique(r: seq<Fact>, t: seq<Fact>, snapshot: seq<Fact>, c: ClientId)
    requires ListsSnapshot(r, snapshot, c) && ListsSnapshot(t, snapshot, c) && UniqueGrains(snapshot)
    ensures r == t
  {
    assert multiset(r) == multiset(t);
    GrainsOfPart(r, snapshot, c);
    AsMapContents(r);
    GrainsOfPermutation(r, t);
    SameElements(r, t);
    SameElements(t, r);
    ListsItsMap(r, r);
    ListsItsMap(t, r);
    ListingUnique(r, t, AsMap(r));
  }

  lemma {:induction false} ListsItsMap(rows: seq<Fact>, other: seq<Fact>)
    requires Sorted(rows, FactLe) && UniqueGrains(rows) && UniqueGrains(other)
    requires forall f :: f in rows <==> f in other
    ensures Lists(rows, AsMap(other))
  {
    AsMapContents(other);
    forall k | k in AsMap(other)
      ensures AsMap(other)[k] in rows && AsMap(other)[k].Key() == k
    {
      assert HasGrain(other, k);
      var f :| f in other && f.Key() == k;
    }
  }

  lemma {:induction false} GrainsOfPart(r: seq<Fact>, snapshot: seq<Fact>, c: ClientId)
    requires ListsSnapshot(r, snapshot, c) && UniqueGrains(snapshot)
    ensures UniqueGrains(r)
  {
    assert Distinct(snapshot);
    DistinctByCount(snapshot);
    DistinctByCount(r);
    forall i, j | 0 <= i < j < |r|
      ensures r[i].Key() != r[j].Key()
    {
      assert r[i] in multiset(r) && r[j] in multiset(r);
      assert r[i] in multiset(snapshot) && r[j] in multiset(snapshot);
      var p :| 0 <= p < |snapshot| && snapshot[p] == r[i];
      var q :| 0 <= q < |snapshot| && snapshot[q] == r[j];
      assert r[i] != r[j];
    }
  }

  lemma {:induction false} NoneOwned(c: ClientId)
    ensures Others([], c) == [] && OwnIds([], c) == {}
  {
  }

  lemma {:induction false} SplitSnoc(pubs: seq<Publication>, p: Publication, c: ClientId)
    ensures Others(pubs + [p], c) == if p.client == c then Others(pubs, c) else Others(pubs, c) + [p]
    ensures OwnIds(pubs + [p], c) == if p.client == c then OwnIds(pubs, c) + {p.id} else OwnIds(pubs, c)
  {
    assert (pubs + [p])[..|pubs|] == pubs;
    assert forall q :: q in pubs + [p] <==> q in pubs || q == p;
  }

  lemma {:induction false} ScanStep(merged: seq<Fact>, pubs: seq<Publication>, i: nat, snaps: map<Id, seq<Fact>>, c: ClientId)
    requires i < |pubs|
    ensures Scan(merged, VersionsOf(pubs[..i + 1], snaps, c), c) ==
            Scan(if pubs[i].client == c && pubs[i].complete
                 then AddUnseen(merged, if pubs[i].id in snaps then snaps[pubs[i].id] else [], c) else merged,
                 VersionsOf(pubs[..i], snaps, c), c)
  {
    assert pubs[..i + 1][..i] == pubs[..i];
    if pubs[i].client == c && pubs[i].complete {
      var v := Version(pubs[i], if pubs[i].id in snaps then snaps[pubs[i].id] else []);
      var older := VersionsOf(pubs[..i], snaps, c);
      assert (older + [v])[..|older|] == older;
    }
  }

  lemma {:induction false} AddUnseenStep(merged: seq<Fact>, rows: seq<Fact>, j: nat, c: ClientId)
    requires j < |rows|
    ensures AddUnseen(merged, rows[j..], c) ==
            AddUnseen(if rows[j].client == c && !HasGrain(merged, rows[j].Key()) then merged + [rows[j]] else merged,
                      rows[j + 1..], c)
  {
    assert rows[j..][1..] == rows[j + 1..];
  }

  lemma {:induction false} AddUnseenDone(merged: seq<Fact>, rows: seq<Fact>, c: ClientId)
    ensures AddUnseen(merged, rows[|rows|..], c) == merged
  {
  }

  lemma {:induction false} OneMoreHasGrain(merged: seq<Fact>, f: Fact)
    ensures forall k :: HasGrain(merged + [f], k) <==> HasGrain(merged, k) || k == f.Key()
  {
    assert forall g :: g in merged + [f] <==> g in merged || g == f;
  }

  lemma {:induction false} NothingScanned(snaps: map<Id, seq<Fact>>, c: ClientId)
    ensures forall k :: !HasGrain([], k)
    ensures forall merged :: Scan(merged, VersionsOf([], snaps, c), c) == merged
  {
  }

  const SNAPSHOT_CHUNK_SIZE: nat := 500

  class InMemoryPublicationStore {
    var publications: seq<Publication>
    var current: map<ClientId, Pointer>
    var snapshots: map<Id, seq<Fact>>

    function Contents(): State
      reads this
    {
      State(publications, current, snapshots)
    }

    constructor ()
      ensures Contents() == EMPTY
    {
      publications, current, snapshots := [], map[], map[];
    }

    /** `_unique_snapshot_rows`. */
    static method UniqueSnapshotRows(facts: seq<Fact>) returns (r: Result<seq<Fact>, StoreError>)
      ensures r == if UniqueGrains(facts) then Ok(facts) else Err(DuplicateGrains)
    {
      var seen: set<FactKey> := {};
      var rows: seq<Fact> := [];
      for i := 0 to |facts|
        invariant rows == facts[..i] && UniqueGrains(rows)
        invariant forall k :: k in seen <==> exists j | 0 <= j < i :: facts[j].Key() == k
      {
        if facts[i].Key() in seen {
          ghost var j :| 0 <= j < i && facts[j].Key() == facts[i].Key();
          return Err(DuplicateGrains);
        }
        seen := seen + {facts[i].Key()};
        rows := rows + [facts[i]];
      }
      assert facts[..|facts|] == facts;
      r := Ok(rows);
    }

    /** The chunked copy loses and repeats nothing. */
    static method CopyInChunks(rows: seq<Fact>) returns (copied: seq<Fact>)
      ensures copied == rows
    {
      copied := [];
      var offset := 0;
      while offset < |rows|
        invariant 0 <= offset
        invariant copied == rows[..if offset <= |rows| then offset else |rows|]
      {
        var end := if offset + SNAPSHOT_CHUNK_SIZE <= |rows| then offset + SNAPSHOT_CHUNK_SIZE else |rows|;
        copied := copied + rows[offset..end];
        offset := offset + SNAPSHOT_CHUNK_SIZE;
      }
    }

    /** `create`.  A snapshot with a repeated grain is refused before anything is written. */
    method Create(id: Id, c: ClientId, run: string, now: Stamp, facts: seq<Fact>)
      returns (r: Result<(Publication, Pointer), StoreError>)
      requires FreshId(Contents(), id)
      modifies this
      ensures match Store.Create(old(Contents()), id, c, run, now, facts)
              case Err(e) => r == Err(e) && Contents() == old(Contents())
              case Ok(s) =>
                && Contents() == s
                && r == Ok((Publication(id, c, run, now, true, |facts|), Pointer(id, now)))
    {
      var unique := UniqueSnapshotRows(facts);
      if unique.Err? {
        return Err(unique.error);
      }
      var record := Publication(id, c, run, now, true, |unique.value|);
      var pointer := Pointer(id, now);
      var copied := CopyInChunks(unique.value);
      snapshots := snapshots[id := copied];
      publications := publications + [record];
      current := current[c := pointer];
      r := Ok((record, pointer));
    }

    /** `list_published_history`: a page of the newest-wins union, and the union's size. */
    method ListPublishedHistory(c: ClientId, limit: nat, offset: nat) returns (page: seq<Fact>, total: nat)
      ensures page == Slice(HistoryRows(Versions(Contents(), c), c), offset, limit)
      ensures total == |HistoryRows(Versions(Contents(), c), c)|
      ensures IsPage(page, HistoryRows(Versions(Contents(), c), c), limit, offset) && InListingOrder(page)
    {
      hide Scan, VersionsOf, AddUnseen, HasGrain;
      NothingScanned(snapshots, c);
      ghost var all := Scan([], Versions(Contents(), c), c);
      var merged: seq<Fact> := [];
      var grains: set<FactKey> := {};
      assert publications[..|publications|] == publications;
      for i := |publications| downto 0
        invariant forall k :: k in grains <==> HasGrain(merged, k)
        invariant Scan(merged, VersionsOf(publications[..i], snapshots, c), c) == all
      {
        ScanStep(merged, publications, i, snapshots, c);
        if publications[i].client == c && publications[i].complete {
          var rows := if publications[i].id in snapshots then snapshots[publications[i].id] else [];
          ghost var before := merged;
          for j := 0 to |rows|
            invariant forall k :: k in grains <==> HasGrain(merged, k)
            invariant AddUnseen(merged, rows[j..], c) == AddUnseen(before, rows, c)
          {
            AddUnseenStep(merged, rows, j, c);
            OneMoreHasGrain(merged, rows[j]);
            if rows[j].client == c && rows[j].Key() !in grains {
              merged, grains := merged + [rows[j]], grains + {rows[j].Key()};
            }
          }
          AddUnseenDone(merged, rows, c);
        }
      }
      assert publications[..0] == [];
      SortElements(merged, FactLe);
      var records := Sort(merged, FactLe);
      ListingsInOrder(Versions(Contents(), c), Contents(), "", c);
      PageInOrder(records, limit, offset);
      page, total := Slice(records, offset, limit), |records|;
    }

    /** `purge_client`. */
    method PurgeClient(c: ClientId)
      modifies this
      ensures Contents() == Purge(old(Contents()), c)
    {
      hide Others, OwnIds;
      NoneOwned(c);
      var kept: seq<Publication> := [];
      var dropIds: set<Id> := {};
      for i := 0 to |publications|
        invariant Contents() == old(Contents())
        invariant kept == Others(publications[..i], c)
        invariant dropIds == OwnIds(publications[..i], c)
      {
        SplitSnoc(publications[..i], publications[i], c);
        assert publications[..i + 1] == publications[..i] + [publications[i]];
        if publications[i].client == c {
          dropIds := dropIds + {publications[i].id};
        } else {
          kept := kept + [publications[i]];
        }
      }
      assert publications[..|publications|] == publications;
      publications := kept;
      snapshots := snapshots - dropIds;
      current := current - {c};
    }

    /** `list_snapshot`: a page of the client's rows of the snapshot, sorted, and how many there are. */
    method ListSnapshot(id: Id, c: ClientId, limit: nat, offset: nat) returns (page: seq<Fact>, total: nat)
      ensures ListsSnapshot(SnapshotRows(Contents(), id, c), SnapshotOf(Contents(), id), c)
      ensures page == Slice(SnapshotRows(Contents(), id, c), offset, limit)
      ensures total == |SnapshotRows(Contents(), id, c)|
      ensures IsPage(page, SnapshotRows(Contents(), id, c), limit, offset) && InListingOrder(page)
    {
      hide ListsSnapshot, OfClient;
      var rows := if id in snapshots then snapshots[id] else [];
      var records: seq<Fact> := [];
      NothingOwned(c);
      for i := 0 to |rows|
        invariant records == OfClient(rows[..i], c)
      {
        assert rows[..i + 1] == rows[..i] + [rows[i]];
        OfClientSnoc(rows[..i], rows[i], c);
        if rows[i].client == c {
          records := records + [rows[i]];
        }
      }
      assert rows[..|rows|] == rows;
      records := Sort(records, FactLe);
      SnapshotListed(Contents(), id, c);
      ListingsInOrder([], Contents(), id, c);
      PageInOrder(records, limit, offset);
      page, total := Slice(records, offset, limit), |records|;
    }
  }

  lemma {:induction false} NothingOwned(c: ClientId)
    ensures OfClient([], c) == []
  {
  }
}
