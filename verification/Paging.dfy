/** publication_service.py: reading a snapshot or a whole history page by page while other
    requests change the store.  `at(k)` is the store when the k-th page is read. */
module Paging {
  import opened Prelude
  import opened Facts
  import opened Ordering
  import opened Text
  import opened Store
  import opened PublishedHistory
  import opened Cache

  datatype LimitError = RowLimitExceeded

  // ---- one publication ------------------------------------------------------------------

  /** The pages after the first, until the announced total is reached or a page is empty. */
  function ReadRest(at: nat -> State, k: nat, id: Id, c: ClientId, total: nat, pageSize: nat, records: seq<Fact>): seq<Fact>
    decreases total - |records|
  {
    if |records| >= total then records
    else
      var limit := if pageSize <= total - |records| then pageSize else total - |records|;
      var chunk := Slice(SnapshotRows(at(k), id, c), |records|, limit);
      if chunk == [] then records else ReadRest(at, k + 1, id, c, total, pageSize, records + chunk)
  }

  /** `_load_published_items` on a complete publication. */
  function LoadPublished(at: nat -> State, id: Id, c: ClientId, maxRows: nat, pageSize: nat): Result<seq<Fact>, LimitError> {
    var rows := SnapshotRows(at(0), id, c);
    if |rows| > maxRows then Err(RowLimitExceeded)
    else Ok(ReadRest(at, 1, id, c, |rows|, pageSize, Slice(rows, 0, if pageSize <= maxRows then pageSize else maxRows)))
  }

  method LoadPublishedItems(at: nat -> State, id: Id, c: ClientId, maxRows: nat, pageSize: nat)
    returns (r: Result<seq<Fact>, LimitError>)
    ensures r == LoadPublished(at, id, c, maxRows, pageSize)
  {
    var all := SnapshotRows(at(0), id, c);
    var records, total := Slice(all, 0, if pageSize <= maxRows then pageSize else maxRows), |all|;
    if total > maxRows {
      return Err(RowLimitExceeded);
    }
    ghost var expected := ReadRest(at, 1, id, c, total, pageSize, records);
    var k := 1;
    while |records| < total
      invariant ReadRest(at, k, id, c, total, pageSize, records) == expected
      decreases total - |records|
    {
      var chunk := Slice(SnapshotRows(at(k), id, c), |records|,
                         if pageSize <= total - |records| then pageSize else total - |records|);
      if chunk == [] {
        break;
      }
      records, k := records + chunk, k + 1;
    }
    r := Ok(records);
  }

  /** Snapshots written before a page stay for the next one. */
  ghost predicate Keeps(s: State, t: State) {
    forall id | id in s.snapshots :: id in t.snapshots && t.snapshots[id] == s.snapshots[id]
  }

  /** A publish with a fresh identifier keeps every snapshot. */
  lemma {:induction false} CreateKeeps(s: State, id: Id, c: ClientId, run: string, now: Stamp, rows: seq<Fact>)
    requires Valid(s) && FreshId(s, id)
    ensures match Create(s, id, c, run, now, rows) case Ok(t) => Keeps(s, t) case Err(_) => true
  {
  }

  lemma {:induction false} KeptThroughout(at: nat -> State, id: Id, k: nat)
    requires forall i: nat :: Keeps(at(i), at(i + 1))
    requires id in at(0).snapshots
    ensures id in at(k).snapshots && at(k).snapshots[id] == at(0).snapshots[id]
  {
    if k > 0 {
      KeptThroughout(at, id, k - 1);
      assert Keeps(at(k - 1), at(k - 1 + 1));
    }
  }

  /** At every page the snapshot is whole or gone. */
  ghost predicate WholeOrGone(at: nat -> State, id: Id, c: ClientId) {
    forall i: nat :: SnapshotRows(at(i), id, c) == SnapshotRows(at(0), id, c) || SnapshotRows(at(i), id, c) == []
  }

  /** It is still there at every page that is read to complete it, from the k-th on. */
  ghost predicate ThereWhenDue(at: nat -> State, k: nat, id: Id, c: ClientId, pageSize: nat) {
    forall j: nat | k <= j && j * pageSize < |SnapshotRows(at(0), id, c)| :: SnapshotRows(at(j), id, c) != []
  }

  lemma {:induction false} ReadRestExact(at: nat -> State, k: nat, id: Id, c: ClientId, pageSize: nat, read: nat)
    requires pageSize > 0 && WholeOrGone(at, id, c)
    requires var n := |SnapshotRows(at(0), id, c)|; read == if k * pageSize <= n then k * pageSize else n
    ensures var rows := SnapshotRows(at(0), id, c);
            var result := ReadRest(at, k, id, c, |rows|, pageSize, rows[..read]);
            && result <= rows
            && (result == rows <==> ThereWhenDue(at, k, id, c, pageSize))
    decreases |SnapshotRows(at(0), id, c)| - read
  {
    hide SnapshotRows;
    var rows := SnapshotRows(at(0), id, c);
    assert (k + 1) * pageSize == k * pageSize + pageSize;
    if read < |rows| {
      if SnapshotRows(at(k), id, c) != [] {
        var limit := if pageSize <= |rows| - read then pageSize else |rows| - read;
        assert SnapshotRows(at(k), id, c) == rows;
        assert rows[..read] + rows[read..read + limit] == rows[..read + limit];
        ReadRestExact(at, k + 1, id, c, pageSize, read + limit);
      }
    } else {
      assert rows[..read] == rows;
      forall j: nat | k <= j
        ensures j * pageSize >= |rows|
      {
        assert j * pageSize == k * pageSize + (j - k) * pageSize;
      }
    }
  }

  /** Exactly when paged reading is exact.  Whatever else changes the store, the read refuses a
      snapshot over the limit and otherwise gives a prefix of its sorted rows; it gives all of them
      if and only if the snapshot is still there at each page that the rows announced by the first
      one call for. */
  lemma {:induction false} PagedReadIsPrefix(at: nat -> State, id: Id, c: ClientId, maxRows: nat, pageSize: nat)
    requires pageSize > 0 && WholeOrGone(at, id, c)
    ensures var (rows, r) := (SnapshotRows(at(0), id, c), LoadPublished(at, id, c, maxRows, pageSize));
            if |rows| > maxRows then r == Err(RowLimitExceeded)
            else r.Ok? && r.value <= rows && (r.value == rows <==> ThereWhenDue(at, 1, id, c, pageSize))
  {
    hide SnapshotRows;
    var rows := SnapshotRows(at(0), id, c);
    if |rows| <= maxRows {
      var first := if pageSize <= maxRows then pageSize else maxRows;
      var read := if first <= |rows| then first else |rows|;
      assert Slice(rows, 0, first) == rows[..read];
      ReadRestExact(at, 1, id, c, pageSize, read);
    }
  }

  /** With nothing but publishes between the pages it yields precisely the sorted snapshot, or refuses
      an over-limit one. */
  lemma {:induction false} PagedReadExact(at: nat -> State, id: Id, c: ClientId, maxRows: nat, pageSize: nat)
    requires pageSize > 0 && id in at(0).snapshots
    requires forall i: nat :: Keeps(at(i), at(i + 1))
    ensures var rows := SnapshotRows(at(0), id, c);
            LoadPublished(at, id, c, maxRows, pageSize) ==
            if |rows| > maxRows then Err(RowLimitExceeded) else Ok(rows)
  {
    var rows := SnapshotRows(at(0), id, c);
    forall i: nat
      ensures SnapshotRows(at(i), id, c) == rows
    {
      KeptThroughout(at, id, i);
    }
    PagedReadIsPrefix(at, id, c, maxRows, pageSize);
  }

  // ---- the same over runs of publishes and purges ---------------------------------------------

  datatype StoreEvent = Publishing(id: Id, client: ClientId, run: string, now: Stamp, rows: seq<Fact>) | Purging(client: ClientId)

  function StoreStep(s: State, e: StoreEvent): State {
    match e
    case Purging(c) => Purge(s, c)
    case Publishing(id, c, run, now, rows) =>
      (match Create(s, id, c, run, now, rows)
       case Err(_) => s
       case Ok(t) => t)
  }

  function StoreRun(s: State, events: seq<StoreEvent>): State {
    if events == [] then s else StoreStep(StoreRun(s, events[..|events| - 1]), events[|events| - 1])
  }

  /** The publication is in the store with these rows, and no other has its id. */
  ghost predicate Holds(s: State, p: Publication, rows: seq<Fact>) {
    && p in s.publications && p.id in s.snapshots && s.snapshots[p.id] == rows
    && forall q | q in s.publications && q.id == p.id :: q == p
  }

  ghost predicate Gone(s: State, id: Id) {
    id !in s.snapshots && forall q | q in s.publications :: q.id != id
  }

  /** One event on a publication's snapshot: only a purge of its own client removes it. */
  lemma {:induction false} SnapshotFate(s: State, p: Publication, rows: seq<Fact>, e: StoreEvent)
    requires e.Publishing? ==> e.id != p.id
    ensures Holds(s, p, rows) && e != Purging(p.client) ==> Holds(StoreStep(s, e), p, rows)
    ensures Holds(s, p, rows) && e == Purging(p.client) ==> Gone(StoreStep(s, e), p.id)
    ensures Gone(s, p.id) ==> Gone(StoreStep(s, e), p.id)
  {
    if e.Purging? {
      OthersKeep(s.publications, e.client);
    }
  }

  lemma {:induction false} RunFate(s: State, p: Publication, rows: seq<Fact>, events: seq<StoreEvent>)
    requires Holds(s, p, rows) && forall e | e in events && e.Publishing? :: e.id != p.id
    ensures if Purging(p.client) in events then Gone(StoreRun(s, events), p.id) else Holds(StoreRun(s, events), p, rows)
  {
    hide StoreStep;
    if events != [] {
      var init, last := events[..|events| - 1], events[|events| - 1];
      assert events == init + [last];
      RunFate(s, p, rows, init);
      SnapshotFate(StoreRun(s, init), p, rows, last);
    }
  }

  /** Paged reading of a publication while publishes and purges go on, `done(k)` of them before the
      k-th page: it is complete exactly when no purge of the publication's own client comes before
      a page that is due.  Purges of other clients, and purges after the last page, do no harm. */
  lemma {:induction false} PagedReadOfRun(s: State, p: Publication, events: seq<StoreEvent>, done: nat -> nat, maxRows: nat, pageSize: nat)
    requires Valid(s) && p in s.publications && pageSize > 0
    requires forall e | e in events && e.Publishing? :: e.id != p.id
    requires done(0) == 0 && forall k: nat :: done(k) <= |events|
    requires |SnapshotRows(s, p.id, p.client)| <= maxRows
    ensures var (rows, at) := (SnapshotRows(s, p.id, p.client), RunAt(s, events, done));
            LoadPublished(at, p.id, p.client, maxRows, pageSize) == Ok(rows) <==>
            forall j: nat | 1 <= j && j * pageSize < |rows| :: Purging(p.client) !in events[..done(j)]
  {
    hide StoreRun;
    var (rows, at) := (SnapshotRows(s, p.id, p.client), RunAt(s, events, done));
    OneOfEachId(s, p);
    assert events[..0] == [] && at(0) == s by { NoEvents(s); }
    forall j: nat
      ensures SnapshotRows(at(j), p.id, p.client) == if Purging(p.client) in events[..done(j)] then [] else rows
    {
      assert forall e | e in events[..done(j)] :: e in events;
      RunFate(s, p, s.snapshots[p.id], events[..done(j)]);
      SnapshotOfFate(s, at(j), p);
    }
    PagedReadIsPrefix(at, p.id, p.client, maxRows, pageSize);
  }

  lemma {:induction false} SnapshotOfFate(s: State, t: State, p: Publication)
    requires p.id in s.snapshots && (Gone(t, p.id) || Holds(t, p, s.snapshots[p.id]))
    ensures SnapshotRows(t, p.id, p.client) == if Gone(t, p.id) then [] else SnapshotRows(s, p.id, p.client)
  {
  }

  lemma {:induction false} NoEvents(s: State)
    ensures StoreRun(s, []) == s
  {
  }

  function Count(done: nat -> nat, k: nat, n: nat): nat {
    if done(k) <= n then done(k) else n
  }

  function RunAt(s: State, events: seq<StoreEvent>, done: nat -> nat): nat -> State {
    (k: nat) => StoreRun(s, events[..Count(done, k, |events|)])
  }

  lemma {:induction false} OneOfEachId(s: State, p: Publication)
    requires Valid(s) && p in s.publications
    ensures Holds(s, p, s.snapshots[p.id])
  {
    forall q | q in s.publications && q.id == p.id
      ensures q == p
    {
      var i :| 0 <= i < |s.publications| && s.publications[i] == p;
      var j :| 0 <= j < |s.publications| && s.publications[j] == q;
    }
  }

  /** A purge between the pages is not noticed: the first page is returned as if it were all. */
  lemma {:induction false} PurgeTruncates(s: State, p: Publication, maxRows: nat, pageSize: nat)
    requires Valid(s) && p in s.publications
    requires pageSize < |SnapshotRows(s, p.id, p.client)| <= maxRows
    ensures var at := (k: nat) => if k == 0 then s else Purge(s, p.client);
            LoadPublished(at, p.id, p.client, maxRows, pageSize) == Ok(SnapshotRows(s, p.id, p.client)[..pageSize])
  {
    var at := (k: nat) => if k == 0 then s else Purge(s, p.client);
    assert p.id in OwnIds(s.publications, p.client);
    assert at(1) == Purge(s, p.client);
    assert p.id !in at(1).snapshots;
    assert SnapshotRows(at(1), p.id, p.client) == [];
  }

  // ---- the whole history ----------------------------------------------------------------

  function CumulativeFrom(at: nat -> State, k: nat, c: ClientId, records: seq<Fact>): Result<seq<Fact>, LimitError>
    decreases HISTORY_FACTS_MAX_PAGE_LIMIT - |records|
  {
    var all := HistoryRows(Versions(at(k), c), c);
    if |all| > HISTORY_FACTS_MAX_PAGE_LIMIT then Err(RowLimitExceeded)
    else
      var page := Slice(all, |records|, HISTORY_FACTS_MAX_PAGE_LIMIT);
      if page == [] || |records| + |page| >= |all| then Ok(records + page)
      else CumulativeFrom(at, k + 1, c, records + page)
  }

  /** `_load_cumulative_items`. */
  method LoadCumulativeItems(at: nat -> State, c: ClientId) returns (r: Result<seq<Fact>, LimitError>)
    ensures r == CumulativeFrom(at, 0, c, [])
  {
    var records: seq<Fact> := [];
    var offset, k := 0, 0;
    while true
      invariant offset == |records|
      invariant CumulativeFrom(at, k, c, records) == CumulativeFrom(at, 0, c, [])
      decreases HISTORY_FACTS_MAX_PAGE_LIMIT - offset
    {
      var all := HistoryRows(Versions(at(k), c), c);
      var page, total := Slice(all, offset, HISTORY_FACTS_MAX_PAGE_LIMIT), |all|;
      if total > HISTORY_FACTS_MAX_PAGE_LIMIT {
        return Err(RowLimitExceeded);
      }
      records := records + page;
      offset := offset + |page|;
      if page == [] || offset >= total {
        return Ok(records);
      }
      k := k + 1;
    }
  }

  /** One page is all it ever reads, so the rows are those of a single moment. */
  lemma {:induction false} CumulativeIsOneMoment(at: nat -> State, c: ClientId)
    ensures var rows := HistoryRows(Versions(at(0), c), c);
            CumulativeFrom(at, 0, c, []) ==
            if |rows| > HISTORY_FACTS_MAX_PAGE_LIMIT then Err(RowLimitExceeded) else Ok(rows)
  {
    hide HistoryRows, Versions;
    var rows := HistoryRows(Versions(at(0), c), c);
    if |rows| <= HISTORY_FACTS_MAX_PAGE_LIMIT {
      assert Slice(rows, 0, HISTORY_FACTS_MAX_PAGE_LIMIT) == rows;
      assert [] + rows == rows;
    }
  }

  /** `_consolidated_over_cap`: the row count is read back from the fingerprint's text. */
  predicate OverCap(fp: Fingerprint) {
    AllDigits(fp.rows) && ParseNat(fp.rows) > HISTORY_FACTS_MAX_PAGE_LIMIT
  }

  /** The cheap test refuses exactly when the loader would. */
  lemma {:induction false} OverCapMatchesLoader(at: nat -> State, c: ClientId)
    requires FingerprintOf(Versions(at(0), c), c).Some?
    ensures OverCap(FingerprintOf(Versions(at(0), c), c).value) <==> CumulativeFrom(at, 0, c, []).Err?
  {
    hide HistoryRows, Versions;
    var rows := HistoryRows(Versions(at(0), c), c);
    ParseStr(|Slice(rows, 0, READ_LIMIT)|);
    CumulativeIsOneMoment(at, c);
  }
}
