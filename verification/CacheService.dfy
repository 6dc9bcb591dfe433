/** publication_service.py: what the workbook cache is for.  A warm or a download that nothing disturbs is
    served to the next request; a history that cannot be rendered is never filed; an evicted artifact is
    missed. */
module CacheService {
  import opened Prelude
  import opened Facts
  import opened Store
  import opened PublishedHistory
  import opened Cache
  import opened CacheInvariant
  import opened CacheAgreement

  /** The workbook of a company as it is now. */
  function Workbook(w: World, c: ClientId): Body {
    Body(NameOf(w, c), CurrentStamp(w, c), Rows(w, c))
  }

  /** The same world with one more artifact. */
  function WithArtifact(w: World, slot: Slot, body: Body): World {
    w.(cache := w.cache[slot := body])
  }

  /** A warm of three steps after its fingerprint: identity, rows, store.  It leaves exactly one artifact, the
      present workbook under the present fingerprint. */
  lemma {:induction false} WarmFilesWorkbook(v: World, t: TaskId, c: ClientId, fp: Fingerprint)
    requires t !in v.tasks && Token(v, c) == Some(fp) && Slot(c, fp) !in v.cache && 0 < |Rows(v, c)| <= 250000
    ensures Step(Step(Step(Step(v, StartWarm(t, c)), Advance(t)), Advance(t)), Advance(t)) == WithArtifact(v, Slot(c, fp), Workbook(v, c))
  {
    hide Token, Rows, CurrentStamp, NameOf, HistoryRows;
    var v1 := Step(v, StartWarm(t, c));
    assert v1 == WithTask(v, t, WarmFingerprint(c, fp));
    SameReads(v, v1, c);
    var v2 := Step(v1, Advance(t));
    assert v2 == WithTask(v, t, WarmIdentity(c, fp, NameOf(v, c), CurrentStamp(v, c)));
    SameReads(v, v2, c);
    var v3 := Step(v2, Advance(t));
    assert v3 == WithTask(v, t, WarmRendered(c, fp, Workbook(v, c)));
    var v4 := Step(v3, Advance(t));
    assert v4.tasks == v.tasks;
  }

  /** What a request reads depends on the store and the names alone. */
  lemma {:induction false} SameReads(v: World, w: World, c: ClientId)
    requires w.store == v.store && w.names == v.names
    ensures Rows(w, c) == Rows(v, c) && CurrentStamp(w, c) == CurrentStamp(v, c) && Token(w, c) == Token(v, c) && NameOf(w, c) == NameOf(v, c)
  {
    hide Versions, HistoryRows, FingerprintOf;
  }

  /** A download of four steps does the same. */
  lemma {:induction false} DownloadFilesWorkbook(v: World, t: TaskId, c: ClientId, fp: Fingerprint)
    requires t !in v.tasks && Token(v, c) == Some(fp) && 0 < |Rows(v, c)| <= 250000
    ensures Step(Step(Step(Step(v, StartDownload(t, c)), Advance(t)), Advance(t)), Advance(t)) == WithArtifact(v, Slot(c, fp), Workbook(v, c))
  {
    hide Token, Rows, CurrentStamp, NameOf, HistoryRows, Step;
    DownloadLoads(v, t, c);
    var w := WithTask(v, t, DownloadRendered(c, Workbook(v, c)));
    SameReads(v, w, c);
    DownloadStores(w, t, c, Workbook(v, c));
    assert Without(w, t).tasks == v.tasks;
  }

  /** The next request for the company is handed that artifact, in two steps and without rendering anything. */
  lemma {:induction false} ArtifactIsServed(v: World, r: TaskId, c: ClientId, fp: Fingerprint, body: Body)
    requires r !in v.tasks && Token(v, c) == Some(fp)
    ensures var w := WithArtifact(v, Slot(c, fp), body);
            Step(Step(w, StartRead(r, c)), Advance(r)) == WithTask(w, r, Served(c, body, {Rows(v, c)}))
  {
    hide Token, Rows, CurrentStamp, NameOf, HistoryRows;
    var w := WithArtifact(v, Slot(c, fp), body);
    SameReads(v, w, c);
    var w1 := Step(w, StartRead(r, c));
    assert w1 == WithTask(w, r, Reading(c, fp, {Rows(v, c)}));
  }

  /** From warm or download to the next reader: what is served is the present workbook, name, time and rows. */
  lemma {:induction false} FreshWorkbookIsServed(v: World, t: TaskId, r: TaskId, c: ClientId)
    requires t !in v.tasks && r !in v.tasks && Token(v, c).Some? && 0 < |Rows(v, c)| <= 250000
    ensures var filed := Step(Step(Step(Step(v, StartDownload(t, c)), Advance(t)), Advance(t)), Advance(t));
            var w := Step(Step(filed, StartRead(r, c)), Advance(r));
            r in w.tasks && w.tasks[r] == Served(c, Body(NameOf(v, c), CurrentStamp(v, c), Rows(v, c)), {Rows(v, c)})
    ensures Slot(c, Token(v, c).value) !in v.cache ==>
              Step(Step(Step(Step(v, StartWarm(t, c)), Advance(t)), Advance(t)), Advance(t))
              == Step(Step(Step(Step(v, StartDownload(t, c)), Advance(t)), Advance(t)), Advance(t))
  {
    hide Token, Rows, CurrentStamp, NameOf, Step;
    var fp := Token(v, c).value;
    DownloadFilesWorkbook(v, t, c, fp);
    ArtifactIsServed(v, r, c, fp, Workbook(v, c));
    if Slot(c, fp) !in v.cache {
      WarmFilesWorkbook(v, t, c, fp);
    }
  }

  /** A history with no row, or with more than a quarter of a million, is not rendered: the request ends where
      it reads the rows, and the world is as if it had not come. */
  lemma {:induction false} UnrenderableIsNotFiled(v: World, t: TaskId, c: ClientId)
    requires t !in v.tasks && (|Rows(v, c)| == 0 || |Rows(v, c)| > 250000)
    ensures Step(Step(v, StartDownload(t, c)), Advance(t)) == v
    ensures Token(v, c).Some? && Slot(c, Token(v, c).value) !in v.cache ==> Step(Step(Step(v, StartWarm(t, c)), Advance(t)), Advance(t)) == v
  {
    hide Token, Rows, CurrentStamp, NameOf, HistoryRows;
    var d1 := Step(v, StartDownload(t, c));
    SameReads(v, d1, c);
    assert Step(d1, Advance(t)).tasks == v.tasks;
    if Token(v, c).Some? && Slot(c, Token(v, c).value) !in v.cache {
      var w1 := Step(v, StartWarm(t, c));
      SameReads(v, w1, c);
      var w2 := Step(w1, Advance(t));
      SameReads(v, w2, c);
      assert Step(w2, Advance(t)).tasks == v.tasks;
    }
  }

  /** What the other events do: a company whose artifact is cached is not warmed again; an evicted artifact is
      missed and no other; a request that is dropped leaves nothing behind. */
  lemma {:induction false} OtherEvents(v: World, t: TaskId, c: ClientId, slot: Slot)
    ensures Token(v, c).Some? && Slot(c, Token(v, c).value) in v.cache ==> Step(v, StartWarm(t, c)) == v
    ensures var w := Step(v, Evict(slot));
            w == v.(cache := w.cache) && slot !in w.cache
            && forall other | other != slot :: (other in w.cache <==> other in v.cache) && (other in v.cache ==> w.cache[other] == v.cache[other])
    ensures var w := Step(v, Abort(t));
            w == v.(tasks := w.tasks) && t !in w.tasks
            && forall other | other != t :: (other in w.tasks <==> other in v.tasks) && (other in v.tasks ==> w.tasks[other] == v.tasks[other])
  {
    hide Token, Rows, CurrentStamp, NameOf, HistoryRows;
  }

  lemma {:induction false} MissedIsNotServed(v: World, r: TaskId, c: ClientId)
    requires r !in v.tasks && Token(v, c).Some? && Slot(c, Token(v, c).value) !in v.cache
    ensures Step(Step(v, StartRead(r, c)), Advance(r)) == v
  {
    hide Token, Rows, CurrentStamp, NameOf, HistoryRows;
    assert Step(Step(v, StartRead(r, c)), Advance(r)).tasks == v.tasks;
  }

  /** A company without a recorded name goes by its code, and by its recorded one otherwise. */
  lemma {:induction false} NamesAre(v: World, c: ClientId, name: string)
    ensures NameOf(START, c) == c && NameOf(Step(v, Rename(c, name)), c) == name
  {
    hide Token, Rows, CurrentStamp, HistoryRows;
  }

  /** The publication time of a company is that of its latest publication, and none before its first. */
  lemma {:induction false} CurrentIsLatest(v: World, e: Event)
    requires StoreOk(v) && e.Publish? && UniqueGrains(e.rows) && e.id !in v.used
    ensures CurrentStamp(Step(v, e), e.c) == Some(e.now) && CurrentStamp(START, e.c) == None
    ensures e.id in Step(v, e).used && Now(Step(v, e), e.c) == Now(v, e.c) + [Version(Publication(e.id, e.c, e.run, e.now, true, |e.rows|), e.rows)]
  {
    hide HistoryRows, Versions, Valid;
    CreateVersions(v.store, e.id, e.c, e.run, e.now, e.rows, e.c);
    NoneAtStart(e.c);
  }

  lemma {:induction false} NoneAtStart(c: ClientId)
    ensures CurrentStamp(START, c) == None
  {
  }
}
