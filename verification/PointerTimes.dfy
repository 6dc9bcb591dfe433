/** publication_store.py:112-118: a publish writes its record first and the pointer last.  The publication
    time that a request reads comes from the pointer, whichever publication that is at the moment; it rides
    beside the run of `Cache`, whose rows and fingerprints need only the records. */
module PointerTimes {
  import opened Prelude
  import opened Facts
  import opened Store
  import opened PublishedHistory
  import opened Cache
  import opened CacheInvariant
  import opened CacheAgreement
  import opened CacheReads
  import opened CacheGuard
  import opened CachedIdentity

  /** Every client's pointer, the time each request has read, and the time filed in each slot. */
  datatype Times = Times(pointer: map<ClientId, Id>, read: map<TaskId, Option<Stamp>>, filed: map<Slot, Option<Stamp>>)

  function TimeOf(publications: seq<Publication>, id: Id): Option<Stamp> {
    if publications == [] then None
    else
      var last := publications[|publications| - 1];
      if last.id == id then Some(last.publishedAt) else TimeOf(publications[..|publications| - 1], id)
  }

  /** `get_current`: the pointer, and the record it leads to. */
  function Pointed(w: World, times: Times, c: ClientId): Option<Stamp> {
    if c in times.pointer then TimeOf(w.store.publications, times.pointer[c]) else None
  }

  function TimesStep(v: World, times: Times, e: Event): Times {
    match e
    case Point(c, id) => times.(pointer := times.pointer[c := id])
    case PurgeClient(c) => times.(pointer := times.pointer - {c})
    case StartDownload(t, c) => if t in v.tasks then times else times.(read := times.read[t := Pointed(v, times, c)])
    case Advance(t) => if t in v.tasks then AdvanceTimes(v, times, t) else times
    case _ => times
  }

  function AdvanceTimes(v: World, times: Times, t: TaskId): Times
    requires t in v.tasks
  {
    match v.tasks[t]
    case WarmFingerprint(c, _) => times.(read := times.read[t := Pointed(v, times, c)])
    case WarmRendered(c, fp, _) => times.(filed := times.filed[Slot(c, fp) := ReadTime(times, t)])
    case DownloadFingerprint(c, fp, _) => times.(filed := times.filed[Slot(c, fp) := ReadTime(times, t)])
    case _ => times
  }

  function ReadTime(times: Times, t: TaskId): Option<Stamp> {
    if t in times.read then times.read[t] else None
  }

  function FiledTime(times: Times, slot: Slot): Option<Stamp> {
    if slot in times.filed then times.filed[slot] else None
  }

  function TimesOf(events: seq<Event>): Times {
    if events == [] then Times(map[], map[], map[])
    else
      var init := events[..|events| - 1];
      TimesStep(Run(START, init), TimesOf(init), events[|events| - 1])
  }

  /** The publication time that `get_current` gives after the run. */
  function PointerTime(events: seq<Event>, c: ClientId): Option<Stamp> {
    Pointed(Run(START, events), TimesOf(events), c)
  }

  // ---- the time in a cached body ------------------------------------------------------------------------

  lemma {:induction false} ReadStep(v: World, times: Times, e: Event, t: TaskId, c: ClientId)
    ensures if ReadsIdentity(v, e, t) then ReadsIdentityOf(v, e, t, c) ==> ReadTime(TimesStep(v, times, e), t) == Pointed(v, times, c)
            else ReadTime(TimesStep(v, times, e), t) == ReadTime(times, t)
  {
    hide Pointed;
  }

  lemma {:induction false} FileStep(v: World, times: Times, e: Event, slot: Slot)
    ensures FiledTime(TimesStep(v, times, e), slot) == if Files(v, e, slot) then ReadTime(times, e.t) else FiledTime(times, slot)
  {
    hide Pointed, ReadTime;
  }

  lemma {:induction false} ReadTimeTrace(events: seq<Event>, t: TaskId)
    requires var w := Run(START, events); t in w.tasks && Carries(w.tasks[t]).Some?
    ensures ReadAt(events, t) < |events|
    ensures ReadTime(TimesOf(events), t) == PointerTime(events[..ReadAt(events, t)], Run(START, events).tasks[t].c)
  {
    hide Step, IdentityOf, Carries, ReadsIdentity, ReadsIdentityOf, TimesStep, ReadTime, Pointed;
    if events != [] {
      var init, last := events[..|events| - 1], events[|events| - 1];
      var (v, task) := (Run(START, init), Run(START, events).tasks[t]);
      RequestStep(v, last, t);
      ReadStep(v, TimesOf(init), last, t, task.c);
      if ReadsIdentity(v, last, t) {
        assert events[..|init|] == init;
      } else {
        ReadTimeTrace(init, t);
        assert init[..ReadAt(init, t)] == events[..ReadAt(init, t)];
      }
    }
  }

  /** For every run and every cached body: the publication time filed with it is the one the pointer gave
      at the event where the request that filed it read its company's identity. */
  lemma {:induction false} FiledTimeWasPointed(events: seq<Event>, slot: Slot)
    requires slot in Run(START, events).cache
    ensures FiledFrom(events, slot) < |events|
    ensures FiledTime(TimesOf(events), slot) == PointerTime(events[..FiledFrom(events, slot)], slot.client)
  {
    hide Step, IdentityOf, Carries, Files, TimesStep, ReadTime, FiledTime, PointerTime;
    if events != [] {
      var init, last := events[..|events| - 1], events[|events| - 1];
      var v := Run(START, init);
      SlotStep(v, last, slot);
      FileStep(v, TimesOf(init), last, slot);
      if Files(v, last, slot) {
        FilesIs(v, last, slot);
        ReadTimeTrace(init, last.t);
        assert init[..ReadAt(init, last.t)] == events[..ReadAt(init, last.t)];
      } else {
        FiledTimeWasPointed(init, slot);
        assert init[..FiledFrom(init, slot)] == events[..FiledFrom(init, slot)];
      }
    }
  }

  /** Agreement with a publish in two visible steps.  After any guarded run, what is cached under a client's
      current fingerprint has exactly its current rows; and its publication time is that of the newest
      publication if and only if the pointer gave the newest one's time when that time was read. */
  lemma {:induction false} FiledTimeIsCurrent(events: seq<Event>, c: ClientId)
    requires GuardedRun(START, events) && Token(Run(START, events), c).Some?
    requires Slot(c, Token(Run(START, events), c).value) in Run(START, events).cache
    ensures FiledFrom(events, Slot(c, Token(Run(START, events), c).value)) < |events|
    ensures var w := Run(START, events);
            var slot := Slot(c, Token(w, c).value);
            var before := events[..FiledFrom(events, slot)];
            && w.cache[slot].rows == Rows(w, c)
            && (FiledTime(TimesOf(events), slot) == CurrentStamp(w, c)
                <==> PointerTime(before, c) == CurrentStamp(Run(START, before), c))
  {
    hide Run, GuardedRun, Token, Rows, CurrentStamp, TimesOf, FiledTime, PointerTime, FiledFrom, ReadsIdentityOf;
    var slot := Slot(c, Token(Run(START, events), c).value);
    HitsAreCurrent(events, c);
    CachedIdentityWasRead(events, slot);
    FiledTimeWasPointed(events, slot);
  }

  // ---- when the pointer is right ------------------------------------------------------------------------

  lemma {:induction false} TimeOfFound(publications: seq<Publication>, p: Publication)
    requires DistinctIds(publications) && p in publications
    ensures TimeOf(publications, p.id) == Some(p.publishedAt)
  {
    var last := publications[|publications| - 1];
    if last.id != p.id {
      var init := publications[..|publications| - 1];
      assert p in init by {
        var i :| 0 <= i < |publications| && publications[i] == p;
        assert init[i] == p;
      }
      TimeOfFound(init, p);
    } else {
      var i :| 0 <= i < |publications| && publications[i] == p;
      assert i == |publications| - 1;
    }
  }

  /** Once a publish has moved the pointer to the newest publication, its time is the newest one's. */
  lemma {:induction false} PointSettles(events: seq<Event>, c: ClientId)
    requires Now(Run(START, events), c) != []
    ensures var vs := Now(Run(START, events), c);
            var done := events + [Point(c, vs[|vs| - 1].publication.id)];
            Run(START, done) == Run(START, events) && PointerTime(done, c) == CurrentStamp(Run(START, done), c)
  {
    hide VersionsOf, HistoryRows;
    var w := Run(START, events);
    var vs := Now(w, c);
    var p := vs[|vs| - 1].publication;
    assert (events + [Point(c, p.id)])[..|events|] == events;
    RunStoreOk(events);
    VersionsFrom(w.store.publications, w.store.snapshots, c);
    assert vs[|vs| - 1] in vs;
    TimeOfFound(w.store.publications, p);
  }

  // ---- a warm between the two writes --------------------------------------------------------------------

  lemma {:induction false} TimesSnoc(events: seq<Event>, e: Event)
    ensures Run(START, events + [e]) == Step(Run(START, events), e)
    ensures TimesOf(events + [e]) == TimesStep(Run(START, events), TimesOf(events), e)
  {
    hide Step, TimesStep;
    assert (events + [e])[..|events|] == events;
  }

  /** A warm, step by step. */
  lemma {:induction false} WarmFiles(v: World, times: Times, t: TaskId, c: ClientId, fp: Fingerprint)
    requires t !in v.tasks && Token(v, c) == Some(fp) && Slot(c, fp) !in v.cache && Renderable(Rows(v, c))
    ensures var v1 := Step(v, StartWarm(t, c));
            var v2 := Step(v1, Advance(t));
            var v3 := Step(v2, Advance(t));
            var s2 := TimesStep(v1, TimesStep(v, times, StartWarm(t, c)), Advance(t));
            && Step(v3, Advance(t)).store == v.store && Slot(c, fp) in Step(v3, Advance(t)).cache
            && FiledTime(TimesStep(v3, TimesStep(v2, s2, Advance(t)), Advance(t)), Slot(c, fp)) == Pointed(v, times, c)
  {
    hide Token, Rows, CurrentStamp, NameOf, Renderable, HistoryRows, Pointed;
    var v1 := Step(v, StartWarm(t, c));
    assert v1 == WithTask(v, t, WarmFingerprint(c, fp));
    assert Rows(v1, c) == Rows(v, c) && Pointed(v1, times, c) == Pointed(v, times, c) by {
      SameStore(v, v1, times, c);
    }
    var v2 := Step(v1, Advance(t));
    SameStore(v, v2, times, c);
    assert v2.tasks[t].WarmIdentity?;
    var v3 := Step(v2, Advance(t));
    assert v3.tasks[t].WarmRendered?;
  }

  lemma {:induction false} SameStore(v: World, w: World, times: Times, c: ClientId)
    requires w.store == v.store
    ensures Rows(w, c) == Rows(v, c) && Pointed(w, times, c) == Pointed(v, times, c) && CurrentStamp(w, c) == CurrentStamp(v, c)
            && Token(w, c) == Token(v, c)
  {
    hide Versions, HistoryRows, FingerprintOf, TimeOf;
  }

  /** A warm that runs while the pointer lags files the time the pointer gave, under the fingerprint that
      stays current when the pointer has moved. */
  lemma {:induction false} LaggingTimeIsFiled(events: seq<Event>, t: TaskId, c: ClientId, fp: Fingerprint, id: Id)
    requires var v := Run(START, events);
             t !in v.tasks && Token(v, c) == Some(fp) && Slot(c, fp) !in v.cache && Renderable(Rows(v, c))
    ensures var after := events + [StartWarm(t, c)] + [Advance(t)] + [Advance(t)] + [Advance(t)] + [Point(c, id)];
            var w := Run(START, after);
            && Token(w, c) == Some(fp) && Slot(c, fp) in w.cache && CurrentStamp(w, c) == CurrentStamp(Run(START, events), c)
            && FiledTime(TimesOf(after), Slot(c, fp)) == PointerTime(events, c)
  {
    hide Run, Step, TimesOf, TimesStep, Token, Rows, Renderable, CurrentStamp, FiledTime;
    var v := Run(START, events);
    var a := events + [StartWarm(t, c)];
    var b := a + [Advance(t)];
    var d := b + [Advance(t)];
    var e := d + [Advance(t)];
    TimesSnoc(events, StartWarm(t, c));
    TimesSnoc(a, Advance(t));
    TimesSnoc(b, Advance(t));
    TimesSnoc(d, Advance(t));
    TimesSnoc(e, Point(c, id));
    WarmFiles(v, TimesOf(events), t, c, fp);
    PointOnly(Run(START, e), TimesOf(e), c, id, Slot(c, fp));
    SameStore(v, Run(START, e), TimesOf(e), c);
  }

  lemma {:induction false} PointOnly(v: World, times: Times, c: ClientId, id: Id, slot: Slot)
    ensures Step(v, Point(c, id)) == v && FiledTime(TimesStep(v, times, Point(c, id)), slot) == FiledTime(times, slot)
  {
  }

  const BETWEEN: seq<Event> := [FIRST] + [Point("client", "1")] + [SECOND]

  lemma {:induction false} BetweenWrites()
    ensures var w := Run(START, BETWEEN);
            && w.tasks == map[] && w.cache == map[] && Rows(w, "client") == [Clicked(2.0)]
            && CurrentStamp(w, "client") == Some(2) && PointerTime(BETWEEN, "client") == Some(1)
  {
    hide HistoryRows, Versions, FingerprintOf, Valid, Clicked;
    TwoPublishes();
    var v := Run(START, [FIRST]);
    assert [] + [FIRST] == [FIRST];
    TimesSnoc([], FIRST);
    TimesSnoc([FIRST], Point("client", "1"));
    TimesSnoc([FIRST] + [Point("client", "1")], SECOND);
    assert "2"[0] != "1"[0];
    PublishOfClient(v, SECOND);
    assert v.store.publications == [] + [Publication("1", "client", "run", 1, true, 1)] == [Publication("1", "client", "run", 1, true, 1)];
    var ps := Step(v, SECOND).store.publications;
    assert ps == v.store.publications + [Publication("2", "client", "run", 2, true, 1)] && ps[..1] == v.store.publications;
    assert TimesOf(BETWEEN).pointer == map["client" := "1"];
    assert TimeOf(v.store.publications, "1") == Some(1);
    assert TimeOf(ps, "1") == Some(1);
  }

  /** It happens: from an empty store, a second publish has written its record but not its pointer when a
      warm runs.  The body filed under the fingerprint that is current afterwards has the new rows and the
      first publication's time. */
  lemma {:induction false} LateTimeFromStart()
    ensures exists fp ::
              var after := BETWEEN + [StartWarm(0, "client")] + [Advance(0)] + [Advance(0)] + [Advance(0)] + [Point("client", "2")];
              var w := Run(START, after);
              && Token(w, "client") == Some(fp) && Slot("client", fp) in w.cache
              && CurrentStamp(w, "client") == Some(2) && FiledTime(TimesOf(after), Slot("client", fp)) == Some(1)
  {
    hide Run, Step, TimesOf, TimesStep, Rows, CurrentStamp, FiledTime, Versions, HistoryRows, PointerTime;
    BetweenWrites();
    var w := Run(START, BETWEEN);
    NonEmptyHasToken(Now(w, "client"), "client") by {
      assert Rows(w, "client") == HistoryRows(Now(w, "client"), "client") by { RowsIs(w, "client"); }
    }
    LaggingTimeIsFiled(BETWEEN, 0, "client", Token(w, "client").value, "2");
  }

  lemma {:induction false} RowsIs(w: World, c: ClientId)
    ensures Rows(w, c) == HistoryRows(Now(w, c), c)
  {
  }
}
