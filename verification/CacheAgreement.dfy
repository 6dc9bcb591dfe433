/** Whole runs of the workbook cache: agreement under a guard, the guard's exactness, and the runs that
    break it. */
module CacheAgreement {
  import opened Prelude
  import opened Facts
  import opened Text
  import opened Store
  import opened PublishedHistory
  import opened Cache
  import opened CacheInvariant

  // ---- whole runs -----------------------------------------------------------------------

  lemma {:induction false} StartInv()
    ensures Inv(START)
  {
    EmptyValid();
  }

  lemma {:induction false} GuardedRunInv(events: seq<Event>)
    requires GuardedRun(START, events)
    ensures Inv(Run(START, events))
  {
    if events == [] {
      StartInv();
    } else {
      GuardedRunInv(events[..|events| - 1]);
      StepKeeps(Run(START, events[..|events| - 1]), events[|events| - 1]);
    }
  }

  /** Cache agreement.  After any guarded run, whatever is cached under a client's current
      fingerprint was rendered from exactly its current history and publication time. */
  lemma {:induction false} HitsAreCurrent(events: seq<Event>, c: ClientId)
    requires GuardedRun(START, events)
    ensures var w := Run(START, events);
            var fp := Token(w, c);
            fp.Some? && Slot(c, fp.value) in w.cache ==>
              && w.cache[Slot(c, fp.value)].rows == Rows(w, c)
              && w.cache[Slot(c, fp.value)].publishedAt == CurrentStamp(w, c)
              && Lists(w.cache[Slot(c, fp.value)].rows, History(Now(w, c), c))
  {
    hide FingerprintOf, HistoryRows, Versions, Taken;
    GuardedRunInv(events);
    var w := Run(START, events);
    HistoryRefines(Now(w, c), c);
  }

  predicate IsDownload(task: Task) {
    task.DownloadIdentity? || task.DownloadRendered? || task.DownloadFingerprint?
  }

  /** The warm path takes the fingerprint before the rows, and so needs no guard: a run without
      direct downloads is guarded however its publishes, purges and warms interleave. */
  lemma {:induction false} WarmsNeedNoGuard(events: seq<Event>)
    requires forall e | e in events :: !e.StartDownload?
    ensures GuardedRun(START, events) && NoDownloads(Run(START, events))
  {
    hide Step, Guarded;
    if events != [] {
      var init, last := events[..|events| - 1], events[|events| - 1];
      assert last in events && forall e | e in init :: e in events;
      WarmsNeedNoGuard(init);
      NoDownloadStep(Run(START, init), last);
    }
  }

  ghost predicate NoDownloads(w: World) {
    forall t | t in w.tasks :: !IsDownload(w.tasks[t])
  }

  lemma {:induction false} NoDownloadStep(v: World, e: Event)
    requires NoDownloads(v) && !e.StartDownload?
    ensures Guarded(v, e) && NoDownloads(Step(v, e))
  {
    hide Token, Rows, CurrentStamp, NameOf, Renderable, HistoryRows, Create, Purge;
  }

  /** When a download takes its fingerprint, the invariant survives exactly if the rows and the
      publication time it rendered are still the client's. */
  lemma {:induction false} GuardIsExact(v: World, e: Event)
    requires Inv(v) && TakesFingerprint(v, e)
    ensures Inv(Step(v, e)) <==> StillCurrent(v, e)
  {
    hide FingerprintOf, HistoryRows, Versions, Taken, Inv;
    if StillCurrent(v, e) {
      StepKeeps(v, e);
    }
    if Inv(Step(v, e)) {
      TaskFacts(Step(v, e), e.t);
    }
  }

  /** No publish or purge of the client, from reading the pointer to taking the fingerprint,
      is enough for the guard: events of other clients and requests do not disturb it. */
  lemma {:induction false} UndisturbedStaysCurrent(v: World, t: TaskId, c: ClientId, body: Body, events: seq<Event>)
    requires StoreOk(v)
    requires t in v.tasks && v.tasks[t] == DownloadRendered(c, body)
    requires body.rows == Rows(v, c) && body.publishedAt == CurrentStamp(v, c)
    requires forall e | e in events ::
               !((e.Publish? || e.PurgeClient?) && e.c == c) && !((e.Advance? || e.Abort?) && e.t == t)
    ensures var w := Run(v, events);
            StoreOk(w) && Now(w, c) == Now(v, c) && t in w.tasks && w.tasks[t] == v.tasks[t]
            && Guarded(w, Advance(t))
  {
    hide FingerprintOf, HistoryRows, Versions, Valid, Step;
    if events != [] {
      var init, last := events[..|events| - 1], events[|events| - 1];
      assert last in events && forall e | e in init :: e in events;
      UndisturbedStaysCurrent(v, t, c, body, init);
      var u := Run(v, init);
      StepEvolves(u, last, c);
      OtherClientsUntouched(u, last, c);
      OtherTasksUntouched(u, last, t);
    }
  }

  lemma {:induction false} OtherTasksUntouched(v: World, e: Event, t: TaskId)
    requires t in v.tasks && v.tasks[t].DownloadRendered? && !((e.Advance? || e.Abort?) && e.t == t)
    ensures t in Step(v, e).tasks && Step(v, e).tasks[t] == v.tasks[t]
  {
    hide Token, Rows, CurrentStamp, NameOf, Renderable, HistoryRows, Create, Purge;
  }

  lemma {:induction false} OtherClientsUntouched(v: World, e: Event, c: ClientId)
    requires StoreOk(v) && !((e.Publish? || e.PurgeClient?) && e.c == c)
    ensures Now(Step(v, e), c) == Now(v, c)
  {
    hide FingerprintOf, HistoryRows, Versions;
    if (e.Publish? || e.PurgeClient?) && Step(v, e) != v {
      StoreOnly(v, e);
    }
  }

  /** The breaking run.  In any world, a download whose client publishes changed rows between its
      two reads poisons the cache: the next read is handed the old rows as current. */
  lemma {:induction false} DownloadRaceBreaks(v: World, c: ClientId, id: Id, run: string, now: Stamp, rows: seq<Fact>, t: TaskId, r: TaskId)
    requires StoreOk(v) && t !in v.tasks && r !in v.tasks && r != t
    requires id !in v.used && UniqueGrains(rows) && Renderable(Rows(v, c))
    requires var w := Step(v, Publish(c, id, run, now, rows)); Rows(w, c) != Rows(v, c) && Rows(w, c) != []
    ensures var w := Run(v, [StartDownload(t, c), Advance(t), Publish(c, id, run, now, rows),
                             Advance(t), Advance(t), StartRead(r, c), Advance(r)]);
            && r in w.tasks && w.tasks[r].Served? && w.tasks[r].c == c
            && w.tasks[r].body.rows == Rows(v, c) != Rows(w, c)
            && w.tasks[r].seen == {Rows(w, c)}
  {
    hide HistoryRows, Versions, FingerprintOf, Run, Step;
    var e := Publish(c, id, run, now, rows);
    var body := Body(NameOf(v, c), CurrentStamp(v, c), Rows(v, c));
    RunSeven(v, StartDownload(t, c), Advance(t), e, Advance(t), Advance(t), StartRead(r, c), Advance(r));
    DownloadLoads(v, t, c);
    var w2 := Step(Step(v, StartDownload(t, c)), Advance(t));
    PublishAround(v, t, DownloadRendered(c, body), e, r);
    var w3 := Step(w2, e);
    NonEmptyHasToken(Now(w3, c), c);
    DownloadStores(w3, t, c, body);
    var w5 := Step(Step(w3, Advance(t)), Advance(t));
    ReadServes(w5, r, c);
  }

  /** A download reads identity and rows. */
  lemma {:induction false} DownloadLoads(v: World, t: TaskId, c: ClientId)
    requires t !in v.tasks && Renderable(Rows(v, c))
    ensures Step(Step(v, StartDownload(t, c)), Advance(t)) ==
            WithTask(v, t, DownloadRendered(c, Body(NameOf(v, c), CurrentStamp(v, c), Rows(v, c))))
  {
    hide HistoryRows, Versions, FingerprintOf;
  }

  lemma {:induction false} PublishAround(v: World, t: TaskId, task: Task, e: Event, r: TaskId)
    requires e.Publish? && e.id !in v.used && UniqueGrains(e.rows) && task.DownloadRendered? && r !in v.tasks && r != t
    ensures var w := Step(WithTask(v, t, task), e);
            w.store == Step(v, e).store && t in w.tasks && w.tasks[t] == task && r !in w.tasks
  {
    hide HistoryRows, Versions, FingerprintOf;
  }

  /** Then it takes the fingerprint and stores. */
  lemma {:induction false} DownloadStores(w: World, t: TaskId, c: ClientId, body: Body)
    requires t in w.tasks && w.tasks[t] == DownloadRendered(c, body) && Token(w, c).Some?
    ensures Step(Step(w, Advance(t)), Advance(t)) ==
            Without(w, t).(cache := w.cache[Slot(c, Token(w, c).value) := body])
  {
    hide HistoryRows, Versions, FingerprintOf;
  }

  lemma {:induction false} ReadServes(w: World, r: TaskId, c: ClientId)
    requires r !in w.tasks && Token(w, c).Some? && Slot(c, Token(w, c).value) in w.cache
    ensures var u := Step(Step(w, StartRead(r, c)), Advance(r));
            && u.store == w.store && r in u.tasks
            && u.tasks[r] == Served(c, w.cache[Slot(c, Token(w, c).value)], {Rows(w, c)})
  {
    hide HistoryRows, Versions, FingerprintOf;
  }

  lemma {:induction false} NonEmptyHasToken(vs: seq<Version>, c: ClientId)
    requires HistoryRows(vs, c) != []
    ensures FingerprintOf(vs, c).Some?
  {
  }

  lemma {:induction false} RunSnoc(v: World, events: seq<Event>, e: Event)
    ensures Run(v, events + [e]) == Step(Run(v, events), e)
  {
    assert (events + [e])[..|events|] == events;
  }

  lemma {:induction false} RunSeven(v: World, a: Event, b: Event, c: Event, d: Event, e: Event, f: Event, g: Event)
    ensures Run(v, [a, b, c, d, e, f, g]) == Step(Step(Step(Step(Step(Step(Step(v, a), b), c), d), e), f), g)
  {
    hide Step;
    RunSnoc(v, [], a);
    RunSnoc(v, [a], b);
    RunSnoc(v, [a, b], c);
    RunSnoc(v, [a, b, c], d);
    RunSnoc(v, [a, b, c, d], e);
    RunSnoc(v, [a, b, c, d, e], f);
    RunSnoc(v, [a, b, c, d, e, f], g);
    assert [] + [a] == [a] && [a] + [b] == [a, b] && [a, b] + [c] == [a, b, c];
    assert [a, b, c] + [d] == [a, b, c, d] && [a, b, c, d] + [e] == [a, b, c, d, e];
    assert [a, b, c, d, e] + [f] == [a, b, c, d, e, f];
    assert [a, b, c, d, e, f] + [g] == [a, b, c, d, e, f, g];
  }

  /** A rename does not move the fingerprint: the cached body keeps the name it was rendered with. */
  lemma {:induction false} RenameIsNotNoticed(v: World, c: ClientId, name: string)
    requires Token(v, c).Some? && Slot(c, Token(v, c).value) in v.cache
    ensures var w := Step(v, Rename(c, name));
            && Token(w, c) == Token(v, c) && NameOf(w, c) == name
            && Slot(c, Token(w, c).value) in w.cache
            && w.cache[Slot(c, Token(w, c).value)] == v.cache[Slot(c, Token(v, c).value)]
  {
    hide FingerprintOf, Versions;
  }
}
