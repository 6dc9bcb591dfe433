/** When a direct download is safe, said of the events around it; and the race from an empty store. */
module CacheGuard {
  import opened Prelude
  import opened Facts
  import opened Ordering
  import opened Store
  import opened PublishedHistory
  import opened Cache
  import opened CacheInvariant
  import opened CacheAgreement
  import opened CacheReads

  // ---- what happened to the client --------------------------------------------------------------------

  predicate PublishesOrPurges(e: Event, c: ClientId) {
    (e.Publish? || e.PurgeClient?) && e.c == c
  }

  /** A create or purge of the client that changes what it has published. */
  predicate TakesEffect(v: World, e: Event, c: ClientId) {
    PublishesOrPurges(e, c) && Now(Step(v, e), c) != Now(v, c)
  }

  /** Such an event comes at or after the given point of the run. */
  ghost predicate DisturbedSince(events: seq<Event>, lo: nat, c: ClientId) {
    exists k: nat :: lo <= k < |events| && TakesEffect(Run(START, events[..k]), events[k], c)
  }

  /** Each publish of the client is stamped later than its earlier ones. */
  ghost predicate StampsAscend(events: seq<Event>, c: ClientId) {
    forall i, j | 0 <= i < j < |events| && Publishes(events[i], c) && Publishes(events[j], c) :: events[i].now < events[j].now
  }

  predicate Publishes(e: Event, c: ClientId) {
    e.Publish? && e.c == c
  }

  /** The time comes from a publish of the client in this part of the run. */
  ghost predicate StampedBetween(events: seq<Event>, lo: nat, hi: nat, c: ClientId, stamp: Stamp)
    requires hi <= |events|
  {
    exists k: nat :: lo <= k < hi && Publishes(events[k], c) && events[k].now == stamp
  }

  lemma {:induction false} DisturbedSnoc(init: seq<Event>, e: Event, lo: nat, c: ClientId)
    requires lo <= |init|
    ensures DisturbedSince(init + [e], lo, c) <==> DisturbedSince(init, lo, c) || TakesEffect(Run(START, init), e, c)
  {
    hide TakesEffect, Run;
    var events := init + [e];
    assert events[..|init|] == init && events[|init|] == e;
    forall k: nat | k < |init|
      ensures events[..k] == init[..k] && events[k] == init[k]
    {
    }
    if DisturbedSince(init, lo, c) {
      var k: nat :| lo <= k < |init| && TakesEffect(Run(START, init[..k]), init[k], c);
      assert TakesEffect(Run(START, events[..k]), events[k], c);
    }
    if TakesEffect(Run(START, init), e, c) {
      assert TakesEffect(Run(START, events[..|init|]), events[|init|], c);
    }
  }

  lemma {:induction false} PublishOfClient(v: World, e: Event)
    requires StoreOk(v) && e.Publish?
    ensures if UniqueGrains(e.rows) && e.id !in v.used
            then Now(Step(v, e), e.c) != [] && CurrentStamp(Step(v, e), e.c) == Some(e.now)
            else Step(v, e) == v
  {
    hide HistoryRows, Versions, Valid;
    if UniqueGrains(e.rows) && e.id !in v.used {
      FreshInStore(v, e.id);
      CreateVersions(v.store, e.id, e.c, e.run, e.now, e.rows, e.c);
    }
  }

  lemma {:induction false} PurgeOfClient(v: World, e: Event)
    requires StoreOk(v) && e.PurgeClient?
    ensures Now(Step(v, e), e.c) == []
  {
    hide HistoryRows, Versions, Valid;
    PurgeVersions(v.store, e.c, e.c);
  }

  /** What one step does to the client's publications. */
  lemma {:induction false} StepOfClient(v: World, e: Event, c: ClientId)
    requires StoreOk(v)
    ensures !TakesEffect(v, e, c) ==> Now(Step(v, e), c) == Now(v, c)
    ensures TakesEffect(v, e, c) && e.PurgeClient? ==> Now(Step(v, e), c) == []
    ensures TakesEffect(v, e, c) && e.Publish? ==>
              Now(Step(v, e), c) != [] && CurrentStamp(Step(v, e), c) == Some(e.now)
  {
    hide StoreOk, Step, Now, CurrentStamp;
    if !PublishesOrPurges(e, c) {
      OtherClientsUntouched(v, e, c);
    } else if e.PurgeClient? {
      PurgeOfClient(v, e);
    } else {
      PublishOfClient(v, e);
    }
  }

  lemma {:induction false} FreshInStore(v: World, id: Id)
    requires StoreOk(v) && id !in v.used
    ensures FreshId(v.store, id)
  {
    hide Valid;
  }

  /** After a disturbance, the publication that is current was published since. */
  lemma {:induction false} CurrentIsRecent(events: seq<Event>, lo: nat, c: ClientId)
    requires lo <= |events| && DisturbedSince(events, lo, c) && Now(Run(START, events), c) != []
    ensures var stamp := CurrentStamp(Run(START, events), c);
            stamp.Some? && StampedBetween(events, lo, |events|, c, stamp.value)
  {
    hide FingerprintOf, HistoryRows, Versions, Step, Run, TakesEffect;
    if lo < |events| {
      var init, last := events[..|events| - 1], events[|events| - 1];
      assert events == init + [last];
      RunSnoc(START, init, last);
      RunStoreOk(init);
      DisturbedSnoc(init, last, lo, c);
      StepOfClient(Run(START, init), last, c);
      if TakesEffect(Run(START, init), last, c) {
        EffectIs(Run(START, init), last, c);
        assert Publishes(events[|init|], c);
      } else {
        CurrentIsRecent(init, lo, c);
        var stamp := CurrentStamp(Run(START, init), c).value;
        var k: nat :| lo <= k < |init| && Publishes(init[k], c) && init[k].now == stamp;
        assert Publishes(events[k], c) && events[k].now == stamp;
      }
    }
  }

  lemma {:induction false} EffectIs(v: World, e: Event, c: ClientId)
    requires TakesEffect(v, e, c)
    ensures PublishesOrPurges(e, c)
  {
  }

  /** Whatever is current was published at some time. */
  lemma {:induction false} CurrentWasPublished(events: seq<Event>, c: ClientId)
    ensures var stamp := CurrentStamp(Run(START, events), c);
            stamp.Some? ==> StampedBetween(events, 0, |events|, c, stamp.value)
  {
    hide FingerprintOf, HistoryRows, Step, TakesEffect;
    if Now(Run(START, events), c) != [] {
      assert events[..|events|] == events && events[..0] == [];
      if !DisturbedSince(events, 0, c) {
        Undisturbed(events, 0, |events|, c);
      }
      CurrentIsRecent(events, 0, c);
    }
  }

  /** Without a disturbance the client's publications are the same throughout. */
  lemma {:induction false} Undisturbed(events: seq<Event>, lo: nat, m: nat, c: ClientId)
    requires lo <= m <= |events| && !DisturbedSince(events, lo, c)
    ensures Now(Run(START, events[..m]), c) == Now(Run(START, events[..lo]), c)
  {
    hide FingerprintOf, HistoryRows, Versions, Step, Run, TakesEffect;
    if lo < m {
      Undisturbed(events, lo, m - 1, c);
      assert events[..m] == events[..m - 1] + [events[m - 1]];
      RunSnoc(START, events[..m - 1], events[m - 1]);
      RunStoreOk(events[..m - 1]);
      assert !TakesEffect(Run(START, events[..m - 1]), events[m - 1], c);
      StepOfClient(Run(START, events[..m - 1]), events[m - 1], c);
    }
  }

  /** With ascending stamps, a disturbance shows in the publication time. */
  lemma {:induction false} DisturbanceShows(events: seq<Event>, lo: nat, c: ClientId)
    requires lo <= |events| && StampsAscend(events, c) && DisturbedSince(events, lo, c) && Now(Run(START, events), c) != []
    ensures CurrentStamp(Run(START, events), c) != CurrentStamp(Run(START, events[..lo]), c)
  {
    hide FingerprintOf, HistoryRows, Versions, Step, Run, DisturbedSince;
    CurrentIsRecent(events, lo, c);
    CurrentWasPublished(events[..lo], c);
  }

  // ---- one download -------------------------------------------------------------------------------------------

  predicate Starts(e: Event, t: TaskId) {
    (e.StartWarm? || e.StartDownload? || e.StartRead?) && e.t == t
  }

  /** What the task of a download that began at event lo holds: the time read then, and rows read since. */
  ghost predicate DownloadSince(events: seq<Event>, lo: nat, c: ClientId, task: Task)
    requires lo < |events|
  {
    var stamp := CurrentStamp(Run(START, events[..lo]), c);
    match task
    case DownloadIdentity(d, _, s) => d == c && s == stamp
    case DownloadRendered(d, body) => d == c && body.publishedAt == stamp && RowsSince(events, lo, c, body.rows)
    case DownloadFingerprint(d, _, _) => d == c
    case _ => false
  }

  ghost predicate RowsSince(events: seq<Event>, lo: nat, c: ClientId, rows: seq<Fact>) {
    exists m: nat :: lo <= m <= |events| && rows == Rows(Run(START, events[..m]), c)
  }

  lemma {:induction false} TaskStep(v: World, e: Event, t: TaskId)
    requires !Starts(e, t)
    ensures t in Step(v, e).tasks ==> t in v.tasks
    ensures t in v.tasks && t in Step(v, e).tasks && e != Advance(t) && !v.tasks[t].Reading? ==> Step(v, e).tasks[t] == v.tasks[t]
  {
    hide Token, Rows, CurrentStamp, NameOf, Renderable, HistoryRows, Create, Purge;
  }

  lemma {:induction false} DownloadAdvances(v: World, t: TaskId)
    requires t in v.tasks && t in Step(v, Advance(t)).tasks
    ensures var task := Step(v, Advance(t)).tasks[t];
            match v.tasks[t]
            case DownloadIdentity(c, name, stamp) => task == DownloadRendered(c, Body(name, stamp, Rows(v, c)))
            case DownloadRendered(c, body) => task.DownloadFingerprint? && task.c == c
            case DownloadFingerprint(c, fp, body) => false
            case _ => true
  {
    hide Token, Rows, CurrentStamp, NameOf, Renderable, HistoryRows, Create, Purge;
  }

  lemma {:induction false} RowsSinceSnoc(init: seq<Event>, e: Event, lo: nat, c: ClientId, rows: seq<Fact>)
    requires RowsSince(init, lo, c, rows)
    ensures RowsSince(init + [e], lo, c, rows)
  {
    hide Rows, Run;
    var m: nat :| lo <= m <= |init| && rows == Rows(Run(START, init[..m]), c);
    assert (init + [e])[..m] == init[..m];
  }

  lemma {:induction false} RowsNow(init: seq<Event>, e: Event, lo: nat, c: ClientId)
    requires lo <= |init|
    ensures RowsSince(init + [e], lo, c, Rows(Run(START, init), c))
  {
    hide Rows, Run;
    assert (init + [e])[..|init|] == init;
  }

  lemma {:induction false} DownloadTrace(events: seq<Event>, lo: nat, t: TaskId, c: ClientId)
    requires lo < |events| && events[lo] == StartDownload(t, c) && t !in Run(START, events[..lo]).tasks
    requires forall k | lo < k < |events| :: !Starts(events[k], t)
    requires t in Run(START, events).tasks
    ensures DownloadSince(events, lo, c, Run(START, events).tasks[t])
  {
    hide Step, Rows, CurrentStamp, Run, RowsSince;
    var init, last := events[..|events| - 1], events[|events| - 1];
    assert events == init + [last];
    RunSnoc(START, init, last);
    if lo == |init| {
      assert events[..lo] == init;
      DownloadStarts(Run(START, init), t, c);
    } else {
      var v := Run(START, init);
      assert init[..lo] == events[..lo];
      TaskStep(v, last, t);
      DownloadTrace(init, lo, t, c);
      if last == Advance(t) {
        DownloadAdvances(v, t);
        RowsNow(init, last, lo, c);
      }
      if v.tasks[t].DownloadRendered? {
        RowsSinceSnoc(init, last, lo, c, v.tasks[t].body.rows);
      }
    }
  }

  lemma {:induction false} DownloadStarts(v: World, t: TaskId, c: ClientId)
    requires t !in v.tasks
    ensures Step(v, StartDownload(t, c)).tasks == v.tasks[t := DownloadIdentity(c, NameOf(v, c), CurrentStamp(v, c))]
  {
    hide CurrentStamp, NameOf;
  }

  /** When the guard holds, by the events alone.  For every run in which a client's publishes are stamped
      in ascending order, a download that now takes its fingerprint has rendered the current history if
      and only if no create or purge of the client took effect since it began by reading the current
      publication. */
  lemma {:induction false} GuardIsUndisturbed(events: seq<Event>, lo: nat, t: TaskId, c: ClientId)
    requires StampsAscend(events, c)
    requires lo < |events| && events[lo] == StartDownload(t, c) && t !in Run(START, events[..lo]).tasks
    requires forall k | lo < k < |events| :: !Starts(events[k], t)
    requires TakesFingerprint(Run(START, events), Advance(t))
    ensures StillCurrent(Run(START, events), Advance(t)) <==> !DisturbedSince(events, lo, c)
  {
    hide Run, DisturbedSince, StampsAscend, RowsSince, HistoryRows, Versions, FingerprintOf;
    var w := Run(START, events);
    DownloadTrace(events, lo, t, c);
    var body := w.tasks[t].body;
    TokenNeedsPublications(w, c);
    if DisturbedSince(events, lo, c) {
      DisturbanceShows(events, lo, c);
    } else {
      assert events[..|events|] == events;
      Undisturbed(events, lo, |events|, c);
      SinceIsNow(events, lo, c, body.rows);
    }
  }

  lemma {:induction false} SinceIsNow(events: seq<Event>, lo: nat, c: ClientId, rows: seq<Fact>)
    requires lo <= |events| && !DisturbedSince(events, lo, c) && RowsSince(events, lo, c, rows)
    ensures rows == Rows(Run(START, events), c)
  {
    hide Run, DisturbedSince, HistoryRows, Versions;
    var m: nat :| lo <= m <= |events| && rows == Rows(Run(START, events[..m]), c);
    Undisturbed(events, lo, m, c);
    Undisturbed(events, lo, |events|, c);
    assert events[..|events|] == events;
  }

  lemma {:induction false} TokenNeedsPublications(w: World, c: ClientId)
    requires Token(w, c).Some?
    ensures Now(w, c) != []
  {
    hide HistoryRows, Versions;
  }

  // ---- the race, from an empty store ---------------------------------------------------------------------------

  function Clicked(n: real): Fact {
    Fact("client", "campaign", "", 1, None, None, None, None, map[UniqueClicks := n])
  }

  lemma {:induction false} OneVersionRows(p: Publication, f: Fact)
    requires f.client == "client"
    ensures HistoryRows([Version(p, [f])], "client") == [f]
  {
    var vs := [Version(p, [f])];
    assert vs[..0] == [] && [f][1..] == [];
    assert AddUnseen([], [f], "client") == [] + [f] by {
      assert !HasGrain([], f.Key());
      assert AddUnseen([] + [f], [], "client") == [f];
    }
    assert Scan([f], [], "client") == [f];
    assert Scan([], vs, "client") == [f];
    assert Sort([f], FactLe) == [f];
  }

  /** The newer row of a grain replaces the older. */
  lemma {:induction false} TwoVersionRows(p: Publication, q: Publication, f: Fact, g: Fact)
    requires f.client == g.client == "client" && f.Key() == g.Key()
    ensures HistoryRows([Version(p, [f]), Version(q, [g])], "client") == [g]
  {
    var (older, vs) := ([Version(p, [f])], [Version(p, [f]), Version(q, [g])]);
    assert vs[..1] == older && older[..0] == [] && [f][1..] == [] && [g][1..] == [];
    assert AddUnseen([], [g], "client") == [] + [g] by {
      assert !HasGrain([], g.Key());
      assert AddUnseen([] + [g], [], "client") == [g];
    }
    assert AddUnseen([g], [f], "client") == [g] by {
      assert g in [g];
      assert HasGrain([g], f.Key());
      assert AddUnseen([g], [], "client") == [g];
    }
    assert Scan([g], [], "client") == [g];
    assert Scan([g], older, "client") == [g];
    assert vs[..|vs| - 1] == older && vs[|vs| - 1].rows == [g];
    assert Scan([], vs, "client") == Scan(AddUnseen([], [g], "client"), older, "client");
    assert Sort([g], FactLe) == [g];
  }

  const FIRST: Event := Publish("client", "1", "run", 1, [Clicked(1.0)])
  const SECOND: Event := Publish("client", "2", "run", 2, [Clicked(2.0)])

  lemma {:induction false} OnePublish()
    ensures var v := Run(START, [FIRST]);
            && StoreOk(v) && v.tasks == map[] && v.used == {"1"}
            && Now(v, "client") == [Version(Publication("1", "client", "run", 1, true, 1), [Clicked(1.0)])]
  {
    hide HistoryRows, Versions, Valid, Clicked;
    RunStoreOk([FIRST]);
    EmptyValid();
    assert [] + [FIRST] == [FIRST];
    RunSnoc(START, [], FIRST);
    NoVersions("client");
    CreateVersions(EMPTY, "1", "client", "run", 1, [Clicked(1.0)], "client");
  }

  lemma {:induction false} TwoPublishes()
    ensures var v := Run(START, [FIRST]);
            && StoreOk(v) && v.tasks == map[] && v.used == {"1"}
            && Rows(v, "client") == [Clicked(1.0)]
            && Rows(Step(v, SECOND), "client") == [Clicked(2.0)]
  {
    hide HistoryRows, Versions, Valid, Run;
    OnePublish();
    var (v, f, g) := (Run(START, [FIRST]), Clicked(1.0), Clicked(2.0));
    assert "2"[0] != "1"[0];
    FreshInStore(v, "2");
    CreateVersions(v.store, "2", "client", "run", 2, [g], "client");
    var (p, q) := (Publication("1", "client", "run", 1, true, 1), Publication("2", "client", "run", 2, true, 1));
    assert Now(Step(v, SECOND), "client") == [Version(p, [f])] + [Version(q, [g])] == [Version(p, [f]), Version(q, [g])];
    OneVersionRows(p, f);
    TwoVersionRows(p, q, f, g);
  }

  lemma {:induction false} NoVersions(c: ClientId)
    ensures Versions(EMPTY, c) == []
  {
  }

  /** The race happens: from an empty store, a first publish with one click, and a second with two while
      a download is between its reads.  The next read is served the one click as current. */
  lemma {:induction false} RaceFromStart()
    ensures var v := Run(START, [FIRST]);
            var w := Run(v, [StartDownload(0, "client"), Advance(0), SECOND, Advance(0), Advance(0), StartRead(1, "client"), Advance(1)]);
            && 1 in w.tasks && w.tasks[1].Served?
            && w.tasks[1].body.rows == [Clicked(1.0)] && Rows(w, "client") == [Clicked(2.0)]
            && w.tasks[1].seen == {[Clicked(2.0)]}
  {
    hide Run, Step, Rows, StoreOk;
    TwoPublishes();
    var v := Run(START, [FIRST]);
    assert Clicked(1.0) != Clicked(2.0) by {
      assert Clicked(1.0).values[UniqueClicks] != Clicked(2.0).values[UniqueClicks];
    }
    assert [Clicked(1.0)][0] != [Clicked(2.0)][0];
    assert "2"[0] != "1"[0];
    DownloadRaceBreaks(v, "client", "2", "run", 2, [Clicked(2.0)], 0, 1);
    RaceRows(v);
  }

  lemma {:induction false} RaceRows(v: World)
    requires StoreOk(v) && v.tasks == map[] && "2" !in v.used && Renderable(Rows(v, "client")) && Rows(Step(v, SECOND), "client") != []
    ensures var w := Run(v, [StartDownload(0, "client"), Advance(0), SECOND, Advance(0), Advance(0), StartRead(1, "client"), Advance(1)]);
            Rows(w, "client") == Rows(Step(v, SECOND), "client")
  {
    hide HistoryRows, Versions, FingerprintOf, Run, Step;
    RunSeven(v, StartDownload(0, "client"), Advance(0), SECOND, Advance(0), Advance(0), StartRead(1, "client"), Advance(1));
    DownloadLoads(v, 0, "client");
    var body := Body(NameOf(v, "client"), CurrentStamp(v, "client"), Rows(v, "client"));
    PublishAround(v, 0, DownloadRendered("client", body), SECOND, 1);
    var w3 := Step(Step(Step(v, StartDownload(0, "client")), Advance(0)), SECOND);
    NonEmptyHasToken(Now(w3, "client"), "client");
    DownloadStores(w3, 0, "client", body);
    ReadServes(Step(Step(w3, Advance(0)), Advance(0)), 1, "client");
  }
}
