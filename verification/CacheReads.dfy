/** The fingerprint over whole runs, and reads that take two steps. */
module CacheReads {
  import opened Prelude
  import opened Facts
  import opened Text
  import opened Store
  import opened PublishedHistory
  import opened Cache
  import opened CacheInvariant
  import opened CacheAgreement

  // ---- the fingerprint over a whole run ---------------------------------------------------

  lemma {:induction false} RunStoreOk(events: seq<Event>)
    ensures StoreOk(Run(START, events))
  {
    hide FingerprintOf, HistoryRows, Versions, Valid;
    if events == [] {
      EmptyValid();
    } else {
      RunStoreOk(events[..|events| - 1]);
      StepEvolves(Run(START, events[..|events| - 1]), events[|events| - 1], "");
    }
  }

  /** From one point of a run to a later one, a fingerprint can recur only with its publications. */
  lemma {:induction false} TokenRecursOnlyUnchanged(events: seq<Event>, i: nat, c: ClientId, fp: Fingerprint)
    requires i <= |events| && Token(Run(START, events[..i]), c) == Some(fp)
    ensures var w := Run(START, events);
            && Taken(Now(w, c), w.used, c, fp)
            && (Token(w, c) == Some(fp) ==> Now(w, c) == Now(Run(START, events[..i]), c))
  {
    hide FingerprintOf, HistoryRows, Versions, Taken;
    if i == |events| {
      assert events[..i] == events;
      RunStoreOk(events);
      IdsUsed(Run(START, events), c);
      CurrentIsTaken(Now(Run(START, events), c), Run(START, events).used, c, fp);
    } else {
      var init := events[..|events| - 1];
      assert init[..i] == events[..i];
      TokenRecursOnlyUnchanged(init, i, c, fp);
      RunStoreOk(init);
      StepEvolves(Run(START, init), events[|events| - 1], c);
      TakenEvolves(Run(START, init), Run(START, events), c, fp);
    }
  }

  /** The fingerprint identifies the history: at any two points of any run, equal fingerprints of
      a client mean equal publications and equal histories, purges and republications included. */
  lemma {:induction false} FingerprintIdentifiesHistory(events: seq<Event>, i: nat, j: nat, c: ClientId)
    requires i <= |events| && j <= |events|
    requires Token(Run(START, events[..i]), c).Some?
    requires Token(Run(START, events[..i]), c) == Token(Run(START, events[..j]), c)
    ensures Now(Run(START, events[..i]), c) == Now(Run(START, events[..j]), c)
    ensures History(Now(Run(START, events[..i]), c), c) == History(Now(Run(START, events[..j]), c), c)
  {
    hide FingerprintOf, HistoryRows, Versions, Taken;
    var fp := Token(Run(START, events[..i]), c).value;
    if i <= j {
      assert events[..j][..i] == events[..i];
      TokenRecursOnlyUnchanged(events[..j], i, c, fp);
    } else {
      assert events[..i][..j] == events[..j];
      TokenRecursOnlyUnchanged(events[..i], j, c, fp);
    }
  }

  // ---- reads in two steps -----------------------------------------------------------------

  /** The client's listing was h at some point of the run after its first lo events. */
  ghost predicate WasListed(events: seq<Event>, lo: nat, c: ClientId, h: seq<Fact>) {
    exists i :: lo < i <= |events| && Rows(Run(START, events[..i]), c) == h
  }

  function SeenBy(task: Task): set<seq<Fact>> {
    if task.Reading? || task.Served? then task.seen else {}
  }

  /** What a read saw is what its client listed since the read began. */
  lemma {:induction false} SeenWasListed(events: seq<Event>, lo: nat, t: TaskId, h: seq<Fact>)
    requires lo < |events| && t !in Run(START, events[..lo]).tasks
    requires t in Run(START, events).tasks && h in SeenBy(Run(START, events).tasks[t])
    ensures WasListed(events, lo, Run(START, events).tasks[t].c, h)
  {
    hide FingerprintOf, HistoryRows, Versions, WasListed, Step;
    var init, e := events[..|events| - 1], events[|events| - 1];
    var v, w := Run(START, init), Run(START, events);
    assert init[..lo] == events[..lo] && init + [e] == events;
    assert init[..|init|] == init;
    if t in v.tasks && v.tasks[t].c == w.tasks[t].c && h in SeenBy(v.tasks[t]) {
      SeenWasListed(init, lo, t, h);
      ListedEarlier(init, e, lo, w.tasks[t].c, h);
    } else {
      NewlySeen(v, e, t, h);
      ListedNow(events, lo, w.tasks[t].c);
    }
  }

  lemma {:induction false} ListedEarlier(init: seq<Event>, e: Event, lo: nat, c: ClientId, h: seq<Fact>)
    requires WasListed(init, lo, c, h)
    ensures WasListed(init + [e], lo, c, h)
  {
    var i :| lo < i <= |init| && Rows(Run(START, init[..i]), c) == h;
    assert (init + [e])[..i] == init[..i];
  }

  lemma {:induction false} ListedNow(events: seq<Event>, lo: nat, c: ClientId)
    requires lo < |events|
    ensures WasListed(events, lo, c, Rows(Run(START, events), c))
  {
    assert events[..|events|] == events;
  }

  lemma {:induction false} NewlySeen(v: World, e: Event, t: TaskId, h: seq<Fact>)
    requires var w := Step(v, e);
             && t in w.tasks && h in SeenBy(w.tasks[t])
             && !(t in v.tasks && v.tasks[t].c == w.tasks[t].c && h in SeenBy(v.tasks[t]))
    ensures h == Rows(Step(v, e), Step(v, e).tasks[t].c)
  {
    hide Token, HistoryRows, Versions, CurrentStamp, NameOf, Renderable, Create, Purge;
    if e.StartRead? {
    } else if e.Publish? || e.PurgeClient? {
    }
  }

  /** A download answered from the cache in two steps, with anything happening between them, hands
      out the history of some moment after the request began: never a stale one. */
  lemma {:induction false} ReadsAreNeverStale(events: seq<Event>, lo: nat, t: TaskId)
    requires GuardedRun(START, events)
    requires lo < |events| && t !in Run(START, events[..lo]).tasks
    requires t in Run(START, events).tasks && Run(START, events).tasks[t].Served?
    ensures var task := Run(START, events).tasks[t];
            WasListed(events, lo, task.c, task.body.rows)
  {
    hide FingerprintOf, HistoryRows, Versions, Taken, WasListed;
    GuardedRunInv(events);
    TaskFacts(Run(START, events), t);
    SeenWasListed(events, lo, t, Run(START, events).tasks[t].body.rows);
  }
}
