/** What every step of the workbook cache keeps: a body filed under a client's current fingerprint
    shows its current history. */
module CacheInvariant {
  import opened Prelude
  import opened Facts
  import opened Text
  import opened Store
  import opened PublishedHistory
  import opened Cache

  // ---- the fingerprint identifies a point in a client's life ------------------------------

  /** The client had this fingerprint after its first k publications since the last purge. */
  ghost predicate At(vs: seq<Version>, k: nat, c: ClientId, fp: Fingerprint) {
    k <= |vs| && FingerprintOf(vs[..k], c) == Some(fp)
  }

  /** A fingerprint once taken: its newest id stays spent, and while that id is still the
      client's the fingerprint is that of a prefix of the client's publications. */
  ghost predicate Taken(vs: seq<Version>, used: set<Id>, c: ClientId, fp: Fingerprint) {
    fp.newestId in used && (fp.newestId in Ids(vs) ==> exists k: nat :: At(vs, k, c, fp))
  }

  lemma {:induction false} PrefixCountDiffers(vs: seq<Version>, j: nat, k: nat, c: ClientId, fp: Fingerprint)
    requires At(vs, j, c, fp) && At(vs, k, c, fp)
    ensures j == k
  {
    hide HistoryRows, MaxId, MaxStamp, MaxDay;
    StrInjective(|vs[..j]|, |vs[..k]|);
  }

  lemma {:induction false} CurrentIsTaken(vs: seq<Version>, used: set<Id>, c: ClientId, fp: Fingerprint)
    requires FingerprintOf(vs, c) == Some(fp) && Ids(vs) <= used
    ensures Taken(vs, used, c, fp) && fp.newestId in Ids(vs)
  {
    assert vs[..|vs|] == vs;
    assert At(vs, |vs|, c, fp);
  }

  lemma {:induction false} TokenNamesAnId(vs: seq<Version>, c: ClientId)
    ensures FingerprintOf(vs, c).Some? ==> FingerprintOf(vs, c).value.newestId in Ids(vs)
  {
  }

  /** A publish makes every fingerprint taken before it obsolete, for as long as it is known. */
  lemma {:induction false} PublishObsoletes(vs: seq<Version>, v: Version, used: set<Id>, c: ClientId, fp: Fingerprint)
    requires Taken(vs, used, c, fp) && v.publication.id !in used
    ensures Taken(vs + [v], used + {v.publication.id}, c, fp)
    ensures FingerprintOf(vs + [v], c) != Some(fp)
  {
    hide FingerprintOf;
    var more := vs + [v];
    assert Ids(more) == Ids(vs) + {v.publication.id};
    TokenNamesAnId(more, c);
    if fp.newestId in Ids(more) {
      var k: nat :| At(vs, k, c, fp);
      assert more[..k] == vs[..k];
      assert At(more, k, c, fp);
      if FingerprintOf(more, c) == Some(fp) {
        assert more[..|more|] == more;
        assert At(more, |more|, c, fp);
        PrefixCountDiffers(more, k, |more|, c, fp);
      }
    }
  }

  lemma {:induction false} NoVersionsNoToken(c: ClientId)
    ensures FingerprintOf([], c) == None && Ids([]) == {}
  {
  }

  // ---- the invariant --------------------------------------------------------------------

  ghost predicate Fresh(w: World, c: ClientId, fp: Fingerprint, stamp: Option<Stamp>) {
    Taken(Now(w, c), w.used, c, fp) && (Token(w, c) == Some(fp) ==> stamp == CurrentStamp(w, c))
  }

  /** If the fingerprint is the client's current one, the body shows the current history. */
  ghost predicate Good(w: World, c: ClientId, fp: Fingerprint, body: Body) {
    && Taken(Now(w, c), w.used, c, fp)
    && (Token(w, c) == Some(fp) ==> body.rows == Rows(w, c) && body.publishedAt == CurrentStamp(w, c))
  }

  ghost predicate GoodTask(w: World, task: Task) {
    match task
    case WarmFingerprint(c, fp) => Taken(Now(w, c), w.used, c, fp)
    case WarmIdentity(c, fp, _, stamp) => Fresh(w, c, fp, stamp)
    case WarmRendered(c, fp, body) => Good(w, c, fp, body)
    case DownloadIdentity(_, _, _) => true
    case DownloadRendered(_, _) => true
    case DownloadFingerprint(c, fp, body) => Good(w, c, fp, body)
    case Reading(c, _, seen) => Rows(w, c) in seen
    case Served(_, body, seen) => body.rows in seen
  }

  /** A body on its way into the cache under a fingerprint. */
  predicate Pending(task: Task, c: ClientId, fp: Fingerprint) {
    (task.WarmRendered? || task.DownloadFingerprint?) && task.c == c && task.fp == fp
  }

  /** Whatever a read can be handed was the listing at some moment since the read began. */
  ghost predicate ReaderSafe(w: World, c: ClientId, fp: Fingerprint, seen: set<seq<Fact>>) {
    && (Slot(c, fp) in w.cache ==> w.cache[Slot(c, fp)].rows in seen)
    && (forall t | t in w.tasks && Pending(w.tasks[t], c, fp) :: w.tasks[t].body.rows in seen)
  }

  ghost predicate StoreOk(w: World) {
    Valid(w.store) && forall p | p in w.store.publications :: p.id in w.used
  }

  ghost predicate Inv(w: World) {
    && StoreOk(w)
    && (forall slot | slot in w.cache :: Good(w, slot.client, slot.fingerprint, w.cache[slot]))
    && (forall t | t in w.tasks :: GoodTask(w, w.tasks[t]))
    && (forall t | t in w.tasks && w.tasks[t].Reading? ::
          ReaderSafe(w, w.tasks[t].c, w.tasks[t].fp, w.tasks[t].seen))
  }

  lemma {:induction false} IdsUsed(w: World, c: ClientId)
    requires StoreOk(w)
    ensures Ids(Now(w, c)) <= w.used
  {
    VersionsFrom(w.store.publications, w.store.snapshots, c);
  }

  // ---- preservation ---------------------------------------------------------------------

  /** How one client's publications can change in a step. */
  ghost predicate Evolves(v: World, w: World, c: ClientId) {
    && v.used <= w.used
    && ( || Now(w, c) == Now(v, c)
         || Now(w, c) == []
         || exists x: Version :: Now(w, c) == Now(v, c) + [x] && x.publication.id !in v.used && x.publication.id in w.used)
  }

  /** A taken fingerprint stays taken, and only stays current while nothing changes. */
  lemma {:induction false} TakenEvolves(v: World, w: World, c: ClientId, fp: Fingerprint)
    requires Evolves(v, w, c) && Taken(Now(v, c), v.used, c, fp)
    ensures Taken(Now(w, c), w.used, c, fp)
    ensures Token(w, c) == Some(fp) ==> Now(w, c) == Now(v, c)
  {
    hide FingerprintOf;
    NoVersionsNoToken(c);
    if Now(w, c) != Now(v, c) && Now(w, c) != [] {
      var x: Version :| Now(w, c) == Now(v, c) + [x] && x.publication.id !in v.used && x.publication.id in w.used;
      PublishObsoletes(Now(v, c), x, v.used, c, fp);
    }
  }

  lemma {:induction false} GoodEvolves(v: World, w: World, c: ClientId, fp: Fingerprint, body: Body)
    requires Evolves(v, w, c) && Good(v, c, fp, body)
    ensures Good(w, c, fp, body)
  {
    hide FingerprintOf, HistoryRows;
    TakenEvolves(v, w, c, fp);
  }

  /** Only publishes and purges touch the store. */
  lemma {:induction false} StoreUntouched(v: World, e: Event)
    requires !e.Publish? && !e.PurgeClient?
    ensures Step(v, e).store == v.store && Step(v, e).used == v.used
  {
    hide Token, Rows, CurrentStamp, NameOf, Renderable;
  }

  lemma {:induction false} PublishEvolves(v: World, e: Event, c: ClientId)
    requires StoreOk(v) && e.Publish? && UniqueGrains(e.rows) && e.id !in v.used
    ensures StoreOk(Step(v, e)) && Evolves(v, Step(v, e), c)
  {
    hide HistoryRows, Observe, Versions;
    CreateValid(v.store, e.id, e.c, e.run, e.now, e.rows);
    CreateVersions(v.store, e.id, e.c, e.run, e.now, e.rows, c);
    if c == e.c {
      var x := Version(Publication(e.id, c, e.run, e.now, true, |e.rows|), e.rows);
      assert Now(Step(v, e), c) == Now(v, c) + [x];
    }
  }

  lemma {:induction false} PurgeEvolves(v: World, e: Event, c: ClientId)
    requires StoreOk(v) && e.PurgeClient?
    ensures StoreOk(Step(v, e)) && Evolves(v, Step(v, e), c)
  {
    hide HistoryRows, Observe, Versions;
    PurgeValid(v.store, e.c);
    PurgeVersions(v.store, e.c, c);
    OthersKeep(v.store.publications, e.c);
  }

  lemma {:induction false} StepEvolves(v: World, e: Event, c: ClientId)
    requires StoreOk(v)
    ensures StoreOk(Step(v, e)) && Evolves(v, Step(v, e), c)
  {
    if e.PurgeClient? {
      PurgeEvolves(v, e, c);
    } else if e.Publish? {
      if UniqueGrains(e.rows) && e.id !in v.used {
        PublishEvolves(v, e, c);
      } else {
        hide HistoryRows, Versions, Valid;
        assert Step(v, e) == v;
      }
    } else {
      hide Step, Versions, Valid;
      StoreUntouched(v, e);
    }
  }

  /** A step that touches the store keeps every request and artifact good. */
  lemma {:induction false} StoreStep(v: World, e: Event)
    requires Inv(v) && (e.Publish? || e.PurgeClient?)
    ensures Inv(Step(v, e))
  {
    hide FingerprintOf, HistoryRows, Versions, Taken, Evolves;
    var w := Step(v, e);
    forall c
      ensures Evolves(v, w, c) && StoreOk(w)
    {
      StepEvolves(v, e, c);
    }
    StepEvolves(v, e, e.c);
    if w != v {
      StoreOnly(v, e);
      forall slot | slot in w.cache
        ensures Good(w, slot.client, slot.fingerprint, w.cache[slot])
      {
        GoodEvolves(v, w, slot.client, slot.fingerprint, w.cache[slot]);
      }
      forall t | t in w.tasks
        ensures GoodTask(w, w.tasks[t])
      {
        assert GoodTask(v, v.tasks[t]);
        TaskEvolves(v, e, t);
      }
      forall t | t in w.tasks && w.tasks[t].Reading?
        ensures ReaderSafe(w, w.tasks[t].c, w.tasks[t].fp, w.tasks[t].seen)
      {
        assert ReaderSafe(v, v.tasks[t].c, v.tasks[t].fp, v.tasks[t].seen);
      }
    }
  }

  /** What a store step changes besides the store: readers of its client note the new listing. */
  lemma {:induction false} StoreOnly(v: World, e: Event)
    requires (e.Publish? || e.PurgeClient?) && Step(v, e) != v
    ensures var w := Step(v, e);
            && w.cache == v.cache && w.tasks == Observe(v.tasks, e.c, Rows(w, e.c))
            && (forall d | d != e.c && StoreOk(v) :: Now(w, d) == Now(v, d))
  {
    hide FingerprintOf, HistoryRows, Observe;
    forall d | d != e.c && StoreOk(v)
      ensures Now(Step(v, e), d) == Now(v, d)
    {
      match e
      case Publish(c, id, run, now, rows) => CreateVersions(v.store, id, c, run, now, rows, d);
      case PurgeClient(c) => PurgeVersions(v.store, c, d);
    }
  }

  lemma {:induction false} TaskEvolves(v: World, e: Event, t: TaskId)
    requires StoreOk(v) && (e.Publish? || e.PurgeClient?) && Step(v, e) != v
    requires t in v.tasks && GoodTask(v, v.tasks[t])
    ensures t in Step(v, e).tasks && GoodTask(Step(v, e), Step(v, e).tasks[t])
  {
    hide FingerprintOf, HistoryRows, Versions, Taken, Evolves;
    var w := Step(v, e);
    StoreOnly(v, e);
    match v.tasks[t]
    case WarmFingerprint(c, fp) =>
      StepEvolves(v, e, c);
      TakenEvolves(v, w, c, fp);
    case WarmIdentity(c, fp, _, stamp) =>
      StepEvolves(v, e, c);
      TakenEvolves(v, w, c, fp);
    case WarmRendered(c, fp, body) =>
      StepEvolves(v, e, c);
      GoodEvolves(v, w, c, fp, body);
    case DownloadFingerprint(c, fp, body) =>
      StepEvolves(v, e, c);
      GoodEvolves(v, w, c, fp, body);
    case Reading(c, _, seen) =>
      if c != e.c {
        assert Now(w, c) == Now(v, c);
      }
    case _ =>
  }

  /** Replacing one request keeps the invariant if the new one is good by itself and, when it
      carries a body, every reader under its fingerprint may be handed that body. */
  lemma {:induction false} PutTask(v: World, t: TaskId, task: Task)
    requires Inv(v) && GoodTask(v, task)
    requires task.Reading? ==> ReaderSafe(v, task.c, task.fp, task.seen) && t !in v.tasks
    requires forall r | r in v.tasks && v.tasks[r].Reading? && Pending(task, v.tasks[r].c, v.tasks[r].fp) ::
               task.body.rows in v.tasks[r].seen
    ensures Inv(WithTask(v, t, task))
  {
    hide FingerprintOf, HistoryRows, Versions, Taken, Valid;
    var w := WithTask(v, t, task);
    forall r | r in w.tasks
      ensures GoodTask(w, w.tasks[r])
    {
      if r != t {
        assert GoodTask(v, v.tasks[r]);
      }
    }
    forall r | r in w.tasks && w.tasks[r].Reading?
      ensures ReaderSafe(w, w.tasks[r].c, w.tasks[r].fp, w.tasks[r].seen)
    {
      if r != t {
        assert ReaderSafe(v, v.tasks[r].c, v.tasks[r].fp, v.tasks[r].seen);
      }
    }
  }

  lemma {:induction false} DropTask(v: World, t: TaskId)
    requires Inv(v)
    ensures Inv(Without(v, t))
  {
    hide FingerprintOf, HistoryRows, Versions, Taken, Valid;
    var w := Without(v, t);
    forall r | r in w.tasks
      ensures GoodTask(w, w.tasks[r])
    {
      assert GoodTask(v, v.tasks[r]);
    }
  }

  /** Storing a finished body under its fingerprint. */
  lemma {:induction false} StoreBody(v: World, t: TaskId)
    requires Inv(v) && t in v.tasks && (v.tasks[t].WarmRendered? || v.tasks[t].DownloadFingerprint?)
    ensures var task := v.tasks[t];
            Inv(Without(v, t).(cache := v.cache[Slot(task.c, task.fp) := task.body]))
  {
    hide FingerprintOf, HistoryRows, Versions, Taken, Valid;
    DropTask(v, t);
    var task, u := v.tasks[t], Without(v, t);
    var w := u.(cache := v.cache[Slot(task.c, task.fp) := task.body]);
    assert GoodTask(v, task);
    forall r | r in w.tasks
      ensures GoodTask(w, w.tasks[r])
    {
      assert GoodTask(u, u.tasks[r]);
    }
    forall r | r in w.tasks && w.tasks[r].Reading?
      ensures ReaderSafe(w, w.tasks[r].c, w.tasks[r].fp, w.tasks[r].seen)
    {
      assert ReaderSafe(v, v.tasks[r].c, v.tasks[r].fp, v.tasks[r].seen);
      assert Pending(task, task.c, task.fp);
    }
  }

  /** A new read: everything stored or pending under the current fingerprint is current. */
  lemma {:induction false} NewReader(v: World, c: ClientId, fp: Fingerprint)
    requires Inv(v) && Token(v, c) == Some(fp)
    ensures ReaderSafe(v, c, fp, {Rows(v, c)})
  {
    hide FingerprintOf, HistoryRows, Versions, Taken, Valid;
    forall t | t in v.tasks && Pending(v.tasks[t], c, fp)
      ensures v.tasks[t].body.rows in {Rows(v, c)}
    {
      assert GoodTask(v, v.tasks[t]);
    }
  }

  /** A running request's step. */
  lemma {:induction false} AdvanceKeeps(v: World, t: TaskId)
    requires Inv(v) && Guarded(v, Advance(t)) && t in v.tasks
    ensures Inv(AdvanceTask(v, t))
  {
    hide FingerprintOf, HistoryRows, Versions, Taken, Valid, Inv;
    TaskFacts(v, t);
    match v.tasks[t]
    case WarmFingerprint(c, fp) =>
      PutTask(v, t, WarmIdentity(c, fp, NameOf(v, c), CurrentStamp(v, c)));
    case WarmIdentity(c, fp, name, stamp) =>
      if Renderable(Rows(v, c)) {
        ReadersSeeNow(v);
        PutTask(v, t, WarmRendered(c, fp, Body(name, stamp, Rows(v, c))));
      } else {
        DropTask(v, t);
      }
    case WarmRendered(c, fp, body) => StoreBody(v, t);
    case DownloadIdentity(c, name, stamp) =>
      if Renderable(Rows(v, c)) {
        PutTask(v, t, DownloadRendered(c, Body(name, stamp, Rows(v, c))));
      } else {
        DropTask(v, t);
      }
    case DownloadRendered(c, body) =>
      if Token(v, c).None? {
        DropTask(v, t);
      } else {
        TokenTaken(v, c);
        ReadersSeeNow(v);
        PutTask(v, t, DownloadFingerprint(c, Token(v, c).value, body));
      }
    case DownloadFingerprint(c, fp, body) => StoreBody(v, t);
    case Reading(c, fp, seen) =>
      if Slot(c, fp) in v.cache {
        PutTask(v, t, Served(c, v.cache[Slot(c, fp)], seen));
      } else {
        DropTask(v, t);
      }
    case Served(_, _, _) =>
  }

  lemma {:induction false} TaskFacts(v: World, t: TaskId)
    requires Inv(v) && t in v.tasks
    ensures GoodTask(v, v.tasks[t])
    ensures v.tasks[t].Reading? ==> ReaderSafe(v, v.tasks[t].c, v.tasks[t].fp, v.tasks[t].seen)
  {
  }

  lemma {:induction false} ReadersSeeNow(v: World)
    requires Inv(v)
    ensures forall r | r in v.tasks && v.tasks[r].Reading? :: Rows(v, v.tasks[r].c) in v.tasks[r].seen
  {
    hide FingerprintOf, HistoryRows, Versions, Taken, Valid;
    forall r | r in v.tasks && v.tasks[r].Reading?
      ensures Rows(v, v.tasks[r].c) in v.tasks[r].seen
    {
      assert GoodTask(v, v.tasks[r]);
    }
  }

  lemma {:induction false} TokenTaken(v: World, c: ClientId)
    requires Inv(v) && Token(v, c).Some?
    ensures Taken(Now(v, c), v.used, c, Token(v, c).value)
  {
    IdsUsed(v, c);
    CurrentIsTaken(Now(v, c), v.used, c, Token(v, c).value);
  }

  /** The invariant survives every step in which a download, if it takes its fingerprint, still
      holds current rows.  Warms need no such guard. */
  lemma {:induction false} StepKeeps(v: World, e: Event)
    requires Inv(v) && Guarded(v, e)
    ensures Inv(Step(v, e))
  {
    hide FingerprintOf, HistoryRows, Versions, Taken, Valid, Inv;
    match e
    case Publish(_, _, _, _, _) => StoreStep(v, e);
    case PurgeClient(_) => StoreStep(v, e);
    case Point(_, _) =>
    case Rename(c, name) => RenameKeeps(v, c, name);
    case StartWarm(t, c) =>
      if t !in v.tasks && Token(v, c).Some? {
        TokenTaken(v, c);
        PutTask(v, t, WarmFingerprint(c, Token(v, c).value));
      }
    case StartDownload(t, c) => PutTask(v, t, DownloadIdentity(c, NameOf(v, c), CurrentStamp(v, c)));
    case StartRead(t, c) =>
      if t !in v.tasks && Token(v, c).Some? {
        NewReader(v, c, Token(v, c).value);
        PutTask(v, t, Reading(c, Token(v, c).value, {Rows(v, c)}));
      }
    case Advance(t) =>
      if t in v.tasks {
        AdvanceKeeps(v, t);
      }
    case Abort(t) => DropTask(v, t);
    case Evict(slot) => EvictKeeps(v, slot);
  }

  lemma {:induction false} RenameKeeps(v: World, c: ClientId, name: string)
    requires Inv(v)
    ensures Inv(v.(names := v.names[c := name]))
  {
    hide FingerprintOf, HistoryRows, Versions, Taken, Valid;
    var w := v.(names := v.names[c := name]);
    forall r | r in w.tasks
      ensures GoodTask(w, w.tasks[r])
    {
      assert GoodTask(v, v.tasks[r]);
    }
  }

  lemma {:induction false} EvictKeeps(v: World, slot: Slot)
    requires Inv(v)
    ensures Inv(v.(cache := v.cache - {slot}))
  {
    hide FingerprintOf, HistoryRows, Versions, Taken, Valid;
    var w := v.(cache := v.cache - {slot});
    forall r | r in w.tasks
      ensures GoodTask(w, w.tasks[r])
    {
      assert GoodTask(v, v.tasks[r]);
    }
    forall r | r in w.tasks && w.tasks[r].Reading?
      ensures ReaderSafe(w, w.tasks[r].c, w.tasks[r].fp, w.tasks[r].seen)
    {
      assert ReaderSafe(v, v.tasks[r].c, v.tasks[r].fp, v.tasks[r].seen);
    }
  }
}
