/** What a cached body says of its company, name and publication time: read at one event of the run, and
    still the company's exactly when nothing that matters came after it. */
module CachedIdentity {
  import opened Prelude
  import opened Facts
  import opened Store
  import opened PublishedHistory
  import opened Cache
  import opened CacheInvariant
  import opened CacheAgreement

  datatype Identity = Identity(name: string, stamp: Option<Stamp>)

  /** `_company_identity` and `get_current`. */
  function IdentityOf(w: World, c: ClientId): Identity {
    Identity(NameOf(w, c), CurrentStamp(w, c))
  }

  function OfBody(body: Body): Identity {
    Identity(body.name, body.publishedAt)
  }

  /** What a request has read of its company. */
  function Carries(task: Task): Option<Identity> {
    match task
    case WarmIdentity(_, _, name, stamp) => Some(Identity(name, stamp))
    case WarmRendered(_, _, body) => Some(OfBody(body))
    case DownloadIdentity(_, name, stamp) => Some(Identity(name, stamp))
    case DownloadRendered(_, body) => Some(OfBody(body))
    case DownloadFingerprint(_, _, body) => Some(OfBody(body))
    case _ => None
  }

  // ---- the event that read it ---------------------------------------------------------------------------

  /** The event at which a request reads its company's identity: a download at its start, a warm with the
      step after its fingerprint. */
  predicate ReadsIdentity(v: World, e: Event, t: TaskId) {
    || (e.StartDownload? && e.t == t && t !in v.tasks)
    || (e == Advance(t) && t in v.tasks && v.tasks[t].WarmFingerprint?)
  }

  predicate ReadsIdentityOf(v: World, e: Event, t: TaskId, c: ClientId) {
    ReadsIdentity(v, e, t) && c == if e.StartDownload? then e.c else v.tasks[t].c
  }

  /** The event files the body of a request in the slot. */
  predicate Files(v: World, e: Event, slot: Slot) {
    e.Advance? && e.t in v.tasks && Pending(v.tasks[e.t], slot.client, slot.fingerprint)
  }

  /** The last event of the run at which the request read an identity. */
  function ReadAt(events: seq<Event>, t: TaskId): nat {
    if events == [] then 0
    else
      var init, last := events[..|events| - 1], events[|events| - 1];
      if ReadsIdentity(Run(START, init), last, t) then |init| else ReadAt(init, t)
  }

  /** The event at which the request that last filed a body in the slot had read its identity. */
  function FiledFrom(events: seq<Event>, slot: Slot): nat {
    if events == [] then 0
    else
      var init, last := events[..|events| - 1], events[|events| - 1];
      if Files(Run(START, init), last, slot) then ReadAt(init, last.t) else FiledFrom(init, slot)
  }

  /** The event at this index read the identity of the client, which then was this. */
  ghost predicate WasRead(events: seq<Event>, k: nat, c: ClientId, identity: Identity) {
    && k < |events|
    && (exists t :: ReadsIdentityOf(Run(START, events[..k]), events[k], t, c))
    && identity == IdentityOf(Run(START, events[..k]), c)
  }

  lemma {:induction false} WasReadSnoc(init: seq<Event>, e: Event, k: nat, c: ClientId, identity: Identity)
    requires WasRead(init, k, c, identity)
    ensures WasRead(init + [e], k, c, identity)
  {
    hide Run, ReadsIdentityOf, IdentityOf;
    assert (init + [e])[..k] == init[..k] && (init + [e])[k] == init[k];
  }

  /** A step leaves what a request carries, unless it reads the identity. */
  lemma {:induction false} RequestStep(v: World, e: Event, t: TaskId)
    requires t in Step(v, e).tasks && Carries(Step(v, e).tasks[t]).Some?
    ensures var task := Step(v, e).tasks[t];
            if ReadsIdentity(v, e, t) then ReadsIdentityOf(v, e, t, task.c) && Carries(task) == Some(IdentityOf(v, task.c))
            else t in v.tasks && v.tasks[t].c == task.c && Carries(v.tasks[t]) == Carries(task)
  {
    hide Token, Rows, CurrentStamp, NameOf, Renderable, HistoryRows, Create, Purge, AdvanceTask;
    if e.Advance? && e.t in v.tasks {
      AdvanceStep(v, e.t, t);
    }
  }

  lemma {:induction false} AdvanceStep(v: World, r: TaskId, t: TaskId)
    requires r in v.tasks && t in AdvanceTask(v, r).tasks && Carries(AdvanceTask(v, r).tasks[t]).Some?
    ensures var task := AdvanceTask(v, r).tasks[t];
            if ReadsIdentity(v, Advance(r), t) then ReadsIdentityOf(v, Advance(r), t, task.c) && Carries(task) == Some(IdentityOf(v, task.c))
            else t in v.tasks && v.tasks[t].c == task.c && Carries(v.tasks[t]) == Carries(task)
  {
    hide Token, Rows, CurrentStamp, NameOf, Renderable, HistoryRows;
  }

  /** A step leaves what a slot holds, unless it files a body there. */
  lemma {:induction false} SlotStep(v: World, e: Event, slot: Slot)
    requires slot in Step(v, e).cache
    ensures var body := Step(v, e).cache[slot];
            if Files(v, e, slot) then v.tasks[e.t].c == slot.client && Carries(v.tasks[e.t]) == Some(OfBody(body))
            else slot in v.cache && v.cache[slot] == body
  {
    hide Token, Rows, CurrentStamp, NameOf, Renderable, HistoryRows, Create, Purge;
  }

  lemma {:induction false} RequestTrace(events: seq<Event>, t: TaskId)
    requires var w := Run(START, events); t in w.tasks && Carries(w.tasks[t]).Some?
    ensures var task := Run(START, events).tasks[t];
            WasRead(events, ReadAt(events, t), task.c, Carries(task).value)
  {
    hide Step, IdentityOf, Carries, ReadsIdentity, ReadsIdentityOf;
    if events != [] {
      var init, last := events[..|events| - 1], events[|events| - 1];
      assert events == init + [last];
      var (v, task) := (Run(START, init), Run(START, events).tasks[t]);
      RequestStep(v, last, t);
      if ReadsIdentity(v, last, t) {
        assert ReadsIdentityOf(Run(START, events[..|init|]), events[|init|], t, task.c);
      } else {
        RequestTrace(init, t);
        WasReadSnoc(init, last, ReadAt(init, t), task.c, Carries(task).value);
      }
    }
  }

  /** For every run and every cached body: the name and the publication time in it are the ones its
      company had at the event where the request that filed it read them. */
  lemma {:induction false} CachedIdentityWasRead(events: seq<Event>, slot: Slot)
    requires slot in Run(START, events).cache
    ensures WasRead(events, FiledFrom(events, slot), slot.client, OfBody(Run(START, events).cache[slot]))
  {
    hide Step, IdentityOf, Carries, Files, OfBody, WasRead;
    if events != [] {
      var init, last := events[..|events| - 1], events[|events| - 1];
      assert events == init + [last];
      var (v, body) := (Run(START, init), Run(START, events).cache[slot]);
      SlotStep(v, last, slot);
      if Files(v, last, slot) {
        FilesIs(v, last, slot);
        RequestTrace(init, last.t);
        WasReadSnoc(init, last, ReadAt(init, last.t), slot.client, OfBody(body));
      } else {
        CachedIdentityWasRead(init, slot);
        WasReadSnoc(init, last, FiledFrom(init, slot), slot.client, OfBody(body));
      }
    }
  }

  lemma {:induction false} FilesIs(v: World, e: Event, slot: Slot)
    requires Files(v, e, slot)
    ensures e.Advance? && e.t in v.tasks
  {
  }

  // ---- whether it is still the company's name ---------------------------------------------------------------

  predicate Renames(e: Event, c: ClientId) {
    e.Rename? && e.c == c
  }

  /** The last rename of the client at or after event k. */
  predicate LastRename(events: seq<Event>, k: nat, j: nat, c: ClientId) {
    k <= j < |events| && Renames(events[j], c) && forall i | j < i < |events| :: !Renames(events[i], c)
  }

  lemma {:induction false} OnlyRenames(v: World, e: Event, c: ClientId)
    ensures NameOf(Step(v, e), c) == if Renames(e, c) then e.name else NameOf(v, c)
  {
    hide Token, Rows, CurrentStamp, Renderable, HistoryRows, Create, Purge;
  }

  predicate Unrenamed(events: seq<Event>, k: nat, c: ClientId) {
    forall j | k <= j < |events| :: !Renames(events[j], c)
  }

  /** A company's name is that of its last rename since any point, or else the one it had there. */
  lemma {:induction false} NameSince(events: seq<Event>, k: nat, c: ClientId)
    requires k <= |events|
    ensures || (exists j: nat :: LastRename(events, k, j, c) && NameOf(Run(START, events), c) == events[j].name)
            || (Unrenamed(events, k, c) && NameOf(Run(START, events), c) == NameOf(Run(START, events[..k]), c))
  {
    hide Step, NameOf, Run, LastRename, Unrenamed;
    if k == |events| {
      assert events[..k] == events;
      NoneAfterEnd(events, c);
    } else {
      var init, last := events[..|events| - 1], events[|events| - 1];
      assert events == init + [last];
      RunSnoc(START, init, last);
      OnlyRenames(Run(START, init), last, c);
      LastRenameSnoc(init, last, k, c);
      if !Renames(last, c) {
        NameSince(init, k, c);
        assert init[..k] == events[..k];
      }
    }
  }

  lemma {:induction false} NoneAfterEnd(events: seq<Event>, c: ClientId)
    ensures Unrenamed(events, |events|, c)
  {
  }

  lemma {:induction false} LastRenameSnoc(init: seq<Event>, e: Event, k: nat, c: ClientId)
    requires k <= |init|
    ensures if Renames(e, c) then LastRename(init + [e], k, |init|, c)
            else && (Unrenamed(init, k, c) ==> Unrenamed(init + [e], k, c))
                 && forall j: nat | LastRename(init, k, j, c) ::
                      LastRename(init + [e], k, j, c) && (init + [e])[j] == init[j]
  {
    hide Renames;
  }

  /** For every run and every cached body: the name in it is its company's present one if and only if the
      last rename of the company since that name was read, when there is one, gives this same name. */
  lemma {:induction false} CachedNameIsPresent(events: seq<Event>, slot: Slot)
    requires slot in Run(START, events).cache
    ensures var name := Run(START, events).cache[slot].name;
            var k := FiledFrom(events, slot);
            name == NameOf(Run(START, events), slot.client)
            <==> forall j: nat | LastRename(events, k, j, slot.client) :: events[j].name == name
  {
    hide Run, FiledFrom, NameOf, Renames;
    CachedIdentityWasRead(events, slot);
    NameSince(events, FiledFrom(events, slot), slot.client);
  }
}
