/** publication_service.py and consolidated_cache.py: the consolidated-workbook cache as a
    transition system.  Publishers, renames, background warms, direct downloads, cached reads
    and evictions interleave in any order; each step is one store read, one cache access or one
    write.  The workbook renderer is free: a body is the name, the publication time and the rows
    it was rendered from. */
module Cache {
  import opened Prelude
  import opened Facts
  import opened Text
  import opened Store
  import opened PublishedHistory

  type TaskId = nat

  const HISTORY_FACTS_MAX_PAGE_LIMIT: nat := 250_000

  datatype Body = Body(name: string, publishedAt: Option<Stamp>, rows: seq<Fact>)

  datatype Slot = Slot(client: ClientId, fingerprint: Fingerprint)

  /** Where a running request is.  A read keeps, as history, every listing its client had since
      the read began. */
  datatype Task =
    | WarmFingerprint(c: ClientId, fp: Fingerprint)
    | WarmIdentity(c: ClientId, fp: Fingerprint, name: string, stamp: Option<Stamp>)
    | WarmRendered(c: ClientId, fp: Fingerprint, body: Body)
    | DownloadIdentity(c: ClientId, name: string, stamp: Option<Stamp>)
    | DownloadRendered(c: ClientId, body: Body)
    | DownloadFingerprint(c: ClientId, fp: Fingerprint, body: Body)
    | Reading(c: ClientId, fp: Fingerprint, seen: set<seq<Fact>>)
    | Served(c: ClientId, body: Body, seen: set<seq<Fact>>)

  datatype World = World(
    store: State, used: set<Id>, names: map<ClientId, string>,
    cache: map<Slot, Body>, tasks: map<TaskId, Task>)

  const START: World := World(EMPTY, {}, map[], map[], map[])

  datatype Event =
    | Publish(c: ClientId, id: Id, run: string, now: Stamp, rows: seq<Fact>)
    | Point(c: ClientId, id: Id)
    | PurgeClient(c: ClientId)
    | Rename(c: ClientId, name: string)
    | StartWarm(t: TaskId, c: ClientId)
    | StartDownload(t: TaskId, c: ClientId)
    | StartRead(t: TaskId, c: ClientId)
    | Advance(t: TaskId)
    | Abort(t: TaskId)
    | Evict(slot: Slot)

  // ---- what a request sees --------------------------------------------------------------

  function Now(w: World, c: ClientId): seq<Version> {
    Versions(w.store, c)
  }

  function Rows(w: World, c: ClientId): seq<Fact> {
    HistoryRows(Now(w, c), c)
  }

  function Token(w: World, c: ClientId): Option<Fingerprint> {
    FingerprintOf(Now(w, c), c)
  }

  function StampOf(vs: seq<Version>): Option<Stamp> {
    if vs == [] then None else Some(vs[|vs| - 1].publication.publishedAt)
  }

  /** `get_current`, once a publish has moved the pointer: the time of the newest publication. */
  function CurrentStamp(w: World, c: ClientId): Option<Stamp> {
    StampOf(Now(w, c))
  }

  /** `_company_identity`: the code stands in for an unknown name. */
  function NameOf(w: World, c: ClientId): string {
    if c in w.names then w.names[c] else c
  }

  /** `_load_cumulative_items` refuses an over-cap history, and an empty one is a 404. */
  predicate Renderable(rows: seq<Fact>) {
    0 < |rows| <= HISTORY_FACTS_MAX_PAGE_LIMIT
  }

  // ---- steps ----------------------------------------------------------------------------

  /** Readers of a client note its new listing when it changes. */
  function Observe(tasks: map<TaskId, Task>, c: ClientId, rows: seq<Fact>): map<TaskId, Task> {
    map t | t in tasks ::
      match tasks[t]
      case Reading(d, fp, seen) => if d == c then Reading(d, fp, seen + {rows}) else tasks[t]
      case _ => tasks[t]
  }

  function WithTask(w: World, t: TaskId, task: Task): World {
    w.(tasks := w.tasks[t := task])
  }

  function Without(w: World, t: TaskId): World {
    w.(tasks := w.tasks - {t})
  }

  function StoreChanged(w: World, c: ClientId, s: State, used: set<Id>): World {
    w.(store := s, used := used, tasks := Observe(w.tasks, c, HistoryRows(Versions(s, c), c)))
  }

  /** The next step of a running request. */
  function AdvanceTask(w: World, t: TaskId): World
    requires t in w.tasks
  {
    match w.tasks[t]
    // the warm took its fingerprint first; then identity and pointer, then rows, then the store
    case WarmFingerprint(c, fp) => WithTask(w, t, WarmIdentity(c, fp, NameOf(w, c), CurrentStamp(w, c)))
    case WarmIdentity(c, fp, name, stamp) =>
      if Renderable(Rows(w, c)) then WithTask(w, t, WarmRendered(c, fp, Body(name, stamp, Rows(w, c))))
      else Without(w, t)
    case WarmRendered(c, fp, body) => Without(w, t).(cache := w.cache[Slot(c, fp) := body])
    // the direct download takes it last
    case DownloadIdentity(c, name, stamp) =>
      if Renderable(Rows(w, c)) then WithTask(w, t, DownloadRendered(c, Body(name, stamp, Rows(w, c))))
      else Without(w, t)
    case DownloadRendered(c, body) =>
      (match Token(w, c)
       case None => Without(w, t)
       case Some(fp) => WithTask(w, t, DownloadFingerprint(c, fp, body)))
    case DownloadFingerprint(c, fp, body) => Without(w, t).(cache := w.cache[Slot(c, fp) := body])
    // a cached read: fingerprint, then the artifact under it
    case Reading(c, fp, seen) =>
      if Slot(c, fp) in w.cache then WithTask(w, t, Served(c, w.cache[Slot(c, fp)], seen)) else Without(w, t)
    case Served(_, _, _) => w
  }

  /** An event that cannot happen leaves the world as it is. */
  function Step(w: World, e: Event): World {
    match e
    case Publish(c, id, run, now, rows) =>
      (match Create(w.store, id, c, run, now, rows)
       case Err(_) => w
       case Ok(s) => if id in w.used then w else StoreChanged(w, c, s, w.used + {id}))
    // the last write of a publish, seen by nothing but the publication time: PointerTimes follows it
    case Point(_, _) => w
    case PurgeClient(c) => StoreChanged(w, c, Purge(w.store, c), w.used)
    case Rename(c, name) => w.(names := w.names[c := name])
    case StartWarm(t, c) =>
      if t in w.tasks then w
      else (match Token(w, c)
            case None => w
            case Some(fp) => if Slot(c, fp) in w.cache then w else WithTask(w, t, WarmFingerprint(c, fp)))
    case StartDownload(t, c) =>
      if t in w.tasks then w else WithTask(w, t, DownloadIdentity(c, NameOf(w, c), CurrentStamp(w, c)))
    case StartRead(t, c) =>
      if t in w.tasks then w
      else (match Token(w, c)
            case None => w
            case Some(fp) => WithTask(w, t, Reading(c, fp, {Rows(w, c)})))
    case Advance(t) => if t in w.tasks then AdvanceTask(w, t) else w
    case Abort(t) => Without(w, t)
    case Evict(slot) => w.(cache := w.cache - {slot})
  }

  function Run(w: World, events: seq<Event>): World {
    if events == [] then w else Step(Run(w, events[..|events| - 1]), events[|events| - 1])
  }

  /** The step at which a download takes its fingerprint. */
  predicate TakesFingerprint(w: World, e: Event) {
    e.Advance? && e.t in w.tasks && w.tasks[e.t].DownloadRendered? && Token(w, w.tasks[e.t].c).Some?
  }

  /** The rows it loaded are still the listing. */
  predicate StillCurrent(w: World, e: Event)
    requires TakesFingerprint(w, e)
  {
    var task := w.tasks[e.t];
    task.body.rows == Rows(w, task.c) && task.body.publishedAt == CurrentStamp(w, task.c)
  }

  predicate Guarded(w: World, e: Event) {
    TakesFingerprint(w, e) ==> StillCurrent(w, e)
  }

  /** A run in which no download takes its fingerprint after its rows went stale. */
  predicate GuardedRun(w: World, events: seq<Event>) {
    events == []
    || (GuardedRun(w, events[..|events| - 1]) && Guarded(Run(w, events[..|events| - 1]), events[|events| - 1]))
  }
}
