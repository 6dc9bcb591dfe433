/** publication_store.py: append-only publications with immutable snapshots, one current pointer
    per client, the newest-wins union of a client's snapshots, and the token that identifies it. */
module Store {
  import opened Prelude
  import opened Facts
  import opened Ordering
  import opened Text
  import Calendar

  type ClientId = string
  type Id = string
  type Stamp = int

  datatype Publication = Publication(
    id: Id, client: ClientId, run: string, publishedAt: Stamp, complete: bool, rowCount: nat)

  datatype Pointer = Pointer(publication: Id, updatedAt: Stamp)

  datatype StoreError = DuplicateGrains

  /** `publications` is in insertion order, as a dict iterates. */
  datatype State = State(
    publications: seq<Publication>, current: map<ClientId, Pointer>, snapshots: map<Id, seq<Fact>>)

  const EMPTY: State := State([], map[], map[])

  // ---- what a state means for one client ------------------------------------------------

  /** A complete publication with its snapshot. */
  datatype Version = Version(publication: Publication, rows: seq<Fact>)

  function SnapshotOf(s: State, id: Id): seq<Fact> {
    if id in s.snapshots then s.snapshots[id] else []
  }

  /** The client's complete publications, oldest first. */
  function Versions(s: State, c: ClientId): seq<Version> {
    VersionsOf(s.publications, s.snapshots, c)
  }

  function VersionsOf(pubs: seq<Publication>, snaps: map<Id, seq<Fact>>, c: ClientId): seq<Version> {
    if pubs == [] then []
    else
      var p := pubs[|pubs| - 1];
      var before := VersionsOf(pubs[..|pubs| - 1], snaps, c);
      if p.client == c && p.complete
      then before + [Version(p, if p.id in snaps then snaps[p.id] else [])]
      else before
  }

  function Ids(vs: seq<Version>): set<Id> {
    set v | v in vs :: v.publication.id
  }

  /** One snapshot as grain -> row; the first row of a grain stays. */
  function SnapshotMap(rows: seq<Fact>, c: ClientId): map<FactKey, Fact> {
    if rows == [] then map[]
    else
      var rest := SnapshotMap(rows[1..], c);
      if rows[0].client == c then rest[rows[0].Key() := rows[0]] else rest
  }

  /** The published history: oldest to newest, each publication overriding the grains it has. */
  function History(vs: seq<Version>, c: ClientId): map<FactKey, Fact> {
    if vs == [] then map[]
    else History(vs[..|vs| - 1], c) + SnapshotMap(vs[|vs| - 1].rows, c)
  }

  // ---- transitions ----------------------------------------------------------------------

  predicate UniqueGrains(rows: seq<Fact>) {
    forall i, j | 0 <= i < j < |rows| :: rows[i].Key() != rows[j].Key()
  }

  /** `create`, given the fresh identifier and the clock reading it draws. */
  function Create(s: State, id: Id, c: ClientId, run: string, now: Stamp, rows: seq<Fact>)
    : Result<State, StoreError>
  {
    if !UniqueGrains(rows) then Err(DuplicateGrains)
    else Ok(State(s.publications + [Publication(id, c, run, now, true, |rows|)],
                  s.current[c := Pointer(id, now)],
                  s.snapshots[id := rows]))
  }

  function Others(pubs: seq<Publication>, c: ClientId): seq<Publication> {
    if pubs == [] then []
    else
      var before := Others(pubs[..|pubs| - 1], c);
      if pubs[|pubs| - 1].client == c then before else before + [pubs[|pubs| - 1]]
  }

  function OwnIds(pubs: seq<Publication>, c: ClientId): set<Id> {
    set p | p in pubs && p.client == c :: p.id
  }

  /** `purge_client`. */
  function Purge(s: State, c: ClientId): State {
    State(Others(s.publications, c), s.current - {c}, s.snapshots - OwnIds(s.publications, c))
  }

  // ---- what every reachable state satisfies ---------------------------------------------

  ghost predicate DistinctIds(pubs: seq<Publication>) {
    forall i, j | 0 <= i < j < |pubs| :: pubs[i].id != pubs[j].id
  }

  function LastPointer(vs: seq<Version>): Option<Pointer> {
    if vs == [] then None
    else
      var p := vs[|vs| - 1].publication;
      Some(Pointer(p.id, p.publishedAt))
  }

  function CurrentPointer(s: State, c: ClientId): Option<Pointer> {
    if c in s.current then Some(s.current[c]) else None
  }

  /** Identifiers are distinct, every publication is complete and has its own snapshot with one
      row per grain, and each client's pointer is its latest publication. */
  ghost predicate Valid(s: State) {
    && DistinctIds(s.publications)
    && (forall p | p in s.publications :: p.complete && p.id in s.snapshots)
    && (forall p | p in s.publications :: UniqueGrains(s.snapshots[p.id]) && p.rowCount == |s.snapshots[p.id]|)
    && (forall id | id in s.snapshots :: exists p :: p in s.publications && p.id == id)
    && (forall c :: CurrentPointer(s, c) == LastPointer(Versions(s, c)))
  }

  ghost predicate FreshId(s: State, id: Id) {
    forall p | p in s.publications :: p.id != id
  }

  lemma {:induction false} VersionsFrame(pubs: seq<Publication>, a: map<Id, seq<Fact>>, b: map<Id, seq<Fact>>, c: ClientId)
    requires forall p | p in pubs && p.client == c :: (p.id in a <==> p.id in b) && (p.id in a ==> a[p.id] == b[p.id])
    ensures VersionsOf(pubs, a, c) == VersionsOf(pubs, b, c)
  {
    if pubs != [] {
      VersionsFrame(pubs[..|pubs| - 1], a, b, c);
    }
  }

  lemma {:induction false} VersionsFrom(pubs: seq<Publication>, snaps: map<Id, seq<Fact>>, c: ClientId)
    ensures forall v | v in VersionsOf(pubs, snaps, c) ::
              v.publication in pubs && v.publication.client == c && v.publication.complete
              && v.rows == if v.publication.id in snaps then snaps[v.publication.id] else []
  {
    if pubs != [] {
      VersionsFrom(pubs[..|pubs| - 1], snaps, c);
    }
  }

  /** A create appends one version to its client and leaves the other clients alone. */
  lemma {:induction false} CreateVersions(s: State, id: Id, c: ClientId, run: string, now: Stamp, rows: seq<Fact>, d: ClientId)
    requires FreshId(s, id) && UniqueGrains(rows)
    ensures Versions(Create(s, id, c, run, now, rows).value, d) ==
            if d == c then Versions(s, c) + [Version(Publication(id, c, run, now, true, |rows|), rows)]
            else Versions(s, d)
  {
    var t := Create(s, id, c, run, now, rows).value;
    assert t.publications[..|t.publications| - 1] == s.publications;
    VersionsFrame(s.publications, s.snapshots, t.snapshots, d);
  }

  lemma {:induction false} OthersKeep(pubs: seq<Publication>, c: ClientId)
    ensures forall p :: p in Others(pubs, c) <==> p in pubs && p.client != c
    ensures DistinctIds(pubs) ==> DistinctIds(Others(pubs, c))
  {
    if pubs != [] {
      var init, last := pubs[..|pubs| - 1], pubs[|pubs| - 1];
      OthersKeep(init, c);
      assert pubs == init + [last];
      if DistinctIds(pubs) {
        assert forall p | p in init :: p.id != last.id;
      }
    }
  }

  lemma {:induction false} OthersVersions(pubs: seq<Publication>, snaps: map<Id, seq<Fact>>, c: ClientId, d: ClientId)
    ensures VersionsOf(Others(pubs, c), snaps, d) == if d == c then [] else VersionsOf(pubs, snaps, d)
  {
    if pubs != [] {
      var init := pubs[..|pubs| - 1];
      OthersVersions(init, snaps, c, d);
      if pubs[|pubs| - 1].client != c {
        assert Others(pubs, c)[..|Others(pubs, c)| - 1] == Others(init, c);
      }
    }
  }

  /** A purge empties its client and leaves the other clients alone. */
  lemma {:induction false} PurgeVersions(s: State, c: ClientId, d: ClientId)
    requires Valid(s)
    ensures Versions(Purge(s, c), d) == if d == c then [] else Versions(s, d)
  {
    var t := Purge(s, c);
    OthersKeep(s.publications, c);
    OthersVersions(s.publications, s.snapshots, c, d);
    forall p | p in t.publications
      ensures p.id !in OwnIds(s.publications, c)
    {
      forall q | q in s.publications && q.client == c
        ensures q.id != p.id
      {
        var i :| 0 <= i < |s.publications| && s.publications[i] == p;
        var j :| 0 <= j < |s.publications| && s.publications[j] == q;
      }
    }
    VersionsFrame(t.publications, s.snapshots, t.snapshots, d);
  }

  lemma {:induction false} EmptyValid()
    ensures Valid(EMPTY)
  {
  }

  /** Every reachable store is valid: creation with a fresh identifier keeps it so. */
  lemma {:induction false} CreateValid(s: State, id: Id, c: ClientId, run: string, now: Stamp, rows: seq<Fact>)
    requires Valid(s) && FreshId(s, id) && UniqueGrains(rows)
    ensures Valid(Create(s, id, c, run, now, rows).value)
  {
    var t := Create(s, id, c, run, now, rows).value;
    forall d
      ensures CurrentPointer(t, d) == LastPointer(Versions(t, d))
    {
      CreateVersions(s, id, c, run, now, rows, d);
      assert CurrentPointer(s, d) == LastPointer(Versions(s, d));
    }
    forall i | i in t.snapshots
      ensures exists p :: p in t.publications && p.id == i
    {
      if i == id {
        assert t.publications[|s.publications|].id == id;
      } else {
        var p :| p in s.publications && p.id == i;
        assert p in t.publications;
      }
    }
  }

  lemma {:induction false} PurgeValid(s: State, c: ClientId)
    requires Valid(s)
    ensures Valid(Purge(s, c))
  {
    var t := Purge(s, c);
    OthersKeep(s.publications, c);
    forall p | p in t.publications
      ensures p.id in t.snapshots && t.snapshots[p.id] == s.snapshots[p.id]
    {
      assert p in s.publications;
    }
    forall i | i in t.snapshots
      ensures exists p :: p in t.publications && p.id == i
    {
      var p :| p in s.publications && p.id == i;
      assert p.client != c;
      assert p in t.publications;
    }
    forall d
      ensures CurrentPointer(t, d) == LastPointer(Versions(t, d))
    {
      PurgeVersions(s, c, d);
      assert CurrentPointer(s, d) == LastPointer(Versions(s, d));
    }
  }
}
