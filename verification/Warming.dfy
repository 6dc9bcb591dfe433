/** publication_service.py `request_consolidated_warm` and the discards that end a warm: at most
    one warm per client, as a transition system over requesting threads and pool workers. */
module Warming {
  type ClientId = string

  // ---- with an executor -------------------------------------------------------------------

  /** `warming` is the guarded set; a warm is claimed by a request, then queued, then running. */
  datatype Pool = Pool(
    warming: set<ClientId>,
    claimed: multiset<ClientId>, queued: multiset<ClientId>, running: multiset<ClientId>)

  const IDLE: Pool := Pool({}, multiset{}, multiset{}, multiset{})

  datatype PoolEvent =
    | Request(c: ClientId)        // the check and the claim, under the lock
    | Submit(c: ClientId)         // submit succeeds
    | SubmitRaises(c: ClientId)   // submit raises: nothing releases the claim
    | Begin(c: ClientId)          // a worker takes the queued job
    | Finish(c: ClientId)         // the worker's finally clause discards

  function PoolStep(p: Pool, e: PoolEvent): Pool {
    match e
    case Request(c) =>
      if c in p.warming then p
      else p.(warming := p.warming + {c}, claimed := p.claimed + multiset{c})
    case Submit(c) =>
      if c !in p.claimed then p
      else p.(claimed := p.claimed - multiset{c}, queued := p.queued + multiset{c})
    case SubmitRaises(c) =>
      if c !in p.claimed then p else p.(claimed := p.claimed - multiset{c})
    case Begin(c) =>
      if c !in p.queued then p
      else p.(queued := p.queued - multiset{c}, running := p.running + multiset{c})
    case Finish(c) =>
      if c !in p.running then p
      else p.(running := p.running - multiset{c}, warming := p.warming - {c})
  }

  function PoolRun(p: Pool, events: seq<PoolEvent>): Pool {
    if events == [] then p else PoolStep(PoolRun(p, events[..|events| - 1]), events[|events| - 1])
  }

  function Warms(p: Pool, c: ClientId): nat {
    p.claimed[c] + p.queued[c] + p.running[c]
  }

  predicate Marked(p: Pool, c: ClientId) {
    Warms(p, c) == if c in p.warming then 1 else 0
  }

  /** At some point of the run, a submit raised for a claim of this client. */
  ghost predicate ClaimLost(events: seq<PoolEvent>, c: ClientId) {
    exists k | 0 <= k < |events| :: LosesClaim(PoolRun(IDLE, events[..k]), events[k], c)
  }

  predicate LosesClaim(p: Pool, e: PoolEvent, c: ClientId) {
    e == SubmitRaises(c) && c in p.claimed
  }

  lemma {:induction false} PoolStepKeeps(p: Pool, e: PoolEvent, c: ClientId)
    requires Marked(p, c)
    ensures if LosesClaim(p, e, c) then c in PoolStep(p, e).warming && Warms(PoolStep(p, e), c) == 0 else Marked(PoolStep(p, e), c)
  {
    if e.c != c {
      assert (multiset{e.c})[c] == 0;
    }
  }

  lemma {:induction false} ClaimLostSnoc(init: seq<PoolEvent>, e: PoolEvent, c: ClientId)
    ensures ClaimLost(init + [e], c) <==> ClaimLost(init, c) || LosesClaim(PoolRun(IDLE, init), e, c)
  {
    hide PoolRun, LosesClaim;
    var events := init + [e];
    assert events[..|init|] == init && events[|init|] == e;
    forall k | 0 <= k < |init|
      ensures events[..k] == init[..k] && events[k] == init[k]
    {
    }
    if ClaimLost(init, c) {
      var k :| 0 <= k < |init| && LosesClaim(PoolRun(IDLE, init[..k]), init[k], c);
      assert LosesClaim(PoolRun(IDLE, events[..k]), events[k], c);
    }
    if LosesClaim(PoolRun(IDLE, init), e, c) {
      assert LosesClaim(PoolRun(IDLE, events[..|init|]), events[|init|], c);
    }
  }

  /** Single flight, exactly.  In every interleaving, whatever happens to other clients, a client never
      has two warms; it is marked exactly when one warm of it is claimed, queued or running, if and
      only if no submit of its own has raised; and once one has, it stays marked with no warm. */
  lemma {:induction false} SingleFlight(events: seq<PoolEvent>, c: ClientId)
    ensures var p := PoolRun(IDLE, events);
            && Warms(p, c) <= 1
            && (Marked(p, c) <==> !ClaimLost(events, c))
            && (ClaimLost(events, c) ==> c in p.warming && Warms(p, c) == 0)
  {
    hide PoolStep, ClaimLost, LosesClaim;
    if events == [] {
      NothingLost(c);
    } else {
      var init, last := events[..|events| - 1], events[|events| - 1];
      assert events == init + [last];
      SingleFlight(init, c);
      ClaimLostSnoc(init, last, c);
      if ClaimLost(init, c) {
        StarvedStays(PoolRun(IDLE, init), last, c);
      } else {
        PoolStepKeeps(PoolRun(IDLE, init), last, c);
      }
    }
  }

  lemma {:induction false} NothingLost(c: ClientId)
    ensures !ClaimLost([], c)
  {
  }

  /** A request leaves one warm of the client behind, in either branch, exactly when no submit of its own
      has raised before. */
  lemma {:induction false} RequestLeavesOneWarm(events: seq<PoolEvent>, c: ClientId)
    ensures Warms(PoolStep(PoolRun(IDLE, events), Request(c)), c) == 1 <==> !ClaimLost(events, c)
  {
    SingleFlight(events, c);
  }

  /** When submit raises, the claim is never released: from then on the client stays marked, no
      warm of it ever exists again, and every later request is told one is in flight. */
  lemma {:induction false} RaisedSubmitStarves(before: seq<PoolEvent>, after: seq<PoolEvent>, c: ClientId)
    requires c in PoolRun(IDLE, before).claimed
    ensures var p := PoolRun(PoolStep(PoolRun(IDLE, before), SubmitRaises(c)), after);
            c in p.warming && Warms(p, c) == 0
  {
    if after == [] {
      SingleFlight(before, c);
      PoolStepKeeps(PoolRun(IDLE, before), SubmitRaises(c), c);
    } else {
      hide PoolStep;
      RaisedSubmitStarves(before, after[..|after| - 1], c);
      StarvedStays(PoolRun(PoolStep(PoolRun(IDLE, before), SubmitRaises(c)), after[..|after| - 1]), after[|after| - 1], c);
    }
  }

  lemma {:induction false} StarvedStays(p: Pool, e: PoolEvent, c: ClientId)
    requires c in p.warming && Warms(p, c) == 0
    ensures c in PoolStep(p, e).warming && Warms(PoolStep(p, e), c) == 0
  {
    if e.c != c {
      assert (multiset{e.c})[c] == 0;
    }
  }

  // ---- without an executor ----------------------------------------------------------------

  /** Callers run the warm themselves.  `running` callers are inside the warm; `leaving` callers
      are between the warm's own discard and the caller's second one. */
  datatype Inline = Inline(warming: set<ClientId>, running: multiset<ClientId>, leaving: multiset<ClientId>)

  const QUIET: Inline := Inline({}, multiset{}, multiset{})

  datatype InlineEvent =
    | Call(c: ClientId)           // the check and the claim, under the lock
    | InnerDiscard(c: ClientId)   // the warm's finally clause
    | OuterDiscard(c: ClientId)   // the caller's finally clause

  function InlineStep(p: Inline, e: InlineEvent): Inline {
    match e
    case Call(c) =>
      if c in p.warming then p
      else p.(warming := p.warming + {c}, running := p.running + multiset{c})
    case InnerDiscard(c) =>
      if c !in p.running then p
      else p.(warming := p.warming - {c}, running := p.running - multiset{c}, leaving := p.leaving + multiset{c})
    case OuterDiscard(c) =>
      if c !in p.leaving then p
      else p.(warming := p.warming - {c}, leaving := p.leaving - multiset{c})
  }

  function InlineRun(p: Inline, events: seq<InlineEvent>): Inline {
    if events == [] then p else InlineStep(InlineRun(p, events[..|events| - 1]), events[|events| - 1])
  }

  /** Marked exactly while one warm of the client runs. */
  predicate MarkIsExact(p: Inline, c: ClientId) {
    p.running[c] == if c in p.warming then 1 else 0
  }

  /** A caller's second discard while a warm of the client, another caller's, is running. */
  predicate DiscardsAnother(p: Inline, e: InlineEvent, c: ClientId) {
    e == OuterDiscard(c) && c in p.leaving && c in p.running
  }

  /** A call of the client while an earlier caller of it is between its two discards. */
  predicate Overlaps(p: Inline, e: InlineEvent, c: ClientId) {
    e == Call(c) && c in p.leaving
  }

  /** Exact, and no caller is between its discards while a warm runs. */
  predicate Exclusive(p: Inline, c: ClientId) {
    MarkIsExact(p, c) && (c in p.leaving ==> c !in p.running)
  }

  lemma {:induction false} InlineStepExact(p: Inline, e: InlineEvent, c: ClientId)
    ensures MarkIsExact(p, c) ==> (MarkIsExact(InlineStep(p, e), c) <==> !DiscardsAnother(p, e, c))
    ensures Exclusive(p, c) ==> (Exclusive(InlineStep(p, e), c) <==> !Overlaps(p, e, c))
  {
    if e.c != c {
      assert (multiset{e.c})[c] == 0;
    }
  }

  /** The state after each event, and before the first. */
  function InlineAt(events: seq<InlineEvent>, k: nat): Inline
    requires k <= |events|
  {
    InlineRun(QUIET, events[..k])
  }

  lemma {:induction false} InlineNext(events: seq<InlineEvent>, k: nat)
    requires k < |events|
    ensures InlineAt(events, 0) == QUIET
    ensures InlineAt(events, k + 1) == InlineStep(InlineAt(events, k), events[k])
  {
    NothingHappens(QUIET);
    assert events[..k + 1] == events[..k] + [events[k]];
    InlineSnoc(QUIET, events[..k], events[k]);
  }

  /** Without an executor, exactly when the mark is right.  For every run and every client, the client is
      marked exactly while one warm of it runs, throughout the run, if and only if no caller's second
      discard comes while another caller's warm of it is running.  Other clients do not matter. */
  lemma {:induction false} InlineSingleFlight(events: seq<InlineEvent>, c: ClientId)
    ensures (forall k: nat | k <= |events| :: MarkIsExact(InlineAt(events, k), c))
            <==> (forall k: nat | k < |events| :: !DiscardsAnother(InlineAt(events, k), events[k], c))
  {
    hide InlineAt, MarkIsExact, DiscardsAnother, InlineStep;
    if forall k: nat | k <= |events| :: MarkIsExact(InlineAt(events, k), c) {
      forall k: nat | k < |events|
        ensures !DiscardsAnother(InlineAt(events, k), events[k], c)
      {
        InlineNext(events, k);
        InlineStepExact(InlineAt(events, k), events[k], c);
      }
    }
    if forall k: nat | k < |events| :: !DiscardsAnother(InlineAt(events, k), events[k], c) {
      forall k: nat | k <= |events|
        ensures MarkIsExact(InlineAt(events, k), c)
      {
        ExactUpTo(events, k, c);
      }
    }
  }

  lemma {:induction false} ExactUpTo(events: seq<InlineEvent>, k: nat, c: ClientId)
    requires k <= |events| && forall j: nat | j < |events| :: !DiscardsAnother(InlineAt(events, j), events[j], c)
    ensures MarkIsExact(InlineAt(events, k), c)
  {
    hide InlineAt, DiscardsAnother, InlineStep;
    if k == 0 {
      QuietIsExclusive(events, c);
    } else {
      ExactUpTo(events, k - 1, c);
      InlineNext(events, k - 1);
      InlineStepExact(InlineAt(events, k - 1), events[k - 1], c);
    }
  }

  lemma {:induction false} QuietIsExclusive(events: seq<InlineEvent>, c: ClientId)
    ensures Exclusive(InlineAt(events, 0), c)
  {
    NothingHappens(QUIET);
    assert events[..0] == [];
  }

  lemma {:induction false} ExclusiveUpTo(events: seq<InlineEvent>, k: nat, c: ClientId)
    requires k <= |events| && forall j: nat | j < |events| :: !Overlaps(InlineAt(events, j), events[j], c)
    ensures Exclusive(InlineAt(events, k), c)
  {
    hide InlineAt, Overlaps, InlineStep;
    if k == 0 {
      QuietIsExclusive(events, c);
    } else {
      ExclusiveUpTo(events, k - 1, c);
      InlineNext(events, k - 1);
      InlineStepExact(InlineAt(events, k - 1), events[k - 1], c);
    }
  }

  /** Callers of a client that do not overlap are what makes its inline warm exclusive: it is so throughout
      the run if and only if none of them calls while another is between its discards.  The mark is
      then right as well. */
  lemma {:induction false} InlineExclusive(events: seq<InlineEvent>, c: ClientId)
    ensures (forall k: nat | k <= |events| :: Exclusive(InlineAt(events, k), c))
            <==> (forall k: nat | k < |events| :: !Overlaps(InlineAt(events, k), events[k], c))
  {
    hide InlineAt, Exclusive, Overlaps, InlineStep;
    if forall k: nat | k <= |events| :: Exclusive(InlineAt(events, k), c) {
      forall k: nat | k < |events|
        ensures !Overlaps(InlineAt(events, k), events[k], c)
      {
        InlineNext(events, k);
        InlineStepExact(InlineAt(events, k), events[k], c);
      }
    }
    if forall k: nat | k < |events| :: !Overlaps(InlineAt(events, k), events[k], c) {
      forall k: nat | k <= |events|
        ensures Exclusive(InlineAt(events, k), c)
      {
        ExclusiveUpTo(events, k, c);
      }
    }
  }

  /** With overlap it is not: whenever a caller is between its discards, two more calls of the
      client put two warms in flight at once. */
  lemma {:induction false} DoubleDiscardBreaks(p: Inline, c: ClientId)
    requires c in p.leaving && c !in p.warming && p.running[c] == 0
    ensures InlineRun(p, [Call(c), OuterDiscard(c), Call(c)]).running[c] == 2
  {
    hide InlineRun, InlineStep;
    var a, b := Call(c), OuterDiscard(c);
    NothingHappens(p);
    InlineSnoc(p, [], a);
    InlineSnoc(p, [a], b);
    InlineSnoc(p, [a, b], a);
    assert [] + [a] == [a] && [a] + [b] == [a, b] && [a, b] + [a] == [a, b, a];
    CallDiscardCall(p, c);
  }

  lemma {:induction false} CallDiscardCall(p: Inline, c: ClientId)
    requires c in p.leaving && c !in p.warming && p.running[c] == 0
    ensures InlineStep(InlineStep(InlineStep(p, Call(c)), OuterDiscard(c)), Call(c)).running[c] == 2
  {
    var p1 := InlineStep(p, Call(c));
    assert p1.leaving == p.leaving && p1.running[c] == 1;
    var p2 := InlineStep(p1, OuterDiscard(c));
    assert c !in p2.warming && p2.running == p1.running;
  }

  lemma {:induction false} NothingHappens(p: Inline)
    ensures InlineRun(p, []) == p
  {
  }

  lemma {:induction false} InlineSnoc(p: Inline, events: seq<InlineEvent>, e: InlineEvent)
    ensures InlineRun(p, events + [e]) == InlineStep(InlineRun(p, events), e)
  {
    assert (events + [e])[..|events|] == events;
  }

  /** Such a state is two steps from the start. */
  lemma {:induction false} OverlapIsReachable(c: ClientId)
    ensures var p := InlineRun(QUIET, [Call(c), InnerDiscard(c)]);
            c in p.leaving && c !in p.warming && p.running[c] == 0
  {
    var a, b := Call(c), InnerDiscard(c);
    InlineSnoc(QUIET, [], a);
    InlineSnoc(QUIET, [a], b);
    assert [] + [a] == [a] && [a] + [b] == [a, b];
  }
}
