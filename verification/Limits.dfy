/** limits.py: the sliding-window limiters as pruned stores checked against the full event log,
    and the check-then-record admission protocol of auth_routes.py run by several handlers.
    Each limiter call is one step under its lock, at a clock reading that never goes back. */
module Limits {
  import opened Prelude

  type Key = string

  datatype LogEvent = Recorded(key: Key, at: real) | Cleared(key: Key)

  /** The stamps recorded for a key since its last clear, oldest first. */
  function Live(log: seq<LogEvent>, k: Key): seq<real> {
    if log == [] then []
    else
      var before := Live(log[..|log| - 1], k);
      match log[|log| - 1]
      case Recorded(key, at) => if key == k then before + [at] else before
      case Cleared(key) => if key == k then [] else before
  }

  /** The stamps strictly after a cutoff. */
  function After(stamps: seq<real>, cutoff: real): seq<real> {
    if stamps == [] then []
    else if stamps[0] > cutoff then [stamps[0]] + After(stamps[1..], cutoff)
    else After(stamps[1..], cutoff)
  }

  lemma {:induction false} AfterTwice(s: seq<real>, early: real, late: real)
    requires early <= late
    ensures After(After(s, early), late) == After(s, late)
  {
    if s != [] {
      AfterTwice(s[1..], early, late);
      var rest := After(s[1..], early);
      if s[0] > early {
        assert ([s[0]] + rest)[1..] == rest;
      }
    }
  }

  lemma {:induction false} AfterSnoc(s: seq<real>, x: real, cutoff: real)
    ensures After(s + [x], cutoff) == After(s, cutoff) + if x > cutoff then [x] else []
  {
    if s != [] {
      AfterSnoc(s[1..], x, cutoff);
      assert (s + [x])[0] == s[0] && (s + [x])[1..] == s[1..] + [x];
    }
  }

  function Stored(events: map<Key, seq<real>>, k: Key): seq<real> {
    if k in events then events[k] else []
  }

  /** What the full log says: at least `max` events of the key inside the window. */
  predicate OverLimit(log: seq<LogEvent>, k: Key, now: real, window: real, max: int) {
    |After(Live(log, k), now - window)| >= max
  }

  /** The pruned store answers for the log at every cutoff from `last - window` on. */
  ghost predicate Represents(events: map<Key, seq<real>>, log: seq<LogEvent>, cutoff: real) {
    forall k :: After(Stored(events, k), cutoff) == After(Live(log, k), cutoff)
  }

  /** `_prune_unlocked`. */
  function Prune(events: map<Key, seq<real>>, k: Key, cutoff: real): map<Key, seq<real>> {
    var kept := After(Stored(events, k), cutoff);
    if kept != [] then events[k := kept] else events - {k}
  }

  lemma {:induction false} PruneRepresents(events: map<Key, seq<real>>, log: seq<LogEvent>, k: Key, early: real, late: real)
    requires early <= late && Represents(events, log, early)
    ensures Represents(Prune(events, k, late), log, late)
    ensures Stored(Prune(events, k, late), k) == After(Live(log, k), late)
  {
    forall j
      ensures After(Stored(events, j), late) == After(Live(log, j), late)
      ensures After(Stored(Prune(events, k, late), j), late) == After(Live(log, j), late)
    {
      AfterTwice(Stored(events, j), early, late);
      AfterTwice(Live(log, j), early, late);
      AfterTwice(Stored(events, j), late, late);
    }
  }

  lemma {:induction false} RepresentsLater(events: map<Key, seq<real>>, log: seq<LogEvent>, early: real, late: real)
    requires early <= late && Represents(events, log, early)
    ensures Represents(events, log, late)
  {
    forall j
      ensures After(Stored(events, j), late) == After(Live(log, j), late)
    {
      AfterTwice(Stored(events, j), early, late);
      AfterTwice(Live(log, j), early, late);
    }
  }

  lemma {:induction false} RecordRepresents(events: map<Key, seq<real>>, log: seq<LogEvent>, k: Key, now: real, cutoff: real)
    requires Represents(events, log, cutoff)
    ensures Represents(events[k := Stored(events, k) + [now]], log + [Recorded(k, now)], cutoff)
  {
    forall j
      ensures After(Stored(events[k := Stored(events, k) + [now]], j), cutoff) == After(Live(log + [Recorded(k, now)], j), cutoff)
    {
      assert (log + [Recorded(k, now)])[..|log|] == log;
      AfterSnoc(Stored(events, k), now, cutoff);
      AfterSnoc(Live(log, k), now, cutoff);
    }
  }

  lemma {:induction false} ClearRepresents(events: map<Key, seq<real>>, log: seq<LogEvent>, k: Key, cutoff: real)
    requires Represents(events, log, cutoff)
    ensures Represents(events - {k}, log + [Cleared(k)], cutoff)
  {
    forall j
      ensures After(Stored(events - {k}, j), cutoff) == After(Live(log + [Cleared(k)], j), cutoff)
    {
      assert (log + [Cleared(k)])[..|log|] == log;
    }
  }

  /** What `record_failure(keys)` adds to the log: one event for each non-empty key given. */
  function RecordAll(log: seq<LogEvent>, keys: seq<Key>, now: real): seq<LogEvent> {
    if keys == [] then log
    else
      var before := RecordAll(log, keys[..|keys| - 1], now);
      if keys[|keys| - 1] == "" then before else before + [Recorded(keys[|keys| - 1], now)]
  }

  function ClearAll(log: seq<LogEvent>, keys: seq<Key>): seq<LogEvent> {
    if keys == [] then log else ClearAll(log, keys[..|keys| - 1]) + [Cleared(keys[|keys| - 1])]
  }

  /** The same stamp n times. */
  function Stamps(n: nat, at: real): (r: seq<real>)
    ensures |r| == n && forall i | 0 <= i < n :: r[i] == at
  {
    seq(n, i => at)
  }

  /** How many of the stamps are less than a window old. */
  function Recent(stamps: seq<real>, now: real, window: real): nat {
    |set i | 0 <= i < |stamps| && now - stamps[i] < window|
  }

  lemma {:induction false} AfterCounts(stamps: seq<real>, now: real, window: real)
    ensures |After(stamps, now - window)| == Recent(stamps, now, window)
  {
    if stamps == [] {
      RecentOf(stamps, now, window, {});
    } else {
      var (init, last) := (stamps[..|stamps| - 1], stamps[|stamps| - 1]);
      assert stamps == init + [last];
      AfterCounts(init, now, window);
      AfterSnoc(init, last, now - window);
      RecentSnoc(init, last, now, window);
    }
  }

  lemma {:induction false} RecentOf(stamps: seq<real>, now: real, window: real, recent: set<int>)
    requires forall i :: i in recent <==> 0 <= i < |stamps| && now - stamps[i] < window
    ensures Recent(stamps, now, window) == |recent|
  {
    assert (set i | 0 <= i < |stamps| && now - stamps[i] < window) == recent;
  }

  lemma {:induction false} RecentSnoc(init: seq<real>, last: real, now: real, window: real)
    ensures Recent(init + [last], now, window) == Recent(init, now, window) + if now - last < window then 1 else 0
  {
    var stamps := init + [last];
    var (all, before) := (set i | 0 <= i < |stamps| && now - stamps[i] < window, set i | 0 <= i < |init| && now - init[i] < window);
    if now - last < window {
      assert all == before + {|init|};
    } else {
      assert all == before;
    }
  }

  /** Every key's live stamps after a failure: one more for each time the key is given, none for the empty key. */
  lemma {:induction false} RecordedAre(log: seq<LogEvent>, keys: seq<Key>, now: real, k: Key)
    ensures Live(RecordAll(log, keys, now), k) == Live(log, k) + Stamps(if k == "" then 0 else multiset(keys)[k], now)
  {
    hide Live, Stamps;
    if keys == [] {
      assert Stamps(0, now) == [] && Live(log, k) + [] == Live(log, k);
    } else {
      var (init, last) := (keys[..|keys| - 1], keys[|keys| - 1]);
      assert keys == init + [last];
      RecordedAre(log, init, now, k);
      var n := if k == "" then 0 else multiset(init)[k];
      LiveSnoc(RecordAll(log, init, now), last, now, k);
      OneMoreStamp(Live(log, k), n, now);
    }
  }

  lemma {:induction false} OneMoreStamp(live: seq<real>, n: nat, at: real)
    ensures live + Stamps(n + 1, at) == live + Stamps(n, at) + [at]
    ensures live + Stamps(n, at) + [] == live + Stamps(n, at)
  {
  }

  lemma {:induction false} LiveSnoc(log: seq<LogEvent>, key: Key, at: real, k: Key)
    ensures Live(log + [Recorded(key, at)], k) == Live(log, k) + if k == key then [at] else []
    ensures Live(log + [Cleared(key)], k) == if k == key then [] else Live(log, k)
  {
    assert (log + [Recorded(key, at)])[..|log|] == log && (log + [Cleared(key)])[..|log|] == log;
  }

  lemma {:induction false} ClearedAre(log: seq<LogEvent>, keys: seq<Key>, k: Key)
    ensures Live(ClearAll(log, keys), k) == if k in keys then [] else Live(log, k)
  {
    if keys != [] {
      var (init, last) := (keys[..|keys| - 1], keys[|keys| - 1]);
      assert keys == init + [last];
      ClearedAre(log, init, k);
      var before := ClearAll(log, init);
      assert (before + [Cleared(last)])[..|before|] == before;
    }
  }

  class AttemptLimiter {
    const maxFailures: int
    const windowSeconds: real
    var events: map<Key, seq<real>>
    ghost var log: seq<LogEvent>   // everything ever recorded or cleared
    ghost var last: real           // the latest clock reading

    ghost predicate Valid()
      reads this
    {
      Represents(events, log, last - windowSeconds)
    }

    constructor (maxFailures: int, windowSeconds: real, now: real)
      ensures Valid() && log == [] && last == now
      ensures this.maxFailures == maxFailures && this.windowSeconds == windowSeconds
    {
      this.maxFailures, this.windowSeconds := maxFailures, windowSeconds;
      events, log, last := map[], [], now;
    }

    /** `is_blocked`: the answer is the full log's, whatever was pruned before, and the pruning
        done here changes no later answer since Valid still holds of an unchanged log. */
    method IsBlocked(keys: seq<Key>, now: real) returns (blocked: bool)
      requires Valid() && now >= last
      modifies this
      ensures Valid() && log == old(log) && last == now
      ensures blocked <==> exists i :: 0 <= i < |keys| && keys[i] != "" && Recent(Live(log, keys[i]), now, windowSeconds) >= maxFailures
    {
      hide Represents, After, Live, Prune, Recent;
      forall k
        ensures OverLimit(log, k, now, windowSeconds, maxFailures) <==> Recent(Live(log, k), now, windowSeconds) >= maxFailures
      {
        AfterCounts(Live(log, k), now, windowSeconds);
      }
      RepresentsLater(events, log, last - windowSeconds, now - windowSeconds);
      last := now;
      for i := 0 to |keys|
        invariant Valid() && log == old(log) && last == now
        invariant forall j | 0 <= j < i && keys[j] != "" :: !OverLimit(log, keys[j], now, windowSeconds, maxFailures)
      {
        if keys[i] != "" {
          PruneRepresents(events, log, keys[i], now - windowSeconds, now - windowSeconds);
          events := Prune(events, keys[i], now - windowSeconds);
          if |Stored(events, keys[i])| >= maxFailures {
            return true;
          }
        }
      }
      blocked := false;
    }

    method RecordFailure(keys: seq<Key>, now: real)
      requires Valid() && now >= last
      modifies this
      ensures Valid() && log == RecordAll(old(log), keys, now) && last == now
      ensures forall k :: Live(log, k) == Live(old(log), k) + Stamps(if k == "" then 0 else multiset(keys)[k], now)
    {
      hide Represents, After, Live, Prune;
      RepresentsLater(events, log, last - windowSeconds, now - windowSeconds);
      last := now;
      for i := 0 to |keys|
        invariant Valid() && last == now
        invariant log == RecordAll(old(log), keys[..i], now)
      {
        assert keys[..i + 1][..i] == keys[..i];
        if keys[i] != "" {
          PruneRepresents(events, log, keys[i], now - windowSeconds, now - windowSeconds);
          var pruned := Prune(events, keys[i], now - windowSeconds);
          RecordRepresents(pruned, log, keys[i], now, now - windowSeconds);
          events := pruned[keys[i] := Stored(pruned, keys[i]) + [now]];
          log := log + [Recorded(keys[i], now)];
        }
      }
      assert keys[..|keys|] == keys;
      forall k
        ensures Live(log, k) == Live(old(log), k) + Stamps(if k == "" then 0 else multiset(keys)[k], now)
      {
        RecordedAre(old(log), keys, now, k);
      }
    }

    method Clear(keys: seq<Key>)
      requires Valid()
      modifies this
      ensures Valid() && log == ClearAll(old(log), keys) && last == old(last)
      ensures forall k :: Live(log, k) == if k in keys then [] else Live(old(log), k)
    {
      hide Represents, After, Live;
      for i := 0 to |keys|
        invariant Valid() && last == old(last)
        invariant log == ClearAll(old(log), keys[..i])
      {
        assert keys[..i + 1][..i] == keys[..i];
        ClearRepresents(events, log, keys[i], last - windowSeconds);
        events := events - {keys[i]};
        log := log + [Cleared(keys[i])];
      }
      assert keys[..|keys|] == keys;
      forall k
        ensures Live(log, k) == if k in keys then [] else Live(old(log), k)
      {
        ClearedAre(old(log), keys, k);
      }
    }
  }

  class RateWindowLimiter {
    const maxAttempts: int
    const windowSeconds: real
    var events: map<Key, seq<real>>
    ghost var log: seq<LogEvent>
    ghost var last: real

    ghost predicate Valid()
      reads this
    {
      Represents(events, log, last - windowSeconds)
    }

    constructor (maxAttempts: int, windowSeconds: real, now: real)
      ensures Valid() && log == [] && last == now
      ensures this.maxAttempts == (if maxAttempts < 1 then 1 else maxAttempts) && this.windowSeconds == windowSeconds
    {
      this.maxAttempts := if maxAttempts < 1 then 1 else maxAttempts;
      this.windowSeconds := windowSeconds;
      events, log, last := map[], [], now;
    }

    method IsBlocked(key: Key, now: real) returns (blocked: bool)
      requires Valid() && now >= last
      modifies this
      ensures Valid() && log == old(log)
      ensures blocked <==> key != "" && Recent(Live(log, key), now, windowSeconds) >= maxAttempts
    {
      hide Represents, After, Live, Prune, Recent;
      AfterCounts(Live(log, key), now, windowSeconds);
      if key == "" {
        return false;
      }
      PruneRepresents(events, log, key, last - windowSeconds, now - windowSeconds);
      last := now;
      events := Prune(events, key, now - windowSeconds);
      blocked := |Stored(events, key)| >= maxAttempts;
    }

    method Record(key: Key, now: real)
      requires Valid() && now >= last
      modifies this
      ensures Valid() && log == if key == "" then old(log) else old(log) + [Recorded(key, now)]
      ensures forall k :: Live(log, k) == Live(old(log), k) + if k == key != "" then [now] else []
    {
      hide Represents, After, Live, Prune;
      if key == "" {
        return;
      }
      PruneRepresents(events, log, key, last - windowSeconds, now - windowSeconds);
      var pruned := Prune(events, key, now - windowSeconds);
      RecordRepresents(pruned, log, key, now, now - windowSeconds);
      last := now;
      events := pruned[key := Stored(pruned, key) + [now]];
      forall k
        ensures Live(log + [Recorded(key, now)], k) == Live(log, k) + if k == key then [now] else []
      {
        LiveSnoc(log, key, now, k);
      }
      log := log + [Recorded(key, now)];
    }

    method Clear(key: Key)
      requires Valid()
      modifies this
      ensures Valid() && log == old(log) + [Cleared(key)]
      ensures forall k :: Live(log, k) == if k == key then [] else Live(old(log), k)
    {
      ClearRepresents(events, log, key, last - windowSeconds);
      events := events - {key};
      forall k
        ensures Live(log + [Cleared(key)], k) == if k == key then [] else Live(log, k)
      {
        LiveSnoc(log, key, 0.0, k);
      }
      log := log + [Cleared(key)];
    }
  }

  // ---- admission by several handlers --------------------------------------------------------

  /** One key: the stamps recorded, the clock, and the handlers that passed the check and have
      not recorded yet. */
  datatype Admission = Admission(opens: seq<real>, now: real, passed: set<nat>)

  datatype AdmissionEvent =
    | Check(handler: nat, at: real)
    | Record(handler: nat, at: real)

  /** auth_routes.py: a handler that finds the key blocked gives up; one that passes records next.
      An event out of turn, or with the clock going back, does not happen. */
  function AdmissionStep(s: Admission, e: AdmissionEvent, handlers: nat, max: nat, window: real): Admission {
    if e.handler >= handlers || e.at < s.now then s
    else
      match e
      case Check(h, t) =>
        if h in s.passed then s
        else if |After(s.opens, t - window)| >= max then s.(now := t)
        else s.(now := t, passed := s.passed + {h})
      case Record(h, t) =>
        if h !in s.passed then s
        else Admission(s.opens + [t], t, s.passed - {h})
  }

  function AdmissionRun(events: seq<AdmissionEvent>, handlers: nat, max: nat, window: real): Admission {
    if events == [] then Admission([], 0.0, {})
    else AdmissionStep(AdmissionRun(events[..|events| - 1], handlers, max, window), events[|events| - 1], handlers, max, window)
  }

  /** Opens in the half-open window (start, start + length]. */
  function InWindow(opens: seq<real>, start: real, length: real): nat {
    if opens == [] then 0
    else (if start < opens[0] <= start + length then 1 else 0) + InWindow(opens[1..], start, length)
  }

  ghost predicate Ascending(opens: seq<real>, now: real) {
    (forall i, j | 0 <= i < j < |opens| :: opens[i] <= opens[j]) && (forall i | 0 <= i < |opens| :: opens[i] <= now)
  }

  lemma {:induction false} AfterShrinks(s: seq<real>, early: real, late: real)
    requires early <= late
    ensures |After(s, late)| <= |After(s, early)|
  {
    if s != [] {
      AfterShrinks(s[1..], early, late);
    }
  }

  lemma {:induction false} BoundedHandlers(s: set<nat>, handlers: nat)
    requires forall h | h in s :: h < handlers
    ensures |s| <= handlers
    decreases handlers
  {
    if handlers == 0 {
      assert s == {};
    } else if handlers - 1 in s {
      BoundedHandlers(s - {handlers - 1}, handlers - 1);
    } else {
      BoundedHandlers(s, handlers - 1);
    }
  }

  /** The live opens and the handlers still entitled to record never exceed max + N - 1 together. */
  ghost predicate AdmissionInv(s: Admission, handlers: nat, max: nat, window: real) {
    && Ascending(s.opens, s.now)
    && (forall h | h in s.passed :: h < handlers)
    && |After(s.opens, s.now - window)| + |s.passed| <= max + handlers - 1
    && (forall start: real :: InWindow(s.opens, start, window) <= max + handlers - 1)
  }

  lemma {:induction false} InWindowSnoc(opens: seq<real>, t: real, start: real, length: real)
    ensures InWindow(opens + [t], start, length) == InWindow(opens, start, length) + if start < t <= start + length then 1 else 0
  {
    if opens != [] {
      InWindowSnoc(opens[1..], t, start, length);
      assert (opens + [t])[0] == opens[0] && (opens + [t])[1..] == opens[1..] + [t];
    }
  }

  /** A window that reaches t holds no more old opens than are live at t. */
  lemma {:induction false} WindowWithinLive(opens: seq<real>, t: real, start: real, length: real)
    requires start < t <= start + length
    ensures InWindow(opens, start, length) <= |After(opens, t - length)|
  {
    if opens != [] {
      WindowWithinLive(opens[1..], t, start, length);
    }
  }

  lemma {:induction false} CheckKeeps(s: Admission, e: AdmissionEvent, handlers: nat, max: nat, window: real)
    requires e.Check? && handlers > 0 && max > 0 && window > 0.0
    requires AdmissionInv(s, handlers, max, window)
    ensures AdmissionInv(AdmissionStep(s, e, handlers, max, window), handlers, max, window)
  {
    hide InWindow, After;
    var t := AdmissionStep(s, e, handlers, max, window);
    if t != s {
      AfterShrinks(s.opens, s.now - window, e.at - window);
      BoundedHandlers(t.passed, handlers);
    }
  }

  lemma {:induction false} RecordKeeps(s: Admission, e: AdmissionEvent, handlers: nat, max: nat, window: real)
    requires e.Record? && handlers > 0 && max > 0 && window > 0.0
    requires AdmissionInv(s, handlers, max, window)
    ensures AdmissionInv(AdmissionStep(s, e, handlers, max, window), handlers, max, window)
  {
    hide InWindow, After;
    var t := AdmissionStep(s, e, handlers, max, window);
    if t != s {
      AfterShrinks(s.opens, s.now - window, e.at - window);
      AfterSnoc(s.opens, e.at, e.at - window);
      forall start: real
        ensures InWindow(t.opens, start, window) <= max + handlers - 1
      {
        InWindowSnoc(s.opens, e.at, start, window);
        if start < e.at <= start + window {
          WindowWithinLive(s.opens, e.at, start, window);
        }
      }
    }
  }

  lemma {:induction false} AdmissionStepKeeps(s: Admission, e: AdmissionEvent, handlers: nat, max: nat, window: real)
    requires handlers > 0 && max > 0 && window > 0.0
    requires AdmissionInv(s, handlers, max, window)
    ensures AdmissionInv(AdmissionStep(s, e, handlers, max, window), handlers, max, window)
  {
    hide AdmissionInv, AdmissionStep;
    if e.Check? {
      CheckKeeps(s, e, handlers, max, window);
    } else {
      RecordKeeps(s, e, handlers, max, window);
    }
  }

  lemma {:induction false} AdmissionRunInv(events: seq<AdmissionEvent>, handlers: nat, max: nat, window: real)
    requires handlers > 0 && max > 0 && window > 0.0
    ensures AdmissionInv(AdmissionRun(events, handlers, max, window), handlers, max, window)
  {
    if events != [] {
      AdmissionRunInv(events[..|events| - 1], handlers, max, window);
      AdmissionStepKeeps(AdmissionRun(events[..|events| - 1], handlers, max, window), events[|events| - 1], handlers, max, window);
    }
  }

  /** Concurrent admission bound: with N handlers, every window of the configured length in every
      run holds at most max_attempts + N - 1 opens; a single handler never exceeds max_attempts. */
  lemma {:induction false} AdmissionBound(events: seq<AdmissionEvent>, handlers: nat, max: nat, window: real, start: real)
    requires handlers > 0 && max > 0 && window > 0.0
    ensures InWindow(AdmissionRun(events, handlers, max, window).opens, start, window) <= max + handlers - 1
    ensures handlers == 1 ==> InWindow(AdmissionRun(events, handlers, max, window).opens, start, window) <= max
  {
    AdmissionRunInv(events, handlers, max, window);
  }

  // ---- the bound is reached -----------------------------------------------------------------

  /** n full check-and-record turns of handler 0 at time 0. */
  function Turns(n: nat): seq<AdmissionEvent> {
    if n == 0 then [] else Turns(n - 1) + [Check(0, 0.0)] + [Record(0, 0.0)]
  }

  /** Then n handlers check, and none records. */
  function AndChecks(n: nat, max: nat): seq<AdmissionEvent>
    requires max > 0
  {
    if n == 0 then Turns(max - 1) else AndChecks(n - 1, max) + [Check(n - 1, 0.0)]
  }

  /** Then n of the handlers that checked record. */
  function AndRecords(n: nat, handlers: nat, max: nat): seq<AdmissionEvent>
    requires max > 0
  {
    if n == 0 then AndChecks(handlers, max) else AndRecords(n - 1, handlers, max) + [Record(n - 1, 0.0)]
  }

  function Zeros(n: nat): (z: seq<real>)
    ensures |z| == n
  {
    if n == 0 then [] else Zeros(n - 1) + [0.0]
  }

  lemma {:induction false} ZerosLive(n: nat, window: real)
    requires window > 0.0
    ensures |After(Zeros(n), 0.0 - window)| == n && InWindow(Zeros(n), 0.0 - window, window) == n
  {
    if n > 0 {
      ZerosLive(n - 1, window);
      AfterSnoc(Zeros(n - 1), 0.0, 0.0 - window);
      InWindowSnoc(Zeros(n - 1), 0.0, 0.0 - window, window);
    }
  }

  lemma {:induction false} RunSnoc(events: seq<AdmissionEvent>, e: AdmissionEvent, handlers: nat, max: nat, window: real)
    ensures AdmissionRun(events + [e], handlers, max, window) ==
            AdmissionStep(AdmissionRun(events, handlers, max, window), e, handlers, max, window)
  {
    assert (events + [e])[..|events|] == events;
  }

  lemma {:induction false} TurnCounts(n: nat, handlers: nat, max: nat, window: real)
    requires 0 < n < max && 0 < handlers && window > 0.0
    ensures var checked := AdmissionStep(Admission(Zeros(n - 1), 0.0, {}), Check(0, 0.0), handlers, max, window);
            AdmissionStep(checked, Record(0, 0.0), handlers, max, window) == Admission(Zeros(n), 0.0, {})
  {
    hide After;
    ZerosLive(n - 1, window);
  }

  lemma {:induction false} TurnsRun(n: nat, handlers: nat, max: nat, window: real)
    requires handlers > 0 && n < max && window > 0.0
    ensures AdmissionRun(Turns(n), handlers, max, window) == Admission(Zeros(n), 0.0, {})
  {
    if n == 0 {
      assert Zeros(0) == [];
    } else {
      hide AdmissionRun, AdmissionStep, Zeros;
      TurnsRun(n - 1, handlers, max, window);
      TurnCounts(n, handlers, max, window);
      RunSnoc(Turns(n - 1), Check(0, 0.0), handlers, max, window);
      RunSnoc(Turns(n - 1) + [Check(0, 0.0)], Record(0, 0.0), handlers, max, window);
    }
  }

  function Below(n: nat): (r: set<nat>)
    ensures forall h :: h in r <==> 0 <= h < n
  {
    if n == 0 then {} else Below(n - 1) + {n - 1}
  }

  lemma {:induction false} CheckPasses(n: nat, handlers: nat, max: nat, window: real)
    requires 0 < n <= handlers && 0 < max && window > 0.0
    ensures AdmissionStep(Admission(Zeros(max - 1), 0.0, Below(n - 1)), Check(n - 1, 0.0), handlers, max, window) ==
            Admission(Zeros(max - 1), 0.0, Below(n))
  {
    hide Zeros, After;
    ZerosLive(max - 1, window);
  }

  lemma {:induction false} ChecksRun(n: nat, handlers: nat, max: nat, window: real)
    requires n <= handlers && 0 < handlers && 0 < max && window > 0.0
    ensures AdmissionRun(AndChecks(n, max), handlers, max, window) == Admission(Zeros(max - 1), 0.0, Below(n))
  {
    hide AdmissionRun, AdmissionStep, Turns, Zeros;
    if n == 0 {
      TurnsRun(max - 1, handlers, max, window);
    } else {
      ChecksRun(n - 1, handlers, max, window);
      CheckPasses(n, handlers, max, window);
      RunSnoc(AndChecks(n - 1, max), Check(n - 1, 0.0), handlers, max, window);
    }
  }

  lemma {:induction false} RecordCounts(n: nat, handlers: nat, max: nat, window: real)
    requires 0 < n <= handlers && 0 < max
    ensures AdmissionStep(Admission(Zeros(max - 1 + n - 1), 0.0, Below(handlers) - Below(n - 1)), Record(n - 1, 0.0), handlers, max, window) ==
            Admission(Zeros(max - 1 + n), 0.0, Below(handlers) - Below(n))
  {
    assert Below(handlers) - Below(n) == Below(handlers) - Below(n - 1) - {n - 1};
  }

  lemma {:induction false} RecordsRun(n: nat, handlers: nat, max: nat, window: real)
    requires n <= handlers && 0 < handlers && 0 < max && window > 0.0
    ensures AdmissionRun(AndRecords(n, handlers, max), handlers, max, window) ==
            Admission(Zeros(max - 1 + n), 0.0, Below(handlers) - Below(n))
  {
    hide AdmissionRun, AdmissionStep, AndChecks, Zeros;
    if n == 0 {
      ChecksRun(handlers, handlers, max, window);
    } else {
      RecordsRun(n - 1, handlers, max, window);
      RecordCounts(n, handlers, max, window);
      RunSnoc(AndRecords(n - 1, handlers, max), Record(n - 1, 0.0), handlers, max, window);
    }
  }

  /** No smaller bound holds: some run puts exactly max_attempts + N - 1 opens in one window. */
  lemma {:induction false} AdmissionBoundIsReached(handlers: nat, max: nat, window: real)
    requires handlers > 0 && max > 0 && window > 0.0
    ensures exists events, start ::
              InWindow(AdmissionRun(events, handlers, max, window).opens, start, window) == max + handlers - 1
  {
    var events := AndRecords(handlers, handlers, max);
    RecordsRun(handlers, handlers, max, window);
    ZerosLive(max - 1 + handlers, window);
    assert InWindow(AdmissionRun(events, handlers, max, window).opens, 0.0 - window, window) == max + handlers - 1;
  }
}
