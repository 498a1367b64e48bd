/**
 Request threads sharing one limiter.  `check` reads the clock before it takes the lock, so a
 thread's reading may be old by the time its check runs, and timestamps may enter a deque out of
 order.  Reading the clock and running the locked check are separate steps here; `delta` bounds
 how long a thread may take from the one to the other.
 */
module RateLimitThreads {
  import opened RateLimit
  import opened RateLimitHistory
  import opened Sequences
  import opened Wrappers

  datatype Act =
    | Tick(ms: nat)
    | ReadClock(thread: nat)
    | LockedCheck(thread: nat, key: string)

  datatype World = World(clock: int, readings: map<nat, int>, limiter: Limiter)

  predicate Enabled(delta: nat, w: World, a: Act) {
    match a
    case Tick(_) => true
    case ReadClock(thread) => thread !in w.readings
    case LockedCheck(thread, _) => thread in w.readings && w.clock - w.readings[thread] <= delta
  }

  function Do(cfg: Config, delta: nat, w: World, a: Act): World
    requires Enabled(delta, w, a)
  {
    match a
    case Tick(ms) => w.(clock := w.clock + ms)
    case ReadClock(thread) => w.(readings := w.readings[thread := w.clock])
    case LockedCheck(thread, key) =>
      w.(readings := w.readings - {thread},
         limiter := Admit(cfg, w.limiter, Check(key, w.readings[thread])))
  }

  const Start := World(0, map[], Fresh)

  /** The world after the acts, if each of them was possible. */
  function Perform(cfg: Config, delta: nat, acts: seq<Act>): Option<World>
    decreases |acts|
  {
    if acts == [] then Some(Start)
    else
      var before := Perform(cfg, delta, acts[..|acts| - 1]);
      var last := acts[|acts| - 1];
      if before.Some? && Enabled(delta, before.value, last)
      then Some(Do(cfg, delta, before.value, last)) else None
  }

  /** The admitted timestamps of a key, in the order in which they were admitted. */
  function Admissions(cfg: Config, delta: nat, acts: seq<Act>, key: string): seq<int> {
    var w := Perform(cfg, delta, acts);
    if w.Some? then At(w.value.limiter.log, key) else []
  }

  ghost predicate Bounded(cfg: Config, delta: nat, acts: seq<Act>, key: string, lo: int, length: int) {
    CountIn(Admissions(cfg, delta, acts, key), lo, lo + length) <= cfg.limit
  }

  /** In every interleaving, no half-open interval of `length` ms holds more than `limit` admissions of a key. */
  ghost predicate WindowBound(cfg: Config, delta: nat, length: int) {
    forall acts, key, lo :: Bounded(cfg, delta, acts, key, lo, length)
  }

  // ----- safety -----

  /** Clock readings are never in the future, and the deque remembers everything younger than a window. */
  ghost predicate Safe(cfg: Config, w: World, key: string, gone: seq<int>) {
    && (forall t :: t in w.readings ==> w.readings[t] <= w.clock)
    && Remembers(cfg, w.limiter, key, gone, w.clock)
  }

  lemma SafeStep(cfg: Config, delta: nat, w: World, a: Act, key: string, gone: seq<int>) returns (gone': seq<int>)
    requires Safe(cfg, w, key, gone) && Enabled(delta, w, a)
    ensures Safe(cfg, Do(cfg, delta, w, a), key, gone')
  {
    gone' := gone;
    if a.LockedCheck? {
      gone' := RemembersStep(cfg, w.limiter, Check(a.key, w.readings[a.thread]), key, gone, w.clock);
    }
  }

  /** Nobody admitted in an interval that the clock has not left behind by a window is forgotten. */
  lemma RecentAreInDeque(gone: seq<int>, kept: seq<int>, lo: int, hi: int)
    requires AtMost(gone, lo - 1)
    ensures CountIn(gone + kept, lo, hi) <= |kept|
  {
    CountNone(gone, lo, hi);
    CountSplit(gone, kept, lo, hi);
  }

  lemma BoundStep(cfg: Config, delta: nat, w: World, a: Act, key: string, gone: seq<int>, lo: int, length: int)
    requires cfg.Valid() && Safe(cfg, w, key, gone) && Enabled(delta, w, a)
    requires length <= cfg.Window() - delta
    requires CountIn(At(w.limiter.log, key), lo, lo + length) <= cfg.limit
    ensures CountIn(At(Do(cfg, delta, w, a).limiter.log, key), lo, lo + length) <= cfg.limit
  {
    if a.LockedCheck? && a.key == key {
      var now := w.readings[a.thread];
      var log, bucket := At(w.limiter.log, key), At(w.limiter.buckets, key);
      if Allows(cfg, bucket, now) {
        CountSplit(log, [now], lo, lo + length);
        if lo <= now < lo + length {
          var gone' := CutLog(cfg, gone, bucket, now, w.clock);
          RecentAreInDeque(gone', Kept(cfg, bucket, now), lo, lo + length);
        }
      }
    }
  }

  lemma {:induction false} BoundHolds(cfg: Config, delta: nat, acts: seq<Act>, key: string, lo: int, length: int)
    returns (gone: seq<int>)
    requires cfg.Valid() && length <= 1000 * cfg.windowSeconds - delta
    requires Perform(cfg, delta, acts).Some?
    ensures Safe(cfg, Perform(cfg, delta, acts).value, key, gone)
    ensures CountIn(Admissions(cfg, delta, acts, key), lo, lo + length) <= cfg.limit
    decreases |acts|
  {
    if acts == [] {
      gone := [];
    } else {
      var before := acts[..|acts| - 1];
      gone := BoundHolds(cfg, delta, before, key, lo, length);
      var w, a := Perform(cfg, delta, before).value, acts[|acts| - 1];
      BoundStep(cfg, delta, w, a, key, gone, lo, length);
      gone := SafeStep(cfg, delta, w, a, key, gone);
    }
  }

  // ----- a limit of one is safe whatever the delay -----

  /** With a limit of one, admissions are at least a window apart and the last one is still in the deque. */
  ghost predicate SpacedOut(cfg: Config, l: Limiter, key: string) {
    var log := At(l.log, key);
    && (forall i, j :: 0 <= i < j < |log| ==> log[i] + cfg.Window() <= log[j])
    && At(l.buckets, key) == if log == [] then [] else [log[|log| - 1]]
  }

  lemma SpacedOutStep(cfg: Config, l: Limiter, c: Check, key: string)
    requires cfg.Valid() && cfg.limit == 1 && SpacedOut(cfg, l, key)
    ensures SpacedOut(cfg, Admit(cfg, l, c), key)
  {
  }

  lemma {:induction false} AlwaysSpacedOut(cfg: Config, delta: nat, acts: seq<Act>, key: string)
    requires cfg.Valid() && cfg.limit == 1 && Perform(cfg, delta, acts).Some?
    ensures SpacedOut(cfg, Perform(cfg, delta, acts).value.limiter, key)
    decreases |acts|
  {
    if acts != [] {
      var before := acts[..|acts| - 1];
      AlwaysSpacedOut(cfg, delta, before, key);
      var w, a := Perform(cfg, delta, before).value, acts[|acts| - 1];
      if a.LockedCheck? {
        SpacedOutStep(cfg, w.limiter, Check(a.key, w.readings[a.thread]), key);
      }
    }
  }

  lemma {:induction false} SpacedOutCount(times: seq<int>, gap: int, lo: int, length: int)
    requires length <= gap
    requires forall i, j :: 0 <= i < j < |times| ==> times[i] + gap <= times[j]
    ensures CountIn(times, lo, lo + length) <= 1
  {
    if times != [] {
      if lo <= times[0] < lo + length {
        CountNone(times[1..], lo, lo + length);
      } else {
        SpacedOutCount(times[1..], gap, lo, length);
      }
    }
  }

  // ----- and no longer interval is safe -----

  lemma Extend(cfg: Config, delta: nat, acts: seq<Act>, w: World, a: Act)
    requires Perform(cfg, delta, acts) == Some(w) && Enabled(delta, w, a)
    ensures Perform(cfg, delta, acts + [a]) == Some(Do(cfg, delta, w, a))
  {
    assert (acts + [a])[..|acts + [a]| - 1] == acts;
  }

  /** A request whose thread is not delayed. */
  lemma PromptRequest(cfg: Config, delta: nat, acts: seq<Act>, w: World, thread: nat, key: string)
    requires Perform(cfg, delta, acts) == Some(w) && thread !in w.readings
    ensures Perform(cfg, delta, acts + [ReadClock(thread)] + [LockedCheck(thread, key)])
      == Some(w.(limiter := Admit(cfg, w.limiter, Check(key, w.clock))))
  {
    var w' := Do(cfg, delta, w, ReadClock(thread));
    Extend(cfg, delta, acts, w, ReadClock(thread));
    Extend(cfg, delta, acts + [ReadClock(thread)], w', LockedCheck(thread, key));
    assert w'.readings - {thread} == w.readings;
  }

  /** `n` entries with the same timestamp. */
  function Copies(n: nat, x: int): seq<int> {
    if n == 0 then [] else Copies(n - 1, x) + [x]
  }

  lemma {:induction false} CopiesFacts(n: nat, x: int, lo: int, hi: int)
    requires lo <= x < hi
    ensures |Copies(n, x)| == n && (forall i :: 0 <= i < n ==> Copies(n, x)[i] == x)
    ensures CountIn(Copies(n, x), lo, hi) == n
  {
    if n > 0 {
      CopiesFacts(n - 1, x, lo, hi);
    }
    CountAll(Copies(n, x), lo, hi);
  }

  const KEY := "k"

  /** `n` prompt requests by one thread, after some acts. */
  function Burst(before: seq<Act>, thread: nat, n: nat): seq<Act> {
    if n == 0 then before else Burst(before, thread, n - 1) + [ReadClock(thread)] + [LockedCheck(thread, KEY)]
  }

  lemma {:induction false} BurstFills(cfg: Config, delta: nat, before: seq<Act>, w: World, thread: nat, n: nat) returns (l: Limiter)
    requires cfg.Valid() && n <= cfg.limit
    requires Perform(cfg, delta, before) == Some(w) && thread !in w.readings && w.limiter == Fresh
    ensures Perform(cfg, delta, Burst(before, thread, n)) == Some(w.(limiter := l))
    ensures At(l.buckets, KEY) == Copies(n, w.clock) && At(l.log, KEY) == Copies(n, w.clock)
  {
    if n == 0 {
      l := Fresh;
    } else {
      var l' := BurstFills(cfg, delta, before, w, thread, n - 1);
      var acts, w' := Burst(before, thread, n - 1), w.(limiter := l');
      l := OneMoreCopy(cfg, l', w.clock, n - 1);
      assert Perform(cfg, delta, acts + [ReadClock(thread)] + [LockedCheck(thread, KEY)]) == Some(w'.(limiter := l)) by {
        PromptRequest(cfg, delta, acts, w', thread, KEY);
      }
    }
  }

  lemma OneMoreCopy(cfg: Config, l: Limiter, now: int, n: nat) returns (l': Limiter)
    requires cfg.Valid() && n < cfg.limit
    requires At(l.buckets, KEY) == Copies(n, now) && At(l.log, KEY) == Copies(n, now)
    ensures l' == Admit(cfg, l, Check(KEY, now))
    ensures At(l'.buckets, KEY) == Copies(n + 1, now) && At(l'.log, KEY) == Copies(n + 1, now)
  {
    l' := Admit(cfg, l, Check(KEY, now));
    CopiesFacts(n, now, now, now + 1);
    PruneKeepsAll(Copies(n, now), now - cfg.Window());
  }

  /** Thread 0 reads the clock at `early` and stalls for the rest of the window. */
  function Stalled(cfg: Config, early: nat): seq<Act>
    requires cfg.Valid() && early <= cfg.Window()
  {
    Burst([], 0, cfg.limit) + [Tick(early)] + [ReadClock(0)] + [Tick(cfg.Window() - early)]
  }

  /** Thread 1 then reads the clock and gets in first. */
  function Overtaking(cfg: Config, early: nat): seq<Act>
    requires cfg.Valid() && early <= cfg.Window()
  {
    Stalled(cfg, early) + [ReadClock(1)] + [LockedCheck(1, KEY)] + [LockedCheck(0, KEY)]
  }

  lemma StalledWorld(cfg: Config, delta: nat, early: nat) returns (l: Limiter)
    requires cfg.Valid() && early <= cfg.Window()
    ensures Perform(cfg, delta, Stalled(cfg, early)) == Some(World(cfg.Window(), map[0 := early], l))
    ensures At(l.buckets, KEY) == Copies(cfg.limit, 0) && At(l.log, KEY) == Copies(cfg.limit, 0)
  {
    l := BurstFills(cfg, delta, [], Start, 0, cfg.limit);
    var acts := Burst([], 0, cfg.limit);
    Extend(cfg, delta, acts, World(0, map[], l), Tick(early));
    Extend(cfg, delta, acts + [Tick(early)], World(early, map[], l), ReadClock(0));
    assert map[][0 := early as int] == map[0 := early as int];
    Extend(cfg, delta, acts + [Tick(early)] + [ReadClock(0)], World(early, map[0 := early], l), Tick(cfg.Window() - early));
  }

  lemma {:induction false} PruneEverything(bucket: seq<int>, cutoff: int)
    requires AtMost(bucket, cutoff)
    ensures Prune(bucket, cutoff) == []
  {
    if bucket != [] {
      PruneEverything(bucket[1..], cutoff);
    }
  }

  lemma OvertakingLog(cfg: Config, delta: nat, early: nat)
    requires cfg.Valid() && early <= cfg.Window() && cfg.Window() - early <= delta
    ensures Admissions(cfg, delta, Overtaking(cfg, early), KEY)
      == Copies(cfg.limit, 0) + [cfg.Window()] + if cfg.limit > 1 then [early] else []
  {
    var w := cfg.Window();
    var l := StalledWorld(cfg, delta, early);
    PromptRequest(cfg, delta, Stalled(cfg, early), World(w, map[0 := early], l), 1, KEY);
    var l' := Admit(cfg, l, Check(KEY, w));
    CopiesFacts(cfg.limit, 0, 0, 1);
    PruneEverything(Copies(cfg.limit, 0), 0);
    assert At(l'.buckets, KEY) == [w];
    Extend(cfg, delta, Stalled(cfg, early) + [ReadClock(1)] + [LockedCheck(1, KEY)],
           World(w, map[0 := early], l'), LockedCheck(0, KEY));
    PruneKeepsAll([w], early - w);
  }

  lemma OvertakingBreaks(cfg: Config, delta: nat, length: int)
    requires cfg.Valid() && length > 0 && length > 1000 * cfg.windowSeconds - delta
    requires cfg.limit > 1 || length > 1000 * cfg.windowSeconds
    ensures !WindowBound(cfg, delta, length)
  {
    var w := cfg.Window();
    var early := if length > w then w else length - 1;
    OvertakingLog(cfg, delta, early);
    var log := Admissions(cfg, delta, Overtaking(cfg, early), KEY);
    var tail := [w] + if cfg.limit > 1 then [early] else [];
    assert log == Copies(cfg.limit, 0) + tail;
    CopiesFacts(cfg.limit, 0, 0, length);
    CountSplit(Copies(cfg.limit, 0), tail, 0, length);
    CountSplit([w], tail[1..], 0, length);
    assert CountIn(tail, 0, length) >= 1;
    assert !Bounded(cfg, delta, Overtaking(cfg, early), KEY, 0, length);
  }

  // ----- main result -----

  /**
   Exactly which intervals are safe.  With a stall of at most `delta`, every half-open interval of
   `length` ms holds at most `limit` admissions of each key, in every interleaving, if and only if
   the interval is no longer than the window less `delta` -- or the limit is one, when the whole
   window is safe whatever the stall.  With no stall it is the whole window for every limit.
   */
  lemma SafeIntervalsExactly(cfg: Config, delta: nat, length: int)
    requires cfg.Valid()
    ensures WindowBound(cfg, delta, length)
      <==> length <= 0 || length <= 1000 * cfg.windowSeconds - delta || (cfg.limit == 1 && length <= 1000 * cfg.windowSeconds)
  {
    if length <= 0 || length <= 1000 * cfg.windowSeconds - delta || (cfg.limit == 1 && length <= 1000 * cfg.windowSeconds) {
      forall acts, key, lo
        ensures Bounded(cfg, delta, acts, key, lo, length)
      {
        WindowHolds(cfg, delta, acts, key, lo, length);
      }
    } else {
      OvertakingBreaks(cfg, delta, length);
    }
  }

  lemma WindowHolds(cfg: Config, delta: nat, acts: seq<Act>, key: string, lo: int, length: int)
    requires cfg.Valid()
    requires length <= 0 || length <= 1000 * cfg.windowSeconds - delta || (cfg.limit == 1 && length <= 1000 * cfg.windowSeconds)
    ensures CountIn(Admissions(cfg, delta, acts, key), lo, lo + length) <= cfg.limit
  {
    if Perform(cfg, delta, acts).Some? {
      if length <= 0 {
        CountNone(Admissions(cfg, delta, acts, key), lo, lo + length);
      } else if length <= 1000 * cfg.windowSeconds - delta {
        var _ := BoundHolds(cfg, delta, acts, key, lo, length);
      } else {
        AlwaysSpacedOut(cfg, delta, acts, key);
        SpacedOutCount(Admissions(cfg, delta, acts, key), cfg.Window(), lo, length);
      }
    }
  }

  /**
   A denial's wait under stalls: at least one second and at most the window plus the stall,
   rounded up, although the first deque entry may be later than the check's own reading.
   */
  lemma WaitUnderStall(cfg: Config, delta: nat, acts: seq<Act>, thread: nat, key: string)
    requires cfg.Valid() && Perform(cfg, delta, acts).Some?
    requires Enabled(delta, Perform(cfg, delta, acts).value, LockedCheck(thread, key))
    ensures var w := Perform(cfg, delta, acts).value;
      var d := Verdict(cfg, w.limiter, Check(key, w.readings[thread]));
      !d.allowed ==> 1 <= d.retryAfterSeconds <= CeilSeconds(1000 * cfg.windowSeconds + delta)
  {
    var gone := BoundHolds(cfg, delta, acts, key, 0, 0 - delta);
    var w := Perform(cfg, delta, acts).value;
    var now, bucket := w.readings[thread], At(w.limiter.buckets, key);
    ClampIsNeverActive(cfg, bucket, now);
    gone := CutLog(cfg, gone, bucket, now, w.clock);
    var kept := Kept(cfg, bucket, now);
    if kept != [] {
      assert kept[0] == At(w.limiter.log, key)[|gone|];
    }
  }

  /** Thread 0 reads the clock at 0 and stalls for `delta`, while thread 1 fills the deque. */
  function Crowded(cfg: Config, delta: nat): seq<Act>
    requires cfg.Valid()
  {
    Burst([] + [ReadClock(0)] + [Tick(delta)], 1, cfg.limit)
  }

  /** The bound on the wait is attained. */
  lemma LongestWait(cfg: Config, delta: nat)
    requires cfg.Valid()
    ensures var w := Perform(cfg, delta, Crowded(cfg, delta));
      && w.Some? && Enabled(delta, w.value, LockedCheck(0, KEY))
      && var d := Verdict(cfg, w.value.limiter, Check(KEY, w.value.readings[0]));
      !d.allowed && d.retryAfterSeconds == CeilSeconds(1000 * cfg.windowSeconds + delta)
  {
    Extend(cfg, delta, [], Start, ReadClock(0));
    Extend(cfg, delta, [] + [ReadClock(0)], World(0, map[0 := 0], Fresh), Tick(delta));
    var w := World(delta, map[0 := 0], Fresh);
    var l := BurstFills(cfg, delta, [] + [ReadClock(0)] + [Tick(delta)], w, 1, cfg.limit);
    var bucket := Copies(cfg.limit, delta);
    CopiesFacts(cfg.limit, delta, delta, delta + 1);
    PruneKeepsAll(bucket, -cfg.Window());
    ClampIsNeverActive(cfg, bucket, 0);
  }

  // ----- the wait is exact in every interleaving -----

  /** The checks that the acts make, in the order in which they take the lock. */
  function Made(cfg: Config, delta: nat, acts: seq<Act>): seq<Check>
    decreases |acts|
  {
    if acts == [] then []
    else
      var before, last := acts[..|acts| - 1], acts[|acts| - 1];
      var w := Perform(cfg, delta, before);
      if last.LockedCheck? && w.Some? && Enabled(delta, w.value, last)
      then Made(cfg, delta, before) + [Check(last.key, w.value.readings[last.thread])]
      else Made(cfg, delta, before)
  }

  /** The limiter has replayed exactly these checks. */
  lemma {:induction false} LimiterReplays(cfg: Config, delta: nat, acts: seq<Act>)
    requires Perform(cfg, delta, acts).Some?
    ensures Perform(cfg, delta, acts).value.limiter == Replay(cfg, Fresh, Made(cfg, delta, acts))
    decreases |acts|
  {
    if acts != [] {
      var before, last := acts[..|acts| - 1], acts[|acts| - 1];
      LimiterReplays(cfg, delta, before);
      if last.LockedCheck? {
        var w := Perform(cfg, delta, before).value;
        ReplayOneMore(cfg, Fresh, Made(cfg, delta, before), Check(last.key, w.readings[last.thread]));
      }
    }
  }

  lemma {:induction false} MadeBefore(cfg: Config, delta: nat, a: seq<Act>, b: seq<Act>) returns (rest: seq<Check>)
    ensures Made(cfg, delta, a + b) == Made(cfg, delta, a) + rest
    ensures Perform(cfg, delta, a + b).Some? ==> Perform(cfg, delta, a).Some?
    decreases |b|
  {
    if b == [] {
      rest := [];
      assert a + b == a;
    } else {
      InitOfConcat(a, b);
      rest := MadeBefore(cfg, delta, a, b[..|b| - 1]);
      var w, last := Perform(cfg, delta, a + b[..|b| - 1]), b[|b| - 1];
      if last.LockedCheck? && w.Some? && Enabled(delta, w.value, last) {
        var c := Check(last.key, w.value.readings[last.thread]);
        Regroup(Made(cfg, delta, a), rest, [c]);
        rest := rest + [c];
      }
    }
  }

  /**
   Retry-after is exact in every interleaving.  A thread's check with reading t is denied and told
   to wait r seconds, at most the window plus the stall rounded up; other acts follow, in which the
   key is checked with readings up to t + (r - 1) s only.  Then a check of the key with a reading
   up to t + (r - 1) s is denied, and one with a reading from t + r s on is admitted.
   */
  lemma RetryAfterUnderStall(cfg: Config, delta: nat, acts: seq<Act>, thread: nat, key: string, more: seq<Act>, later: nat)
    requires cfg.Valid()
    requires var w := Perform(cfg, delta, acts);
      && w.Some? && Enabled(delta, w.value, LockedCheck(thread, key))
      && !Verdict(cfg, w.value.limiter, Check(key, w.value.readings[thread])).allowed
    requires var w := Perform(cfg, delta, acts + [LockedCheck(thread, key)] + more);
      w.Some? && Enabled(delta, w.value, LockedCheck(later, key))
    requires var w := Perform(cfg, delta, acts).value; var t := w.readings[thread];
      var r := Wait(cfg, w.limiter, Check(key, t));
      var all := Made(cfg, delta, acts + [LockedCheck(thread, key)] + more);
      forall i :: |Made(cfg, delta, acts)| < i < |all| && all[i].key == key ==> all[i].now <= t + (r - 1) * 1000
    ensures var w := Perform(cfg, delta, acts).value; var t := w.readings[thread];
      var r := Wait(cfg, w.limiter, Check(key, t));
      var w' := Perform(cfg, delta, acts + [LockedCheck(thread, key)] + more).value;
      var allowed := Verdict(cfg, w'.limiter, Check(key, w'.readings[later])).allowed;
      && 1 <= r <= CeilSeconds(1000 * cfg.windowSeconds + delta)
      && (w'.readings[later] <= t + (r - 1) * 1000 ==> !allowed)
      && (w'.readings[later] >= t + r * 1000 ==> allowed)
  {
    var w := Perform(cfg, delta, acts).value;
    var denied, r := Check(key, w.readings[thread]), Wait(cfg, w.limiter, Check(key, w.readings[thread]));
    var all := acts + [LockedCheck(thread, key)] + more;
    WaitUnderStall(cfg, delta, acts, thread, key);
    var quiet := QuietChecks(cfg, delta, acts, w, thread, key, more);
    LimiterReplays(cfg, delta, acts);
    LimiterReplays(cfg, delta, all);
    var checks := Made(cfg, delta, acts);
    QuietReadings(checks, denied, quiet, key, denied.now + (r - 1) * 1000);
    RetryAfterIsExact(cfg, checks, denied, quiet, Check(key, Perform(cfg, delta, all).value.readings[later]));
  }

  lemma QuietReadings(checks: seq<Check>, denied: Check, quiet: seq<Check>, key: string, bound: int)
    requires var all := checks + [denied] + quiet;
      forall i :: |checks| < i < |all| && all[i].key == key ==> all[i].now <= bound
    ensures forall c :: c in quiet && c.key == key ==> c.now <= bound
  {
    forall c | c in quiet && c.key == key
      ensures c.now <= bound
    {
      var i :| 0 <= i < |quiet| && quiet[i] == c;
      assert (checks + [denied] + quiet)[|checks| + 1 + i] == c;
    }
  }

  lemma QuietChecks(cfg: Config, delta: nat, acts: seq<Act>, w: World, thread: nat, key: string, more: seq<Act>)
    returns (quiet: seq<Check>)
    requires Perform(cfg, delta, acts) == Some(w) && Enabled(delta, w, LockedCheck(thread, key))
    ensures Made(cfg, delta, acts + [LockedCheck(thread, key)] + more)
      == Made(cfg, delta, acts) + [Check(key, w.readings[thread])] + quiet
  {
    quiet := MadeBefore(cfg, delta, acts + [LockedCheck(thread, key)], more);
    InitOfConcat(acts, [LockedCheck(thread, key)]);
    assert acts + [] == acts;
  }
}
