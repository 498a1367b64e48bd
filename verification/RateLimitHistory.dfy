/**
 Whole histories of checks against the in-memory limiter.  A history lists the checks in the
 order in which they took the lock; its timestamps need not be ordered, because the clock is
 read before the lock is taken.  The limiter is run next to a log that never forgets an
 admission, and its decisions are explained in terms of that log.
 */
module RateLimitHistory {
  import opened RateLimit
  import opened Sequences

  datatype Check = Check(key: string, now: int)

  /** The deques, and beside them every admission ever made for each key, in lock order. */
  datatype Limiter = Limiter(buckets: map<string, seq<int>>, log: map<string, seq<int>>)

  const Fresh := Limiter(map[], map[])

  /** The decision made on a check. */
  function Verdict(cfg: Config, l: Limiter, c: Check): Decision {
    Decide(cfg, At(l.buckets, c.key), c.now)
  }

  function Admit(cfg: Config, l: Limiter, c: Check): Limiter {
    var bucket := At(l.buckets, c.key);
    Limiter(l.buckets[c.key := Next(cfg, bucket, c.now)],
            if Allows(cfg, bucket, c.now) then l.log[c.key := At(l.log, c.key) + [c.now]] else l.log)
  }

  function Replay(cfg: Config, l: Limiter, checks: seq<Check>): Limiter
    decreases |checks|
  {
    if checks == [] then l
    else Admit(cfg, Replay(cfg, l, checks[..|checks| - 1]), checks[|checks| - 1])
  }

  /** How many timestamps lie in the half-open interval [lo, hi). */
  function CountIn(times: seq<int>, lo: int, hi: int): (n: nat)
    ensures n <= |times|
  {
    if times == [] then 0
    else (if lo <= times[0] < hi then 1 else 0) + CountIn(times[1..], lo, hi)
  }

  /** The clock readings used for one key never run backwards. */
  ghost predicate Monotone(checks: seq<Check>, key: string) {
    forall i, j :: 0 <= i < j < |checks| && checks[i].key == key && checks[j].key == key
      ==> checks[i].now <= checks[j].now
  }

  ghost predicate Sorted(times: seq<int>) {
    forall i, j :: 0 <= i < j < |times| ==> times[i] <= times[j]
  }

  // ----- what pruning from the front does -----

  /** Pruning cuts the deque in two: entries at or before the cutoff, and what is kept. */
  lemma {:induction false} PruneSplits(bucket: seq<int>, cutoff: int) returns (gone: seq<int>)
    ensures bucket == gone + Prune(bucket, cutoff)
    ensures AtMost(gone, cutoff)
  {
    if bucket != [] && bucket[0] <= cutoff {
      var rest := PruneSplits(bucket[1..], cutoff);
      gone := [bucket[0]] + rest;
      assert gone + Prune(bucket, cutoff) == [bucket[0]] + (rest + Prune(bucket, cutoff));
    } else {
      gone := [];
    }
  }

  /** Every timestamp in the list is at or before the bound. */
  ghost predicate AtMost(times: seq<int>, bound: int) {
    forall i :: 0 <= i < |times| ==> times[i] <= bound
  }

  ghost predicate AtLeast(times: seq<int>, bound: int) {
    forall i :: 0 <= i < |times| ==> bound <= times[i]
  }

  /** A first entry inside the window keeps the whole deque. */
  lemma PruneKeepsAll(bucket: seq<int>, cutoff: int)
    requires bucket != [] ==> bucket[0] > cutoff
    ensures Prune(bucket, cutoff) == bucket
  {
  }

  // ----- counting -----

  lemma {:induction false} CountSplit(a: seq<int>, b: seq<int>, lo: int, hi: int)
    ensures CountIn(a + b, lo, hi) == CountIn(a, lo, hi) + CountIn(b, lo, hi)
  {
    if a == [] {
      assert a + b == b;
    } else {
      TailOfConcat(a, b);
      CountSplit(a[1..], b, lo, hi);
    }
  }

  lemma {:induction false} CountNone(times: seq<int>, lo: int, hi: int)
    requires forall i :: 0 <= i < |times| ==> !(lo <= times[i] < hi)
    ensures CountIn(times, lo, hi) == 0
  {
    if times != [] {
      CountNone(times[1..], lo, hi);
    }
  }

  lemma {:induction false} CountAll(times: seq<int>, lo: int, hi: int)
    requires forall i :: 0 <= i < |times| ==> lo <= times[i] < hi
    ensures CountIn(times, lo, hi) == |times|
  {
    if times != [] {
      CountAll(times[1..], lo, hi);
    }
  }

  // ----- the deque is what is left of the log -----

  /**
   In any order of timestamps: the log is what was pruned away, followed by the deque; whatever
   was pruned is at least one window older than the latest reading; and a deque never exceeds the limit.
   */
  ghost predicate Remembers(cfg: Config, l: Limiter, key: string, gone: seq<int>, latest: int) {
    && At(l.log, key) == gone + At(l.buckets, key)
    && AtMost(gone, latest - cfg.Window())
    && AtMost(At(l.log, key), latest)
    && |At(l.buckets, key)| <= Max(cfg.limit, 0)
  }

  /** One check on plain sequences: `gone` grows by what the check pruned. */
  lemma CutLog(cfg: Config, gone: seq<int>, bucket: seq<int>, now: int, latest: int) returns (gone': seq<int>)
    requires now <= latest && AtMost(gone, latest - cfg.Window())
    ensures AtMost(gone', latest - cfg.Window())
    ensures gone + bucket == gone' + Kept(cfg, bucket, now)
    ensures gone + bucket + [now] == gone' + (Kept(cfg, bucket, now) + [now])
  {
    var cut := PruneSplits(bucket, now - cfg.Window());
    gone' := gone + cut;
    Regroup(gone, cut, Kept(cfg, bucket, now));
    Regroup(gone', Kept(cfg, bucket, now), [now]);
  }

  lemma {:induction false} PruneBounds(bucket: seq<int>, cutoff: int, earliest: int, latest: int)
    requires AtMost(bucket, latest) && AtLeast(bucket, earliest)
    ensures AtMost(Prune(bucket, cutoff), latest) && AtLeast(Prune(bucket, cutoff), earliest)
  {
    if bucket != [] && bucket[0] <= cutoff {
      PruneBounds(bucket[1..], cutoff, earliest, latest);
    }
  }

  /** The deque after a check holds only old entries and the check's own reading. */
  lemma NextBounds(cfg: Config, bucket: seq<int>, now: int, earliest: int, latest: int)
    requires AtMost(bucket, latest) && AtLeast(bucket, earliest) && earliest <= now <= latest
    ensures AtMost(Kept(cfg, bucket, now), latest) && AtLeast(Kept(cfg, bucket, now), earliest)
    ensures AtMost(Next(cfg, bucket, now), latest) && AtLeast(Next(cfg, bucket, now), earliest)
  {
    PruneBounds(bucket, now - cfg.Window(), earliest, latest);
  }

  lemma RemembersStep(cfg: Config, l: Limiter, c: Check, key: string, gone: seq<int>, latest: int)
    returns (gone': seq<int>)
    requires Remembers(cfg, l, key, gone, latest)
    requires c.key == key ==> c.now <= latest
    ensures Remembers(cfg, Admit(cfg, l, c), key, gone', latest)
  {
    gone' := gone;
    if c.key == key {
      gone' := CutLog(cfg, gone, At(l.buckets, key), c.now, latest);
    }
  }

  lemma {:induction false} ReplayRemembers(cfg: Config, checks: seq<Check>, key: string, latest: int)
    returns (gone: seq<int>)
    requires forall c :: c in checks && c.key == key ==> c.now <= latest
    ensures Remembers(cfg, Replay(cfg, Fresh, checks), key, gone, latest)
    decreases |checks|
  {
    if checks == [] {
      gone := [];
    } else {
      var before := checks[..|checks| - 1];
      gone := ReplayRemembers(cfg, before, key, latest);
      gone := RemembersStep(cfg, Replay(cfg, Fresh, before), checks[|checks| - 1], key, gone, latest);
    }
  }

  /** Under a monotone clock the log is sorted. */
  lemma {:induction false} LogIsSorted(cfg: Config, checks: seq<Check>, key: string)
    requires Monotone(checks, key)
    ensures Sorted(At(Replay(cfg, Fresh, checks).log, key))
    decreases |checks|
  {
    if checks != [] {
      var before, last := checks[..|checks| - 1], checks[|checks| - 1];
      assert checks == before + [last];
      PrefixMonotone(before, [last], key);
      LogIsSorted(cfg, before, key);
      if last.key == key {
        LastIsLatest(before, last);
        var gone := ReplayRemembers(cfg, before, key, last.now);
      }
      AdmitKeepsSorted(cfg, Replay(cfg, Fresh, before), last, key);
    }
  }

  lemma AdmitKeepsSorted(cfg: Config, l: Limiter, c: Check, key: string)
    requires Sorted(At(l.log, key)) && (c.key == key ==> AtMost(At(l.log, key), c.now))
    ensures Sorted(At(Admit(cfg, l, c).log, key))
  {
  }

  // ----- main results -----

  /**
   Pruning loses nothing: under a monotone clock a check is admitted exactly when fewer than
   `limit` of all admissions ever made for its key lie in (now - window, now].
   */
  lemma PruningLosesNothing(cfg: Config, checks: seq<Check>, c: Check)
    requires Monotone(checks + [c], c.key)
    ensures var l := Replay(cfg, Fresh, checks);
      Verdict(cfg, l, c).allowed
      <==> CountIn(At(l.log, c.key), c.now - 1000 * cfg.windowSeconds + 1, c.now + 1) < cfg.limit
  {
    var l := Replay(cfg, Fresh, checks);
    SortedUpTo(cfg, checks, c);
    LastIsLatest(checks, c);
    var gone := ReplayRemembers(cfg, checks, c.key, c.now);
    KeptIsRecent(cfg, At(l.log, c.key), gone, At(l.buckets, c.key), c.now);
  }

  lemma SortedUpTo(cfg: Config, checks: seq<Check>, c: Check)
    requires Monotone(checks + [c], c.key)
    ensures Sorted(At(Replay(cfg, Fresh, checks).log, c.key))
  {
    PrefixMonotone(checks, [c], c.key);
    LogIsSorted(cfg, checks, c.key);
  }

  /** The deque that a check prunes holds exactly the recent part of the log. */
  lemma KeptIsRecent(cfg: Config, log: seq<int>, gone: seq<int>, bucket: seq<int>, now: int)
    requires Sorted(log) && log == gone + bucket && AtMost(gone, now - cfg.Window()) && AtMost(log, now)
    ensures CountIn(log, now - cfg.Window() + 1, now + 1) == |Kept(cfg, bucket, now)|
  {
    var gone' := CutLog(cfg, gone, bucket, now, now);
    RecentIsKept(log, gone', Kept(cfg, bucket, now), now - cfg.Window(), now);
  }

  /** In a sorted log, what pruning kept is what lies in the window. */
  lemma RecentIsKept(log: seq<int>, gone: seq<int>, kept: seq<int>, cutoff: int, now: int)
    requires Sorted(log) && log == gone + kept
    requires AtMost(gone, cutoff)
    requires kept != [] ==> kept[0] > cutoff
    requires AtMost(log, now)
    ensures CountIn(log, cutoff + 1, now + 1) == |kept|
  {
    forall i | 0 <= i < |kept|
      ensures cutoff + 1 <= kept[i] < now + 1
    {
      assert kept[i] == log[|gone| + i] && kept[0] == log[|gone|];
    }
    CountNone(gone, cutoff + 1, now + 1);
    CountAll(kept, cutoff + 1, now + 1);
    CountSplit(gone, kept, cutoff + 1, now + 1);
  }

  lemma LastIsLatest(checks: seq<Check>, last: Check)
    requires Monotone(checks + [last], last.key)
    ensures forall e :: e in checks && e.key == last.key ==> e.now <= last.now
  {
    forall e | e in checks && e.key == last.key
      ensures e.now <= last.now
    {
      var i :| 0 <= i < |checks| && checks[i] == e;
      assert (checks + [last])[i] == e && (checks + [last])[|checks|] == last;
    }
  }

  lemma PrefixMonotone(a: seq<Check>, b: seq<Check>, key: string)
    requires Monotone(a + b, key)
    ensures Monotone(a, key)
  {
    forall i, j | 0 <= i < j < |a| && a[i].key == key && a[j].key == key
      ensures a[i].now <= a[j].now
    {
      assert (a + b)[i] == a[i] && (a + b)[j] == a[j];
    }
  }

  function Only(checks: seq<Check>, key: string): seq<Check> {
    if checks == [] then []
    else
      var rest := Only(checks[..|checks| - 1], key);
      var last := checks[|checks| - 1];
      if last.key == key then rest + [last] else rest
  }

  /** Keys do not influence one another: a key's deque and log depend on its own checks alone. */
  lemma {:induction false} KeysAreIndependent(cfg: Config, checks: seq<Check>, key: string)
    ensures var all := Replay(cfg, Fresh, checks); var own := Replay(cfg, Fresh, Only(checks, key));
      At(all.buckets, key) == At(own.buckets, key) && At(all.log, key) == At(own.log, key)
    decreases |checks|
  {
    if checks != [] {
      var before, last := checks[..|checks| - 1], checks[|checks| - 1];
      KeysAreIndependent(cfg, before, key);
      if last.key == key {
        var own := Only(checks, key);
        assert own[..|own| - 1] == Only(before, key);
      }
    }
  }

  /**
   With a limit of one, an admission at t denies every later check with a reading before
   t + 1000 * windowSeconds, and none from there on.
   */
  lemma OneSlot(cfg: Config, checks: seq<Check>, first: Check, later: Check)
    requires cfg.Valid() && cfg.limit == 1 && first.key == later.key
    requires Verdict(cfg, Replay(cfg, Fresh, checks), first).allowed
    ensures Verdict(cfg, Replay(cfg, Fresh, checks + [first]), later).allowed
      <==> later.now >= first.now + 1000 * cfg.windowSeconds
  {
    ReplayOneMore(cfg, Fresh, checks, first);
    var bucket := At(Admit(cfg, Replay(cfg, Fresh, checks), first).buckets, first.key);
    assert bucket == [first.now];
    var gone := PruneIsSuffix(bucket, later.now - cfg.Window());
  }

  // ----- the advertised wait -----

  lemma ReplayOneMore(cfg: Config, l: Limiter, checks: seq<Check>, c: Check)
    ensures Replay(cfg, l, checks + [c]) == Admit(cfg, Replay(cfg, l, checks), c)
  {
    assert (checks + [c])[..|checks + [c]| - 1] == checks;
  }

  /** Continuing a history. */
  lemma {:induction false} ReplayAppend(cfg: Config, l: Limiter, a: seq<Check>, b: seq<Check>)
    ensures Replay(cfg, l, a + b) == Replay(cfg, Replay(cfg, l, a), b)
    decreases |b|
  {
    if b == [] {
      assert a + b == a;
    } else {
      InitOfConcat(a, b);
      ReplayAppend(cfg, l, a, b[..|b| - 1]);
    }
  }

  /** A full deque stays as it is through every check made before its first entry leaves the window. */
  lemma {:induction false} FullBucketWaits(cfg: Config, l: Limiter, key: string, checks: seq<Check>)
    requires var b := At(l.buckets, key); b != [] && |b| >= cfg.limit
    requires forall c :: c in checks && c.key == key ==> c.now < At(l.buckets, key)[0] + cfg.Window()
    ensures At(Replay(cfg, l, checks).buckets, key) == At(l.buckets, key)
    decreases |checks|
  {
    if checks != [] {
      var before, last := checks[..|checks| - 1], checks[|checks| - 1];
      FullBucketWaits(cfg, l, key, before);
      if last.key == key {
        PruneKeepsAll(At(l.buckets, key), last.now - cfg.Window());
      }
    }
  }

  /** The seconds that a denial advertises. */
  function Wait(cfg: Config, l: Limiter, c: Check): int {
    Verdict(cfg, l, c).retryAfterSeconds
  }

  /**
   Retry-after is exact to the second, in whatever order readings reach the deque.  After a denial
   at time t that advertises r seconds, and whatever other clients do and however often this one
   polls too early, a check with a reading up to t + (r - 1) s is denied and one at t + r s or later
   is admitted.
   */
  lemma RetryAfterIsExact(cfg: Config, checks: seq<Check>, denied: Check, quiet: seq<Check>, later: Check)
    requires cfg.Valid() && later.key == denied.key
    requires !Verdict(cfg, Replay(cfg, Fresh, checks), denied).allowed
    requires var r := Wait(cfg, Replay(cfg, Fresh, checks), denied);
      forall c :: c in quiet && c.key == denied.key ==> c.now <= denied.now + (r - 1) * 1000
    ensures var r := Wait(cfg, Replay(cfg, Fresh, checks), denied);
      var allowed := Verdict(cfg, Replay(cfg, Fresh, checks + [denied] + quiet), later).allowed;
      && 1 <= r
      && (later.now <= denied.now + (r - 1) * 1000 ==> !allowed)
      && (later.now >= denied.now + r * 1000 ==> allowed)
  {
    var l := Replay(cfg, Fresh, checks);
    var l' := Admit(cfg, l, denied);
    ReplayOneMore(cfg, Fresh, checks, denied);
    DeniedDeque(cfg, checks, denied);
    ReplayAppend(cfg, Fresh, checks + [denied], quiet);
    WaitIsExact(cfg, l', denied.key, denied.now, Wait(cfg, l, denied), quiet, later);
  }

  /** A full deque whose first entry leaves the window within the `r`-th second from t. */
  lemma WaitIsExact(cfg: Config, l: Limiter, key: string, t: int, r: int, quiet: seq<Check>, later: Check)
    requires cfg.Valid() && later.key == key && |At(l.buckets, key)| == cfg.limit
    requires r == CeilSeconds(At(l.buckets, key)[0] + cfg.Window() - t)
    requires forall c :: c in quiet && c.key == key ==> c.now <= t + (r - 1) * 1000
    ensures var allowed := Verdict(cfg, Replay(cfg, l, quiet), later).allowed;
      && (later.now <= t + (r - 1) * 1000 ==> !allowed)
      && (later.now >= t + r * 1000 ==> allowed)
  {
    var b := At(l.buckets, key);
    FullBucketWaits(cfg, l, key, quiet);
    if later.now < b[0] + cfg.Window() {
      PruneKeepsAll(b, later.now - cfg.Window());
    }
  }

  /** Under a monotone clock nobody is told to wait for longer than the window. */
  lemma WaitWithinWindow(cfg: Config, checks: seq<Check>, denied: Check)
    requires cfg.Valid() && Monotone(checks + [denied], denied.key)
    requires !Verdict(cfg, Replay(cfg, Fresh, checks), denied).allowed
    ensures 1 <= Wait(cfg, Replay(cfg, Fresh, checks), denied) <= cfg.windowSeconds
  {
    DeniedDeque(cfg, checks, denied);
    LastIsLatest(checks, denied);
    ReplayOneMore(cfg, Fresh, checks, denied);
    var gone := ReplayRemembers(cfg, checks + [denied], denied.key, denied.now);
    var after := Replay(cfg, Fresh, checks + [denied]);
    assert At(after.buckets, denied.key)[0] == At(after.log, denied.key)[|gone|];
  }

  function Repeat(c: Check, n: nat): seq<Check> {
    if n == 0 then [] else Repeat(c, n - 1) + [c]
  }

  lemma NothingToPrune(cfg: Config, bucket: seq<int>, now: int)
    requires bucket != [] && bucket[0] > now - cfg.Window()
    ensures Next(cfg, bucket, now) == if |bucket| < cfg.limit then bucket + [now] else bucket
  {
    PruneKeepsAll(bucket, now - cfg.Window());
  }

  function NextTimes(cfg: Config, bucket: seq<int>, now: int, n: nat): seq<int> {
    if n == 0 then bucket else Next(cfg, NextTimes(cfg, bucket, now, n - 1), now)
  }

  lemma {:induction false} RepeatedChecks(cfg: Config, l: Limiter, c: Check, n: nat)
    ensures At(Replay(cfg, l, Repeat(c, n)).buckets, c.key) == NextTimes(cfg, At(l.buckets, c.key), c.now, n)
  {
    if n > 0 {
      RepeatedChecks(cfg, l, c, n - 1);
      ReplayOneMore(cfg, l, Repeat(c, n - 1), c);
    }
  }

  /** Checks repeated at one instant fill a deque up to the limit and drop nothing. */
  lemma {:induction false} SameInstant(cfg: Config, bucket: seq<int>, now: int, n: nat)
    requires bucket != [] && bucket[0] > now - cfg.Window() && |bucket| <= cfg.limit
    ensures var b := NextTimes(cfg, bucket, now, n);
      b != [] && b[0] == bucket[0] && |b| == if |bucket| + n <= cfg.limit then |bucket| + n else cfg.limit
  {
    if n > 0 {
      SameInstant(cfg, bucket, now, n - 1);
      NothingToPrune(cfg, NextTimes(cfg, bucket, now, n - 1), now);
    }
  }

  /** Remaining is exact: that many more checks at the same instant are admitted, and then no more. */
  lemma RemainingIsExact(cfg: Config, l: Limiter, c: Check, n: nat)
    requires cfg.Valid() && Verdict(cfg, l, c).allowed
    ensures Verdict(cfg, Replay(cfg, Admit(cfg, l, c), Repeat(c, n)), c).allowed <==> n < Verdict(cfg, l, c).remaining
  {
    var bucket := At(Admit(cfg, l, c).buckets, c.key);
    RepeatedChecks(cfg, Admit(cfg, l, c), c, n);
    SameInstant(cfg, bucket, c.now, n);
    PruneKeepsAll(NextTimes(cfg, bucket, c.now, n), c.now - cfg.Window());
  }

  /** Some reading is the latest. */
  lemma {:induction false} LatestReading(checks: seq<Check>) returns (latest: int)
    ensures forall c :: c in checks ==> c.now <= latest
  {
    if checks == [] {
      latest := 0;
    } else {
      latest := LatestReading(checks[1..]);
      latest := Max(latest, checks[0].now);
      assert forall c :: c in checks ==> c == checks[0] || c in checks[1..];
    }
  }

  /**
   In any order of readings, a denial leaves exactly `limit` entries, the first one still inside the
   window, and advertises the time until that one leaves.
   */
  lemma DeniedDeque(cfg: Config, checks: seq<Check>, denied: Check)
    requires cfg.Valid()
    requires !Verdict(cfg, Replay(cfg, Fresh, checks), denied).allowed
    ensures var b := At(Replay(cfg, Fresh, checks + [denied]).buckets, denied.key);
      && |b| == cfg.limit && denied.now - 1000 * cfg.windowSeconds < b[0]
      && Wait(cfg, Replay(cfg, Fresh, checks), denied) == CeilSeconds(b[0] + 1000 * cfg.windowSeconds - denied.now) >= 1
  {
    var l := Replay(cfg, Fresh, checks);
    var bucket := At(l.buckets, denied.key);
    ReplayOneMore(cfg, Fresh, checks, denied);
    var latest := LatestReading(checks);
    var gone := ReplayRemembers(cfg, checks, denied.key, latest);
    assert At(Admit(cfg, l, denied).buckets, denied.key) == Kept(cfg, bucket, denied.now);
    ClampIsNeverActive(cfg, bucket, denied.now);
  }
}
