/**
 The in-memory sliding-window rate limiter: one deque of admission times per
 bucket key, pruned from the front and capped at `limit`.  Times are integer
 milliseconds; the window is configured in whole seconds.
 */
module RateLimit {
  import opened Sequences

  datatype Config = Config(limit: int, windowSeconds: int) {
    /** The window in milliseconds. */
    function Window(): int {
      windowSeconds * 1000
    }

    /** What the settings validate before a limiter is built from them. */
    predicate Valid() {
      limit > 0 && windowSeconds > 0
    }
  }

  datatype Decision = Decision(
    allowed: bool, limit: int, remaining: int, retryAfterSeconds: int, resetAfterSeconds: int)

  /** The least number of whole seconds that lasts at least `ms` milliseconds. */
  function CeilSeconds(ms: int): (s: int)
    ensures (s - 1) * 1000 < ms <= s * 1000
  {
    (ms + 999) / 1000
  }

  /** Drops entries from the front for as long as the first one is at or before the cutoff. */
  function Prune(bucket: seq<int>, cutoff: int): (kept: seq<int>)
    ensures |kept| <= |bucket|
    ensures kept != [] ==> kept[0] > cutoff
  {
    if bucket != [] && bucket[0] <= cutoff then Prune(bucket[1..], cutoff) else bucket
  }

  function SecondsUntilReset(cfg: Config, bucket: seq<int>, now: int): int {
    if bucket == [] then cfg.windowSeconds
    else Max(1, CeilSeconds(cfg.Window() - (now - bucket[0])))
  }

  /** What a check at `now` leaves of the deque before it decides. */
  function Kept(cfg: Config, bucket: seq<int>, now: int): seq<int> {
    Prune(bucket, now - cfg.Window())
  }

  predicate Allows(cfg: Config, bucket: seq<int>, now: int) {
    |Kept(cfg, bucket, now)| < cfg.limit
  }

  /** The deque after a check made under the lock with the clock reading `now`. */
  function Next(cfg: Config, bucket: seq<int>, now: int): seq<int> {
    if Allows(cfg, bucket, now) then Kept(cfg, bucket, now) + [now] else Kept(cfg, bucket, now)
  }

  /** The decision of that check. */
  function Decide(cfg: Config, bucket: seq<int>, now: int): Decision {
    var next := Next(cfg, bucket, now);
    var reset := SecondsUntilReset(cfg, next, now);
    if Allows(cfg, bucket, now) then Decision(true, cfg.limit, Max(cfg.limit - |next|, 0), 0, reset)
    else Decision(false, cfg.limit, 0, reset, reset)
  }

  /** The deque of a key; a key never seen has an empty one. */
  function At(buckets: map<string, seq<int>>, key: string): seq<int> {
    if key in buckets then buckets[key] else []
  }

  /**
   What a check is, in milliseconds and plain sequences.  The first `gone` entries of the deque, those
   at least a window old, go; the check is allowed if fewer than `limit` are left, and then joins them;
   and the first entry tells when the next slot is free.
   */
  ghost predicate IsCheckWith(limit: int, windowSeconds: int, bucket: seq<int>, now: int, gone: nat, next: seq<int>, d: Decision) {
    && gone <= |bucket|
    && (forall i :: 0 <= i < gone ==> bucket[i] <= now - 1000 * windowSeconds)
    && (gone < |bucket| ==> bucket[gone] > now - 1000 * windowSeconds)
    && (d.allowed <==> |bucket| - gone < limit)
    && next == bucket[gone..] + (if d.allowed then [now] else [])
    && d.limit == limit
    && d.remaining == (if d.allowed then limit - |next| else 0)
    && d.retryAfterSeconds == (if d.allowed then 0 else d.resetAfterSeconds)
    && if next == [] then d.resetAfterSeconds == windowSeconds
       else 1000 * (d.resetAfterSeconds - 1) < next[0] + 1000 * windowSeconds - now <= 1000 * d.resetAfterSeconds
  }

  ghost predicate IsCheck(limit: int, windowSeconds: int, bucket: seq<int>, now: int, next: seq<int>, d: Decision) {
    exists gone: nat :: IsCheckWith(limit, windowSeconds, bucket, now, gone, next, d)
  }

  lemma {:induction false} PruneIsSuffix(bucket: seq<int>, cutoff: int) returns (gone: nat)
    ensures gone <= |bucket| && Prune(bucket, cutoff) == bucket[gone..]
    ensures forall i :: 0 <= i < gone ==> bucket[i] <= cutoff
    ensures gone < |bucket| ==> bucket[gone] > cutoff
  {
    if bucket != [] && bucket[0] <= cutoff {
      gone := PruneIsSuffix(bucket[1..], cutoff);
      assert forall i :: 1 <= i < gone + 1 ==> bucket[i] == bucket[1..][i - 1];
      gone := gone + 1;
    } else {
      gone := 0;
    }
  }

  /** The next deque and the decision are those of a check. */
  lemma CheckMeaning(cfg: Config, bucket: seq<int>, now: int)
    ensures cfg.windowSeconds > 0 ==>
      IsCheck(cfg.limit, cfg.windowSeconds, bucket, now, Next(cfg, bucket, now), Decide(cfg, bucket, now))
  {
    if cfg.windowSeconds > 0 {
      var gone := PruneIsSuffix(bucket, now - cfg.Window());
      ClampIsNeverActive(cfg, bucket, now);
      assert IsCheckWith(cfg.limit, cfg.windowSeconds, bucket, now, gone, Next(cfg, bucket, now), Decide(cfg, bucket, now));
    }
  }

  class RateLimiter {
    const cfg: Config
    var buckets: map<string, seq<int>>

    constructor (limit: int, windowSeconds: int)
      ensures cfg == Config(limit, windowSeconds) && buckets == map[]
    {
      cfg := Config(limit, windowSeconds);
      buckets := map[];
    }

    /** The part of a check that runs under the lock; `now` was read before the lock was taken. */
    method Check(bucketKey: string, now: int) returns (decision: Decision)
      modifies this
      ensures cfg.windowSeconds > 0 ==>
        IsCheck(cfg.limit, cfg.windowSeconds, At(old(buckets), bucketKey), now, At(buckets, bucketKey), decision)
      ensures buckets == old(buckets)[bucketKey := Next(cfg, At(old(buckets), bucketKey), now)]
      ensures decision == Decide(cfg, At(old(buckets), bucketKey), now)
    {
      CheckMeaning(cfg, At(buckets, bucketKey), now);
      if bucketKey !in buckets {
        buckets := buckets[bucketKey := []];
      }
      PruneBucket(bucketKey, now);
      var bucket := buckets[bucketKey];
      if |bucket| >= cfg.limit {
        var retryAfter := SecondsUntilReset(cfg, bucket, now);
        return Decision(false, cfg.limit, 0, retryAfter, retryAfter);
      }
      buckets := buckets[bucketKey := bucket + [now]];
      bucket := buckets[bucketKey];
      return Decision(true, cfg.limit, Max(cfg.limit - |bucket|, 0), 0, SecondsUntilReset(cfg, bucket, now));
    }

    method PruneBucket(bucketKey: string, now: int)
      requires bucketKey in buckets
      modifies this
      ensures buckets == old(buckets)[bucketKey := Prune(old(buckets[bucketKey]), now - cfg.Window())]
    {
      var cutoff := now - cfg.Window();
      while buckets[bucketKey] != [] && buckets[bucketKey][0] <= cutoff
        invariant bucketKey in buckets
        invariant Prune(buckets[bucketKey], cutoff) == Prune(old(buckets[bucketKey]), cutoff)
        invariant buckets == old(buckets)[bucketKey := buckets[bucketKey]]
        decreases |buckets[bucketKey]|
      {
        buckets := buckets[bucketKey := buckets[bucketKey][1..]];
      }
    }
  }

  /**
   The clamp `max(1, ...)` never alters a wait, in whatever order timestamps entered the deque:
   both branches of a check hand over a deque whose first entry is inside the window.
   */
  lemma ClampIsNeverActive(cfg: Config, bucket: seq<int>, now: int)
    requires cfg.windowSeconds > 0
    ensures var next, decision := Next(cfg, bucket, now), Decide(cfg, bucket, now);
      && decision.resetAfterSeconds
         == (if next == [] then cfg.windowSeconds else CeilSeconds(next[0] + cfg.Window() - now))
      && decision.resetAfterSeconds >= 1
      && decision.retryAfterSeconds == (if decision.allowed then 0 else decision.resetAfterSeconds)
  {
    var next, kept := Next(cfg, bucket, now), Kept(cfg, bucket, now);
    assert next != [] ==> next[0] == if kept == [] then now else kept[0];
  }
}
