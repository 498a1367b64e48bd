/**
 The Redis rate limiter: a Lua script over one sorted set per key, kept alive by a TTL, and the
 decoding of its reply.  A check reads its clock before the script runs, so its reading may lag
 behind the server's clock, which the TTL goes by.  On prompt readings the script makes the
 decisions of the in-memory deque.
 */
module RedisRateLimit {
  import opened RateLimit
  import opened Sequences
  import History = RateLimitHistory

  // ----- sorted-set commands -----

  /** A sorted set: the score of each member. */
  type SortedSet = map<string, int>

  /** ZREMRANGEBYSCORE lo hi. */
  function OutsideRange(z: SortedSet, lo: int, hi: int): SortedSet {
    map m | m in z && !(lo <= z[m] <= hi) :: z[m]
  }

  ghost predicate IsLowest(z: SortedSet, score: int) {
    && (exists m :: m in z && z[m] == score)
    && (forall m :: m in z ==> score <= z[m])
  }

  /** ZRANGE 0 0 WITHSCORES: the score of the first member. */
  method LowestScore(z: SortedSet) returns (score: int)
    requires z != map[]
    ensures IsLowest(z, score)
  {
    var rest := z.Keys;
    var first :| first in rest;
    score := z[first];
    rest := rest - {first};
    while rest != {}
      invariant rest <= z.Keys
      invariant exists m :: m in z && z[m] == score
      invariant forall m :: m in z && m !in rest ==> score <= z[m]
      decreases rest
    {
      var m :| m in rest;
      if z[m] < score {
        score := z[m];
      }
      rest := rest - {m};
    }
  }

  // ----- the script and its decoding -----

  datatype Reply = Reply(allowed: int, count: int, oldest: int)

  /** What the script leaves in the set. */
  function AfterScript(z: SortedSet, now: int, window: int, limit: int, member: string): SortedSet {
    var young := OutsideRange(z, 0, now - window);
    if |young| >= limit then young else young[member := now]
  }

  /** What the script returns. */
  ghost predicate ScriptReplies(z: SortedSet, now: int, window: int, limit: int, member: string, reply: Reply) {
    var after := AfterScript(z, now, window, limit, member);
    && reply.allowed == (if |OutsideRange(z, 0, now - window)| >= limit then 0 else 1)
    && reply.count == (if reply.allowed == 1 then |OutsideRange(z, 0, now - window)| + 1 else |after|)
    && if after == map[] then reply.oldest == now else IsLowest(after, reply.oldest)
  }

  function DecodeReply(cfg: Config, reply: Reply, now: int): Decision {
    var reset := Max(1, CeilSeconds(cfg.Window() - (now - reply.oldest)));
    var allowed := reply.allowed != 0;
    Decision(allowed, cfg.limit, if allowed then Max(cfg.limit - reply.count, 0) else 0,
             if allowed then 0 else reset, reset)
  }

  /** The value under a Redis key and the time from which Redis may drop it; a missing key holds the empty set. */
  datatype Key = Key(scores: SortedSet, expireAt: int)

  function Lookup(keys: map<string, Key>, key: string): Key {
    if key in keys then keys[key] else Key(map[], 0)
  }

  class RedisRateLimitStore {
    const cfg: Config
    var keys: map<string, Key>

    constructor (limit: int, windowSeconds: int)
      ensures cfg == Config(limit, windowSeconds) && keys == map[]
    {
      cfg := Config(limit, windowSeconds);
      keys := map[];
    }

    /** Redis drops a key whose TTL has run out on its clock. */
    method Expire(key: string, at: int)
      requires key in keys && keys[key].expireAt <= at
      modifies this
      ensures keys == old(keys) - {key}
    {
      keys := keys - {key};
    }

    /**
     One evaluation of the script, decoded; `now` is the client's reading, `at` the server's clock
     when the script runs, and `member` the generated member name.
     */
    method Check(key: string, now: int, at: int, member: string) returns (decision: Decision)
      modifies this
      ensures keys == old(keys)[key :=
        Key(AfterScript(Lookup(old(keys), key).scores, now, 1000 * cfg.windowSeconds, cfg.limit, member), at + 1000 * cfg.windowSeconds)]
      ensures exists reply ::
        && ScriptReplies(Lookup(old(keys), key).scores, now, 1000 * cfg.windowSeconds, cfg.limit, member, reply)
        && decision == DecodeReply(cfg, reply, now)
    {
      var reply := Eval(key, now, at, cfg.Window(), cfg.limit, member);
      decision := DecodeReply(cfg, reply, now);
    }

    /** The Lua script, command by command. */
    method Eval(key: string, now: int, at: int, window: int, limit: int, member: string) returns (reply: Reply)
      modifies this
      ensures keys == old(keys)[key :=
        Key(AfterScript(Lookup(old(keys), key).scores, now, window, limit, member), at + window)]
      ensures ScriptReplies(Lookup(old(keys), key).scores, now, window, limit, member, reply)
    {
      var z := OutsideRange(Lookup(keys, key).scores, 0, now - window);
      var count := |z|;
      if count >= limit {
        var oldest := now;
        if z != map[] {
          oldest := LowestScore(z);
        }
        keys := keys[key := Key(z, at + window)];
        return Reply(0, count, oldest);
      }
      z := z[member := now];
      count := count + 1;
      assert member in z;
      var oldest := LowestScore(z);
      keys := keys[key := Key(z, at + window)];
      return Reply(1, count, oldest);
    }

    /** One check of a history: Redis drops the key first, if the history says so. */
    method Run(c: TimedCheck) returns (decision: Decision)
      requires MayExpire(keys, c)
      modifies this
      ensures keys == Serve(cfg, old(keys), c)
      ensures exists reply ::
        && ScriptReplies(Scores(old(keys), c), c.now, cfg.Window(), cfg.limit, c.member, reply)
        && decision == DecodeReply(cfg, reply, c.now)
    {
      if c.expired {
        Expire(c.key, c.at);
      }
      decision := Check(c.key, c.now, c.at, c.member);
    }
  }

  // ----- histories -----

  /**
   A check: its reading, the server's clock when the script runs, and the generated member name;
   `expired` says that Redis dropped the key just before it.
   */
  datatype TimedCheck = TimedCheck(key: string, now: int, at: int, member: string, expired: bool)

  function Scores(keys: map<string, Key>, c: TimedCheck): SortedSet {
    if c.expired then map[] else Lookup(keys, c.key).scores
  }

  function Serve(cfg: Config, keys: map<string, Key>, c: TimedCheck): map<string, Key> {
    keys[c.key := Key(AfterScript(Scores(keys, c), c.now, cfg.Window(), cfg.limit, c.member), c.at + cfg.Window())]
  }

  function Served(cfg: Config, checks: seq<TimedCheck>): map<string, Key>
    decreases |checks|
  {
    if checks == [] then map[] else Serve(cfg, Served(cfg, checks[..|checks| - 1]), checks[|checks| - 1])
  }

  /** The key had been written and its TTL had run out. */
  predicate MayExpire(keys: map<string, Key>, c: TimedCheck) {
    c.expired ==> c.key in keys && keys[c.key].expireAt <= c.at
  }

  /** A reading from 0 up that is not in the future, and a fresh member name. */
  ghost predicate Fits(before: seq<TimedCheck>, c: TimedCheck) {
    0 <= c.now <= c.at && forall i :: 0 <= i < |before| ==> before[i].member != c.member
  }

  /**
   Histories in which readings lag behind the server's clock by at most `delta`: the server's clock
   does not run backwards, and keys are dropped only after their TTL.
   */
  ghost predicate Legal(cfg: Config, delta: nat, checks: seq<TimedCheck>)
    decreases |checks|
  {
    checks != [] ==>
      var before, last := checks[..|checks| - 1], checks[|checks| - 1];
      && Legal(cfg, delta, before)
      && Fits(before, last) && last.at - last.now <= delta
      && (forall i :: 0 <= i < |before| && before[i].key == last.key ==> before[i].at <= last.at)
      && MayExpire(Served(cfg, before), last)
  }

  ghost predicate NoDrops(checks: seq<TimedCheck>) {
    forall i :: 0 <= i < |checks| ==> !checks[i].expired
  }

  /** Histories with lags of any size in which the readings of a key keep their order, and a dropped key's TTL had run out by the reading. */
  ghost predicate InOrder(cfg: Config, checks: seq<TimedCheck>)
    decreases |checks|
  {
    checks != [] ==>
      var before, last := checks[..|checks| - 1], checks[|checks| - 1];
      && InOrder(cfg, before)
      && Fits(before, last)
      && (forall i :: 0 <= i < |before| && before[i].key == last.key ==> before[i].now <= last.now)
      && MayExpire(Served(cfg, before), last.(at := last.now))
  }

  /** The same history as the in-memory limiter sees it. */
  function InMemory(checks: seq<TimedCheck>): seq<History.Check>
    decreases |checks|
  {
    if checks == [] then []
    else InMemory(checks[..|checks| - 1]) + [History.Check(checks[|checks| - 1].key, checks[|checks| - 1].now)]
  }

  // ----- the simulation -----

  /** `names` lists the members in the order of the deque, each with its deque entry as score. */
  ghost predicate Mirrors(bucket: seq<int>, z: SortedSet, names: seq<string>) {
    && |names| == |bucket|
    && Distinct(names)
    && (forall i :: 0 <= i < |names| ==> names[i] in z && z[names[i]] == bucket[i])
    && (forall m :: m in z ==> m in names)
    && History.Sorted(bucket)
  }

  lemma {:induction false} DistinctCount(names: seq<string>, s: set<string>)
    requires Distinct(names) && (forall i :: 0 <= i < |names| ==> names[i] in s) && (forall m :: m in s ==> m in names)
    ensures |s| == |names|
  {
    if names != [] {
      var last := names[|names| - 1];
      DistinctCount(names[..|names| - 1], s - {last});
    }
  }

  lemma MirrorsCount(bucket: seq<int>, z: SortedSet, names: seq<string>)
    requires Mirrors(bucket, z, names)
    ensures |z| == |bucket|
  {
    DistinctCount(names, z.Keys);
    assert |z| == |z.Keys|;
  }

  lemma MirrorsLowest(bucket: seq<int>, z: SortedSet, names: seq<string>, score: int)
    requires Mirrors(bucket, z, names) && bucket != [] && IsLowest(z, score)
    ensures score == bucket[0]
  {
  }

  lemma MirrorsTail(bucket: seq<int>, z: SortedSet, names: seq<string>)
    requires Mirrors(bucket, z, names) && bucket != []
    ensures Mirrors(bucket[1..], z - {names[0]}, names[1..])
  {
    forall m | m in z - {names[0]}
      ensures m in names[1..]
    {
      var i :| 0 <= i < |names| && names[i] == m;
      assert names[1..][i - 1] == m;
    }
  }

  lemma OldMemberGoes(z: SortedSet, name: string, cutoff: int)
    requires name in z && 0 <= z[name] <= cutoff
    ensures OutsideRange(z - {name}, 0, cutoff) == OutsideRange(z, 0, cutoff)
  {
  }

  lemma YoungStay(bucket: seq<int>, z: SortedSet, names: seq<string>, cutoff: int)
    requires Mirrors(bucket, z, names) && (bucket != [] ==> bucket[0] > cutoff)
    ensures OutsideRange(z, 0, cutoff) == z
  {
    forall m | m in z
      ensures z[m] > cutoff
    {
      var i :| 0 <= i < |names| && names[i] == m;
      assert z[m] == bucket[i];
    }
  }

  /** Removing the scores in [0, cutoff] mirrors dropping the deque's old entries. */
  lemma {:induction false} MirrorsPrune(bucket: seq<int>, z: SortedSet, names: seq<string>, cutoff: int)
    returns (young: seq<string>)
    requires Mirrors(bucket, z, names) && History.AtLeast(bucket, 0)
    ensures Mirrors(Prune(bucket, cutoff), OutsideRange(z, 0, cutoff), young)
  {
    if bucket != [] && bucket[0] <= cutoff {
      MirrorsTail(bucket, z, names);
      young := MirrorsPrune(bucket[1..], z - {names[0]}, names[1..], cutoff);
      OldMemberGoes(z, names[0], cutoff);
    } else {
      young := names;
      YoungStay(bucket, z, names, cutoff);
    }
  }

  lemma MirrorsAppend(bucket: seq<int>, z: SortedSet, names: seq<string>, now: int, member: string)
    requires Mirrors(bucket, z, names) && member !in z && History.AtMost(bucket, now)
    ensures Mirrors(bucket + [now], z[member := now], names + [member])
  {
  }

  /** A key whose TTL has run out holds nothing that the script would keep. */
  lemma ExpiryIsHarmless(cfg: Config, bucket: seq<int>, now: int)
    requires History.AtMost(bucket, now - cfg.Window())
    ensures Kept(cfg, bucket, now) == []
  {
    var gone := History.PruneSplits(bucket, now - cfg.Window());
    assert |gone| < |bucket| ==> bucket[|gone|] == Kept(cfg, bucket, now)[0];
  }

  /**
   What a check needs so that set and deque stay alike: a dropped key held nothing inside the window,
   and an admitted reading is not older than what the deque keeps.
   */
  ghost predicate Tame(cfg: Config, bucket: seq<int>, c: TimedCheck) {
    && c.now >= 0
    && (c.expired ==> History.AtMost(bucket, c.now - cfg.Window()))
    && (Allows(cfg, bucket, c.now) ==> History.AtMost(Kept(cfg, bucket, c.now), c.now))
  }

  /** The part of the set that the script keeps mirrors what the deque keeps. */
  ghost predicate Ready(cfg: Config, bucket: seq<int>, z: SortedSet, young: seq<string>, c: TimedCheck) {
    && Mirrors(Kept(cfg, bucket, c.now), OutsideRange(z, 0, c.now - cfg.Window()), young)
    && Tame(cfg, bucket, c) && c.member !in z
  }

  lemma NothingLeft(cutoff: int)
    ensures Mirrors([], OutsideRange(map[], 0, cutoff), [])
  {
    assert OutsideRange(map[], 0, cutoff) == map[];
  }

  /** The script finds the set in a fitting state, whether or not Redis dropped the key. */
  lemma FindsSet(cfg: Config, bucket: seq<int>, keys: map<string, Key>, names: seq<string>, c: TimedCheck)
    returns (young: seq<string>)
    requires Mirrors(bucket, Lookup(keys, c.key).scores, names) && History.AtLeast(bucket, 0)
    requires Tame(cfg, bucket, c) && c.member !in Lookup(keys, c.key).scores
    ensures Ready(cfg, bucket, Scores(keys, c), young, c)
  {
    var z, cutoff := Lookup(keys, c.key).scores, c.now - cfg.Window();
    young := MirrorsPrune(bucket, z, names, cutoff);
    if c.expired {
      ExpiryIsHarmless(cfg, bucket, c.now);
      young := [];
      NothingLeft(cutoff);
    }
  }

  /** The set after the script mirrors the deque after the check. */
  lemma ScriptMirrors(cfg: Config, bucket: seq<int>, z: SortedSet, young: seq<string>, c: TimedCheck) returns (names: seq<string>)
    requires Ready(cfg, bucket, z, young, c)
    ensures |OutsideRange(z, 0, c.now - cfg.Window())| == |Kept(cfg, bucket, c.now)|
    ensures Mirrors(Next(cfg, bucket, c.now), AfterScript(z, c.now, cfg.Window(), cfg.limit, c.member), names)
  {
    var kept := Kept(cfg, bucket, c.now);
    MirrorsCount(kept, OutsideRange(z, 0, c.now - cfg.Window()), young);
    names := young;
    if Allows(cfg, bucket, c.now) {
      MirrorsAppend(kept, OutsideRange(z, 0, c.now - cfg.Window()), young, c.now, c.member);
      names := young + [c.member];
    }
  }

  /** The script's reply decodes to the deque's decision. */
  lemma RepliesAgree(cfg: Config, bucket: seq<int>, z: SortedSet, young: seq<string>, c: TimedCheck, reply: Reply)
    requires cfg.windowSeconds > 0 && Ready(cfg, bucket, z, young, c)
    requires ScriptReplies(z, c.now, cfg.Window(), cfg.limit, c.member, reply)
    ensures DecodeReply(cfg, reply, c.now) == Decide(cfg, bucket, c.now)
  {
    var names := ScriptMirrors(cfg, bucket, z, young, c);
    var after, next := AfterScript(z, c.now, cfg.Window(), cfg.limit, c.member), Next(cfg, bucket, c.now);
    OldestIsFirst(next, after, names, c.now, reply.oldest);
    MirrorsCount(next, after, names);
    SameDecision(cfg, bucket, c.now, reply);
  }

  /** A reply with the deque's verdict, length and first entry decodes to the deque's decision. */
  lemma SameDecision(cfg: Config, bucket: seq<int>, now: int, reply: Reply)
    requires cfg.windowSeconds > 0
    requires reply.allowed == (if Allows(cfg, bucket, now) then 1 else 0)
    requires reply.count == |Next(cfg, bucket, now)|
    requires reply.oldest == if Next(cfg, bucket, now) == [] then now else Next(cfg, bucket, now)[0]
    ensures DecodeReply(cfg, reply, now) == Decide(cfg, bucket, now)
  {
    ClampIsNeverActive(cfg, bucket, now);
  }

  lemma OldestIsFirst(bucket: seq<int>, z: SortedSet, names: seq<string>, now: int, oldest: int)
    requires Mirrors(bucket, z, names) && if z == map[] then oldest == now else IsLowest(z, oldest)
    ensures oldest == if bucket == [] then now else bucket[0]
  {
    MirrorsCount(bucket, z, names);
    if bucket != [] {
      assert names[0] in z;
      MirrorsLowest(bucket, z, names, oldest);
    }
  }

  // ----- whole histories -----

  /** A member name not used so far is in no set. */
  lemma {:induction false} UnusedMember(cfg: Config, checks: seq<TimedCheck>, key: string, member: string)
    requires forall i :: 0 <= i < |checks| ==> checks[i].member != member
    ensures member !in Lookup(Served(cfg, checks), key).scores
    decreases |checks|
  {
    if checks != [] {
      UnusedMember(cfg, checks[..|checks| - 1], key, member);
    }
  }

  /** The deque of a key after the same history in memory. */
  function Deque(cfg: Config, checks: seq<TimedCheck>, key: string): seq<int> {
    At(History.Replay(cfg, History.Fresh, InMemory(checks)).buckets, key)
  }

  lemma DequeStep(cfg: Config, checks: seq<TimedCheck>, key: string)
    requires checks != []
    ensures var before, last := Deque(cfg, checks[..|checks| - 1], key), checks[|checks| - 1];
      Deque(cfg, checks, key) == if last.key == key then Next(cfg, before, last.now) else before
  {
    History.ReplayOneMore(cfg, History.Fresh, InMemory(checks[..|checks| - 1]),
                          History.Check(checks[|checks| - 1].key, checks[|checks| - 1].now));
  }

  /** Deque entries are clock readings of earlier checks on the key. */
  lemma {:induction false} DequeIsPast(cfg: Config, checks: seq<TimedCheck>, key: string, earliest: int, latest: int)
    requires forall i :: 0 <= i < |checks| && checks[i].key == key ==> earliest <= checks[i].now <= latest
    ensures History.AtMost(Deque(cfg, checks, key), latest) && History.AtLeast(Deque(cfg, checks, key), earliest)
    decreases |checks|
  {
    if checks != [] {
      var before, last := checks[..|checks| - 1], checks[|checks| - 1];
      DequeIsPast(cfg, before, key, earliest, latest);
      DequeStep(cfg, checks, key);
      if last.key == key {
        History.NextBounds(cfg, Deque(cfg, before, key), last.now, earliest, latest);
      }
    }
  }

  /** Histories of tame checks. */
  ghost predicate Smooth(cfg: Config, checks: seq<TimedCheck>)
    decreases |checks|
  {
    checks != [] ==>
      var before, last := checks[..|checks| - 1], checks[|checks| - 1];
      && Smooth(cfg, before) && Fits(before, last)
      && Tame(cfg, Deque(cfg, before, last.key), last)
  }

  lemma {:induction false} SmoothTimes(cfg: Config, checks: seq<TimedCheck>)
    requires Smooth(cfg, checks)
    ensures forall i :: 0 <= i < |checks| ==> checks[i].now >= 0
    decreases |checks|
  {
    if checks != [] {
      SmoothTimes(cfg, checks[..|checks| - 1]);
    }
  }

  lemma {:induction false} LatestCheck(checks: seq<TimedCheck>) returns (latest: int)
    ensures forall i :: 0 <= i < |checks| ==> checks[i].now <= latest
    decreases |checks|
  {
    if checks == [] {
      latest := 0;
    } else {
      latest := LatestCheck(checks[..|checks| - 1]);
      latest := Max(latest, checks[|checks| - 1].now);
    }
  }

  /** What one further tame check finds. */
  lemma CheckFindsSet(cfg: Config, checks: seq<TimedCheck>, c: TimedCheck, names: seq<string>) returns (young: seq<string>)
    requires Smooth(cfg, checks) && Fits(checks, c) && Tame(cfg, Deque(cfg, checks, c.key), c)
    requires Mirrors(Deque(cfg, checks, c.key), Lookup(Served(cfg, checks), c.key).scores, names)
    ensures Ready(cfg, Deque(cfg, checks, c.key), Scores(Served(cfg, checks), c), young, c)
  {
    SmoothTimes(cfg, checks);
    UnusedMember(cfg, checks, c.key, c.member);
    var latest := LatestCheck(checks);
    DequeIsPast(cfg, checks, c.key, 0, latest);
    young := FindsSet(cfg, Deque(cfg, checks, c.key), Served(cfg, checks), names, c);
  }

  /** After every smooth history the set of each key mirrors its deque. */
  lemma {:induction false} HistoriesSimulate(cfg: Config, checks: seq<TimedCheck>, key: string) returns (names: seq<string>)
    requires Smooth(cfg, checks)
    ensures Mirrors(Deque(cfg, checks, key), Lookup(Served(cfg, checks), key).scores, names)
    decreases |checks|
  {
    if checks == [] {
      names := [];
    } else {
      var before, last := checks[..|checks| - 1], checks[|checks| - 1];
      names := HistoriesSimulate(cfg, before, key);
      DequeStep(cfg, checks, key);
      if last.key == key {
        var young := CheckFindsSet(cfg, before, last, names);
        names := ScriptMirrors(cfg, Deque(cfg, before, key), Scores(Served(cfg, before), last), young, last);
      }
    }
  }

  /**
   After the history, whatever the script returns for the check decodes to the decision that the
   in-memory limiter makes: allowed, remaining, retry-after and reset alike.
   */
  ghost predicate Agree(cfg: Config, checks: seq<TimedCheck>, c: TimedCheck) {
    forall reply ::
      ScriptReplies(Scores(Served(cfg, checks), c), c.now, cfg.Window(), cfg.limit, c.member, reply)
      ==> DecodeReply(cfg, reply, c.now) == Decide(cfg, Deque(cfg, checks, c.key), c.now)
  }

  lemma SmoothHistoriesAgree(cfg: Config, checks: seq<TimedCheck>, c: TimedCheck)
    requires cfg.windowSeconds > 0 && Smooth(cfg, checks + [c])
    ensures Agree(cfg, checks, c)
  {
    assert (checks + [c])[..|checks + [c]| - 1] == checks;
    var names := HistoriesSimulate(cfg, checks, c.key);
    var young := CheckFindsSet(cfg, checks, c, names);
    forall reply | ScriptReplies(Scores(Served(cfg, checks), c), c.now, cfg.Window(), cfg.limit, c.member, reply)
      ensures DecodeReply(cfg, reply, c.now) == Decide(cfg, Deque(cfg, checks, c.key), c.now)
    {
      RepliesAgree(cfg, Deque(cfg, checks, c.key), Scores(Served(cfg, checks), c), young, c, reply);
    }
  }

  // ----- readings in order -----

  /** The TTL outlives the deque: every entry is at least a window older than the key's expiry. */
  lemma {:induction false} ExpiryBound(cfg: Config, checks: seq<TimedCheck>, key: string)
    requires InOrder(cfg, checks)
    ensures History.AtMost(Deque(cfg, checks, key), Lookup(Served(cfg, checks), key).expireAt - cfg.Window())
    decreases |checks|
  {
    if checks != [] {
      var before, last := checks[..|checks| - 1], checks[|checks| - 1];
      ExpiryBound(cfg, before, key);
      DequeStep(cfg, checks, key);
      if last.key == key {
        OrderedDeque(cfg, before, last);
        History.NextBounds(cfg, Deque(cfg, before, key), last.now, 0, last.now);
      }
    }
  }

  lemma {:induction false} OrderedTimes(cfg: Config, checks: seq<TimedCheck>)
    requires InOrder(cfg, checks)
    ensures forall i :: 0 <= i < |checks| ==> checks[i].now >= 0
    decreases |checks|
  {
    if checks != [] {
      OrderedTimes(cfg, checks[..|checks| - 1]);
    }
  }

  lemma OrderedDeque(cfg: Config, checks: seq<TimedCheck>, c: TimedCheck)
    requires InOrder(cfg, checks) && forall i :: 0 <= i < |checks| && checks[i].key == c.key ==> checks[i].now <= c.now
    ensures History.AtMost(Deque(cfg, checks, c.key), c.now) && History.AtLeast(Deque(cfg, checks, c.key), 0)
  {
    OrderedTimes(cfg, checks);
    DequeIsPast(cfg, checks, c.key, 0, c.now);
  }

  lemma {:induction false} InOrderIsSmooth(cfg: Config, checks: seq<TimedCheck>)
    requires InOrder(cfg, checks)
    ensures Smooth(cfg, checks)
    decreases |checks|
  {
    if checks != [] {
      var before, last := checks[..|checks| - 1], checks[|checks| - 1];
      InOrderIsSmooth(cfg, before);
      OrderedIsTame(cfg, before, last);
    }
  }

  lemma OrderedIsTame(cfg: Config, checks: seq<TimedCheck>, c: TimedCheck)
    requires InOrder(cfg, checks) && forall i :: 0 <= i < |checks| && checks[i].key == c.key ==> checks[i].now <= c.now
    requires c.now >= 0 && MayExpire(Served(cfg, checks), c.(at := c.now))
    ensures Tame(cfg, Deque(cfg, checks, c.key), c)
  {
    var bucket := Deque(cfg, checks, c.key);
    ExpiryBound(cfg, checks, c.key);
    OrderedDeque(cfg, checks, c);
    LateEnough(cfg, bucket, Lookup(Served(cfg, checks), c.key).expireAt, c);
  }

  lemma LateEnough(cfg: Config, bucket: seq<int>, expireAt: int, c: TimedCheck)
    requires c.now >= 0 && History.AtMost(bucket, expireAt - cfg.Window()) && (c.expired ==> expireAt <= c.now)
    requires History.AtMost(bucket, c.now) && History.AtLeast(bucket, 0)
    ensures Tame(cfg, bucket, c)
  {
    NotLater(bucket, expireAt - cfg.Window(), if c.expired then c.now - cfg.Window() else expireAt - cfg.Window());
    History.PruneBounds(bucket, c.now - cfg.Window(), 0, c.now);
  }

  lemma NotLater(times: seq<int>, bound: int, later: int)
    requires History.AtMost(times, bound) && bound <= later
    ensures History.AtMost(times, later)
  {
  }

  /**
   Redis and memory agree on every history whose readings keep their order for each key, however
   they lag, and for every further check of that kind; and it makes no difference which keys
   Redis let expire.
   */
  lemma RedisAgreesWithMemory(cfg: Config, checks: seq<TimedCheck>, c: TimedCheck)
    requires cfg.windowSeconds > 0 && InOrder(cfg, checks + [c])
    ensures Agree(cfg, checks, c)
  {
    InOrderIsSmooth(cfg, checks + [c]);
    SmoothHistoriesAgree(cfg, checks, c);
  }

  /** The same slot in Redis, on readings that keep their order. */
  lemma OneSlotInRedis(cfg: Config, checks: seq<TimedCheck>, first: TimedCheck, later: TimedCheck, reply: Reply, laterReply: Reply)
    requires cfg.Valid() && cfg.limit == 1 && first.key == later.key && InOrder(cfg, checks + [first] + [later])
    requires ScriptReplies(Scores(Served(cfg, checks), first), first.now, 1000 * cfg.windowSeconds, 1, first.member, reply)
    requires DecodeReply(cfg, reply, first.now).allowed
    requires ScriptReplies(Scores(Served(cfg, checks + [first]), later), later.now, 1000 * cfg.windowSeconds, 1, later.member, laterReply)
    ensures DecodeReply(cfg, laterReply, later.now).allowed <==> later.now >= first.now + 1000 * cfg.windowSeconds
  {
    var all := checks + [first] + [later];
    assert all[..|all| - 1] == checks + [first];
    DecodedInMemory(cfg, checks, first, reply);
    DecodedInMemory(cfg, checks + [first], later, laterReply);
    InMemoryOneMore(checks, first);
    History.OneSlot(cfg, InMemory(checks), History.Check(first.key, first.now), History.Check(later.key, later.now));
  }

  /** The decoded reply is the verdict of the limiter that replayed the same history. */
  lemma DecodedInMemory(cfg: Config, checks: seq<TimedCheck>, c: TimedCheck, reply: Reply)
    requires cfg.Valid() && InOrder(cfg, checks + [c])
    requires ScriptReplies(Scores(Served(cfg, checks), c), c.now, 1000 * cfg.windowSeconds, cfg.limit, c.member, reply)
    ensures DecodeReply(cfg, reply, c.now)
      == History.Verdict(cfg, History.Replay(cfg, History.Fresh, InMemory(checks)), History.Check(c.key, c.now))
  {
    RedisAgreesWithMemory(cfg, checks, c);
    AgreeMeans(cfg, checks, c, reply);
  }

  lemma AgreeMeans(cfg: Config, checks: seq<TimedCheck>, c: TimedCheck, reply: Reply)
    requires Agree(cfg, checks, c)
    requires ScriptReplies(Scores(Served(cfg, checks), c), c.now, 1000 * cfg.windowSeconds, cfg.limit, c.member, reply)
    ensures DecodeReply(cfg, reply, c.now)
      == History.Verdict(cfg, History.Replay(cfg, History.Fresh, InMemory(checks)), History.Check(c.key, c.now))
  {
    assert cfg.Window() == 1000 * cfg.windowSeconds;
  }

  lemma InMemoryOneMore(checks: seq<TimedCheck>, c: TimedCheck)
    ensures InMemory(checks + [c]) == InMemory(checks) + [History.Check(c.key, c.now)]
  {
    assert (checks + [c])[..|checks + [c]| - 1] == checks;
  }

  // ----- exactly when they agree -----

  /** Without a lag readings keep their order. */
  lemma {:induction false} PromptIsInOrder(cfg: Config, checks: seq<TimedCheck>)
    requires Legal(cfg, 0, checks)
    ensures InOrder(cfg, checks) && forall i :: 0 <= i < |checks| ==> checks[i].now == checks[i].at
    decreases |checks|
  {
    if checks != [] {
      PromptIsInOrder(cfg, checks[..|checks| - 1]);
    }
  }

  /** With a limit of one, and no key dropped, the order of readings does not matter. */
  lemma {:induction false} LimitOneIsSmooth(cfg: Config, delta: nat, checks: seq<TimedCheck>)
    requires cfg.limit == 1 && Legal(cfg, delta, checks) && NoDrops(checks)
    ensures Smooth(cfg, checks)
    decreases |checks|
  {
    if checks != [] {
      LimitOneIsSmooth(cfg, delta, checks[..|checks| - 1]);
    }
  }

  const KEY := "k"

  /** Distinct member names. */
  function Name(n: nat): (name: string)
    ensures |name| == n
  {
    if n == 0 then "" else Name(n - 1) + "m"
  }

  /** One check at 1, and then `n` checks whose readings are one millisecond late. */
  function LateChecks(n: nat): seq<TimedCheck> {
    if n == 0 then [TimedCheck(KEY, 1, 1, Name(0), false)]
    else LateChecks(n - 1) + [TimedCheck(KEY, 0, 1, Name(n), false)]
  }

  lemma {:induction false} LateNames(n: nat)
    ensures |LateChecks(n)| == n + 1
    ensures forall i :: 0 <= i <= n ==> LateChecks(n)[i].at == 1 && !LateChecks(n)[i].expired && |LateChecks(n)[i].member| == i
  {
    if n > 0 {
      LateNames(n - 1);
    }
  }

  lemma LateStep(n: nat)
    requires n > 0
    ensures var checks := LateChecks(n);
      checks[..|checks| - 1] == LateChecks(n - 1) && checks[|checks| - 1] == TimedCheck(KEY, 0, 1, Name(n), false)
  {
  }

  lemma LegalOneMore(cfg: Config, delta: nat, checks: seq<TimedCheck>, c: TimedCheck)
    requires Legal(cfg, delta, checks) && Fits(checks, c) && c.at - c.now <= delta
    requires forall i :: 0 <= i < |checks| && checks[i].key == c.key ==> checks[i].at <= c.at
    requires MayExpire(Served(cfg, checks), c)
    ensures Legal(cfg, delta, checks + [c])
  {
    assert (checks + [c])[..|checks + [c]| - 1] == checks;
  }

  lemma {:induction false} LateIsLegal(cfg: Config, delta: nat, n: nat)
    requires delta >= 1
    ensures Legal(cfg, delta, LateChecks(n))
  {
    var before, c := [], TimedCheck(KEY, 1, 1, Name(0), false);
    if n > 0 {
      LateIsLegal(cfg, delta, n - 1);
      LateNames(n - 1);
      before, c := LateChecks(n - 1), TimedCheck(KEY, 0, 1, Name(n), false);
    }
    NewName(before, c, n);
    assert LateChecks(n) == before + [c];
    LegalOneMore(cfg, delta, before, c);
  }

  /** Only the first member has a score other than 0. */
  ghost predicate OnlyFirstScores(z: SortedSet) {
    forall m :: m in z ==> z[m] == if m == Name(0) then 1 else 0
  }

  lemma {:induction false} LateSet(cfg: Config, n: nat)
    ensures OnlyFirstScores(Lookup(Served(cfg, LateChecks(n)), KEY).scores)
  {
    if n > 0 {
      LateSet(cfg, n - 1);
      LateStep(n);
      LateScript(Lookup(Served(cfg, LateChecks(n - 1)), KEY).scores, cfg, n);
    } else {
      assert LateChecks(0)[..0] == [];
    }
  }

  lemma LateScript(z: SortedSet, cfg: Config, n: nat)
    requires OnlyFirstScores(z) && n > 0
    ensures OnlyFirstScores(AfterScript(z, 0, cfg.Window(), cfg.limit, Name(n)))
  {
    assert |Name(n)| != |Name(0)|;
  }

  /** The late readings queue up behind the first one. */
  lemma {:induction false} LateDeque(cfg: Config, n: nat)
    requires cfg.Valid() && n < cfg.limit
    ensures var bucket := Deque(cfg, LateChecks(n), KEY); |bucket| == n + 1 && bucket[0] == 1
  {
    if n > 0 {
      LateDeque(cfg, n - 1);
      LateNames(n);
      LateStep(n);
      DequeStep(cfg, LateChecks(n), KEY);
      History.NothingToPrune(cfg, Deque(cfg, LateChecks(n - 1), KEY), 0);
    } else {
      DequeStep(cfg, LateChecks(0), KEY);
      assert LateChecks(0)[..0] == [];
    }
  }

  /** The next check when the window after the first one is just not over. */
  function AtWindow(cfg: Config): TimedCheck
    requires cfg.Valid()
  {
    TimedCheck(KEY, 1000 * cfg.windowSeconds, 1000 * cfg.windowSeconds, Name(cfg.limit), false)
  }

  /** With a limit above one, readings that are late by a millisecond make Redis admit what the deque denies. */
  lemma OutOfOrderDisagrees(cfg: Config, delta: nat)
    requires cfg.Valid() && cfg.limit >= 2 && delta >= 1
    ensures var checks := LateChecks(cfg.limit - 1); var c := AtWindow(cfg);
      && Legal(cfg, delta, checks + [c]) && NoDrops(checks + [c])
      && !Decide(cfg, Deque(cfg, checks, KEY), c.now).allowed
      && (forall reply :: ScriptReplies(Scores(Served(cfg, checks), c), c.now, cfg.Window(), cfg.limit, c.member, reply)
           ==> DecodeReply(cfg, reply, c.now).allowed)
      && !Agree(cfg, checks, c)
  {
    var checks, c := LateChecks(cfg.limit - 1), AtWindow(cfg);
    AtWindowIsLegal(cfg, delta);
    LateDeque(cfg, cfg.limit - 1);
    History.PruneKeepsAll(Deque(cfg, checks, KEY), 0);
    LateSet(cfg, cfg.limit - 1);
    var z := Scores(Served(cfg, checks), c);
    assert z == Lookup(Served(cfg, checks), KEY).scores;
    OneYoung(z);
    var reply := SomeReply(z, c.now, cfg.Window(), cfg.limit, c.member);
  }

  lemma AtWindowIsLegal(cfg: Config, delta: nat)
    requires cfg.Valid() && delta >= 1
    ensures var checks := LateChecks(cfg.limit - 1) + [AtWindow(cfg)]; Legal(cfg, delta, checks) && NoDrops(checks)
  {
    var checks, c := LateChecks(cfg.limit - 1), AtWindow(cfg);
    LateNames(cfg.limit - 1);
    LateIsLegal(cfg, delta, cfg.limit - 1);
    assert Fits(checks, c) by {
      NewName(checks, c, cfg.limit);
    }
    LegalOneMore(cfg, delta, checks, c);
  }

  lemma NewName(checks: seq<TimedCheck>, c: TimedCheck, n: nat)
    requires |checks| == n && c.member == Name(n) && 0 <= c.now <= c.at
    requires forall i :: 0 <= i < n ==> |checks[i].member| == i
    ensures Fits(checks, c)
  {
    forall i | 0 <= i < n
      ensures checks[i].member != c.member
    {
      assert |checks[i].member| != |c.member|;
    }
  }

  lemma OneYoung(z: SortedSet)
    requires OnlyFirstScores(z)
    ensures |OutsideRange(z, 0, 0)| <= 1
  {
    var young := OutsideRange(z, 0, 0);
    SubsetSize(young.Keys, {Name(0)});
    assert |young| == |young.Keys|;
  }

  /** A set with something in it has a lowest score. */
  lemma {:induction false} LowestExists(z: SortedSet, members: set<string>) returns (score: int)
    requires members != {} && members <= z.Keys
    ensures exists m :: m in members && z[m] == score
    ensures forall m :: m in members ==> score <= z[m]
  {
    var m :| m in members;
    if members == {m} {
      score := z[m];
    } else {
      score := LowestExists(z, members - {m});
      score := if z[m] < score then z[m] else score;
    }
  }

  /** The script always replies. */
  lemma SomeReply(z: SortedSet, now: int, window: int, limit: int, member: string) returns (reply: Reply)
    ensures ScriptReplies(z, now, window, limit, member, reply)
  {
    var young, after := OutsideRange(z, 0, now - window), AfterScript(z, now, window, limit, member);
    var oldest := now;
    if after != map[] {
      oldest := LowestExists(after, after.Keys);
    }
    reply := if |young| >= limit then Reply(0, |after|, oldest) else Reply(1, |young| + 1, oldest);
  }

  /** A check whose reading is late by a millisecond when Redis has just dropped the key. */
  function AfterDrop(cfg: Config): TimedCheck {
    TimedCheck(KEY, 1000 * cfg.windowSeconds, 1000 * cfg.windowSeconds + 1, Name(1), true)
  }

  /** With a limit of one, a late reading just after the TTL makes Redis admit what the deque denies. */
  lemma LateDropDisagrees(cfg: Config, delta: nat)
    requires cfg.Valid() && cfg.limit == 1 && delta >= 1
    ensures Legal(cfg, delta, LateChecks(0) + [AfterDrop(cfg)]) && !Agree(cfg, LateChecks(0), AfterDrop(cfg))
  {
    var checks, c := LateChecks(0), AfterDrop(cfg);
    LateIsLegal(cfg, delta, 0);
    LateDeque(cfg, 0);
    assert (checks + [c])[..|checks + [c]| - 1] == checks;
    assert checks[..0] == [];
    History.PruneKeepsAll(Deque(cfg, checks, KEY), 0);
    assert OutsideRange(map[], 0, 0) == map[];
    var reply := SomeReply(Scores(Served(cfg, checks), c), c.now, cfg.Window(), cfg.limit, c.member);
  }

  ghost predicate AgreeOn(cfg: Config, delta: nat, drops: bool, checks: seq<TimedCheck>, c: TimedCheck) {
    Legal(cfg, delta, checks + [c]) && (drops || NoDrops(checks + [c])) ==> Agree(cfg, checks, c)
  }

  /** Redis and memory agree on every history with readings late by at most `delta`, with or without dropped keys. */
  ghost predicate AlwaysAgree(cfg: Config, delta: nat, drops: bool) {
    forall checks, c :: AgreeOn(cfg, delta, drops, checks, c)
  }

  /**
   Exactly when Redis and memory agree: on all histories whose readings lag behind the server's
   clock by at most `delta`, if and only if there is no lag, or the limit is one and no key is
   dropped.
   */
  lemma AgreementExactly(cfg: Config, delta: nat, drops: bool)
    requires cfg.Valid()
    ensures AlwaysAgree(cfg, delta, drops) <==> delta == 0 || (cfg.limit == 1 && !drops)
  {
    if delta == 0 || (cfg.limit == 1 && !drops) {
      forall checks, c
        ensures AgreeOn(cfg, delta, drops, checks, c)
      {
        if Legal(cfg, delta, checks + [c]) && (drops || NoDrops(checks + [c])) {
          if delta == 0 {
            PromptIsInOrder(cfg, checks + [c]);
            InOrderIsSmooth(cfg, checks + [c]);
          } else {
            LimitOneIsSmooth(cfg, delta, checks + [c]);
          }
          SmoothHistoriesAgree(cfg, checks, c);
        }
      }
    } else if cfg.limit == 1 {
      LateDropDisagrees(cfg, delta);
      assert !AgreeOn(cfg, delta, drops, LateChecks(0), AfterDrop(cfg));
    } else {
      OutOfOrderDisagrees(cfg, delta);
      assert !AgreeOn(cfg, delta, drops, LateChecks(cfg.limit - 1), AtWindow(cfg));
    }
  }
}
