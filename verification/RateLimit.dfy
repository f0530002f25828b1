/**
  The token buckets of the login and the contact form: bounded maps of buckets
  that refill with time, forget idle keys and evict the oldest when full. The
  contact form uses no pinned key and does not fail closed.
  internal/web/adminapi/rate_limit.go, internal/web/public/contact_security.go.
 */
module RateLimit {
  type Instant = int

  /** Tokens are real numbers here; rounding is not modelled. */
  datatype Bucket = Bucket(tokens: real, lastRefill: Instant, lastSeen: Instant)

  /** pinned is the key that is never removed, or "" for none. */
  datatype Config = Config(
    capacity: int, refillInterval: int, idleExpiry: int, maxEntries: int, pinned: string, failClosed: bool)

  type Buckets = map<string, Bucket>

  function Min(a: real, b: real): real { if a < b then a else b }

  /** The tokens that some time earns; nothing is said here of an interval of 0. */
  function Gain(c: Config, elapsed: int): real {
    if c.refillInterval != 0 then elapsed as real / c.refillInterval as real else 0.0
  }

  /** min(capacity, tokens + elapsed / refillInterval); division by an interval of 0 gives +Inf. */
  function Filled(c: Config, tokens: real, elapsed: int): real {
    if c.refillInterval == 0 then c.capacity as real else Min(c.capacity as real, tokens + Gain(c, elapsed))
  }

  predicate Idle(c: Config, s: Buckets, key: string, now: Instant)
    requires key in s
  {
    key != c.pinned && now - s[key].lastSeen >= c.idleExpiry
  }

  function Swept(c: Config, s: Buckets, now: Instant): Buckets {
    map k | k in s && !Idle(c, s, k, now) :: s[k]
  }

  function Refilled(c: Config, b: Bucket, now: Instant): Bucket {
    if now > b.lastRefill then Bucket(Filled(c, b.tokens, now - b.lastRefill), now, now)
    else b.(lastSeen := now)
  }

  function Take(c: Config, s: Buckets, key: string, b: Bucket, now: Instant): (Buckets, bool) {
    var r := Refilled(c, b, now);
    if r.tokens < 1.0 then (s[key := r], false) else (s[key := r.(tokens := r.tokens - 1.0)], true)
  }

  predicate Evictable(c: Config, s: Buckets, key: string) { key in s && key != c.pinned }

  /** What evictOldest may choose. */
  ghost predicate IsOldest(c: Config, s: Buckets, victim: string) {
    && Evictable(c, s, victim)
    && forall k | Evictable(c, s, k) :: s[victim].lastSeen <= s[k].lastSeen
  }

  predicate Full(c: Config, s: Buckets) { |s| >= c.maxEntries }

  ghost predicate CanEvict(c: Config, s: Buckets) { exists k :: Evictable(c, s, k) }

  /** allow refuses without looking at a bucket; s has been swept. */
  ghost predicate Refuses(c: Config, s: Buckets, key: string) {
    || (c.failClosed && Full(c, s))
    || (key !in s &&
        (c.capacity <= 0 || c.refillInterval <= 0 || c.maxEntries <= 0 || (Full(c, s) && (c.failClosed || !CanEvict(c, s)))))
  }

  /** allow evicts a bucket to make room; s has been swept. */
  ghost predicate Evicts(c: Config, s: Buckets, key: string) {
    key !in s && Full(c, s) && !Refuses(c, s, key)
  }

  /** The rest of allow after the sweep, evicting victim if it has to evict. */
  ghost function Decide(c: Config, s: Buckets, key: string, now: Instant, victim: string): (Buckets, bool) {
    if Refuses(c, s, key) then (s, false)
    else
      var s2 := if Evicts(c, s, key) then s - {victim} else s;
      Take(c, s2, key, if key in s2 then s2[key] else Bucket(c.capacity as real, now, now), now)
  }

  /** One call of allow. */
  ghost function Allow(c: Config, s: Buckets, key: string, now: Instant, victim: string): (Buckets, bool) {
    Decide(c, Swept(c, s, now), key, now, victim)
  }

  /** newLoginLimiter's sets and newContactRateLimiter: the pinned bucket starts full, last seen at the zero time. */
  function Start(c: Config, zero: Instant): Buckets {
    if c.pinned != "" && c.maxEntries > 0 then map[c.pinned := Bucket(c.capacity as real, zero, zero)] else map[]
  }

  // ----- In place -----

  class BucketSet {
    const c: Config
    var buckets: Buckets

    constructor (c: Config, zero: Instant)
      ensures this.c == c && buckets == Start(c, zero)
    {
      this.c := c;
      buckets := map[];
      if c.pinned != "" && c.maxEntries > 0 {
        buckets := map[c.pinned := Bucket(c.capacity as real, zero, zero)];
      }
    }

    method Sweep(now: Instant)
      modifies this
      ensures buckets == Swept(c, old(buckets), now)
    {
      var rest := buckets.Keys;
      while rest != {}
        invariant rest <= buckets.Keys <= old(buckets).Keys
        invariant forall k :: k in buckets <==> k in old(buckets) && (k in rest || !Idle(c, old(buckets), k, now))
        invariant forall k | k in buckets :: buckets[k] == old(buckets)[k]
        decreases |rest|
      {
        var candidate :| candidate in rest;
        rest := rest - {candidate};
        if candidate != c.pinned && now - buckets[candidate].lastSeen >= c.idleExpiry {
          buckets := buckets - {candidate};
        }
      }
      assert buckets == Swept(c, old(buckets), now);
    }

    /** evictOldest; "" stands for "nothing found yet", as keys are never empty. */
    method EvictOldest() returns (ok: bool, ghost victim: string)
      requires "" !in buckets
      modifies this
      ensures ok <==> CanEvict(c, old(buckets))
      ensures ok ==> IsOldest(c, old(buckets), victim) && buckets == old(buckets) - {victim}
      ensures !ok ==> buckets == old(buckets)
    {
      var oldest, seen := "", 0;
      var rest := buckets.Keys;
      while rest != {}
        invariant rest <= buckets.Keys && buckets == old(buckets)
        invariant oldest == "" ==> forall k | k in buckets && k !in rest :: k == c.pinned
        invariant oldest != "" ==> Evictable(c, buckets, oldest) && seen == buckets[oldest].lastSeen
        invariant oldest != "" ==> forall k | Evictable(c, buckets, k) && k !in rest :: seen <= buckets[k].lastSeen
        decreases |rest|
      {
        var key :| key in rest;
        rest := rest - {key};
        if key != c.pinned && (oldest == "" || buckets[key].lastSeen < seen) {
          oldest, seen := key, buckets[key].lastSeen;
        }
      }
      if oldest == "" {
        return false, "";
      }
      assert Evictable(c, buckets, oldest);
      buckets := buckets - {oldest};
      return true, oldest;
    }

    method AllowKey(key: string, now: Instant) returns (ok: bool, ghost victim: string)
      requires key != "" && "" !in buckets
      modifies this
      ensures "" !in buckets
      ensures (buckets, ok) == Allow(c, old(buckets), key, now, victim)
      ensures Evicts(c, Swept(c, old(buckets), now), key) ==> IsOldest(c, Swept(c, old(buckets), now), victim)
    {
      victim := "";
      Sweep(now);
      if c.failClosed && |buckets| >= c.maxEntries {
        return false, victim;
      }
      if key !in buckets {
        if c.capacity <= 0 || c.refillInterval <= 0 || c.maxEntries <= 0 {
          return false, victim;
        }
        if |buckets| >= c.maxEntries {
          if c.failClosed {
            return false, victim;
          }
          var evicted;
          evicted, victim := EvictOldest();
          if !evicted {
            return false, victim;
          }
        }
      }
      ghost var kept := buckets;
      if key !in buckets {
        buckets := buckets[key := Bucket(c.capacity as real, now, now)];
      }
      var bucket := buckets[key];
      if now > bucket.lastRefill {
        bucket := bucket.(tokens := Filled(c, bucket.tokens, now - bucket.lastRefill), lastRefill := now);
      }
      bucket := bucket.(lastSeen := now);
      if bucket.tokens < 1.0 {
        buckets := buckets[key := bucket];
        assert buckets == kept[key := bucket];
        return false, victim;
      }
      buckets := buckets[key := bucket.(tokens := bucket.tokens - 1.0)];
      assert buckets == kept[key := bucket.(tokens := bucket.tokens - 1.0)];
      return true, victim;
    }
  }

  // ----- The answer -----

  /** The keys that a call at this time finds: the pinned one, and those seen within the idle expiry. */
  function Kept(c: Config, s: Buckets, now: Instant): set<string> {
    set k | k in s && (k == c.pinned || now - s[k].lastSeen < c.idleExpiry)
  }

  /** The bucket holds a whole token, after what it has earned since its last refill. */
  predicate HasToken(c: Config, b: Bucket, now: Instant) {
    if now <= b.lastRefill then b.tokens >= 1.0
    else c.capacity >= 1 && (c.refillInterval == 0 || b.tokens + (now - b.lastRefill) as real / c.refillInterval as real >= 1.0)
  }

  lemma KeptKeys(c: Config, s: Buckets, now: Instant)
    ensures Swept(c, s, now).Keys == Kept(c, s, now) && |Swept(c, s, now)| == |Kept(c, s, now)|
  {
    var s1 := Swept(c, s, now);
    assert |s1| == |s1.Keys|;
  }

  lemma TakesToken(c: Config, s: Buckets, key: string, b: Bucket, now: Instant)
    ensures Take(c, s, key, b, now).1 <==> HasToken(c, b, now)
  {
  }

  /**
    When a call is allowed, in terms of the map before it: never while a limiter
    that fails closed is full, whether the key has a bucket or not; otherwise a
    known key needs a whole token, and a new one needs room, or somebody to
    evict.
   */
  lemma AllowedExactly(c: Config, s: Buckets, key: string, now: Instant, victim: string)
    ensures Allow(c, s, key, now, victim).1 <==>
            if c.failClosed && |Kept(c, s, now)| >= c.maxEntries then false
            else if key in Kept(c, s, now) then HasToken(c, s[key], now)
            else
              && c.capacity >= 1 && c.refillInterval >= 1 && c.maxEntries >= 1
              && (|Kept(c, s, now)| < c.maxEntries || exists k :: k in Kept(c, s, now) && k != c.pinned)
  {
    KeptKeys(c, s, now);
    var s1 := Swept(c, s, now);
    assert forall k | k in s1 :: s1[k] == s[k];
    assert CanEvict(c, s1) <==> exists k :: k in Kept(c, s, now) && k != c.pinned by {
      if CanEvict(c, s1) {
        var k :| Evictable(c, s1, k);
        assert k in Kept(c, s, now);
      }
      if k :| k in Kept(c, s, now) && k != c.pinned {
        assert Evictable(c, s1, k);
      }
    }
    hide CanEvict;
    if !Refuses(c, s1, key) {
      var s2 := if Evicts(c, s1, key) then s1 - {victim} else s1;
      TakesToken(c, s2, key, if key in s2 then s2[key] else Bucket(c.capacity as real, now, now), now);
    }
    hide Take;
    hide Kept;
    hide Swept;
  }

  // ----- Size and the pinned key -----

  /** The map never exceeds its bound, and the pinned key stays. */
  lemma AllowBounded(c: Config, s: Buckets, key: string, now: Instant, victim: string)
    requires |s| <= c.maxEntries
    requires Evicts(c, Swept(c, s, now), key) ==> IsOldest(c, Swept(c, s, now), victim)
    ensures |Allow(c, s, key, now, victim).0| <= c.maxEntries
    ensures c.pinned in s ==> c.pinned in Allow(c, s, key, now, victim).0
  {
    var s1 := Swept(c, s, now);
    SweptSmaller(c, s, now);
    if !Refuses(c, s1, key) {
      var s2 := if Evicts(c, s1, key) then s1 - {victim} else s1;
      if key in s1 {
        assert s2[key := s2[key]].Keys == s2.Keys;
      }
      KeySizes(s1, victim);
      Take0(c, s2, key, if key in s2 then s2[key] else Bucket(c.capacity as real, now, now), now);
    }
  }

  lemma SweptSmaller(c: Config, s: Buckets, now: Instant)
    ensures |Swept(c, s, now)| <= |s|
  {
    Subset(Swept(c, s, now).Keys, s.Keys);
    assert |Swept(c, s, now)| == |Swept(c, s, now).Keys| && |s| == |s.Keys|;
  }

  lemma {:induction false} Subset(a: set<string>, b: set<string>)
    requires a <= b
    ensures |a| <= |b|
    decreases b
  {
    if a != {} {
      var x :| x in a;
      Subset(a - {x}, b - {x});
    }
  }

  lemma KeySizes(s: Buckets, victim: string)
    ensures victim in s ==> |s - {victim}| == |s| - 1
  {
    assert (s - {victim}).Keys == s.Keys - {victim};
    assert |s - {victim}| == |(s - {victim}).Keys| && |s| == |s.Keys|;
  }

  lemma Take0(c: Config, s: Buckets, key: string, b: Bucket, now: Instant)
    ensures |Take(c, s, key, b, now).0| == if key in s then |s| else |s| + 1
    ensures Take(c, s, key, b, now).0.Keys == s.Keys + {key}
  {
    var t := Take(c, s, key, b, now).0;
    assert t.Keys == s.Keys + {key};
    assert |t| == |t.Keys| && |s| == |s.Keys|;
  }

  // ----- What a bucket holds -----

  /** The tokens a call for the key would find; a key without a bucket has a full one. */
  function Level(c: Config, s: Buckets, key: string, now: Instant): real {
    if key in s then Min(c.capacity as real, s[key].tokens + Gain(c, now - s[key].lastRefill)) else c.capacity as real
  }

  predicate Usable(c: Config) { c.capacity > 0 && c.refillInterval > 0 && c.maxEntries > 0 }

  /** A bucket of a key that was not idle long enough to be full again is not forgotten. */
  predicate Patient(c: Config) { c.idleExpiry >= c.capacity * c.refillInterval }

  /** Buckets between calls, on clocks that do not go back. */
  predicate Settled(c: Config, s: Buckets, t: Instant) {
    forall k | k in s ::
      && 0.0 <= s[k].tokens <= c.capacity as real && s[k].lastRefill <= t
      && (k != c.pinned ==> s[k].lastRefill == s[k].lastSeen)
  }

  lemma GainSum(c: Config, a: int, b: int)
    requires Usable(c)
    ensures Gain(c, a + b) == Gain(c, a) + Gain(c, b)
    ensures b >= 0 ==> Gain(c, b) >= 0.0
  {
  }

  lemma FullAfter(c: Config, elapsed: int)
    requires Usable(c) && elapsed >= c.capacity * c.refillInterval
    ensures Gain(c, elapsed) >= c.capacity as real
  {
    var r := c.refillInterval as real;
    assert elapsed as real >= c.capacity as real * r;
    assert (c.capacity as real * r) / r == c.capacity as real;
  }

  /** A key that is forgotten would have had a full bucket, now or later. */
  lemma SweptLevel(c: Config, s: Buckets, now: Instant, key: string, later: Instant)
    requires Usable(c) && Patient(c) && Settled(c, s, now) && now <= later
    ensures Level(c, Swept(c, s, now), key, later) == Level(c, s, key, later)
  {
    if key in s && Idle(c, s, key, now) {
      FullAfter(c, later - s[key].lastRefill);
    }
  }

  lemma TakeLevel(c: Config, s: Buckets, key: string, now: Instant, k: string, later: Instant)
    requires Usable(c) && Settled(c, s, now) && now <= later
    ensures var b := if key in s then s[key] else Bucket(c.capacity as real, now, now);
            var (s', ok) := Take(c, s, key, b, now);
            && (ok <==> Level(c, s, key, now) >= 1.0)
            && Settled(c, s', now)
            && Level(c, s', k, later) ==
               if k == key then Min(c.capacity as real, Level(c, s, key, now) - (if ok then 1.0 else 0.0) + Gain(c, later - now))
               else Level(c, s, k, later)
  {
    GainSum(c, 0, 0);
    GainSum(c, 0, later - now);
    if key in s {
      GainSum(c, now - s[key].lastRefill, later - now);
      GainSum(c, 0, now - s[key].lastRefill);
    }
  }

  lemma SweptSettled(c: Config, s: Buckets, now: Instant)
    requires Settled(c, s, now)
    ensures Settled(c, Swept(c, s, now), now)
  {
  }

  lemma SettledLater(c: Config, s: Buckets, t: Instant, t': Instant)
    requires Settled(c, s, t) && t <= t'
    ensures Settled(c, s, t')
  {
  }

  lemma DecideLevel(c: Config, s: Buckets, key: string, now: Instant, victim: string, k: string, later: Instant)
    requires Usable(c) && Settled(c, s, now) && now <= later
    requires Evicts(c, s, key) ==> victim != k && victim != key
    ensures var (s', ok) := Decide(c, s, key, now, victim);
            && (ok <==> !Refuses(c, s, key) && Level(c, s, key, now) >= 1.0)
            && Settled(c, s', now)
            && Level(c, s', k, later) ==
               if k == key && !Refuses(c, s, key)
               then Min(c.capacity as real, Level(c, s, key, now) - (if ok then 1.0 else 0.0) + Gain(c, later - now))
               else Level(c, s, k, later)
  {
    hide Level;
    hide Settled;
    hide Take;
    if !Refuses(c, s, key) {
      var s2 := if Evicts(c, s, key) then s - {victim} else s;
      EvictLevel(c, s, victim, now, key, now);
      EvictLevel(c, s, victim, now, k, later);
      TakeLevel(c, s2, key, now, k, later);
    }
  }

  /**
    A call is allowed exactly when it is not refused for lack of room and finds a
    whole token; it takes one token of its own key and nothing of the others,
    except of the key it evicts.
   */
  lemma AllowLevel(c: Config, s: Buckets, key: string, now: Instant, victim: string, k: string, later: Instant)
    requires Usable(c) && Patient(c) && Settled(c, s, now) && now <= later
    requires Evicts(c, Swept(c, s, now), key) ==> victim != k && victim != key
    ensures var (s', ok) := Allow(c, s, key, now, victim);
            && (ok <==> !Refuses(c, Swept(c, s, now), key) && Level(c, s, key, now) >= 1.0)
            && Settled(c, s', now)
            && Level(c, s', k, later) ==
               if k == key && !Refuses(c, Swept(c, s, now), key)
               then Min(c.capacity as real, Level(c, s, key, now) - (if ok then 1.0 else 0.0) + Gain(c, later - now))
               else Level(c, s, k, later)
  {
    hide Level;
    hide Settled;
    hide Decide;
    SweptSettled(c, s, now);
    SweptLevel(c, s, now, key, now);
    SweptLevel(c, s, now, k, later);
    DecideLevel(c, Swept(c, s, now), key, now, victim, k, later);
  }

  lemma EvictLevel(c: Config, s: Buckets, victim: string, now: Instant, k: string, later: Instant)
    requires Settled(c, s, now)
    ensures Settled(c, s - {victim}, now)
    ensures k != victim ==> Level(c, s - {victim}, k, later) == Level(c, s, k, later)
  {
  }

  // ----- Runs of calls, with the sweep or without it -----

  datatype Call = Call(key: string, now: Instant, victim: string)

  /** What a call finds when it sweeps, and when it does not. */
  function Found(c: Config, s: Buckets, now: Instant, sweeps: bool): Buckets {
    if sweeps then Swept(c, s, now) else s
  }

  ghost function Step(c: Config, s: Buckets, call: Call, sweeps: bool): (Buckets, bool) {
    Decide(c, Found(c, s, call.now, sweeps), call.key, call.now, call.victim)
  }

  ghost predicate StepLegal(c: Config, s: Buckets, call: Call, from: Instant, sweeps: bool) {
    var s1 := Found(c, s, call.now, sweeps);
    from <= call.now && call.key != "" && (Evicts(c, s1, call.key) ==> IsOldest(c, s1, call.victim))
  }

  /** Calls in order on a clock that does not go back, each evicting an oldest bucket if it has to. */
  ghost predicate Legal(c: Config, s: Buckets, calls: seq<Call>, from: Instant, sweeps: bool)
    decreases |calls|
  {
    calls == [] ||
    (StepLegal(c, s, calls[0], from, sweeps) &&
     Legal(c, Step(c, s, calls[0], sweeps).0, calls[1..], calls[0].now, sweeps))
  }

  /** No call evicts the bucket of k. */
  ghost predicate Sparing(c: Config, s: Buckets, calls: seq<Call>, k: string, sweeps: bool)
    decreases |calls|
  {
    calls == [] ||
    (var call := calls[0];
     && (Evicts(c, Found(c, s, call.now, sweeps), call.key) ==> call.victim != k)
     && Sparing(c, Step(c, s, call, sweeps).0, calls[1..], k, sweeps))
  }

  ghost function Answers(c: Config, s: Buckets, calls: seq<Call>, sweeps: bool): (r: seq<bool>)
    ensures |r| == |calls|
    decreases |calls|
  {
    if calls == [] then []
    else [Step(c, s, calls[0], sweeps).1] + Answers(c, Step(c, s, calls[0], sweeps).0, calls[1..], sweeps)
  }

  /** How many of the calls for k are allowed. */
  ghost function Allowed(c: Config, s: Buckets, calls: seq<Call>, k: string, sweeps: bool): nat
    decreases |calls|
  {
    if calls == [] then 0
    else
      var r := Step(c, s, calls[0], sweeps);
      (if calls[0].key == k && r.1 then 1 else 0) + Allowed(c, r.0, calls[1..], k, sweeps)
  }

  function LastTime(calls: seq<Call>, from: Instant): Instant {
    if calls == [] then from else calls[|calls| - 1].now
  }

  lemma {:induction false} TimesGrow(c: Config, s: Buckets, calls: seq<Call>, from: Instant, sweeps: bool)
    requires Legal(c, s, calls, from, sweeps)
    ensures from <= LastTime(calls, from)
    decreases |calls|
  {
    hide Step;
    if calls != [] {
      TimesGrow(c, Step(c, s, calls[0], sweeps).0, calls[1..], calls[0].now, sweeps);
      assert LastTime(calls[1..], calls[0].now) == LastTime(calls, from);
    }
  }

  lemma LevelBounds(c: Config, s: Buckets, k: string, t: Instant)
    requires Usable(c) && Settled(c, s, t)
    ensures 0.0 <= Level(c, s, k, t) <= c.capacity as real
  {
    if k in s {
      GainSum(c, 0, t - s[k].lastRefill);
    }
  }

  lemma LevelGrows(c: Config, s: Buckets, k: string, t: Instant, t': Instant)
    requires Usable(c) && Settled(c, s, t) && t <= t'
    ensures Level(c, s, k, t') <= Level(c, s, k, t) + Gain(c, t' - t)
  {
    GainSum(c, 0, t' - t);
    if k in s {
      GainSum(c, t - s[k].lastRefill, t' - t);
    }
  }

  /** One call, with or without the sweep, as AllowLevel has it. */
  lemma StepLevel(c: Config, s: Buckets, call: Call, from: Instant, k: string, sweeps: bool)
    requires Usable(c) && (sweeps ==> Patient(c)) && Settled(c, s, from) && StepLegal(c, s, call, from, sweeps)
    requires Evicts(c, Found(c, s, call.now, sweeps), call.key) ==> call.victim != k
    ensures var (s', ok) := Step(c, s, call, sweeps);
            && Settled(c, s', call.now)
            && (call.key == k && ok ==> Level(c, s', k, call.now) <= Level(c, s, k, call.now) - 1.0)
            && Level(c, s', k, call.now) <= Level(c, s, k, call.now)
  {
    SettledLater(c, s, from, call.now);
    GainSum(c, 0, 0);
    LevelBounds(c, s, k, call.now);
    hide Level;
    hide Settled;
    hide Gain;
    hide Decide;
    var s1 := Found(c, s, call.now, sweeps);
    if sweeps {
      SweptSettled(c, s, call.now);
      SweptLevel(c, s, call.now, k, call.now);
    }
    DecideLevel(c, s1, call.key, call.now, call.victim, k, call.now);
  }

  lemma {:induction false} AllowedWithin(c: Config, s: Buckets, calls: seq<Call>, from: Instant, k: string, sweeps: bool)
    requires Usable(c) && (sweeps ==> Patient(c)) && Settled(c, s, from)
    requires Legal(c, s, calls, from, sweeps) && Sparing(c, s, calls, k, sweeps)
    ensures Allowed(c, s, calls, k, sweeps) as real <= Level(c, s, k, from) + Gain(c, LastTime(calls, from) - from)
    decreases |calls|
  {
    hide Level;
    hide Settled;
    hide Gain;
    hide Patient;
    hide Step;
    if calls == [] {
      LevelBounds(c, s, k, from);
      GainSum(c, 0, 0);
    } else {
      var call := calls[0];
      StepLevel(c, s, call, from, k, sweeps);
      AllowedWithin(c, Step(c, s, call, sweeps).0, calls[1..], call.now, k, sweeps);
      LevelGrows(c, s, k, from, call.now);
      GainSum(c, call.now - from, LastTime(calls, from) - call.now);
      assert LastTime(calls[1..], call.now) == LastTime(calls, from);
    }
  }

  /**
    The rate bound: between any two moments, a key whose bucket is not evicted for
    lack of room is allowed at most capacity calls and one more per refill
    interval; with sweeping, when the limiter is patient.
   */
  lemma RateBound(c: Config, s: Buckets, calls: seq<Call>, from: Instant, k: string, sweeps: bool)
    requires Usable(c) && (sweeps ==> Patient(c)) && Settled(c, s, from)
    requires Legal(c, s, calls, from, sweeps) && Sparing(c, s, calls, k, sweeps)
    ensures Allowed(c, s, calls, k, sweeps) as real <= c.capacity as real + (LastTime(calls, from) - from) as real / c.refillInterval as real
  {
    AllowedWithin(c, s, calls, from, k, sweeps);
    LevelBounds(c, s, k, from);
  }
}
