/**
  Whether anybody can notice that the token buckets forget idle keys: the
  answers to any sequence of calls, with the sweep and without it.
  internal/web/adminapi/rate_limit.go, internal/web/public/contact_security.go.
 */
module RateSweeps {
  import opened RateLimit

  // ----- Whether forgetting idle keys can be noticed -----

  /** What is asked of the limiter. */
  datatype Request = Request(key: string, now: Instant)

  function Asked(calls: seq<Call>): (r: seq<Request>)
    ensures |r| == |calls| && forall i | 0 <= i < |r| :: r[i] == Request(calls[i].key, calls[i].now)
  {
    seq(|calls|, i requires 0 <= i < |calls| => Request(calls[i].key, calls[i].now))
  }

  /** The limiter may answer so, for some choice among equally old buckets to evict. */
  ghost predicate CanAnswer(c: Config, s: Buckets, from: Instant, asked: seq<Request>, answers: seq<bool>, sweeps: bool) {
    exists calls :: Asked(calls) == asked && Legal(c, s, calls, from, sweeps) && Answers(c, s, calls, sweeps) == answers
  }

  /** No sequence of calls to a new limiter tells whether it sweeps. */
  ghost predicate SweepUnobservable(c: Config, zero: Instant) {
    forall from, asked, answers | zero <= from ::
      CanAnswer(c, Start(c, zero), from, asked, answers, true) <==> CanAnswer(c, Start(c, zero), from, asked, answers, false)
  }

  /** There is room for a bucket besides the pinned one. */
  predicate Room(c: Config) {
    c.maxEntries >= if c.pinned != "" then 2 else 1
  }

  /** The kept buckets are the swept ones and others that a sweep would remove. */
  ghost predicate Keeps(c: Config, s: Buckets, u: Buckets, t: Instant) {
    && (forall k | k in s :: k in u && u[k] == s[k])
    && (forall k | k in u && k !in s :: Idle(c, u, k, t))
    && |u| <= c.maxEntries && "" !in u && Settled(c, u, t)
  }

  lemma KeepsSwept(c: Config, s: Buckets, u: Buckets, t: Instant, now: Instant)
    requires Keeps(c, s, u, t) && t <= now
    ensures Keeps(c, Swept(c, s, now), u, now)
  {
  }

  lemma SubmapSame(s: Buckets, u: Buckets)
    requires forall k | k in s :: k in u && u[k] == s[k]
    ensures u.Keys <= s.Keys ==> u == s
    ensures |u| <= |s| ==> u == s
  {
    assert |s| == |s.Keys| && |u| == |u.Keys|;
    Cardinalities(s.Keys, u.Keys);
    if u.Keys <= s.Keys {
      assert u.Keys == s.Keys;
    }
  }

  lemma {:induction false} Cardinalities(a: set<string>, b: set<string>)
    requires a <= b
    ensures |b| <= |a| ==> b <= a
    decreases b
  {
    if a == {} {
      assert |b| <= 0 ==> b == {};
    } else {
      var x :| x in a;
      Cardinalities(a - {x}, b - {x});
      assert forall y | y in b :: y == x || y in b - {x};
    }
  }

  /** A full limiter keeps nothing that a sweep would remove. */
  lemma FullKeepsSame(c: Config, s: Buckets, u: Buckets, t: Instant)
    requires Keeps(c, s, u, t) && Full(c, s)
    ensures u == s
  {
    SubmapSame(s, u);
  }

  /** Neither limiter refuses for lack of room unless both do. */
  lemma RefuseAlike(c: Config, s: Buckets, u: Buckets, key: string, now: Instant)
    requires Usable(c) && Keeps(c, s, u, now) && (c.failClosed ==> !Full(c, u))
    ensures Refuses(c, s, key) <==> Refuses(c, u, key)
    ensures Evicts(c, s, key) ==> u == s
  {
    if Full(c, s) {
      FullKeepsSame(c, s, u, now);
    } else if u != s && Full(c, u) {
      OneIdle(c, s, u, now);
    }
  }

  lemma OneIdle(c: Config, s: Buckets, u: Buckets, now: Instant)
    requires Keeps(c, s, u, now) && u != s
    ensures exists k :: k in u && k !in s && Evictable(c, u, k) && Idle(c, u, k, now)
  {
    SubmapSame(s, u);
    var k :| k in u.Keys && k !in s.Keys;
    assert Evictable(c, u, k);
  }

  /** What is evicted from the kept buckets alone would have been swept. */
  lemma EvictsIdle(c: Config, s: Buckets, u: Buckets, victim: string, now: Instant)
    requires Keeps(c, s, u, now) && !Full(c, s) && Full(c, u) && IsOldest(c, u, victim)
    ensures Idle(c, u, victim, now)
  {
    assert u != s;
    OneIdle(c, s, u, now);
    var k :| k in u && k !in s && Evictable(c, u, k) && Idle(c, u, k, now);
  }

  /** A forgotten key starts with the bucket that it would have had. */
  lemma BucketAlike(c: Config, u: Buckets, key: string, now: Instant)
    requires Usable(c) && Patient(c) && key in u && Idle(c, u, key, now) && Settled(c, u, now)
    ensures Refilled(c, u[key], now) == Refilled(c, Bucket(c.capacity as real, now, now), now)
  {
    FullAfter(c, now - u[key].lastRefill);
  }

  /** One call to both limiters, the kept buckets after it being again those of the other and idle ones. */
  lemma StepAlike(c: Config, s: Buckets, u: Buckets, call: Call, victim: string, from: Instant)
    requires Usable(c) && Patient(c) && Keeps(c, s, u, from) && (c.failClosed ==> !Full(c, u))
    requires StepLegal(c, u, call, from, false)
    requires Evicts(c, Swept(c, s, call.now), call.key) ==> victim == call.victim
    ensures var (s', ok) := Step(c, s, call.(victim := victim), true); var (u', ok') := Step(c, u, call, false);
            ok == ok' && Keeps(c, s', u', call.now)
  {
    var s1, key, now := Swept(c, s, call.now), call.key, call.now;
    KeepsSwept(c, s, u, from, now);
    RefuseAlike(c, s1, u, key, now);
    if !Refuses(c, u, key) {
      EvictedKeeps(c, s1, u, key, now, call.victim);
      var s2 := if Evicts(c, s1, key) then s1 - {victim} else s1;
      var u2 := if Evicts(c, u, key) then u - {call.victim} else u;
      hide Keeps;
      hide Settled;
      TakeAlike(c, s2, u2, key, now);
    }
  }

  /** Making room in both. */
  lemma EvictedKeeps(c: Config, s: Buckets, u: Buckets, key: string, now: Instant, victim: string)
    requires Usable(c) && Keeps(c, s, u, now) && !Refuses(c, s, key) && !Refuses(c, u, key)
    requires forall k | k in s :: !Idle(c, s, k, now)
    requires Evicts(c, s, key) ==> u == s
    requires Evicts(c, u, key) ==> IsOldest(c, u, victim)
    ensures var s2 := if Evicts(c, s, key) then s - {victim} else s;
            var u2 := if Evicts(c, u, key) then u - {victim} else u;
            Keeps(c, s2, u2, now) && (key !in u2 ==> |u2| < c.maxEntries) && (key in u2 ==> key in u)
  {
    KeySizes(u, victim);
    if Evicts(c, u, key) && !Full(c, s) {
      EvictsIdle(c, s, u, victim, now);
      assert victim !in s;
    } else if Evicts(c, u, key) {
      FullKeepsSame(c, s, u, now);
    }
  }

  /** Writing the same bucket into both. */
  lemma PutKeeps(c: Config, s: Buckets, u: Buckets, key: string, b: Bucket, now: Instant)
    requires Keeps(c, s, u, now) && |u[key := b]| <= c.maxEntries && key != "" && Settled(c, u[key := b], now)
    ensures Keeps(c, s[key := b], u[key := b], now)
  {
    hide Settled;
  }

  lemma TakeAlike(c: Config, s: Buckets, u: Buckets, key: string, now: Instant)
    requires Usable(c) && Patient(c) && Keeps(c, s, u, now) && (key !in u ==> |u| < c.maxEntries) && key != ""
    ensures var (s', ok) := Take(c, s, key, if key in s then s[key] else Bucket(c.capacity as real, now, now), now);
            var (u', ok') := Take(c, u, key, if key in u then u[key] else Bucket(c.capacity as real, now, now), now);
            ok == ok' && Keeps(c, s', u', now)
  {
    var b := if key in u then u[key] else Bucket(c.capacity as real, now, now);
    var b' := if key in s then s[key] else Bucket(c.capacity as real, now, now);
    assert Settled(c, u, now) && |u| <= c.maxEntries;
    assert Refilled(c, b, now) == Refilled(c, b', now) by {
      if key in u && key !in s {
        BucketAlike(c, u, key, now);
      }
    }
    Take0(c, u, key, b, now);
    TakeLevel(c, u, key, now, key, now);
    hide Settled;
    hide Refilled;
    hide Keeps;
    hide Level;
    var r := Refilled(c, b, now);
    var t := if r.tokens < 1.0 then r else r.(tokens := r.tokens - 1.0);
    assert Take(c, u, key, b, now).0 == u[key := t];
    PutKeeps(c, s, u, key, t, now);
  }

  lemma StartKeeps(c: Config, zero: Instant, from: Instant)
    requires Usable(c) && zero <= from
    ensures Keeps(c, Start(c, zero), Start(c, zero), from)
  {
    assert Start(c, zero).Keys <= {c.pinned};
    Subset(Start(c, zero).Keys, {c.pinned});
    assert |Start(c, zero)| == |Start(c, zero).Keys|;
  }

  /** Whether the map was ever full, seen without the sweep. */
  ghost predicate EverFull(c: Config, u: Buckets, calls: seq<Call>)
    decreases |calls|
  {
    calls != [] && (Full(c, u) || EverFull(c, Step(c, u, calls[0], false).0, calls[1..]))
  }

  /** Calls that the keeping limiter answered get the same answers from the sweeping one. */
  lemma {:induction false} SweptAnswersKept(c: Config, s: Buckets, u: Buckets, calls: seq<Call>, from: Instant)
    requires Usable(c) && Patient(c) && Keeps(c, s, u, from) && Legal(c, u, calls, from, false)
    requires c.failClosed ==> !EverFull(c, u, calls)
    ensures Legal(c, s, calls, from, true) && Answers(c, s, calls, true) == Answers(c, u, calls, false)
    decreases |calls|
  {
    hide Keeps;
    hide Step;
    hide Patient;
    if calls != [] {
      var call := calls[0];
      assert call.(victim := call.victim) == call;
      StepAlike(c, s, u, call, call.victim, from);
      SweptStepLegal(c, s, u, call, from);
      SweptAnswersKept(c, Step(c, s, call, true).0, Step(c, u, call, false).0, calls[1..], call.now);
    }
  }

  lemma SweptStepLegal(c: Config, s: Buckets, u: Buckets, call: Call, from: Instant)
    requires Usable(c) && Keeps(c, s, u, from) && (c.failClosed ==> !Full(c, u)) && StepLegal(c, u, call, from, false)
    ensures StepLegal(c, s, call, from, true)
  {
    KeepsSwept(c, s, u, from, call.now);
    RefuseAlike(c, Swept(c, s, call.now), u, call.key, call.now);
    hide Keeps;
    hide Swept;
    hide IsOldest;
  }

  /** And the other way round, for a suitable choice of what the keeping limiter evicts. */
  lemma {:induction false} KeptAnswersSwept(c: Config, s: Buckets, u: Buckets, calls: seq<Call>, from: Instant)
    returns (calls': seq<Call>)
    requires Usable(c) && Patient(c) && Keeps(c, s, u, from) && Legal(c, s, calls, from, true) && !c.failClosed
    ensures Asked(calls') == Asked(calls)
    ensures Legal(c, u, calls', from, false) && Answers(c, u, calls', false) == Answers(c, s, calls, true)
    decreases |calls|
  {
    hide Keeps;
    hide Step;
    hide Patient;
    calls' := [];
    if calls != [] {
      var call := calls[0];
      var call' := KeptStep(c, s, u, call, from);
      assert call'.(victim := call.victim) == call;
      StepAlike(c, s, u, call', call.victim, from);
      var rest := KeptAnswersSwept(c, Step(c, s, call, true).0, Step(c, u, call', false).0, calls[1..], call.now);
      calls' := [call'] + rest;
      assert calls'[1..] == rest;
      AskedCons(calls', calls);
    }
  }

  lemma AskedCons(a: seq<Call>, b: seq<Call>)
    requires a != [] && b != [] && a[0] == b[0].(victim := a[0].victim) && Asked(a[1..]) == Asked(b[1..])
    ensures Asked(a) == Asked(b)
  {
    assert |a[1..]| == |b[1..]|;
    forall i | 0 < i < |a| ensures Asked(a)[i] == Asked(b)[i] {
      assert Asked(a[1..])[i - 1] == Asked(b[1..])[i - 1];
    }
  }

  lemma KeptStep(c: Config, s: Buckets, u: Buckets, call: Call, from: Instant) returns (call': Call)
    requires Usable(c) && Keeps(c, s, u, from) && !c.failClosed && StepLegal(c, s, call, from, true)
    ensures call' == call.(victim := call'.victim) && StepLegal(c, u, call', from, false)
    ensures Evicts(c, Swept(c, s, call.now), call.key) ==> call'.victim == call.victim
  {
    KeepsSwept(c, s, u, from, call.now);
    RefuseAlike(c, Swept(c, s, call.now), u, call.key, call.now);
    hide Keeps;
    call' := call;
    if Evicts(c, u, call.key) && !Evicts(c, Swept(c, s, call.now), call.key) {
      var victim := OldestThere(c, u);
      call' := call.(victim := victim);
    }
  }

  /** Some evictable bucket is the oldest. */
  lemma {:induction false} OldestThere(c: Config, u: Buckets) returns (victim: string)
    requires CanEvict(c, u)
    ensures IsOldest(c, u, victim)
    decreases |u|
  {
    var k :| Evictable(c, u, k);
    KeySizes(u, k);
    victim := k;
    assert forall x | Evictable(c, u, x) && x != k :: Evictable(c, u - {k}, x);
    if CanEvict(c, u - {k}) {
      victim := OldestThere(c, u - {k});
      if u[k].lastSeen < u[victim].lastSeen {
        victim := k;
      }
    }
  }

  /**
    A patient limiter that does not fail closed answers as if it never forgot a
    key; one that fails closed does as long as the map that forgets nothing is
    never full.
   */
  lemma PatientSweepUnobservable(c: Config, zero: Instant)
    requires Usable(c) && Patient(c) && !c.failClosed
    ensures SweepUnobservable(c, zero)
  {
    hide CanAnswer;
    forall from, asked, answers | zero <= from
      ensures CanAnswer(c, Start(c, zero), from, asked, answers, true) <==> CanAnswer(c, Start(c, zero), from, asked, answers, false)
    {
      SameAnswers(c, zero, from, asked, answers);
    }
  }

  lemma SameAnswers(c: Config, zero: Instant, from: Instant, asked: seq<Request>, answers: seq<bool>)
    requires Usable(c) && Patient(c) && !c.failClosed && zero <= from
    ensures CanAnswer(c, Start(c, zero), from, asked, answers, true) <==> CanAnswer(c, Start(c, zero), from, asked, answers, false)
  {
    var s := Start(c, zero);
    StartKeeps(c, zero, from);
    hide Legal;
    hide Answers;
    hide Keeps;
    if CanAnswer(c, s, from, asked, answers, true) {
      var calls :| Asked(calls) == asked && Legal(c, s, calls, from, true) && Answers(c, s, calls, true) == answers;
      var calls' := KeptAnswersSwept(c, s, s, calls, from);
    }
    if CanAnswer(c, s, from, asked, answers, false) {
      var calls :| Asked(calls) == asked && Legal(c, s, calls, from, false) && Answers(c, s, calls, false) == answers;
      SweptAnswersKept(c, s, s, calls, from);
    }
  }

  /** A fail-closed limiter: the same answers to every run in which the unswept map is never full. */
  lemma NeverFullUnobservable(c: Config, zero: Instant, calls: seq<Call>, from: Instant)
    requires Usable(c) && Patient(c) && zero <= from
    requires Legal(c, Start(c, zero), calls, from, false) && (c.failClosed ==> !EverFull(c, Start(c, zero), calls))
    ensures Legal(c, Start(c, zero), calls, from, true)
    ensures Answers(c, Start(c, zero), calls, true) == Answers(c, Start(c, zero), calls, false)
  {
    StartKeeps(c, zero, from);
    SweptAnswersKept(c, Start(c, zero), Start(c, zero), calls, from);
  }

  // ----- When it is noticed -----

  /** Only the pinned bucket is ever there. */
  lemma {:induction false} NoRoomSame(c: Config, s: Buckets, calls: seq<Call>, from: Instant)
    requires !Usable(c) || !Room(c)
    requires (forall k | k in s :: k == c.pinned && k != "") && (c.pinned != "" && c.maxEntries > 0 ==> c.pinned in s)
    ensures Legal(c, s, calls, from, true) <==> Legal(c, s, calls, from, false)
    ensures Answers(c, s, calls, true) == Answers(c, s, calls, false)
    decreases |calls|
  {
    if calls != [] {
      var call := calls[0];
      OnlyPinned(c, s, call);
      hide Take;
      NoRoomSame(c, Step(c, s, call, true).0, calls[1..], call.now);
    }
  }

  lemma OnlyPinned(c: Config, s: Buckets, call: Call)
    requires !Usable(c) || !Room(c)
    requires (forall k | k in s :: k == c.pinned && k != "") && (c.pinned != "" && c.maxEntries > 0 ==> c.pinned in s)
    ensures Swept(c, s, call.now) == s
    ensures !Evicts(c, s, call.key)
    ensures var s' := Decide(c, s, call.key, call.now, call.victim).0;
            (forall k | k in s' :: k == c.pinned && k != "") && (c.pinned != "" && c.maxEntries > 0 ==> c.pinned in s')
  {
    hide Refilled;
    if call.key !in s && c.pinned in s {
      assert s.Keys == {c.pinned};
      assert |s| == |s.Keys|;
    }
    assert !CanEvict(c, s);
  }

  /** Keys that differ from each other and from the pinned one. */
  function Name(c: Config, j: nat): (r: string)
    ensures |r| == |c.pinned| + 1 + j
  {
    seq(|c.pinned| + 1 + j, i => 'k')
  }

  /** The limiter that never forgets is full after as many new keys as it has entries, and refuses the next. */
  lemma {:induction false} KeptRefusesLast(c: Config, u: Buckets, calls: seq<Call>, j: nat)
    requires Usable(c) && c.failClosed && calls != [] && forall i | 0 <= i < |calls| :: calls[i].key == Name(c, j + i)
    requires (forall k | k in u :: |k| < |Name(c, j)|) && |u| + |calls| - 1 >= c.maxEntries
    ensures !Answers(c, u, calls, false)[|calls| - 1]
    decreases |calls|
  {
    var call := calls[0];
    assert call.key == Name(c, j + 0);
    NewKeyStep(c, u, call, j);
    hide Step;
    if |calls| > 1 {
      var u' := Step(c, u, call, false).0;
      assert forall i | 0 <= i < |calls[1..]| :: calls[1..][i].key == Name(c, j + 1 + i);
      KeptRefusesLast(c, u', calls[1..], j + 1);
    }
  }

  lemma NewKeyStep(c: Config, u: Buckets, call: Call, j: nat)
    requires Usable(c) && c.failClosed && call.key == Name(c, j) && forall k | k in u :: |k| < |Name(c, j)|
    ensures var (u', ok) := Step(c, u, call, false);
            && (forall k | k in u' :: |k| < |Name(c, j + 1)|)
            && if Full(c, u) then u' == u && !ok else |u'| == |u| + 1
  {
    assert call.key !in u;
    Take0(c, u, call.key, Bucket(c.capacity as real, call.now, call.now), call.now);
    hide Take;
  }

  /** The sweeping one has forgotten them all by then. */
  lemma {:induction false} SweptAllowsLast(c: Config, s: Buckets, calls: seq<Call>, from: Instant, later: Instant)
    requires Usable(c) && c.failClosed && Room(c) && calls != [] && from <= later && later - from >= c.idleExpiry
    requires forall i | 0 <= i < |calls| :: calls[i].now == (if i == |calls| - 1 then later else from) && |calls[i].key| > |c.pinned|
    requires forall k | k in s && k != c.pinned :: s[k].lastSeen <= from
    requires c.pinned == "" ==> "" !in s
    ensures Legal(c, s, calls, from, true) && Answers(c, s, calls, true)[|calls| - 1]
    decreases |calls|
  {
    var call := calls[0];
    if |calls| == 1 {
      OnlyPinnedLeft(c, s, later);
    } else {
      LastSeenNow(c, s, call, true);
      assert StepLegal(c, s, call, from, true);
      hide Step;
      SweptAllowsLast(c, Step(c, s, call, true).0, calls[1..], from, later);
    }
  }

  lemma OnlyPinnedLeft(c: Config, s: Buckets, now: Instant)
    requires Room(c) && forall k | k in s && k != c.pinned :: now - s[k].lastSeen >= c.idleExpiry
    requires c.pinned == "" ==> "" !in s
    ensures !Full(c, Swept(c, s, now)) && forall k | k in Swept(c, s, now) :: k == c.pinned
  {
    var s1 := Swept(c, s, now);
    Subset(s1.Keys, if c.pinned == "" then {} else {c.pinned});
    assert |s1| == |s1.Keys|;
  }

  /** After a call, every bucket was there before or was seen by it. */
  lemma LastSeenNow(c: Config, s: Buckets, call: Call, sweeps: bool)
    ensures var s' := Step(c, s, call, sweeps).0;
            forall k | k in s' :: if k == call.key then k in s || s'[k].lastSeen == call.now else k in s && s'[k] == s[k]
    ensures var s' := Step(c, s, call, sweeps).0;
            call.key in s' ==> s'[call.key].lastSeen == call.now || (call.key in s && s'[call.key] == s[call.key])
  {
  }

  function Wait(c: Config): int { if c.idleExpiry > 0 then c.idleExpiry else 0 }

  /** As many new keys as there are entries, and another one an idle time later. */
  function FillCalls(c: Config, zero: Instant): (r: seq<Call>)
    requires c.maxEntries >= 0
    ensures |r| == c.maxEntries + 1
    ensures forall i | 0 <= i < |r| :: r[i].key == Name(c, i) && r[i].now == if i == c.maxEntries then zero + Wait(c) else zero
  {
    seq(c.maxEntries + 1, j requires 0 <= j <= c.maxEntries => Call(Name(c, j), if j == c.maxEntries then zero + Wait(c) else zero, ""))
  }

  lemma SameKeys(calls: seq<Call>, calls': seq<Call>)
    requires Asked(calls) == Asked(calls')
    ensures |calls| == |calls'| && forall i | 0 <= i < |calls| :: calls[i].key == calls'[i].key && calls[i].now == calls'[i].now
  {
    assert |Asked(calls)| == |Asked(calls')|;
    forall i | 0 <= i < |calls| ensures calls[i].key == calls'[i].key && calls[i].now == calls'[i].now {
      assert Asked(calls)[i] == Asked(calls')[i];
    }
  }

  /** However the limiter that never forgets is asked for those keys, it refuses the last. */
  lemma KeeperStaysFull(c: Config, zero: Instant, calls: seq<Call>)
    requires Usable(c) && c.failClosed && Asked(calls) == Asked(FillCalls(c, zero))
    ensures |calls| == c.maxEntries + 1 && !Answers(c, Start(c, zero), calls, false)[c.maxEntries]
  {
    hide Answers;
    SameKeys(calls, FillCalls(c, zero));
    KeptRefusesLast(c, Start(c, zero), calls, 0);
  }

  /** A fail-closed limiter with room for a key shows that it forgets: it recovers from being full. */
  lemma FullFailClosedObservable(c: Config, zero: Instant)
    requires Usable(c) && Room(c) && c.failClosed
    ensures !SweepUnobservable(c, zero)
  {
    hide Legal;
    hide Answers;
    var s, calls := Start(c, zero), FillCalls(c, zero);
    SweptAllowsLast(c, s, calls, zero, zero + Wait(c));
    hide FillCalls;
    var asked, answers := Asked(calls), Answers(c, s, calls, true);
    assert CanAnswer(c, s, zero, asked, answers, true);
    if CanAnswer(c, s, zero, asked, answers, false) {
      var calls': seq<Call> :| Asked(calls') == asked && Legal(c, s, calls', zero, false) && Answers(c, s, calls', false) == answers;
      KeeperStaysFull(c, zero, calls');
      assert false;
    }
  }

  // ----- Impatience -----

  ghost function After(c: Config, s: Buckets, calls: seq<Call>, sweeps: bool): Buckets
    decreases |calls|
  {
    if calls == [] then s else After(c, Step(c, s, calls[0], sweeps).0, calls[1..], sweeps)
  }

  lemma {:induction false} LegalAppend(c: Config, s: Buckets, a: seq<Call>, b: seq<Call>, from: Instant, now: Instant, sweeps: bool)
    requires Legal(c, s, a, from, sweeps) && LastTime(a, from) <= now && Legal(c, After(c, s, a, sweeps), b, now, sweeps)
    ensures Legal(c, s, a + b, from, sweeps)
    decreases |a|
  {
    hide Step;
    if a == [] {
      assert a + b == b;
      LegalEarlier(c, s, b, from, now, sweeps);
    } else {
      hide StepLegal;
      assert (a + b)[0] == a[0] && (a + b)[1..] == a[1..] + b;
      assert LastTime(a[1..], a[0].now) == LastTime(a, from);
      LegalAppend(c, Step(c, s, a[0], sweeps).0, a[1..], b, a[0].now, now, sweeps);
    }
  }

  lemma {:induction false} AnswersAppend(c: Config, s: Buckets, a: seq<Call>, b: seq<Call>, sweeps: bool)
    ensures Answers(c, s, a + b, sweeps) == Answers(c, s, a, sweeps) + Answers(c, After(c, s, a, sweeps), b, sweeps)
    decreases |a|
  {
    hide Step;
    if a == [] {
      assert a + b == b;
    } else {
      assert (a + b)[0] == a[0] && (a + b)[1..] == a[1..] + b;
      AnswersAppend(c, Step(c, s, a[0], sweeps).0, a[1..], b, sweeps);
    }
  }

  lemma LegalEarlier(c: Config, s: Buckets, calls: seq<Call>, from: Instant, now: Instant, sweeps: bool)
    requires Legal(c, s, calls, now, sweeps) && from <= now
    ensures Legal(c, s, calls, from, sweeps)
  {
    hide IsOldest;
  }

  function Burst(key: string, now: Instant, n: nat): (r: seq<Call>)
    ensures |r| == n && forall i | 0 <= i < n :: r[i] == Call(key, now, "")
  {
    seq(n, i => Call(key, now, ""))
  }

  /** At most the pinned key and this one. */
  predicate OnlyKeys(c: Config, s: Buckets, key: string) {
    forall k | k in s :: k == key || (k == c.pinned && k != "")
  }

  /** The tokens that a sweeping call finds. */
  function Ready(c: Config, s: Buckets, key: string, now: Instant): real {
    if key in Swept(c, s, now) then Refilled(c, s[key], now).tokens else c.capacity as real
  }

  lemma BurstStep(c: Config, s: Buckets, key: string, now: Instant)
    requires Usable(c) && Room(c) && !c.failClosed && key != c.pinned && key != "" && OnlyKeys(c, s, key)
    requires Ready(c, s, key, now) >= 1.0
    ensures var call := Call(key, now, ""); var (s', ok) := Step(c, s, call, true);
            && ok && StepLegal(c, s, call, now, true) && OnlyKeys(c, s', key)
            && key in s' && s'[key].lastSeen == now
            && Ready(c, s', key, now) >= (if c.idleExpiry <= 0 then c.capacity as real else Ready(c, s, key, now) - 1.0)
  {
    var s1 := Swept(c, s, now);
    if key !in s1 {
      NotFullYet(c, s1, key);
    }
    var b := if key in s1 then s1[key] else Bucket(c.capacity as real, now, now);
    assert Refilled(c, b, now).lastRefill >= now;
    assert Refilled(c, b, now).tokens == Ready(c, s, key, now);
  }

  lemma NotFullYet(c: Config, s: Buckets, key: string)
    requires Room(c) && OnlyKeys(c, s, key) && key !in s
    ensures !Full(c, s)
  {
    Subset(s.Keys, if c.pinned == "" then {} else {c.pinned});
    assert |s| == |s.Keys|;
  }

  /** As many calls at one time as there are tokens are all allowed. */
  lemma {:induction false} BurstAllowed(c: Config, s: Buckets, key: string, now: Instant, n: nat)
    requires Usable(c) && Room(c) && !c.failClosed && key != c.pinned && key != "" && OnlyKeys(c, s, key)
    requires n <= c.capacity && Ready(c, s, key, now) >= n as real
    ensures Legal(c, s, Burst(key, now, n), now, true)
    ensures forall i | 0 <= i < n :: Answers(c, s, Burst(key, now, n), true)[i]
    ensures var s' := After(c, s, Burst(key, now, n), true);
            OnlyKeys(c, s', key) && (n > 0 ==> key in s' && s'[key].lastSeen == now)
    decreases n
  {
    hide Ready;
    hide Step;
    hide OnlyKeys;
    hide StepLegal;
    if n > 0 {
      BurstStep(c, s, key, now);
      var calls := Burst(key, now, n);
      assert calls[1..] == Burst(key, now, n - 1);
      BurstAllowed(c, Step(c, s, calls[0], true).0, key, now, n - 1);
    }
  }

  /** Calls for one key that are all allowed use up as many tokens. */
  lemma {:induction false} AllAllowed(c: Config, s: Buckets, calls: seq<Call>, key: string, sweeps: bool)
    requires forall i | 0 <= i < |calls| :: calls[i].key == key
    ensures Allowed(c, s, calls, key, sweeps) < |calls| ==> exists i :: 0 <= i < |calls| && !Answers(c, s, calls, sweeps)[i]
    decreases |calls|
  {
    hide Step;
    if calls != [] {
      var r := Step(c, s, calls[0], sweeps);
      var all, rest := Answers(c, s, calls, sweeps), Answers(c, r.0, calls[1..], sweeps);
      assert all == [r.1] + rest;
      AllAllowed(c, r.0, calls[1..], key, sweeps);
      if !r.1 {
        assert !all[0];
      } else if Allowed(c, s, calls, key, sweeps) < |calls| {
        var i :| 0 <= i < |rest| && !rest[i];
        assert !all[i + 1];
      }
    }
  }

  /** Calls for one key do not evict it. */
  lemma {:induction false} OwnSparing(c: Config, s: Buckets, calls: seq<Call>, from: Instant, key: string, sweeps: bool)
    requires Legal(c, s, calls, from, sweeps) && forall i | 0 <= i < |calls| :: calls[i].key == key
    ensures Sparing(c, s, calls, key, sweeps)
    decreases |calls|
  {
    if calls != [] {
      assert StepLegal(c, s, calls[0], from, sweeps);
      hide Step;
      OwnSparing(c, Step(c, s, calls[0], sweeps).0, calls[1..], calls[0].now, key, sweeps);
    }
  }

  /** What an impatient limiter is asked: all tokens of one key, twice, an idle time apart. */
  function TwoBursts(c: Config, zero: Instant): seq<Call>
    requires c.capacity >= 0
  {
    Burst(Name(c, 0), zero, c.capacity) + Burst(Name(c, 0), zero + Wait(c), c.capacity)
  }

  /** A limiter that forgets allows both bursts. */
  lemma ImpatientAllowsAll(c: Config, zero: Instant)
    requires Usable(c) && Room(c) && !c.failClosed
    ensures var calls := TwoBursts(c, zero);
            Legal(c, Start(c, zero), calls, zero, true) && forall i | 0 <= i < |calls| :: Answers(c, Start(c, zero), calls, true)[i]
  {
    hide Legal;
    hide Answers;
    hide After;
    var s, key, later := Start(c, zero), Name(c, 0), zero + Wait(c);
    var first, second := Burst(key, zero, c.capacity), Burst(key, later, c.capacity);
    BurstAllowed(c, s, key, zero, c.capacity);
    var s1 := After(c, s, first, true);
    assert Ready(c, s1, key, later) == c.capacity as real;
    BurstAllowed(c, s1, key, later, c.capacity);
    LegalAppend(c, s, first, second, zero, later, true);
    AnswersAppend(c, s, first, second, true);
  }

  /** A limiter that never forgets cannot. */
  lemma {:induction false} KeeperRefusesSome(c: Config, zero: Instant, calls: seq<Call>)
    requires Usable(c) && !Patient(c) && Asked(calls) == Asked(TwoBursts(c, zero)) && Legal(c, Start(c, zero), calls, zero, false)
    ensures exists i :: 0 <= i < |calls| && !Answers(c, Start(c, zero), calls, false)[i]
  {
    hide Legal;
    hide Answers;
    var s, key, n := Start(c, zero), Name(c, 0), c.capacity;
    var asked := TwoBursts(c, zero);
    SameKeys(calls, asked);
    assert LastTime(calls, zero) == zero + Wait(c);
    OwnSparing(c, s, calls, zero, key, false);
    RateBound(c, s, calls, zero, key, false);
    NotEnough(c);
    AllAllowed(c, s, calls, key, false);
  }

  lemma NotEnough(c: Config)
    requires Usable(c) && !Patient(c)
    ensures Wait(c) as real / c.refillInterval as real < c.capacity as real
  {
    var r := c.refillInterval as real;
    assert Wait(c) as real < c.capacity as real * r;
    assert (c.capacity as real * r) / r == c.capacity as real;
  }

  /** An impatient limiter hands a key that it forgot tokens that it has not earned. */
  lemma ImpatienceObservable(c: Config, zero: Instant)
    requires Usable(c) && Room(c) && !c.failClosed && !Patient(c)
    ensures !SweepUnobservable(c, zero)
  {
    hide Legal;
    hide Answers;
    hide TwoBursts;
    var s, calls := Start(c, zero), TwoBursts(c, zero);
    ImpatientAllowsAll(c, zero);
    var asked, answers := Asked(calls), Answers(c, s, calls, true);
    assert CanAnswer(c, s, zero, asked, answers, true);
    if CanAnswer(c, s, zero, asked, answers, false) {
      var calls': seq<Call> :| Asked(calls') == asked && Legal(c, s, calls', zero, false) && Answers(c, s, calls', false) == answers;
      KeeperRefusesSome(c, zero, calls');
      assert false;
    }
  }

  lemma NoRoomUnobservable(c: Config, zero: Instant)
    requires !Usable(c) || !Room(c)
    ensures SweepUnobservable(c, zero)
  {
    hide Legal;
    hide Answers;
    var s := Start(c, zero);
    forall from, asked, answers | zero <= from
      ensures CanAnswer(c, s, from, asked, answers, true) <==> CanAnswer(c, s, from, asked, answers, false)
    {
      if CanAnswer(c, s, from, asked, answers, true) {
        var calls :| Asked(calls) == asked && Legal(c, s, calls, from, true) && Answers(c, s, calls, true) == answers;
        NoRoomSame(c, s, calls, from);
      }
      if CanAnswer(c, s, from, asked, answers, false) {
        var calls :| Asked(calls) == asked && Legal(c, s, calls, from, false) && Answers(c, s, calls, false) == answers;
        NoRoomSame(c, s, calls, from);
      }
    }
  }

  /**
    Whether any calls can tell that a new limiter forgets idle keys: exactly if
    it has room for a key besides the pinned one and either fails closed when
    full or forgets a key before its bucket would be full again.
   */
  lemma SweepUnobservableExactly(c: Config, zero: Instant)
    ensures SweepUnobservable(c, zero) <==> !Usable(c) || !Room(c) || (Patient(c) && !c.failClosed)
  {
    hide SweepUnobservable;
    if !Usable(c) || !Room(c) {
      NoRoomUnobservable(c, zero);
    } else if c.failClosed {
      FullFailClosedObservable(c, zero);
    } else if Patient(c) {
      PatientSweepUnobservable(c, zero);
    } else {
      ImpatienceObservable(c, zero);
    }
  }

  const MINUTE := 60_000_000_000

  /** contactHandler's limits. */
  const CONTACT_LIMITS := Config(5, 3 * MINUTE, 15 * MINUTE, 5000, "", false)

  /** The limits of the administration's login for client addresses and for usernames. */
  function AddressLimits(capacity: int, maxEntries: int): Config { Config(capacity, 3 * MINUTE, 60 * MINUTE, maxEntries, "", false) }

  function UsernameLimits(capacity: int, maxEntries: int, configured: string): Config {
    Config(capacity, 3 * MINUTE, 60 * MINUTE, maxEntries, configured, true)
  }

  /** Of the limiters in use, the contact form never shows that it forgets, addresses do beyond 20 attempts, and usernames do. */
  lemma LimitersInUse(zero: Instant, capacity: int, maxEntries: int, configured: string)
    requires capacity > 0 && maxEntries > 0 && configured != ""
    ensures SweepUnobservable(CONTACT_LIMITS, zero)
    ensures SweepUnobservable(AddressLimits(capacity, maxEntries), zero) <==> capacity <= 20
    ensures SweepUnobservable(UsernameLimits(capacity, maxEntries, configured), zero) <==> maxEntries == 1
  {
    hide SweepUnobservable;
    SweepUnobservableExactly(CONTACT_LIMITS, zero);
    SweepUnobservableExactly(AddressLimits(capacity, maxEntries), zero);
    SweepUnobservableExactly(UsernameLimits(capacity, maxEntries, configured), zero);
  }
}
