/**
  Visits of the public cache over whole runs, in terms of their steps: how long
  a stored page is served, who waits for whom, and what is evicted first.
  internal/web/public/cache.go.
 */
module CacheVisits {
  import opened Outcomes
  import opened CacheModel

  // ----- Runs from the empty cache -----

  /** The fill is over, nothing stored yet. */
  function Landed(s: State, step: Step): State
    requires step.Leave? && Enabled(s, step)
  {
    var f := s.flights[step.flight];
    s.(pending := if f.key in s.pending && s.pending[f.key] == step.flight then s.pending - {f.key} else s.pending,
       flights := s.flights[step.flight := f.(result := Some(step.result))])
  }

  lemma NextLinked(c: Config, s: State, step: Step)
    requires Linked(s) && Enabled(s, step)
    ensures Linked(Next(c, s, step))
  {
    hide Linked;
    hide Insert;
    hide RemoveAll;
    hide Remove;
    hide Without;
    match step
    case Enter(key, now) =>
      if Current(s, key, now) {
        TouchLinked(s, key);
      } else {
        ClearedLinked(s, key);
        LinkedFields(Cleared(s, key), Begin(s, key, now).0);
      }
    case Leave(id, result, now) =>
      var f, s1 := s.flights[id], Landed(s, step);
      LinkedFields(s, s1);
      if result.Ok? {
        InsertBounded(c, s1, f.key, result.value, now, id);
      }
    case Drop(event) =>
      var s1 := s.(generation := (s.generation + 1) % GENERATIONS, log := s.log + [event]);
      LinkedFields(s, s1);
      RemoveAllLinked(s1, CoveredKeys(s, event));
  }

  lemma {:induction false} RunLinked(c: Config, s: State, steps: seq<Step>)
    requires Linked(s) && Possible(c, s, steps)
    ensures Linked(Run(c, s, steps))
    decreases |steps|
  {
    hide Linked;
    hide Next;
    hide Enabled;
    if steps != [] {
      NextLinked(c, s, steps[0]);
      RunLinked(c, Next(c, s, steps[0]), steps[1..]);
    }
  }

  lemma {:induction false} RunSplit(c: Config, s: State, steps: seq<Step>, n: nat)
    requires Possible(c, s, steps) && n <= |steps|
    ensures Possible(c, s, steps[..n]) && Possible(c, Run(c, s, steps[..n]), steps[n..])
    ensures Run(c, s, steps) == Run(c, Run(c, s, steps[..n]), steps[n..])
    decreases n
  {
    hide Linked;
    hide Next;
    hide Enabled;
    if n == 0 {
      assert steps[..0] == [] && steps[0..] == steps;
    } else {
      RunSplit(c, Next(c, s, steps[0]), steps[1..], n - 1);
      assert steps[..n][0] == steps[0] && steps[..n][1..] == steps[1..][..n - 1];
      assert steps[1..][n - 1..] == steps[n..];
    }
  }

  lemma RunLast(c: Config, s: State, steps: seq<Step>)
    requires Possible(c, s, steps) && steps != []
    ensures var n := |steps| - 1;
            && Possible(c, s, steps[..n]) && Linked(Run(c, s, steps[..n])) && Enabled(Run(c, s, steps[..n]), steps[n])
            && Run(c, s, steps) == Next(c, Run(c, s, steps[..n]), steps[n])
  {
    hide Linked;
    hide Next;
    hide Enabled;
    var n := |steps| - 1;
    RunSplit(c, s, steps, n);
    assert steps[n..] == [steps[n]];
    assert steps[n..][1..] == [];
  }

  /** The state after the first n steps of a run from the empty cache. */
  ghost function At(c: Config, steps: seq<Step>, n: nat): State
    requires Possible(c, Init(), steps) && n <= |steps|
  {
    RunSplit(c, Init(), steps, n);
    Run(c, Init(), steps[..n])
  }

  lemma AtNext(c: Config, steps: seq<Step>, n: nat)
    requires Possible(c, Init(), steps) && n < |steps|
    ensures Linked(At(c, steps, n)) && Enabled(At(c, steps, n), steps[n]) && At(c, steps, n + 1) == Next(c, At(c, steps, n), steps[n])
  {
    hide Linked;
    hide Next;
    hide Enabled;
    RunSplit(c, Init(), steps, n + 1);
    RunLast(c, Init(), steps[..n + 1]);
    assert steps[..n + 1][..n] == steps[..n] && steps[..n + 1][n] == steps[n];
  }

  lemma AtEnds(c: Config, steps: seq<Step>)
    requires Possible(c, Init(), steps)
    ensures At(c, steps, 0) == Init() && At(c, steps, |steps|) == Run(c, Init(), steps)
  {
    assert steps[..|steps|] == steps;
  }

  // ----- How long a page is served -----

  /** The j-th step ends a fill of the key and stores what it got. */
  ghost predicate Stores(c: Config, steps: seq<Step>, j: nat, key: string)
    requires Possible(c, Init(), steps)
  {
    && j < |steps| && steps[j].Leave? && steps[j].result.Ok?
    && key in At(c, steps, j + 1).entries && At(c, steps, j + 1).entries[key].flight == steps[j].flight
  }

  /** And it is the last one, among the first n steps, to store a page under the key. */
  ghost predicate LastStores(c: Config, steps: seq<Step>, n: nat, j: nat, key: string)
    requires Possible(c, Init(), steps)
  {
    j < n && Stores(c, steps, j, key) && forall i | j < i < n :: !Stores(c, steps, i, key)
  }

  /** Every entry is as its last fill stored it. */
  ghost predicate EntryStored(c: Config, steps: seq<Step>, n: nat, key: string, e: Entry)
    requires Possible(c, Init(), steps)
  {
    exists j: nat :: LastStores(c, steps, n, j, key) && e == Entry(steps[j].result.value, steps[j].now + c.ttl, steps[j].flight)
  }

  predicate EntriesDone(s: State) {
    forall k | k in s.entries :: s.entries[k].flight < |s.flights| && s.flights[s.entries[k].flight].result.Some?
  }

  /** What one section does to the entries. */
  lemma StepEntries(c: Config, s: State, step: Step)
    requires Linked(s) && Enabled(s, step)
    ensures var s' := Next(c, s, step);
            && (!step.Leave? ==> forall k | k in s'.entries :: k in s.entries && s'.entries[k] == s.entries[k])
            && (step.Leave? ==> forall k | k in s'.entries ::
                  || (k in s.entries && s'.entries[k] == s.entries[k])
                  || (step.result.Ok? && s'.entries[k] == Entry(step.result.value, step.now + c.ttl, step.flight)))
  {
    hide Linked;
    hide Insert;
    hide Without;
    if step.Leave? {
      var f, s1 := s.flights[step.flight], Landed(s, step);
      LinkedFields(s, s1);
      if step.result.Ok? {
        InsertBounded(c, s1, f.key, step.result.value, step.now, step.flight);
      }
    }
  }

  lemma StepFlights(c: Config, s: State, step: Step)
    requires Linked(s) && Enabled(s, step)
    ensures var s' := Next(c, s, step);
            && |s.flights| <= |s'.flights|
            && (forall i | 0 <= i < |s.flights| && s.flights[i].result.Some? :: s'.flights[i].result.Some?)
            && (step.Leave? ==> s'.flights[step.flight].result.Some?)
  {
    hide Linked;
    hide Insert;
    StepExtends(c, s, step);
    if step.Leave? {
      var f, s1 := s.flights[step.flight], Landed(s, step);
      LinkedFields(s, s1);
      if step.result.Ok? {
        InsertBounded(c, s1, f.key, step.result.value, step.now, step.flight);
      }
    }
  }

  lemma {:induction false} EntriesStored(c: Config, steps: seq<Step>, n: nat)
    requires Possible(c, Init(), steps) && n <= |steps|
    ensures EntriesDone(At(c, steps, n))
    ensures forall k | k in At(c, steps, n).entries :: EntryStored(c, steps, n, k, At(c, steps, n).entries[k])
    decreases n
  {
    hide Linked;
    hide Next;
    hide Enabled;
    hide Possible;
    hide Run;
    if n == 0 {
      AtEnds(c, steps);
    } else {
      EntriesStored(c, steps, n - 1);
      AtNext(c, steps, n - 1);
      var s, s', step := At(c, steps, n - 1), At(c, steps, n), steps[n - 1];
      StepEntries(c, s, step);
      StepFlights(c, s, step);
      LeavesRunning(s, step);
      hide At;
      forall k | k in s'.entries ensures EntryStored(c, steps, n, k, s'.entries[k]) {
        if k in s.entries && s'.entries[k] == s.entries[k] {
          var j: nat :| LastStores(c, steps, n - 1, j, k) && s.entries[k] == Entry(steps[j].result.value, steps[j].now + c.ttl, steps[j].flight);
          assert !Stores(c, steps, n - 1, k);
          assert LastStores(c, steps, n, j, k);
        } else {
          assert Stores(c, steps, n - 1, k);
          assert LastStores(c, steps, n, n - 1, k);
        }
      }
    }
  }

  /** Only a fill that is under way ends. */
  lemma LeavesRunning(s: State, step: Step)
    requires Enabled(s, step)
    ensures step.Leave? ==> step.flight < |s.flights| && s.flights[step.flight].result.None?
  {
  }

  lemma LastOnce(c: Config, steps: seq<Step>, n: nat, i: nat, j: nat, key: string)
    requires Possible(c, Init(), steps) && LastStores(c, steps, n, i, key) && LastStores(c, steps, n, j, key)
    ensures i == j
  {
    hide Possible;
    hide Stores;
  }

  /**
    Over every run: a visit is answered from the cache exactly if the key is still
    there and the fill that last stored it did so less than a ttl ago; and then
    it gets what that fill stored.
   */
  lemma HitIsYoung(c: Config, steps: seq<Step>, key: string, now: Instant)
    requires Possible(c, Init(), steps)
    ensures var s := Run(c, Init(), steps); var outcome := Begin(s, key, now).1;
            && (outcome.Hit? <==> key in s.entries && exists j: nat :: LastStores(c, steps, |steps|, j, key) && now < steps[j].now + c.ttl)
            && (outcome.Hit? ==> exists j: nat :: LastStores(c, steps, |steps|, j, key) && now < steps[j].now + c.ttl && steps[j].result == Ok(outcome.value))
  {
    hide Possible;
    hide Run;
    hide Cleared;
    AtEnds(c, steps);
    EntriesStored(c, steps, |steps|);
    var s := Run(c, Init(), steps);
    hide LastStores;
    if key in s.entries {
      var j: nat :| LastStores(c, steps, |steps|, j, key) && s.entries[key] == Entry(steps[j].result.value, steps[j].now + c.ttl, steps[j].flight);
      forall i: nat | LastStores(c, steps, |steps|, i, key) ensures i == j {
        LastOnce(c, steps, |steps|, i, j, key);
      }
    }
  }

  /** A visit that misses leaves no page under the key. */
  lemma MissClears(s: State, key: string, now: Instant)
    ensures Begin(s, key, now).1.Hit? || key !in Begin(s, key, now).0.entries
  {
    hide Without;
  }

  /** A page stored at least a ttl ago is not served again: the visit waits for a fill or makes one, and the page is gone. */
  lemma OldIsFilledAgain(c: Config, steps: seq<Step>, key: string, now: Instant, j: nat)
    requires Possible(c, Init(), steps) && LastStores(c, steps, |steps|, j, key) && steps[j].now + c.ttl <= now
    ensures var (s', outcome) := Begin(Run(c, Init(), steps), key, now); !outcome.Hit? && key !in s'.entries
  {
    hide Possible;
    hide Run;
    hide LastStores;
    hide Begin;
    HitIsYoung(c, steps, key, now);
    MissClears(Run(c, Init(), steps), key, now);
    forall i: nat | LastStores(c, steps, |steps|, i, key) ensures i == j {
      LastOnce(c, steps, |steps|, i, j, key);
    }
  }

  /** The step cannot remove this page, stored until this time: no visit after it, no invalidation of the key, nothing stored. */
  predicate Spares(step: Step, key: string, until: Instant) {
    match step
    case Enter(k, now) => k == key ==> now < until
    case Leave(_, result, _) => result.Err?
    case Drop(event) => !Covers(event, key)
  }

  lemma SparesEntry(c: Config, s: State, step: Step, key: string)
    requires Linked(s) && Enabled(s, step) && key in s.entries && Spares(step, key, s.entries[key].expiresAt)
    ensures key in Next(c, s, step).entries && Next(c, s, step).entries[key] == s.entries[key]
  {
    hide Linked;
    hide Without;
    hide Insert;
  }

  lemma {:induction false} SparedEntry(c: Config, steps: seq<Step>, j: nat, n: nat, key: string, e: Entry)
    requires Possible(c, Init(), steps) && j <= n <= |steps| && key in At(c, steps, j).entries && At(c, steps, j).entries[key] == e
    requires forall i | j <= i < n :: Spares(steps[i], key, e.expiresAt)
    ensures key in At(c, steps, n).entries && At(c, steps, n).entries[key] == e
    decreases n
  {
    hide Linked;
    hide Next;
    hide Enabled;
    hide Possible;
    hide Run;
    if j < n {
      SparedEntry(c, steps, j, n - 1, key, e);
      AtNext(c, steps, n - 1);
      hide At;
      SparesEntry(c, At(c, steps, n - 1), steps[n - 1], key);
    }
  }

  /** A stored page is served for a ttl, unless it is invalidated or something else is stored. */
  lemma StoredIsServed(c: Config, steps: seq<Step>, key: string, now: Instant, j: nat)
    requires Possible(c, Init(), steps) && Stores(c, steps, j, key) && now < steps[j].now + c.ttl
    requires forall i | j < i < |steps| :: Spares(steps[i], key, steps[j].now + c.ttl)
    ensures steps[j].result.Ok? && Begin(Run(c, Init(), steps), key, now).1 == Hit(steps[j].result.value)
  {
    hide Possible;
    hide Run;
    hide Linked;
    hide Without;
    EntriesStored(c, steps, j + 1);
    var e := At(c, steps, j + 1).entries[key];
    var i: nat :| LastStores(c, steps, j + 1, i, key) && e == Entry(steps[i].result.value, steps[i].now + c.ttl, steps[i].flight);
    LastOfPrefix(c, steps, j, key);
    LastOnce(c, steps, j + 1, i, j, key);
    SparedEntry(c, steps, j + 1, |steps|, key, e);
    AtEnds(c, steps);
  }

  lemma LastOfPrefix(c: Config, steps: seq<Step>, j: nat, key: string)
    requires Possible(c, Init(), steps) && Stores(c, steps, j, key)
    ensures LastStores(c, steps, j + 1, j, key)
  {
    hide Possible;
    hide Stores;
  }

  // ----- One fill at a time -----

  /** A fill that is under way and has seen no invalidation is the one that others wait for. */
  ghost predicate Awaited(s: State) {
    forall i | 0 <= i < |s.flights| && s.flights[i].result.None? && s.flights[i].began == |s.log| ::
      && s.flights[i].key in s.pending && s.pending[s.flights[i].key] == i
      && s.flights[i].generation == s.generation
  }

  predicate BeganBefore(s: State) {
    forall i | 0 <= i < |s.flights| :: s.flights[i].began <= |s.log|
  }

  lemma StepAwaited(c: Config, s: State, step: Step)
    requires Linked(s) && Enabled(s, step) && Awaited(s) && BeganBefore(s)
    ensures Awaited(Next(c, s, step)) && BeganBefore(Next(c, s, step))
  {
    hide Linked;
    hide Insert;
    hide Without;
    if step.Leave? {
      var f, s1 := s.flights[step.flight], Landed(s, step);
      LinkedFields(s, s1);
      if step.result.Ok? {
        InsertBounded(c, s1, f.key, step.result.value, step.now, step.flight);
      }
    }
  }

  lemma {:induction false} RunAwaited(c: Config, s: State, steps: seq<Step>)
    requires Possible(c, s, steps) && Awaited(s) && BeganBefore(s)
    ensures Awaited(Run(c, s, steps)) && BeganBefore(Run(c, s, steps))
    decreases |steps|
  {
    hide Linked;
    hide Next;
    hide Enabled;
    hide Awaited;
    hide BeganBefore;
    if steps != [] {
      StepAwaited(c, s, steps[0]);
      RunAwaited(c, Next(c, s, steps[0]), steps[1..]);
    }
  }

  /**
    Over every run: while a fill is under way and nothing has been invalidated
    since it began, no visit begins another one for its key; it is answered from
    the cache or waits for that fill.
   */
  lemma OneFillAtATime(c: Config, steps: seq<Step>, id: nat, now: Instant)
    requires Possible(c, Init(), steps)
    requires var s := Run(c, Init(), steps); id < |s.flights| && s.flights[id].result.None? && s.flights[id].began == |s.log|
    ensures var s := Run(c, Init(), steps); var outcome := Begin(s, s.flights[id].key, now).1;
            outcome.Hit? || outcome == Join(id)
  {
    hide Possible;
    hide Run;
    hide Cleared;
    RunAwaited(c, Init(), steps);
  }

  /** A fill begins with the visit that leads it, after all invalidations so far, and ends with its own second section. */
  lemma LeadBegins(c: Config, s: State, step: Step)
    requires Linked(s) && Enabled(s, step)
    ensures var s' := Next(c, s, step);
            && (|s'.flights| > |s.flights| <==> step.Enter? && Begin(s, step.key, step.now).1.Lead?)
            && (|s'.flights| > |s.flights| ==>
                  && |s'.flights| == |s.flights| + 1 && Begin(s, step.key, step.now).1 == Lead(|s.flights|)
                  && s'.flights[|s.flights|].key == step.key && s'.flights[|s.flights|].began == |s.log| == |s'.log|
                  && s'.flights[|s.flights|].result.None?)
            && |s.flights| <= |s'.flights|
            && forall i | 0 <= i < |s.flights| :: s'.flights[i].result.Some? <==> s.flights[i].result.Some? || (step.Leave? && step.flight == i)
  {
    hide Linked;
    hide Insert;
    hide Without;
    if step.Leave? {
      var f, s1 := s.flights[step.flight], Landed(s, step);
      LinkedFields(s, s1);
      if step.result.Ok? {
        InsertBounded(c, s1, f.key, step.result.value, step.now, step.flight);
      }
    }
  }

  // ----- What is evicted first -----

  /** The j-th step uses the entry of the key: it stores it, or is answered by it. */
  ghost predicate Uses(c: Config, steps: seq<Step>, j: nat, key: string)
    requires Possible(c, Init(), steps)
  {
    && j < |steps|
    && (Stores(c, steps, j, key) || (steps[j].Enter? && steps[j].key == key && Begin(At(c, steps, j), key, steps[j].now).1.Hit?))
  }

  /** a was used after the last use of b. */
  ghost predicate UsedLater(c: Config, steps: seq<Step>, n: nat, a: string, b: string)
    requires Possible(c, Init(), steps)
  {
    exists j: nat :: j < n && Uses(c, steps, j, a) && forall i | j <= i < n :: !Uses(c, steps, i, b)
  }

  predicate Precedes(s: seq<string>, a: string, b: string) {
    exists p, q :: 0 <= p < q < |s| && s[p] == a && s[q] == b
  }

  lemma ConsPrecedes(k: string, s: seq<string>, a: string, b: string)
    ensures Precedes([k] + s, a, b) <==> (a == k && b in s) || Precedes(s, a, b)
  {
    var t := [k] + s;
    if Precedes(t, a, b) {
      var p, q :| 0 <= p < q < |t| && t[p] == a && t[q] == b;
      assert s[q - 1] == b && (p > 0 ==> s[p - 1] == a);
    }
    if a == k && b in s {
      var q :| 0 <= q < |s| && s[q] == b;
      assert t[0] == a && t[q + 1] == b;
    }
    if p, q :| 0 <= p < q < |s| && s[p] == a && s[q] == b {
      assert t[p + 1] == a && t[q + 1] == b;
    }
  }

  lemma {:induction false} WithoutPrecedes(s: seq<string>, gone: set<string>, a: string, b: string)
    requires Precedes(Without(s, gone), a, b)
    ensures Precedes(s, a, b)
  {
    hide Precedes;
    if s == [] {
      NothingPrecedes(a, b);
    } else {
      assert s == [s[0]] + s[1..];
      ConsPrecedes(s[0], s[1..], a, b);
      ConsPrecedes(s[0], Without(s[1..], gone), a, b);
      assert [] + Without(s[1..], gone) == Without(s[1..], gone);
      if Precedes(Without(s[1..], gone), a, b) {
        WithoutPrecedes(s[1..], gone, a, b);
      }
    }
  }

  lemma NothingPrecedes(a: string, b: string)
    ensures !Precedes([], a, b)
  {
  }

  lemma PrefixPrecedes(s: seq<string>, n: nat, a: string, b: string)
    requires n <= |s| && Precedes(s[..n], a, b)
    ensures Precedes(s, a, b)
  {
    var p, q :| 0 <= p < q < n && s[..n][p] == a && s[..n][q] == b;
    assert s[p] == a && s[q] == b;
  }

  /** The first key is preceded by none. */
  lemma FirstLast(s: seq<string>, a: string, b: string)
    requires NoDuplicates(s) && Precedes(s, a, b)
    ensures s != [] && s[0] != b && a != b
  {
  }

  lemma ClearedPrecedes(s: State, key: string, a: string, b: string)
    requires Precedes(Cleared(s, key).recency, a, b)
    ensures Precedes(s.recency, a, b)
  {
    hide Precedes;
    if key in s.entries {
      WithoutPrecedes(s.recency, {key}, a, b);
    }
  }

  /** Whether the value that a fill got is inserted. */
  predicate Inserts(c: Config, s: State, step: Step)
    requires step.Leave? && Enabled(s, step)
  {
    step.result.Ok? && s.flights[step.flight].generation == s.generation && |step.result.value| <= c.maxBytes
  }

  /** A storing section: the key first, then the rest in the old order. */
  lemma InsertPrecedes(c: Config, s: State, step: Step, a: string, b: string)
    requires Linked(s) && step.Leave? && Enabled(s, step) && Inserts(c, s, step)
    ensures var s', key := Next(c, s, step), s.flights[step.flight].key;
            && (Precedes(s'.recency, a, b) ==> Precedes(s.recency, a, b) || a == key)
            && (s'.recency != [] ==> s'.recency[0] == key)
  {
    hide Linked;
    hide Precedes;
    hide Evict;
    hide Without;
    hide Newest;
    var key, s1 := s.flights[step.flight].key, Landed(s, step);
    LinkedFields(s, s1);
    var entry := Entry(step.result.value, step.now + c.ttl, step.flight);
    var s2 := Push(Cleared(s1, key), key, entry);
    ClearedLinked(s1, key);
    PushLinked(Cleared(s1, key), key, entry);
    var n := EvictKeepsNewest(c, s2);
    NewestPrefix(s2, n);
    assert Next(c, s, step) == Evict(c, s2);
    if Precedes(s2.recency[..n], a, b) {
      PrefixPrecedes(s2.recency, n, a, b);
      ConsPrecedes(key, Cleared(s1, key).recency, a, b);
      if Precedes(Cleared(s1, key).recency, a, b) {
        ClearedPrecedes(s1, key, a, b);
      }
    }
  }

  lemma NewestPrefix(s: State, n: nat)
    requires Linked(s) && n <= |s.recency|
    ensures Newest(s, n).recency == s.recency[..n]
  {
  }

  /** Any other section leaves the order alone, except that a hit comes first. */
  lemma OtherPrecedes(c: Config, s: State, step: Step, a: string, b: string)
    requires Linked(s) && Enabled(s, step) && (step.Leave? ==> !Inserts(c, s, step)) && Precedes(Next(c, s, step).recency, a, b)
    ensures Precedes(s.recency, a, b) || (step.Enter? && a == step.key && Begin(s, step.key, step.now).1.Hit?)
  {
    hide Linked;
    hide Precedes;
    hide Without;
    match step
    case Enter(key, now) =>
      if Current(s, key, now) {
        ConsPrecedes(key, Without(s.recency, {key}), a, b);
        if Precedes(Without(s.recency, {key}), a, b) {
          WithoutPrecedes(s.recency, {key}, a, b);
        }
      } else {
        ClearedPrecedes(s, key, a, b);
      }
    case Leave(_, _, _) =>
    case Drop(event) => WithoutPrecedes(s.recency, CoveredKeys(s, event), a, b);
  }

  /** What a section uses is first in the list afterwards. */
  lemma UsedFirst(c: Config, steps: seq<Step>, j: nat, key: string)
    requires Possible(c, Init(), steps) && Uses(c, steps, j, key)
    ensures At(c, steps, j + 1).recency != [] && At(c, steps, j + 1).recency[0] == key
  {
    hide Possible;
    hide Run;
    hide Linked;
    hide Without;
    AtNext(c, steps, j);
    EntriesStored(c, steps, j);
    var s, s', step := At(c, steps, j), At(c, steps, j + 1), steps[j];
    LeavesRunning(s, step);
    hide At;
    if step.Leave? {
      StoredByInsert(c, s, step, key);
    }
  }

  lemma StoredByInsert(c: Config, s: State, step: Step, key: string)
    requires Linked(s) && Enabled(s, step) && step.Leave? && EntriesDone(s)
    requires key in Next(c, s, step).entries && Next(c, s, step).entries[key].flight == step.flight
    ensures Next(c, s, step).recency != [] && Next(c, s, step).recency[0] == key
  {
    NextLinked(c, s, step);
    assert key in Next(c, s, step).recency;
    hide Linked;
    hide Insert;
    hide Evict;
    if Inserts(c, s, step) {
      var s1 := Landed(s, step);
      LinkedFields(s, s1);
      InsertBounded(c, s1, s.flights[step.flight].key, step.result.value, step.now, step.flight);
      InsertPrecedes(c, s, step, key, key);
    }
  }

  /** A stored page counts as used. */
  lemma FirstIsUsed(c: Config, steps: seq<Step>, j: nat, key: string)
    requires Possible(c, Init(), steps) && j < |steps| && steps[j].Leave? && Enabled(At(c, steps, j), steps[j])
    requires Inserts(c, At(c, steps, j), steps[j]) && At(c, steps, j).flights[steps[j].flight].key == key
    requires key in At(c, steps, j + 1).recency
    ensures Uses(c, steps, j, key)
  {
    hide Possible;
    hide Run;
    AtNext(c, steps, j);
    var s, step := At(c, steps, j), steps[j];
    assert key in At(c, steps, j + 1).entries by {
      NextLinked(c, s, step);
    }
    var s1 := Landed(s, step);
    LinkedFields(s, s1);
    InsertBounded(c, s1, key, step.result.value, step.now, step.flight);
    hide At;
    hide Linked;
    hide Insert;
  }

  lemma InList(s: seq<string>, a: string, b: string)
    requires Precedes(s, a, b)
    ensures a in s && b in s
  {
  }

  /**
    Over every run the list is in the order of last use, so that eviction, which
    takes from its end, takes the least recently used entries.
   */
  lemma {:induction false} ListedByUse(c: Config, steps: seq<Step>, n: nat, a: string, b: string)
    requires Possible(c, Init(), steps) && n <= |steps| && Precedes(At(c, steps, n).recency, a, b)
    ensures UsedLater(c, steps, n, a, b)
    decreases n
  {
    hide Possible;
    hide Run;
    hide Linked;
    hide Precedes;
    hide Uses;
    hide Enabled;
    hide Inserts;
    hide Next;
    if n == 0 {
      AtEnds(c, steps);
      NothingPrecedes(a, b);
    } else {
      AtNext(c, steps, n - 1);
      var s, s', step := At(c, steps, n - 1), At(c, steps, n), steps[n - 1];
      LinkedDistinct(c, s, step);
      FirstLast(s'.recency, a, b);
      InList(s'.recency, a, b);
      if Uses(c, steps, n - 1, b) {
        UsedFirst(c, steps, n - 1, b);
        assert false;
      }
      if Precedes(s.recency, a, b) {
        ListedByUse(c, steps, n - 1, a, b);
        hide At;
        var j: nat :| j < n - 1 && Uses(c, steps, j, a) && forall i | j <= i < n - 1 :: !Uses(c, steps, i, b);
        assert forall i | j <= i < n :: !Uses(c, steps, i, b);
      } else {
        if step.Leave? && Inserts(c, s, step) {
          InsertPrecedes(c, s, step, a, b);
          FirstIsUsed(c, steps, n - 1, a);
        } else {
          OtherPrecedes(c, s, step, a, b);
          HitIsUse(c, steps, n - 1, a);
        }
        hide At;
        assert forall i | n - 1 <= i < n :: !Uses(c, steps, i, b);
      }
    }
  }

  lemma HitIsUse(c: Config, steps: seq<Step>, j: nat, key: string)
    requires Possible(c, Init(), steps) && j < |steps| && steps[j].Enter? && steps[j].key == key
    requires Begin(At(c, steps, j), key, steps[j].now).1.Hit?
    ensures Uses(c, steps, j, key)
  {
    hide Possible;
  }

  lemma LinkedDistinct(c: Config, s: State, step: Step)
    requires Linked(s) && Enabled(s, step)
    ensures NoDuplicates(Next(c, s, step).recency)
  {
    hide Next;
    hide Enabled;
    NextLinked(c, s, step);
  }
}
