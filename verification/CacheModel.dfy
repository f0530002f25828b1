/**
  The public HTML cache as a function of its state: one function for each
  section that runs under the lock. internal/web/public/cache.go.
 */
module CacheModel {
  import opened Outcomes

  type Bytes = seq<bv8>
  type Instant = int

  datatype Config = Config(maxEntries: nat, maxBytes: nat, ttl: Instant)

  /** The number of values of the generation counter, a uint64. */
  const GENERATIONS := 0x1_0000_0000_0000_0000

  /** flight is history: the fill that produced the value. */
  datatype Entry = Entry(value: Bytes, expiresAt: Instant, flight: nat)

  /** began is history: how many invalidations there had been when the fill began. */
  datatype Flight = Flight(key: string, generation: nat, began: nat, result: Option<Result<Bytes>>)

  datatype Event = Keys(keys: seq<string>) | Prefix(prefix: string)

  /**
    entries, recency (most recent first), totalBytes, generation and pending are
    the fields of the cache; flights are all fills so far, by number, and log is
    the history of invalidations.
   */
  datatype State = State(
    entries: map<string, Entry>, recency: seq<string>, totalBytes: int, generation: nat,
    pending: map<string, nat>, flights: seq<Flight>, log: seq<Event>)

  /** What the first section of GetOrFill decides. */
  datatype Outcome = Hit(value: Bytes) | Join(flight: nat) | Lead(flight: nat)

  predicate Covers(event: Event, key: string) {
    match event
    case Keys(keys) => key in keys
    case Prefix(prefix) => |key| >= |prefix| && key[..|prefix|] == prefix
  }

  // ----- Lists of keys -----

  function Without(recency: seq<string>, gone: set<string>): (r: seq<string>)
    ensures forall k :: k in r <==> k in recency && k !in gone
  {
    if recency == [] then []
    else (if recency[0] in gone then [] else [recency[0]]) + Without(recency[1..], gone)
  }

  predicate NoDuplicates(s: seq<string>) {
    forall i, j | 0 <= i < j < |s| :: s[i] != s[j]
  }

  function Total(entries: map<string, Entry>, keys: seq<string>): nat
    requires forall k | k in keys :: k in entries
  {
    if keys == [] then 0 else |entries[keys[0]].value| + Total(entries, keys[1..])
  }

  // ----- Sections under the lock -----

  function Init(): State { State(map[], [], 0, 0, map[], [], []) }

  /** removeEntry */
  function Remove(s: State, key: string): State
    requires key in s.entries
  {
    s.(entries := s.entries - {key}, recency := Without(s.recency, {key}), totalBytes := s.totalBytes - |s.entries[key].value|)
  }

  predicate Over(c: Config, s: State) {
    |s.entries| > c.maxEntries || s.totalBytes > c.maxBytes
  }

  /** The loop at the end of insert. */
  function Evict(c: Config, s: State): State
    requires Linked(s)
    decreases |s.recency|
  {
    if Over(c, s) && s.recency != [] then
      RemoveLinked(s, s.recency[|s.recency| - 1]);
      Evict(c, Remove(s, s.recency[|s.recency| - 1]))
    else s
  }

  function Push(s: State, key: string, entry: Entry): State {
    s.(entries := s.entries[key := entry], recency := [key] + s.recency, totalBytes := s.totalBytes + |entry.value|)
  }

  function Cleared(s: State, key: string): State {
    if key in s.entries then Remove(s, key) else s
  }

  /** insert */
  function Insert(c: Config, s: State, key: string, value: Bytes, now: Instant, flight: nat): State
    requires Linked(s)
  {
    ClearedLinked(s, key);
    PushLinked(Cleared(s, key), key, Entry(value, now + c.ttl, flight));
    Evict(c, Push(Cleared(s, key), key, Entry(value, now + c.ttl, flight)))
  }

  predicate Current(s: State, key: string, now: Instant) {
    key in s.entries && now < s.entries[key].expiresAt
  }

  /** A fill of the current generation is under way for the key. */
  predicate Shared(s: State, key: string) {
    key in s.pending && s.pending[key] < |s.flights| && s.flights[s.pending[key]].generation == s.generation
  }

  /** The first section of GetOrFill. */
  function Begin(s: State, key: string, now: Instant): (State, Outcome) {
    if Current(s, key, now) then (s.(recency := [key] + Without(s.recency, {key})), Hit(s.entries[key].value))
    else
      var s1 := Cleared(s, key);
      if Shared(s, key) then (s1, Join(s.pending[key]))
      else
        (s1.(pending := s.pending[key := |s.flights|],
             flights := s.flights + [Flight(key, s.generation, |s.log|, None)]), Lead(|s.flights|))
  }

  /** The second section of GetOrFill, run by the caller that leads the flight. */
  function Finish(c: Config, s: State, id: nat, result: Result<Bytes>, now: Instant): State
    requires id < |s.flights| && Linked(s)
  {
    var f := s.flights[id];
    var s1 := s.(pending := if f.key in s.pending && s.pending[f.key] == id then s.pending - {f.key} else s.pending,
                 flights := s.flights[id := f.(result := Some(result))]);
    if result.Ok? && f.generation == s.generation && |result.value| <= c.maxBytes
    then Insert(c, s1, f.key, result.value, now, id) else s1
  }

  function CoveredKeys(s: State, event: Event): set<string> {
    set k | k in s.entries && Covers(event, k)
  }

  /** Removing every entry among these keys. */
  function RemoveAll(s: State, gone: set<string>): State
    requires Linked(s)
  {
    s.(entries := s.entries - gone, recency := Without(s.recency, gone),
       totalBytes := Total(s.entries, Without(s.recency, gone)))
  }

  /** Invalidate and InvalidatePrefix. */
  function Invalidate(s: State, event: Event): State
    requires Linked(s)
  {
    RemoveAll(s.(generation := (s.generation + 1) % GENERATIONS, log := s.log + [event]), CoveredKeys(s, event))
  }

  // ----- Structure -----

  /** Map and list hold the same keys, each once, and the byte count is right. */
  predicate Linked(s: State) {
    && NoDuplicates(s.recency)
    && (forall k | k in s.recency :: k in s.entries)
    && (forall k | k in s.entries :: k in s.recency)
    && s.totalBytes == Total(s.entries, s.recency)
  }

  lemma NoDuplicatesCons(x: string, s: seq<string>)
    ensures NoDuplicates([x] + s) <==> x !in s && NoDuplicates(s)
  {
    var t := [x] + s;
    assert t[0] == x && t[1..] == s;
    assert forall i | 0 <= i < |s| :: t[i + 1] == s[i];
  }

  lemma {:induction false} WithoutNoDuplicates(recency: seq<string>, gone: set<string>)
    requires NoDuplicates(recency)
    ensures NoDuplicates(Without(recency, gone))
    ensures |Without(recency, gone)| <= |recency|
  {
    if recency != [] {
      assert recency == [recency[0]] + recency[1..];
      NoDuplicatesCons(recency[0], recency[1..]);
      WithoutNoDuplicates(recency[1..], gone);
      NoDuplicatesCons(recency[0], Without(recency[1..], gone));
      assert [] + Without(recency[1..], gone) == Without(recency[1..], gone);
    }
  }

  lemma {:induction false} WithoutNone(recency: seq<string>, gone: set<string>)
    requires forall k | k in recency :: k !in gone
    ensures Without(recency, gone) == recency
  {
    if recency != [] {
      WithoutNone(recency[1..], gone);
    }
  }

  lemma {:induction false} WithoutTwice(recency: seq<string>, a: set<string>, b: set<string>)
    ensures Without(Without(recency, a), b) == Without(recency, a + b)
  {
    if recency != [] {
      WithoutTwice(recency[1..], a, b);
      var rest := Without(recency[1..], a);
      if recency[0] !in a {
        assert ([recency[0]] + rest)[1..] == rest;
      } else {
        assert [] + rest == rest;
      }
    }
  }

  lemma {:induction false} TotalWithout(entries: map<string, Entry>, recency: seq<string>, key: string)
    requires NoDuplicates(recency) && (forall k | k in recency :: k in entries) && key in recency
    ensures Total(entries, Without(recency, {key})) == Total(entries, recency) - |entries[key].value|
    ensures |Without(recency, {key})| == |recency| - 1
  {
    assert recency == [recency[0]] + recency[1..];
    NoDuplicatesCons(recency[0], recency[1..]);
    var rest := Without(recency[1..], {key});
    if recency[0] == key {
      WithoutNone(recency[1..], {key});
      assert [] + rest == rest;
    } else {
      TotalWithout(entries, recency[1..], key);
      assert ([recency[0]] + rest)[1..] == rest;
    }
  }

  lemma {:induction false} TotalFrame(entries: map<string, Entry>, entries': map<string, Entry>, keys: seq<string>)
    requires forall k | k in keys :: k in entries && k in entries' && entries[k] == entries'[k]
    ensures Total(entries, keys) == Total(entries', keys)
  {
    if keys != [] {
      TotalFrame(entries, entries', keys[1..]);
    }
  }

  lemma RemoveLinked(s: State, key: string)
    requires Linked(s) && key in s.entries
    ensures Linked(Remove(s, key)) && |Remove(s, key).recency| == |s.recency| - 1
  {
    WithoutNoDuplicates(s.recency, {key});
    TotalWithout(s.entries, s.recency, key);
    TotalFrame(s.entries, s.entries - {key}, Without(s.recency, {key}));
  }

  lemma RemoveAllLinked(s: State, gone: set<string>)
    requires Linked(s)
    ensures Linked(RemoveAll(s, gone))
  {
    WithoutNoDuplicates(s.recency, gone);
    TotalFrame(s.entries, s.entries - gone, Without(s.recency, gone));
  }

  /** Removing one key more. */
  lemma RemoveOneMore(s: State, gone: set<string>, key: string)
    requires Linked(s) && key in s.entries && key !in gone
    ensures key in RemoveAll(s, gone).entries && Remove(RemoveAll(s, gone), key) == RemoveAll(s, gone + {key})
  {
    hide NoDuplicates;
    hide Total;
    hide Without;
    var s1 := RemoveAll(s, gone);
    RemoveAllLinked(s, gone);
    RemoveLinked(s1, key);
    RemoveAllLinked(s, gone + {key});
    WithoutTwice(s.recency, gone, {key});
    assert s.entries - gone - {key} == s.entries - (gone + {key});
  }

  lemma ClearedLinked(s: State, key: string)
    requires Linked(s)
    ensures Linked(Cleared(s, key)) && key !in Cleared(s, key).entries
  {
    if key in s.entries {
      RemoveLinked(s, key);
    }
  }

  lemma PushLinked(s: State, key: string, entry: Entry)
    requires Linked(s) && key !in s.entries
    ensures Linked(Push(s, key, entry))
  {
    var s' := Push(s, key, entry);
    NoDuplicatesCons(key, s.recency);
    assert s'.recency[1..] == s.recency;
    TotalFrame(s.entries, s'.entries, s.recency);
  }

  lemma {:induction false} EvictLinked(c: Config, s: State)
    requires Linked(s)
    ensures Linked(Evict(c, s))
    decreases |s.recency|
  {
    if Over(c, s) && s.recency != [] {
      var last := s.recency[|s.recency| - 1];
      RemoveLinked(s, last);
      EvictLinked(c, Remove(s, last));
    }
  }

  // ----- Eviction -----

  lemma {:induction false} WithoutLast(recency: seq<string>)
    requires NoDuplicates(recency) && recency != []
    ensures Without(recency, {recency[|recency| - 1]}) == recency[..|recency| - 1]
  {
    var n := |recency| - 1;
    assert recency == recency[..n] + [recency[n]];
    WithoutAppend(recency[..n], [recency[n]], {recency[n]});
    WithoutNone(recency[..n], {recency[n]});
  }

  lemma {:induction false} WithoutAppend(a: seq<string>, b: seq<string>, gone: set<string>)
    ensures Without(a + b, gone) == Without(a, gone) + Without(b, gone)
  {
    if a == [] {
      assert a + b == b;
    } else {
      assert (a + b)[1..] == a[1..] + b;
      WithoutAppend(a[1..], b, gone);
    }
  }

  /** The state with only the n most recently used entries. */
  function Newest(s: State, n: nat): State
    requires Linked(s) && n <= |s.recency|
  {
    s.(entries := map k | k in s.recency[..n] :: s.entries[k], recency := s.recency[..n],
       totalBytes := Total(s.entries, s.recency[..n]))
  }

  lemma NewestLinked(s: State, n: nat)
    requires Linked(s) && n <= |s.recency|
    ensures Linked(Newest(s, n))
  {
    TotalFrame(s.entries, Newest(s, n).entries, s.recency[..n]);
  }

  /** Two linked states with the same entries and recency agree on the byte count. */
  lemma SameTotals(s: State, s': State)
    requires Linked(s) && Linked(s') && s.entries == s'.entries && s.recency == s'.recency
    ensures s.totalBytes == s'.totalBytes
  {
  }

  lemma NewestTwice(s: State, n: nat, m: nat)
    requires Linked(s) && m <= n <= |s.recency|
    ensures Linked(Newest(s, n)) && Newest(Newest(s, n), m) == Newest(s, m)
  {
    hide NoDuplicates;
    hide Total;
    NewestLinked(s, n);
    NewestLinked(s, m);
    var s1 := Newest(s, n);
    NewestLinked(s1, m);
    assert s1.recency[..m] == s.recency[..m];
    hide Linked;
    assert Newest(s1, m).entries == Newest(s, m).entries;
    SameTotals(Newest(s1, m), Newest(s, m));
  }

  lemma RemoveLast(s: State)
    requires Linked(s) && s.recency != []
    ensures Remove(s, s.recency[|s.recency| - 1]) == Newest(s, |s.recency| - 1)
  {
    hide NoDuplicates;
    hide Total;
    hide Without;
    var n := |s.recency| - 1;
    var last := s.recency[n];
    WithoutLast(s.recency);
    RemoveLinked(s, last);
    NewestLinked(s, n);
    assert s.recency[..n] == Remove(s, last).recency;
    assert Remove(s, last).entries == Newest(s, n).entries;
    SameTotals(Remove(s, last), Newest(s, n));
  }

  lemma NewestAll(s: State)
    requires Linked(s)
    ensures Newest(s, |s.recency|) == s
  {
    assert s.recency[..|s.recency|] == s.recency;
    assert (map k | k in s.recency :: s.entries[k]) == s.entries;
  }

  lemma NewestLength(s: State, n: nat)
    requires Linked(s) && n <= |s.recency|
    ensures |Newest(s, n).recency| == n
  {
  }

  lemma EmptyNotOver(c: Config, s: State)
    requires Linked(s)
    ensures s.recency == [] ==> !Over(c, s)
  {
    if s.recency == [] {
      assert s.entries.Keys == {};
    }
  }

  /** Nothing more is evicted than the least recently used entries that have to go. */
  lemma {:induction false} EvictKeepsNewest(c: Config, s: State) returns (n: nat)
    requires Linked(s)
    ensures n <= |s.recency| && Evict(c, s) == Newest(s, n) && !Over(c, Evict(c, s))
    ensures forall m | n < m <= |s.recency| :: Over(c, Newest(s, m))
    decreases |s.recency|
  {
    hide Linked;
    hide Newest;
    hide Remove;
    hide Over;
    n := |s.recency|;
    NewestAll(s);
    if Over(c, s) {
      EmptyNotOver(c, s);
      var s1 := Newest(s, n - 1);
      RemoveLast(s);
      NewestLinked(s, n - 1);
      assert |s1.recency| == n - 1 by {
        NewestLength(s, n - 1);
      }
      n := EvictKeepsNewest(c, s1);
      NewestTwice(s, |s.recency| - 1, n);
      forall m | n < m <= |s.recency| ensures Over(c, Newest(s, m)) {
        if m < |s.recency| {
          NewestTwice(s, |s.recency| - 1, m);
        }
      }
    }
  }

  /** insert keeps both bounds, and a value that fits survives its own eviction loop. */
  lemma InsertBounded(c: Config, s: State, key: string, value: Bytes, now: Instant, flight: nat)
    requires Linked(s)
    ensures var s' := Insert(c, s, key, value, now, flight);
            && Linked(s') && |s'.entries| <= c.maxEntries && s'.totalBytes <= c.maxBytes
            && (forall k | k in s'.entries && k != key :: k in s.entries && s'.entries[k] == s.entries[k])
            && (key in s'.entries ==> s'.entries[key] == Entry(value, now + c.ttl, flight))
            && s' == s.(entries := s'.entries, recency := s'.recency, totalBytes := s'.totalBytes)
    ensures c.maxEntries >= 1 && |value| <= c.maxBytes ==>
              key in Insert(c, s, key, value, now, flight).entries && Insert(c, s, key, value, now, flight).recency[..1] == [key]
  {
    hide Linked;
    hide Evict;
    hide Total;
    hide Without;
    ClearedLinked(s, key);
    var entry := Entry(value, now + c.ttl, flight);
    var s1 := Push(Cleared(s, key), key, entry);
    PushLinked(Cleared(s, key), key, entry);
    EvictLinked(c, s1);
    var n := EvictKeepsNewest(c, s1);
    NewestEntries(s1, n);
    if c.maxEntries >= 1 && |value| <= c.maxBytes {
      OneFits(c, s1, key);
      hide Newest;
      assert n >= 1;
      NewestFirst(s1, n);
    }
  }

  lemma NewestEntries(s: State, n: nat)
    requires Linked(s) && n <= |s.recency|
    ensures forall k | k in Newest(s, n).entries :: k in s.entries && Newest(s, n).entries[k] == s.entries[k]
    ensures forall k | k in Newest(s, n).recency :: k in Newest(s, n).entries
  {
  }

  lemma NewestFirst(s: State, n: nat)
    requires Linked(s) && 0 < n <= |s.recency|
    ensures Newest(s, n).recency[..1] == s.recency[..1] == [s.recency[0]] && s.recency[0] in Newest(s, n).entries
  {
    assert s.recency[..n][0] == s.recency[0];
  }

  lemma OneFits(c: Config, s: State, key: string)
    requires Linked(s) && s.recency != [] && s.recency[0] == key && c.maxEntries >= 1 && |s.entries[key].value| <= c.maxBytes
    ensures !Over(c, Newest(s, 1))
  {
    assert s.recency[..1] == [key];
    assert Newest(s, 1).entries.Keys == {key};
    assert |Newest(s, 1).entries| == |Newest(s, 1).entries.Keys|;
    assert Total(s.entries, [key]) == |s.entries[key].value| + Total(s.entries, []);
  }

  // ----- Freshness -----

  predicate NotCoveredSince(log: seq<Event>, from: nat, key: string) {
    forall i | from <= i < |log| :: !Covers(log[i], key)
  }

  predicate FlightOk(s: State, f: Flight) {
    f.began <= |s.log| && f.generation == f.began % GENERATIONS
  }

  predicate EntryOk(s: State, key: string, e: Entry) {
    && e.flight < |s.flights| && s.flights[e.flight].key == key && s.flights[e.flight].result == Some(Ok(e.value))
    && NotCoveredSince(s.log, s.flights[e.flight].began, key)
  }

  /** What holds in every unlocked state. */
  ghost predicate Sound(c: Config, s: State) {
    && Linked(s) && |s.entries| <= c.maxEntries && s.totalBytes <= c.maxBytes
    && s.generation == |s.log| % GENERATIONS
    && (forall i | 0 <= i < |s.flights| :: FlightOk(s, s.flights[i]))
    && (forall k | k in s.pending ::
          s.pending[k] < |s.flights| && s.flights[s.pending[k]].key == k && s.flights[s.pending[k]].result.None?)
    && (forall k | k in s.entries :: EntryOk(s, k, s.entries[k]))
  }

  /** The check of a flight's generation tells whether it began after the last invalidation, up to 2^64 of them. */
  lemma SameGeneration(c: Config, s: State, id: nat)
    requires Sound(c, s) && id < |s.flights|
    ensures s.flights[id].generation == s.generation <==> (|s.log| - s.flights[id].began) % GENERATIONS == 0
    ensures |s.log| < GENERATIONS ==> (s.flights[id].generation == s.generation <==> s.flights[id].began == |s.log|)
  {
    var f := s.flights[id];
    assert FlightOk(s, f);
    var a, b := |s.log|, f.began;
    assert a == GENERATIONS * (a / GENERATIONS) + a % GENERATIONS;
    assert b == GENERATIONS * (b / GENERATIONS) + b % GENERATIONS;
    if f.generation == s.generation {
      assert a - b == GENERATIONS * (a / GENERATIONS - b / GENERATIONS);
    }
  }

  /** The generation of the fill is the current one although there were invalidations since it began. */
  predicate Wrapped(s: State, id: nat)
    requires id < |s.flights|
  {
    s.flights[id].began < |s.log| && (|s.log| - s.flights[id].began) % GENERATIONS == 0
  }

  /** The check of generations takes the fill for current although its key was invalidated. */
  predicate Misjudged(s: State, id: nat)
    requires id < |s.flights|
  {
    Wrapped(s, id) && !NotCoveredSince(s.log, s.flights[id].began, s.flights[id].key)
  }

  /** One section under the lock. */
  datatype Step = Enter(key: string, now: Instant) | Leave(flight: nat, result: Result<Bytes>, now: Instant) | Drop(event: Event)

  predicate Enabled(s: State, step: Step) {
    step.Leave? ==> step.flight < |s.flights| && s.flights[step.flight].result.None?
  }

  function Next(c: Config, s: State, step: Step): State
    requires Linked(s) && Enabled(s, step)
  {
    match step
    case Enter(key, now) => Begin(s, key, now).0
    case Leave(id, result, now) => Finish(c, s, id, result, now)
    case Drop(event) => Invalidate(s, event)
  }

  lemma TouchLinked(s: State, key: string)
    requires Linked(s) && key in s.entries
    ensures Linked(s.(recency := [key] + Without(s.recency, {key})))
  {
    var rest := Without(s.recency, {key});
    WithoutNoDuplicates(s.recency, {key});
    NoDuplicatesCons(key, rest);
    TotalWithout(s.entries, s.recency, key);
    assert ([key] + rest)[1..] == rest;
  }

  lemma LaterFlights(s: State, s': State)
    requires s'.log == s.log && |s.flights| <= |s'.flights|
    requires forall i | 0 <= i < |s.flights| ::
               && s'.flights[i].key == s.flights[i].key && s'.flights[i].began == s.flights[i].began
               && (s.flights[i].result.Some? ==> s'.flights[i].result == s.flights[i].result)
    ensures forall k, e | EntryOk(s, k, e) :: EntryOk(s', k, e)
  {
  }

  lemma EnterSound(c: Config, s: State, key: string, now: Instant)
    requires Sound(c, s)
    ensures Sound(c, Begin(s, key, now).0)
  {
    hide Linked;
    hide EntryOk;
    hide Without;
    if Current(s, key, now) {
      TouchLinked(s, key);
      LaterFlights(s, Begin(s, key, now).0);
    } else {
      ClearedSmaller(s, key);
      if !Shared(s, key) {
        OpensFlight(c, s, key, now);
      } else {
        LaterFlights(s, Begin(s, key, now).0);
      }
    }
  }

  lemma ClearedSmaller(s: State, key: string)
    requires Linked(s)
    ensures var s' := Cleared(s, key);
            && Linked(s') && |s'.entries| <= |s.entries| && s'.totalBytes <= s.totalBytes
            && (forall k | k in s'.entries :: k in s.entries && s'.entries[k] == s.entries[k])
            && s' == s.(entries := s'.entries, recency := s'.recency, totalBytes := s'.totalBytes)
  {
    ClearedLinked(s, key);
  }

  lemma OpensFlight(c: Config, s: State, key: string, now: Instant)
    requires Sound(c, s) && !Current(s, key, now) && !Shared(s, key)
    ensures Sound(c, Begin(s, key, now).0)
  {
    hide Linked;
    hide EntryOk;
    ClearedSmaller(s, key);
    LinkedFields(Cleared(s, key), Begin(s, key, now).0);
    hide Cleared;
    LaterFlights(s, Begin(s, key, now).0);
  }

  lemma LinkedFields(s: State, s': State)
    requires Linked(s) && s'.entries == s.entries && s'.recency == s.recency && s'.totalBytes == s.totalBytes
    ensures Linked(s')
  {
  }

  /** The step stores no value of a fill that it misjudges. */
  predicate Fine(c: Config, s: State, step: Step)
    requires Enabled(s, step)
  {
    step.Leave? && step.result.Ok? && |step.result.value| <= c.maxBytes && c.maxEntries >= 1 ==> !Misjudged(s, step.flight)
  }

  lemma LeaveSound(c: Config, s: State, id: nat, result: Result<Bytes>, now: Instant)
    requires Sound(c, s) && id < |s.flights| && s.flights[id].result.None? && Fine(c, s, Leave(id, result, now))
    ensures Sound(c, Finish(c, s, id, result, now))
  {
    hide Linked;
    hide EntryOk;
    hide Insert;
    var f := s.flights[id];
    var s1 := s.(pending := if f.key in s.pending && s.pending[f.key] == id then s.pending - {f.key} else s.pending,
                 flights := s.flights[id := f.(result := Some(result))]);
    LandedSound(c, s, id, result);
    if result.Ok? && f.generation == s.generation && |result.value| <= c.maxBytes {
      SameGeneration(c, s, id);
      hide Sound;
      FilledSound(c, s1, id, result.value, now);
    }
  }

  /** The flight is over, nothing stored yet. */
  lemma LandedSound(c: Config, s: State, id: nat, result: Result<Bytes>)
    requires Sound(c, s) && id < |s.flights| && s.flights[id].result.None?
    ensures var f := s.flights[id];
            Sound(c, s.(pending := if f.key in s.pending && s.pending[f.key] == id then s.pending - {f.key} else s.pending,
                        flights := s.flights[id := f.(result := Some(result))]))
  {
    hide Linked;
    hide EntryOk;
    var f := s.flights[id];
    var s1 := s.(pending := if f.key in s.pending && s.pending[f.key] == id then s.pending - {f.key} else s.pending,
                 flights := s.flights[id := f.(result := Some(result))]);
    LinkedFields(s, s1);
    LaterFlights(s, s1);
  }

  lemma FilledSound(c: Config, s: State, id: nat, value: Bytes, now: Instant)
    requires Sound(c, s) && id < |s.flights| && s.flights[id].result == Some(Ok(value))
    requires c.maxEntries == 0 || NotCoveredSince(s.log, s.flights[id].began, s.flights[id].key)
    ensures Sound(c, Insert(c, s, s.flights[id].key, value, now, id))
  {
    hide Linked;
    hide Insert;
    var key := s.flights[id].key;
    var s' := Insert(c, s, key, value, now, id);
    InsertBounded(c, s, key, value, now, id);
    assert c.maxEntries == 0 ==> s'.entries == map[];
    assert c.maxEntries > 0 ==> EntryOk(s, key, Entry(value, now + c.ttl, id));
    hide EntryOk;
    LaterFlights(s, s');
  }

  /** A value stored on a misjudged fill is out of date, and the next call is given it. */
  lemma MisjudgedIsServed(c: Config, s: State, id: nat, value: Bytes, now: Instant)
    requires Sound(c, s) && id < |s.flights| && s.flights[id].result.None? && !Fine(c, s, Leave(id, Ok(value), now))
    ensures var s' := Finish(c, s, id, Ok(value), now); var key := s.flights[id].key;
            && key in s'.entries && s'.entries[key] == Entry(value, now + c.ttl, id) && s'.log == s.log
            && |s'.flights| == |s.flights| && s'.flights[id].key == key && s'.flights[id].began == s.flights[id].began
            && !Sound(c, s')
  {
    SameGeneration(c, s, id);
    hide Linked;
    hide Insert;
    var f := s.flights[id];
    var s1 := s.(pending := if f.key in s.pending && s.pending[f.key] == id then s.pending - {f.key} else s.pending,
                 flights := s.flights[id := f.(result := Some(Ok(value)))]);
    LinkedFields(s, s1);
    InsertBounded(c, s1, f.key, value, now, id);
    assert !EntryOk(Finish(c, s, id, Ok(value), now), f.key, Entry(value, now + c.ttl, id));
  }

  lemma DropSound(c: Config, s: State, event: Event)
    requires Sound(c, s)
    ensures Sound(c, Invalidate(s, event))
  {
    hide Linked;
    hide RemoveAll;
    hide EntryOk;
    hide Total;
    var s1 := s.(generation := (s.generation + 1) % GENERATIONS, log := s.log + [event]);
    LinkedFields(s, s1);
    RemoveAllSmaller(s1, CoveredKeys(s, event));
    var s' := Invalidate(s, event);
    NextGeneration(|s.log|);
    forall k | k in s'.entries ensures EntryOk(s', k, s'.entries[k]) {
      StillFresh(s, s', event, k);
    }
  }

  lemma StillFresh(s: State, s': State, event: Event, key: string)
    requires s'.log == s.log + [event] && s'.flights == s.flights
    requires key in s.entries && EntryOk(s, key, s.entries[key]) && !Covers(event, key)
    ensures EntryOk(s', key, s.entries[key])
  {
    hide Covers;
  }

  lemma NextGeneration(n: nat)
    ensures (n % GENERATIONS + 1) % GENERATIONS == (n + 1) % GENERATIONS
  {
  }

  lemma RemoveAllSmaller(s: State, gone: set<string>)
    requires Linked(s)
    ensures var s' := RemoveAll(s, gone);
            && Linked(s') && |s'.entries| <= |s.entries| && s'.totalBytes <= s.totalBytes
            && s'.entries == s.entries - gone
            && s' == s.(entries := s'.entries, recency := s'.recency, totalBytes := s'.totalBytes)
  {
    RemoveAllLinked(s, gone);
    TotalLess(s.entries, s.recency, gone);
    KeysFewer(s.entries, gone);
  }

  lemma KeysFewer(entries: map<string, Entry>, gone: set<string>)
    ensures |entries - gone| <= |entries|
  {
    assert (entries - gone).Keys == entries.Keys - gone;
    assert |entries.Keys - gone| <= |entries.Keys|;
  }

  lemma {:induction false} TotalLess(entries: map<string, Entry>, recency: seq<string>, gone: set<string>)
    requires forall k | k in recency :: k in entries
    ensures Total(entries, Without(recency, gone)) <= Total(entries, recency)
  {
    if recency != [] {
      TotalLess(entries, recency[1..], gone);
      var rest := Without(recency[1..], gone);
      if recency[0] in gone {
        assert [] + rest == rest;
      } else {
        assert ([recency[0]] + rest)[1..] == rest;
      }
    }
  }

  /** Every section keeps the structure, the bounds and the freshness of the entries, unless it stores a misjudged fill. */
  lemma StepSound(c: Config, s: State, step: Step)
    requires Sound(c, s) && Enabled(s, step)
    ensures Sound(c, Next(c, s, step)) <==> Fine(c, s, step)
  {
    hide Linked;
    hide Finish;
    hide Begin;
    hide Invalidate;
    hide Sound;
    match step
    case Enter(key, now) => EnterSound(c, s, key, now);
    case Leave(id, result, now) =>
      if Fine(c, s, step) {
        LeaveSound(c, s, id, result, now);
      } else {
        MisjudgedIsServed(c, s, id, result.value, now);
      }
    case Drop(event) => DropSound(c, s, event);
  }

  // ----- Runs -----

  ghost predicate Possible(c: Config, s: State, steps: seq<Step>)
    decreases |steps|
  {
    steps == [] || (Linked(s) && Enabled(s, steps[0]) && Possible(c, Next(c, s, steps[0]), steps[1..]))
  }

  ghost function Run(c: Config, s: State, steps: seq<Step>): State
    requires Possible(c, s, steps)
    decreases |steps|
  {
    if steps == [] then s else Run(c, Next(c, s, steps[0]), steps[1..])
  }

  /** What later sections leave of the history: flights keep their key, start and result, the log only grows. */
  predicate Extends(s: State, s': State) {
    && |s.flights| <= |s'.flights| && s.log <= s'.log
    && forall i | 0 <= i < |s.flights| ::
         && s'.flights[i].key == s.flights[i].key && s'.flights[i].began == s.flights[i].began
         && (s.flights[i].result.Some? ==> s'.flights[i].result == s.flights[i].result)
  }

  lemma StepExtends(c: Config, s: State, step: Step)
    requires Linked(s) && Enabled(s, step)
    ensures Extends(s, Next(c, s, step))
  {
    hide Linked;
    hide Insert;
    if step.Leave? {
      var f := s.flights[step.flight];
      var s1 := s.(pending := if f.key in s.pending && s.pending[f.key] == step.flight then s.pending - {f.key} else s.pending,
                   flights := s.flights[step.flight := f.(result := Some(step.result))]);
      LinkedFields(s, s1);
      if step.result.Ok? {
        InsertBounded(c, s1, f.key, step.result.value, step.now, step.flight);
      }
    }
  }

  lemma {:induction false} RunExtends(c: Config, s: State, steps: seq<Step>)
    requires Possible(c, s, steps)
    ensures Extends(s, Run(c, s, steps))
    decreases |steps|
  {
    if steps != [] {
      StepExtends(c, s, steps[0]);
      RunExtends(c, Next(c, s, steps[0]), steps[1..]);
      hide Next;
    }
  }

  /** All steps of the run are fine. */
  ghost predicate AllFine(c: Config, s: State, steps: seq<Step>)
    requires Possible(c, s, steps)
    decreases |steps|
  {
    steps == [] || (Fine(c, s, steps[0]) && AllFine(c, Next(c, s, steps[0]), steps[1..]))
  }

  /** Every entry was fresh at every moment of the run. */
  ghost predicate AllSound(c: Config, s: State, steps: seq<Step>)
    requires Possible(c, s, steps)
    decreases |steps|
  {
    Sound(c, s) && (steps == [] || AllSound(c, Next(c, s, steps[0]), steps[1..]))
  }

  /** Runs of any length: the entries are fresh throughout exactly if no step stores a misjudged fill. */
  lemma {:induction false} RunSoundExactly(c: Config, s: State, steps: seq<Step>)
    requires Sound(c, s) && Possible(c, s, steps)
    ensures AllSound(c, s, steps) <==> AllFine(c, s, steps)
    ensures AllFine(c, s, steps) ==> Sound(c, Run(c, s, steps))
    decreases |steps|
  {
    hide Sound;
    hide Next;
    hide Fine;
    if steps != [] {
      StepSound(c, s, steps[0]);
      if Fine(c, s, steps[0]) {
        RunSoundExactly(c, Next(c, s, steps[0]), steps[1..]);
      }
    }
  }

  /** Fewer than 2^64 invalidations never wrap the counter. */
  lemma {:induction false} FewAreFine(c: Config, s: State, steps: seq<Step>)
    requires Possible(c, s, steps) && |Run(c, s, steps).log| < GENERATIONS
    ensures AllFine(c, s, steps)
    decreases |steps|
  {
    hide Next;
    hide Linked;
    RunExtends(c, s, steps);
    if steps != [] {
      FewAreFine(c, Next(c, s, steps[0]), steps[1..]);
    }
  }

  lemma InitSound(c: Config)
    ensures Sound(c, Init())
  {
  }

  /** The fill whose value a GetOrFill call returns, unless its context ends first. */
  function Serves(s: State, key: string, now: Instant): nat {
    if Current(s, key, now) then s.entries[key].flight
    else if Shared(s, key) then s.pending[key]
    else |s.flights|
  }

  /** A fill for this key that began after every invalidation of the key so far. */
  predicate FreshFill(s: State, key: string, id: nat) {
    && id < |s.flights| && s.flights[id].key == key
    && forall e | 0 <= e < |s.log| && Covers(s.log[e], key) :: e < s.flights[id].began
  }

  /** The call waits for a running fill that it misjudges. */
  predicate JoinsMisjudged(s: State, key: string, now: Instant) {
    !Current(s, key, now) && Shared(s, key) && Misjudged(s, s.pending[key])
  }

  /**
    Whatever calls ran before and however they interleaved, with any number of
    invalidations: as long as no misjudged fill was stored, a GetOrFill that
    starts now returns the value of a fill that began after every invalidation
    covering its key, except exactly if it waits for a fill that it misjudges.
   */
  lemma FreshExactly(c: Config, steps: seq<Step>, key: string, now: Instant)
    requires Possible(c, Init(), steps) && AllFine(c, Init(), steps)
    ensures var s := Run(c, Init(), steps);
            FreshFill(Begin(s, key, now).0, key, Serves(s, key, now)) <==> !JoinsMisjudged(s, key, now)
  {
    hide Linked;
    hide Possible;
    hide Run;
    hide AllFine;
    InitSound(c);
    RunSoundExactly(c, Init(), steps);
    ServesFresh(c, Run(c, Init(), steps), key, now);
  }

  /**
    With fewer than 2^64 invalidations in all: whatever calls ran before and
    however they interleaved, a GetOrFill that starts now returns the value of a
    fill that began after every invalidation covering its key.
   */
  lemma NeverStale(c: Config, steps: seq<Step>, key: string, now: Instant)
    requires Possible(c, Init(), steps) && |Run(c, Init(), steps).log| < GENERATIONS
    ensures var s := Run(c, Init(), steps);
            var (s', outcome) := Begin(s, key, now);
            && FreshFill(s', key, Serves(s, key, now))
            && match outcome
               case Hit(value) => s'.flights[Serves(s, key, now)].result == Some(Ok(value))
               case Join(id) => id == Serves(s, key, now)
               case Lead(id) => id == Serves(s, key, now)
  {
    hide Linked;
    hide Possible;
    hide Run;
    hide AllFine;
    InitSound(c);
    FewAreFine(c, Init(), steps);
    RunSoundExactly(c, Init(), steps);
    var s := Run(c, Init(), steps);
    ServesFresh(c, s, key, now);
  }

  lemma ServesFresh(c: Config, s: State, key: string, now: Instant)
    requires Sound(c, s)
    ensures FreshFill(Begin(s, key, now).0, key, Serves(s, key, now)) <==> !JoinsMisjudged(s, key, now)
    ensures Current(s, key, now) ==> s.flights[Serves(s, key, now)].result == Some(Ok(s.entries[key].value))
  {
    hide Linked;
    if Current(s, key, now) {
      assert EntryOk(s, key, s.entries[key]);
    } else if Shared(s, key) {
      SameGeneration(c, s, s.pending[key]);
    }
  }

  // ----- A run that wraps the counter -----

  function Drops(key: string, n: nat): (r: seq<Step>)
    ensures |r| == n && forall i | 0 <= i < n :: r[i] == Drop(Keys([key]))
  {
    seq(n, i => Drop(Keys([key])))
  }

  function DropLog(key: string, n: nat): (r: seq<Event>)
    ensures |r| == n && forall i | 0 <= i < n :: r[i] == Keys([key])
  {
    seq(n, i => Keys([key]))
  }

  /** A first fill runs, and its key has been invalidated n times since. */
  function Running(key: string, n: nat): State {
    State(map[], [], 0, n % GENERATIONS, map[key := 0], [Flight(key, 0, 0, None)], DropLog(key, n))
  }

  lemma DropsOne(key: string, n: nat)
    ensures Linked(Running(key, n)) && Invalidate(Running(key, n), Keys([key])) == Running(key, n + 1)
  {
    var s := Running(key, n);
    NextGeneration(n);
    assert CoveredKeys(s, Keys([key])) == {};
    assert DropLog(key, n) + [Keys([key])] == DropLog(key, n + 1);
    assert map[] - {} == s.entries;
  }

  lemma {:induction false} DropsRun(c: Config, key: string, from: nat, n: nat)
    ensures Possible(c, Running(key, from), Drops(key, n))
    ensures Run(c, Running(key, from), Drops(key, n)) == Running(key, from + n)
    decreases n
  {
    hide Running;
    hide Linked;
    hide Invalidate;
    if n > 0 {
      DropsOne(key, from);
      assert Drops(key, n)[1..] == Drops(key, n - 1);
      DropsRun(c, key, from + 1, n - 1);
    }
  }

  lemma {:induction false} RunAppend(c: Config, s: State, a: seq<Step>, b: seq<Step>)
    requires Possible(c, s, a) && Possible(c, Run(c, s, a), b)
    ensures Possible(c, s, a + b) && Run(c, s, a + b) == Run(c, Run(c, s, a), b)
    decreases |a|
  {
    hide Linked;
    hide Next;
    if a == [] {
      assert a + b == b;
    } else {
      assert (a + b)[0] == a[0] && (a + b)[1..] == a[1..] + b;
      RunAppend(c, Next(c, s, a[0]), a[1..], b);
    }
  }

  lemma OneStep(c: Config, s: State, step: Step)
    requires Linked(s) && Enabled(s, step)
    ensures Possible(c, s, [step]) && Run(c, s, [step]) == Next(c, s, step)
  {
    hide Linked;
    hide Next;
    assert [step][1..] == [];
  }

  lemma Begins(key: string, now: Instant)
    ensures Linked(Init()) && Begin(Init(), key, now).0 == Running(key, 0)
  {
    assert DropLog(key, 0) == [];
  }

  /** A fill, 2^64 invalidations of its key, and its end. */
  function WrappingSteps(key: string, value: Bytes, now: Instant): seq<Step> {
    [Enter(key, now)] + Drops(key, GENERATIONS) + [Leave(0, Ok(value), now)]
  }

  lemma WrappedRunning(c: Config, key: string)
    ensures Sound(c, Running(key, GENERATIONS)) && Misjudged(Running(key, GENERATIONS), 0)
  {
    var s := Running(key, GENERATIONS);
    assert Covers(s.log[0], key);
  }

  lemma FillThenDrops(c: Config, key: string, now: Instant)
    ensures var steps := [Enter(key, now)] + Drops(key, GENERATIONS);
            Possible(c, Init(), steps) && Run(c, Init(), steps) == Running(key, GENERATIONS)
  {
    var enter, drops := Enter(key, now), Drops(key, GENERATIONS);
    Begins(key, now);
    hide Linked;
    hide Running;
    hide Begin;
    hide Drops;
    OneStep(c, Init(), enter);
    DropsRun(c, key, 0, GENERATIONS);
    hide Possible;
    hide Run;
    RunAppend(c, Init(), [enter], drops);
  }

  lemma WrappingRun(c: Config, key: string, value: Bytes, now: Instant)
    ensures Possible(c, Init(), WrappingSteps(key, value, now))
    ensures Linked(Running(key, GENERATIONS))
    ensures Run(c, Init(), WrappingSteps(key, value, now)) == Finish(c, Running(key, GENERATIONS), 0, Ok(value), now)
  {
    var before, leave := Running(key, GENERATIONS), Leave(0, Ok(value), now);
    WrappedRunning(c, key);
    assert Linked(before) && Enabled(before, leave);
    hide Sound;
    hide Linked;
    hide Finish;
    hide Running;
    FillThenDrops(c, key, now);
    OneStep(c, before, leave);
    hide Possible;
    hide Run;
    hide Drops;
    RunAppend(c, Init(), [Enter(key, now)] + Drops(key, GENERATIONS), [leave]);
  }

  /**
    The condition is needed: the run of one fill, 2^64 invalidations of its key
    and its end reaches a state whose next call is given that fill's value,
    although the fill began before all of them.
   */
  lemma WrappingRunServesStale(c: Config, key: string, value: Bytes, now: Instant)
    requires c.maxEntries >= 1 && |value| <= c.maxBytes && c.ttl > 0
    ensures var steps := WrappingSteps(key, value, now);
            && Possible(c, Init(), steps)
            && var s := Run(c, Init(), steps);
               && |s.log| == GENERATIONS && Begin(s, key, now).1 == Hit(value)
               && !FreshFill(Begin(s, key, now).0, key, Serves(s, key, now))
  {
    var before := Running(key, GENERATIONS);
    WrappingRun(c, key, value, now);
    WrappedRunning(c, key);
    MisjudgedIsServed(c, before, 0, value, now);
    assert Covers(before.log[0], key);
    assert before.flights[0].key == key && before.flights[0].began == 0 && |before.log| == GENERATIONS;
    hide Run;
    hide Possible;
    hide Finish;
    hide Running;
    hide WrappingSteps;
    hide Sound;
    hide Without;
  }
}
