/**
  The public HTML cache as it is updated in place; every method is one section
  under the mutex and is proved to take the step of CacheModel.
  internal/web/public/cache.go.
 */
module HtmlCache {
  import opened Outcomes
  import opened CacheModel

  /** recency.Remove */
  method Unlink(recency: seq<string>, key: string) returns (kept: seq<string>)
    ensures kept == Without(recency, {key})
  {
    kept := [];
    assert recency[..0] == [];
    for i := 0 to |recency|
      invariant kept == Without(recency[..i], {key})
    {
      WithoutNext(recency, i, key);
      if recency[i] != key {
        kept := kept + [recency[i]];
      }
    }
    assert recency[..|recency|] == recency;
  }

  lemma WithoutNext(recency: seq<string>, i: nat, key: string)
    requires i < |recency|
    ensures Without(recency[..i + 1], {key}) == Without(recency[..i], {key}) + if recency[i] == key then [] else [recency[i]]
  {
    assert recency[..i + 1] == recency[..i] + [recency[i]];
    WithoutAppend(recency[..i], [recency[i]], {key});
    assert [recency[i]][1..] == [];
  }

  class Cache {
    const config: Config
    var entries: map<string, Entry>
    var recency: seq<string>
    var pending: map<string, nat>
    var flights: seq<Flight>
    var totalBytes: int
    var generation: nat
    var log: seq<Event>  // history

    ghost function Abstract(): State
      reads this
    {
      State(entries, recency, totalBytes, generation, pending, flights, log)
    }

    ghost predicate Valid()
      reads this
    {
      Linked(Abstract())
    }

    constructor (config: Config)
      ensures this.config == config && Abstract() == Init() && Valid()
    {
      this.config := config;
      entries, recency, pending, flights := map[], [], map[], [];
      totalBytes, generation, log := 0, 0, [];
    }

    method RemoveEntry(key: string)
      requires Valid() && key in entries
      modifies `entries, `recency, `totalBytes
      ensures Valid() && Abstract() == Remove(old(Abstract()), key)
    {
      hide Linked;
      hide Without;
      RemoveLinked(Abstract(), key);
      totalBytes := totalBytes - |entries[key].value|;
      entries := entries - {key};
      recency := Unlink(recency, key);
    }

    method InsertEntry(key: string, value: Bytes, now: Instant, flight: nat)
      requires Valid()
      modifies `entries, `recency, `totalBytes
      ensures Valid() && Abstract() == Insert(config, old(Abstract()), key, value, now, flight)
    {
      hide Linked;
      hide Without;
      hide Remove;
      hide Evict;
      ClearedLinked(Abstract(), key);
      if key in entries {
        RemoveEntry(key);
      }
      var entry := Entry(value, now + config.ttl, flight);
      PushLinked(Abstract(), key, entry);
      recency := [key] + recency;
      entries := entries[key := entry];
      totalBytes := totalBytes + |value|;
      EvictOver();
    }

    /** The loop at the end of insert. */
    method EvictOver()
      requires Valid()
      modifies `entries, `recency, `totalBytes
      ensures Valid() && Abstract() == Evict(config, old(Abstract()))
    {
      hide Linked;
      hide Without;
      hide Remove;
      ghost var full := Abstract();
      while (|entries| > config.maxEntries || totalBytes > config.maxBytes) && recency != []
        invariant Valid()
        invariant Evict(config, Abstract()) == Evict(config, full)
        invariant Abstract() == full.(entries := entries, recency := recency, totalBytes := totalBytes)
        decreases |recency|
      {
        var oldest := recency[|recency| - 1];
        OldestStored(Abstract());
        RemoveLinked(Abstract(), oldest);
        RemoveFields(Abstract(), oldest);
        RemoveEntry(oldest);
      }
    }

    /** The first section of GetOrFill. */
    method Enter(key: string, now: Instant) returns (outcome: Outcome)
      requires Valid()
      modifies this
      ensures Valid() && (Abstract(), outcome) == Begin(old(Abstract()), key, now)
    {
      ClearedLinked(Abstract(), key);
      if key in entries {
        if now < entries[key].expiresAt {
          TouchLinked(Abstract(), key);
          var rest := Unlink(recency, key);
          recency := [key] + rest;
          return Hit(entries[key].value);
        }
        RemoveEntry(key);
      }
      if key in pending && pending[key] < |flights| && flights[pending[key]].generation == generation {
        return Join(pending[key]);
      }
      LinkedFields(Abstract(), Begin(old(Abstract()), key, now).0);
      pending := pending[key := |flights|];
      flights := flights + [Flight(key, generation, |log|, None)];
      return Lead(|flights| - 1);
    }

    /** The second section of GetOrFill, after fill returned. */
    method Leave(id: nat, result: Result<Bytes>, now: Instant)
      requires Valid() && id < |flights|
      modifies this
      ensures Valid() && Abstract() == Finish(config, old(Abstract()), id, result, now)
    {
      var flight := flights[id];
      if flight.key in pending && pending[flight.key] == id {
        pending := pending - {flight.key};
      }
      flights := flights[id := flight.(result := Some(result))];
      LinkedFields(old(Abstract()), Abstract());
      if result.Ok? && flight.generation == generation && |result.value| <= config.maxBytes {
        InsertEntry(flight.key, result.value, now, id);
      }
    }

    /** Invalidate(keys...) */
    method InvalidateKeys(keys: seq<string>)
      requires Valid()
      modifies this
      ensures Valid() && Abstract() == Invalidate(old(Abstract()), Keys(keys))
    {
      hide Linked;
      hide Without;
      hide Total;
      hide Remove;
      generation := (generation + 1) % GENERATIONS;
      log := log + [Keys(keys)];
      LinkedFields(old(Abstract()), Abstract());
      ghost var s := Abstract();
      ghost var gone: set<string> := {};
      RemoveAllNone(s);
      for i := 0 to |keys|
        invariant Linked(s) && Abstract() == RemoveAll(s, gone) && Valid()
        invariant gone == set k | k in s.entries && k in keys[..i]
      {
        assert keys[..i + 1] == keys[..i] + [keys[i]];
        if keys[i] in entries {
          RemoveOneMore(s, gone, keys[i]);
          RemoveEntry(keys[i]);
          gone := gone + {keys[i]};
        }
      }
      assert keys[..|keys|] == keys;
      assert gone == CoveredKeys(old(Abstract()), Keys(keys));
    }

    /** InvalidatePrefix: the entries in any order. */
    method InvalidatePrefix(prefix: string)
      requires Valid()
      modifies this
      ensures Valid() && Abstract() == Invalidate(old(Abstract()), Prefix(prefix))
    {
      hide Linked;
      hide Without;
      hide Total;
      hide Remove;
      generation := (generation + 1) % GENERATIONS;
      log := log + [Prefix(prefix)];
      LinkedFields(old(Abstract()), Abstract());
      ghost var s := Abstract();
      ghost var gone: set<string> := {};
      RemoveAllNone(s);
      var rest := entries.Keys;
      while rest != {}
        invariant Linked(s) && Abstract() == RemoveAll(s, gone) && Valid()
        invariant rest <= entries.Keys
        invariant gone == set k | k in s.entries && k !in rest && Covers(Prefix(prefix), k)
        decreases |rest|
      {
        var key :| key in rest;
        rest := rest - {key};
        if |key| >= |prefix| && key[..|prefix|] == prefix {
          RemoveOneMore(s, gone, key);
          RemoveEntry(key);
          gone := gone + {key};
        }
      }
      assert gone == CoveredKeys(old(Abstract()), Prefix(prefix));
    }
  }

  lemma OldestStored(s: State)
    requires Linked(s) && s.recency != []
    ensures s.recency[|s.recency| - 1] in s.entries
  {
    assert s.recency[|s.recency| - 1] in s.recency;
  }

  lemma RemoveFields(s: State, key: string)
    requires key in s.entries
    ensures var s' := Remove(s, key);
            && s' == s.(entries := s'.entries, recency := s'.recency, totalBytes := s'.totalBytes)
  {
  }

  lemma RemoveAllNone(s: State)
    requires Linked(s)
    ensures RemoveAll(s, {}) == s
  {
    WithoutNone(s.recency, {});
    assert s.entries - {} == s.entries;
  }
}
