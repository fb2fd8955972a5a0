/** `InMemorySchemaCache`: a bounded map from keys to cached records with a
    time-to-live, least-hits eviction and hit/miss counters. A stored `None`
    is a negative entry: a cached confirmation that the registry has no such
    schema. Time is a number of seconds passed in as `now`. */
module SchemaCache {
  import opened Values

  const DefaultMaxSize: int := 1000
  const DefaultTimeToLiveSeconds: int := 1800

  /** `SchemaCacheOptions`. */
  datatype CacheOptions = CacheOptions(maxSize: int, timeToLiveSeconds: int)

  const DefaultOptions := CacheOptions(DefaultMaxSize, DefaultTimeToLiveSeconds)

  /** One cached value with the time it was written and the number of times
      it was read. */
  datatype Entry = Entry(info: Option<SchemaInfo>, cachedAt: nat, hits: int)

  /** The eviction order: fewer hits first, and among equal hits the older entry. */
  predicate EvictsNoLaterThan(a: Entry, b: Entry)
  {
    a.hits < b.hits || (a.hits == b.hits && a.cachedAt <= b.cachedAt)
  }

  /** `k` is an entry that eviction may pick: first in the eviction order. */
  predicate IsEvictionVictim(entries: map<string, Entry>, k: string)
  {
    k in entries && forall k' :: k' in entries ==> EvictsNoLaterThan(entries[k], entries[k'])
  }

  /** An entry younger than the time-to-live: a read of it is a hit. */
  predicate IsFresh(entries: map<string, Entry>, key: string, now: nat, ttl: int)
  {
    key in entries && now - entries[key].cachedAt < ttl
  }

  /** The entries left once `victim`, if there is one, has been evicted. */
  function Evicting(entries: map<string, Entry>, victim: Option<string>): map<string, Entry>
  {
    if victim.Some? then entries - {victim.value} else entries
  }

  /** `after` is what `Set(key, entry)` makes of `before` in a cache bounded
      by `maxSize`: a full cache first loses one eviction victim, and then
      `key` holds `entry`; nothing else changes. */
  ghost predicate IsSetResult(before: map<string, Entry>, maxSize: int, key: string, entry: Entry, after: map<string, Entry>)
  {
    exists victim: Option<string> ::
      && (victim.Some? <==> |before| >= maxSize && |before| > 0)
      && (victim.Some? ==> IsEvictionVictim(before, victim.value))
      && after == Evicting(before, victim)[key := entry]
  }

  /** Evicting the chosen victim of a full cache, if any, and writing the
      entry is a result of `Set`. */
  lemma SetResultOf(before: map<string, Entry>, maxSize: int, key: string, entry: Entry, victim: Option<string>)
    requires victim.Some? <==> |before| >= maxSize && |before| > 0
    requires victim.Some? ==> IsEvictionVictim(before, victim.value)
    ensures IsSetResult(before, maxSize, key, entry, Evicting(before, victim)[key := entry])
  {
  }

  /** A write after the eviction of a full cache keeps the cache within a
      bound of at least one. */
  lemma {:induction false} SetWithinBound(before: map<string, Entry>, bound: int, key: string, entry: Entry,
                                          victim: Option<string>)
    requires victim.Some? <==> |before| >= bound && |before| > 0
    requires victim.Some? ==> victim.value in before
    requires 1 <= bound && |before| <= bound
    ensures |Evicting(before, victim)[key := entry]| <= bound
  {
    var left := Evicting(before, victim);
    if victim.Some? {
      assert left.Keys == before.Keys - {victim.value};
    }
    assert left[key := entry].Keys == left.Keys + {key};
  }

  /** A write leaves its entry in place and every other entry as it was,
      except at most the one victim of a full cache; with room to spare it
      evicts nothing. */
  lemma {:induction false} SetResultKeeps(before: map<string, Entry>, maxSize: int, key: string, entry: Entry,
                                          after: map<string, Entry>)
    requires IsSetResult(before, maxSize, key, entry, after)
    ensures key in after && after[key] == entry
    ensures forall k :: k in after && k != key ==> k in before && after[k] == before[k]
    ensures |before| < maxSize ==> after == before[key := entry]
    ensures |after| <= |before| + 1
  {
    var victim: Option<string> :|
      && (victim.Some? <==> |before| >= maxSize && |before| > 0)
      && (victim.Some? ==> IsEvictionVictim(before, victim.value))
      && after == Evicting(before, victim)[key := entry];
    var left := Evicting(before, victim);
    assert left.Keys <= before.Keys;
    assert |left.Keys| <= |before.Keys| by { SubsetCardinality(left.Keys, before.Keys); }
  }

  lemma SubsetCardinality<T>(a: set<T>, b: set<T>)
    requires a <= b
    ensures |a| <= |b|
  {
    assert b == a + (b - a);
  }

  /** `after` is what `Set(first, entry)` followed by `Set(second, entry)`
      makes of `before`. */
  ghost predicate IsSetTwiceResult(before: map<string, Entry>, maxSize: int, first: string, second: string, entry: Entry,
                                   after: map<string, Entry>)
  {
    exists written :: IsSetResult(before, maxSize, first, entry, written) && IsSetResult(written, maxSize, second, entry, after)
  }

  /** Two writes of one entry in a row: the second key holds it, the first
      does unless it was evicted by the second write, nothing else changes
      apart from eviction victims, and a cache with room for both evicts
      nothing. */
  lemma {:induction false} SetTwiceKeeps(before: map<string, Entry>, maxSize: int, first: string, second: string,
                                         entry: Entry, after: map<string, Entry>)
    requires IsSetTwiceResult(before, maxSize, first, second, entry, after)
    ensures second in after && after[second] == entry
    ensures first in after ==> after[first] == entry
    ensures forall k :: k in after && k != first && k != second ==> k in before && after[k] == before[k]
    ensures |before| + 1 < maxSize ==> after == before[first := entry][second := entry]
  {
    var written :| IsSetResult(before, maxSize, first, entry, written) && IsSetResult(written, maxSize, second, entry, after);
    SetResultKeeps(before, maxSize, first, entry, written);
    SetResultKeeps(written, maxSize, second, entry, after);
  }

  /** The key that `OrderBy(hits).ThenBy(cachedAt).FirstOrDefault()` selects
      from a non-empty cache: a scan that keeps the first entry of least
      (hits, cachedAt). */
  method LeastUsedKey(entries: map<string, Entry>) returns (victim: string)
    requires |entries| > 0
    ensures IsEvictionVictim(entries, victim)
  {
    var rest := entries.Keys;
    victim :| victim in rest;
    rest := rest - {victim};
    while rest != {}
      invariant rest <= entries.Keys
      invariant victim in entries
      invariant forall k :: k in entries && k !in rest ==> EvictsNoLaterThan(entries[victim], entries[k])
      decreases rest
    {
      var k :| k in rest;
      if !EvictsNoLaterThan(entries[victim], entries[k]) {
        victim := k;
      }
      rest := rest - {k};
    }
  }

  class InMemorySchemaCache {
    var entries: map<string, Entry>
    var hitCount: nat
    var missCount: nat
    var disposed: bool
    const options: CacheOptions

    /** Keys are never empty, every entry has been counted as written once,
        and the size stays within the bound (a bound below one still admits
        the single entry just written). */
    ghost predicate Valid()
      reads this
    {
      && (forall k :: k in entries ==> k != "" && entries[k].hits >= 1)
      && |entries| <= Bound()
    }

    function Bound(): int
    {
      if options.maxSize < 1 then 1 else options.maxSize
    }

    /** A new cache, with the default options when none are given. */
    constructor (given: Option<CacheOptions>)
      ensures Valid()
      ensures options == (if given.Some? then given.value else DefaultOptions)
      ensures entries == map[] && hitCount == 0 && missCount == 0 && !disposed
    {
      options := if given.Some? then given.value else DefaultOptions;
      entries := map[];
      hitCount, missCount := 0, 0;
      disposed := false;
    }

    function Count(): (n: nat)
      reads this
      requires Valid()
      ensures n <= Bound()
    {
      |entries|
    }

    /** A fresh entry is a hit: its value (possibly negative) is returned and
        its hit count bumped. An expired entry is removed and, like an empty or
        absent key, is a miss. Every call counts exactly one hit or miss. */
    method TryGet(key: string, now: nat) returns (found: bool, schema: Option<SchemaInfo>)
      requires Valid()
      modifies this
      ensures Valid() && disposed == old(disposed)
      ensures hitCount + missCount == old(hitCount + missCount) + 1
      ensures found <==> key != "" && IsFresh(old(entries), key, now, options.timeToLiveSeconds)
      ensures found ==>
        && schema == old(entries)[key].info
        && hitCount == old(hitCount) + 1
        && entries == old(entries)[key := old(entries)[key].(hits := old(entries)[key].hits + 1)]
      ensures !found ==>
        && schema == None
        && missCount == old(missCount) + 1
        && entries == old(entries) - {key}
    {
      schema := None;
      if key == "" {
        missCount := missCount + 1;
        found := false;
        return;
      }
      if key in entries {
        var entry := entries[key];
        if now - entry.cachedAt < options.timeToLiveSeconds {
          schema := entry.info;
          entries := entries[key := entry.(hits := entry.hits + 1)];
          hitCount := hitCount + 1;
          found := true;
          return;
        }
        entries := entries - {key};
      }
      missCount := missCount + 1;
      found := false;
    }

    /** Writes `schema` under `key` with the current time and one hit. When
        the cache is full it first evicts one entry, the least used (oldest
        among equals), even when `key` is already present. An empty key is
        ignored. `evicted` names the entry evicted, if any. */
    method Set(key: string, schema: Option<SchemaInfo>, now: nat) returns (ghost evicted: Option<string>)
      requires Valid()
      modifies this
      ensures Valid() && disposed == old(disposed)
      ensures hitCount == old(hitCount) && missCount == old(missCount)
      ensures key == "" ==> entries == old(entries) && evicted == None
      ensures evicted.Some? <==> key != "" && |old(entries)| >= options.maxSize && |old(entries)| > 0
      ensures evicted.Some? ==> IsEvictionVictim(old(entries), evicted.value)
      ensures key != "" ==> entries == Evicting(old(entries), evicted)[key := Entry(schema, now, 1)]
    {
      evicted := None;
      if key == "" {
        return;
      }
      ghost var before := entries;
      if |entries| >= options.maxSize && |entries| > 0 {
        var victim := LeastUsedKey(entries);
        entries := entries - {victim};
        evicted := Some(victim);
      }
      entries := entries[key := Entry(schema, now, 1)];
      SetWithinBound(before, Bound(), key, Entry(schema, now, 1), evicted);
    }

    /** Deletes `key`; nothing happens for an empty or absent key. */
    method Remove(key: string)
      requires Valid()
      modifies this
      ensures Valid()
      ensures entries == old(entries) - {key}
      ensures hitCount == old(hitCount) && missCount == old(missCount) && disposed == old(disposed)
    {
      if key == "" {
        return;
      }
      entries := entries - {key};
    }

    /** The keys that start with `prefix` (ordinal comparison); none for an
        empty prefix. */
    function KeysMatchingPrefix(prefix: string): (keys: set<string>)
      reads this
      ensures keys <= entries.Keys
      ensures forall k :: k in keys <==> prefix != "" && k in entries && prefix <= k
    {
      if prefix == "" then {} else set k | k in entries && prefix <= k
    }

    method Clear()
      modifies this
      ensures Valid()
      ensures entries == map[]
      ensures hitCount == old(hitCount) && missCount == old(missCount) && disposed == old(disposed)
    {
      entries := map[];
    }

    /** Empties the cache once; later calls do nothing. */
    method Dispose()
      requires Valid()
      modifies this
      ensures Valid() && disposed
      ensures old(disposed) ==> entries == old(entries)
      ensures !old(disposed) ==> entries == map[]
      ensures hitCount == old(hitCount) && missCount == old(missCount)
    {
      if !disposed {
        entries := map[];
        disposed := true;
      }
    }
  }
}
