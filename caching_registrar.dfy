/** `CachingSchemaRegistrar`: read-through caching in front of an inner
    registrar. Calls run one at a time here, so each in-flight table holds a
    key only while its fetch is running and is empty again when the call
    returns. The inner registrar is an oracle: each operation receives the
    reply the inner call would give (a value, or a thrown exception) and
    records the call in the ghost log `innerCalls`. */
module CachingRegistrar {
  import opened Values
  import opened CacheKeys
  import opened SchemaTypes
  import opened SchemaCache

  /** A call made to the inner registrar. */
  datatype Call =
    | FetchVersion(subject: string, version: int)
    | FetchId(id: int)
    | Register(subject: string, schema: Schema)
    | DeleteVersion(subject: string, version: int)

  /** The record cached for a schema fetched by subject and version. */
  function VersionEntryInfo(subject: string, registered: SchemaInfo): (info: SchemaInfo)
    ensures info.subject == Some(subject) && info.role.None?
    ensures info.id == registered.id && info.schema == registered.schema
    ensures info.schemaType == registered.schemaType
  {
    SchemaInfo(Some(subject), registered.id, registered.schema, None, registered.schemaType)
  }

  /** The record cached for a schema just registered under `subject` with `id`. */
  function RegisteredInfo(subject: string, id: int, schema: Schema): (info: SchemaInfo)
    ensures info.subject == Some(subject) && info.id == Some(id) && info.schema == schema.text
    ensures SchemaOfInfo(info) == schema
  {
    SchemaInfo(Some(subject), Some(id), schema.text, None, Some(SchemaTypeName(schema.schemaType)))
  }

  /** Removing two key sets one after the other removes their union. */
  lemma RemoveInTurn<K, V>(m: map<K, V>, first: set<K>, second: set<K>)
    ensures (m - first) - second == m - (first + second)
  {
  }

  /** Removing key sets that agree on the keys present gives the same map. */
  lemma RemoveSameKeys<K, V>(m: map<K, V>, a: set<K>, b: set<K>)
    requires forall k :: k in m ==> (k in a <==> k in b)
    ensures m - a == m - b
  {
  }

  /** Removing two keys that start with `prefix` and then the remaining keys
      that start with it removes exactly the keys of `m` that start with it. */
  lemma SweepAfterRemovals<V>(m: map<string, V>, prefix: string, a: string, b: string,
                              stale: set<string>, matching: set<string>)
    requires prefix <= a && prefix <= b
    requires forall k :: k in stale <==> k in (m - {a}) - {b} && prefix <= k
    requires forall k :: k in matching <==> k in m && prefix <= k
    ensures ((m - {a}) - {b}) - stale == m - matching
  {
    RemoveInTurn(m, {a}, {b});
    RemoveInTurn(m, {a} + {b}, stale);
    RemoveSameKeys(m, {a} + {b} + stale, matching);
  }

  /** No key that starts with `prefix` survives the removal of all such keys. */
  lemma SweptKeyGone<V>(m: map<string, V>, prefix: string, matching: set<string>, k: string)
    requires prefix <= k
    requires forall k :: k in matching <==> k in m && prefix <= k
    ensures k !in m - matching
  {
  }

  /** Removing an absent key changes nothing. */
  lemma RemoveAbsent<K, V>(m: map<K, V>, k: K)
    requires k !in m
    ensures m - {k} == m
  {
  }

  /** `after` is what registration makes of `before`: `<subject>:latest`
      and `id:<id>` written in that order, then every key starting with
      `<subject>:` removed. */
  ghost predicate IsRegisterResult(before: map<string, Entry>, maxSize: int, subject: string, id: int, entry: Entry,
                                   after: map<string, Entry>)
  {
    exists written :: IsSetTwiceResult(before, maxSize, LatestKey(subject), IdKey(id), entry, written)
      && after == written - (set k | k in written && SubjectPrefix(subject) <= k)
  }

  /** After registration no key of the subject is left, the latest alias
      included; the id entry holds the new record unless the subject is "id";
      every other surviving entry is unchanged; and when the cache has room
      for both writes, every other entry outside the subject survives. */
  lemma {:induction false} RegisterResultKeeps(before: map<string, Entry>, maxSize: int, subject: string, id: int,
                                               entry: Entry, written: map<string, Entry>, stale: set<string>,
                                               after: map<string, Entry>)
    requires IsSetTwiceResult(before, maxSize, LatestKey(subject), IdKey(id), entry, written)
    requires forall k :: k in stale <==> k in written && SubjectPrefix(subject) <= k
    requires after == written - stale
    ensures IsRegisterResult(before, maxSize, subject, id, entry, after)
    ensures forall k :: k in after ==> !(SubjectPrefix(subject) <= k)
    ensures LatestKey(subject) !in after
    ensures subject != "id" ==> IdKey(id) in after && after[IdKey(id)] == entry
    ensures forall k :: k in after && k != IdKey(id) ==> k in before && after[k] == before[k]
    ensures |before| + 1 < maxSize ==>
      forall k :: k in before && !(SubjectPrefix(subject) <= k) && k != IdKey(id) ==> k in after && after[k] == before[k]
  {
    SetTwiceKeeps(before, maxSize, LatestKey(subject), IdKey(id), entry, written);
    IdKeyInSubjectNamespace(subject, id);
    assert stale == set k | k in written && SubjectPrefix(subject) <= k;
  }

  class CachingSchemaRegistrar {
    const cache: InMemorySchemaCache
    var inflightRegistered: set<string>
    var inflightSchemas: set<string>
    ghost var innerCalls: seq<Call>

    ghost predicate Valid()
      reads this, cache
    {
      cache.Valid() && inflightRegistered == {} && inflightSchemas == {}
    }

    constructor (cache: InMemorySchemaCache)
      requires cache.Valid()
      ensures Valid() && this.cache == cache && innerCalls == []
    {
      this.cache := cache;
      inflightRegistered, inflightSchemas := {}, {};
      innerCalls := [];
    }

    /** Removes each of `keys` from the cache, one at a time, as the loops
        over `KeysMatchingPrefix` do. */
    method RemoveKeys(keys: set<string>)
      requires cache.Valid()
      modifies cache
      ensures cache.Valid()
      ensures cache.entries == old(cache.entries) - keys
      ensures cache.hitCount == old(cache.hitCount) && cache.missCount == old(cache.missCount)
      ensures cache.disposed == old(cache.disposed)
    {
      var rest := keys;
      ghost var gone: set<string> := {};
      assert cache.entries - gone == cache.entries;
      while rest != {}
        invariant cache.Valid()
        invariant rest + gone == keys && rest !! gone
        invariant cache.entries == old(cache.entries) - gone
        invariant cache.hitCount == old(cache.hitCount) && cache.missCount == old(cache.missCount)
        invariant cache.disposed == old(cache.disposed)
        decreases rest
      {
        var k :| k in rest;
        cache.Remove(k);
        RemoveInTurn(old(cache.entries), gone, {k});
        gone := gone + {k};
        rest := rest - {k};
      }
    }

    /** Writes `info` under `first` and then under `second`. */
    method SetTwice(first: string, second: string, info: SchemaInfo, now: nat)
      requires cache.Valid() && first != "" && second != ""
      modifies cache
      ensures cache.Valid() && cache.disposed == old(cache.disposed)
      ensures cache.hitCount == old(cache.hitCount) && cache.missCount == old(cache.missCount)
      ensures IsSetTwiceResult(old(cache.entries), cache.options.maxSize, first, second, Entry(Some(info), now, 1), cache.entries)
    {
      ghost var before := cache.entries;
      ghost var evicted := cache.Set(first, Some(info), now);
      SetResultOf(before, cache.options.maxSize, first, Entry(Some(info), now, 1), evicted);
      ghost var written := cache.entries;
      evicted := cache.Set(second, Some(info), now);
      SetResultOf(written, cache.options.maxSize, second, Entry(Some(info), now, 1), evicted);
    }

    /** What a fetch of `<subject>:<version>` leaves behind, given the cache
        after the miss (`missed`, which has no entry for the key) and the inner
        reply: a thrown exception writes nothing, a not-found reply is cached
        as a negative entry, a record is cached (with this subject) under its
        id key and under the version key, which the id write can evict only
        from a full cache. */
    ghost predicate FetchedVersion(subject: string, version: int, now: nat, reply: Outcome<Option<SchemaInfo>>,
                                   missed: map<string, Entry>, r: Outcome<Option<SchemaInfo>>)
      reads cache
    {
      var key := SubjectVersionKey(subject, version);
      match reply
      case Fail(e) =>
        r == Fail(e) && cache.entries == missed
      case Ok(None) =>
        && r == Ok(None)
        && IsSetResult(missed, cache.options.maxSize, key, Entry(None, now, 1), cache.entries)
        && key in cache.entries && cache.entries[key] == Entry(None, now, 1)
      case Ok(Some(registered)) =>
        var info := VersionEntryInfo(subject, registered);
        var entry := Entry(Some(info), now, 1);
        && r == Ok(Some(info))
        && IsSetTwiceResult(missed, cache.options.maxSize, key, NullableIdKey(registered.id), entry, cache.entries)
        && NullableIdKey(registered.id) in cache.entries && cache.entries[NullableIdKey(registered.id)] == entry
        && (key in cache.entries ==> cache.entries[key] == entry)
        && (|missed| + 1 < cache.options.maxSize ==> key in cache.entries)
    }

    /** The factory a miss runs: it looks the key up once more (a miss, since
        the first lookup left no entry), calls the inner registrar, caches its
        answer and finally clears the in-flight marker. */
    method LoadRegistered(subject: string, version: int, now: nat, reply: Outcome<Option<SchemaInfo>>)
      returns (r: Outcome<Option<SchemaInfo>>)
      requires cache.Valid() && SubjectVersionKey(subject, version) !in cache.entries
      modifies this`innerCalls, this`inflightRegistered, cache
      ensures cache.Valid() && cache.disposed == old(cache.disposed)
      ensures inflightRegistered == old(inflightRegistered) - {SubjectVersionKey(subject, version)}
      ensures innerCalls == old(innerCalls) + [FetchVersion(subject, version)]
      ensures cache.hitCount == old(cache.hitCount) && cache.missCount == old(cache.missCount) + 1
      ensures FetchedVersion(subject, version, now, reply, old(cache.entries), r)
    {
      var key := SubjectVersionKey(subject, version);
      ghost var missed := cache.entries;
      var again, _ := cache.TryGet(key, now);
      assert !again;
      RemoveAbsent(missed, key);
      innerCalls := innerCalls + [FetchVersion(subject, version)];
      match reply {
        case Fail(e) =>
          r := Fail(e);
        case Ok(None) =>
          ghost var evicted := cache.Set(key, None, now);
          SetResultOf(missed, cache.options.maxSize, key, Entry(None, now, 1), evicted);
          r := Ok(None);
        case Ok(Some(registered)) =>
          var info := VersionEntryInfo(subject, registered);
          SetTwice(key, NullableIdKey(registered.id), info, now);
          SetTwiceKeeps(missed, cache.options.maxSize, key, NullableIdKey(registered.id), Entry(Some(info), now, 1), cache.entries);
          r := Ok(Some(info));
      }
      inflightRegistered := inflightRegistered - {key};
    }

    /** `GetRegisteredSchemaAsync`: a hit on `<subject>:<version>` returns the
        cached value, negative included, without an inner call. A miss (which
        also drops an expired entry) starts the one fetch of the key, counting
        a second miss on its re-check, and ends with no fetch in flight. */
    method GetRegisteredSchema(subject: string, version: int, now: nat, reply: Outcome<Option<SchemaInfo>>)
      returns (r: Outcome<Option<SchemaInfo>>)
      requires Valid()
      modifies this, cache
      ensures Valid() && cache.disposed == old(cache.disposed)
      ensures
        var key := SubjectVersionKey(subject, version);
        var ttl := cache.options.timeToLiveSeconds;
        if IsFresh(old(cache.entries), key, now, ttl) then
          && r == Ok(old(cache.entries)[key].info)
          && innerCalls == old(innerCalls)
          && cache.hitCount == old(cache.hitCount) + 1 && cache.missCount == old(cache.missCount)
          && cache.entries == old(cache.entries)[key := old(cache.entries)[key].(hits := old(cache.entries)[key].hits + 1)]
        else
          && innerCalls == old(innerCalls) + [FetchVersion(subject, version)]
          && cache.hitCount == old(cache.hitCount) && cache.missCount == old(cache.missCount) + 2
          && FetchedVersion(subject, version, now, reply, old(cache.entries) - {key}, r)
    {
      var key := SubjectVersionKey(subject, version);
      var found, cached := cache.TryGet(key, now);
      if found {
        return Ok(cached);
      }
      inflightRegistered := inflightRegistered + {key};
      r := LoadRegistered(subject, version, now, reply);
    }

    /** What a fetch of `id:<id>` leaves behind, given the cache after the
        miss and the inner reply. */
    ghost predicate FetchedId(id: int, now: nat, reply: Outcome<Option<Schema>>,
                              missed: map<string, Entry>, r: Outcome<Option<Schema>>)
      reads cache
    {
      var key := IdKey(id);
      match reply
      case Fail(e) =>
        r == Fail(e) && cache.entries == missed
      case Ok(None) =>
        && r == Ok(None)
        && IsSetResult(missed, cache.options.maxSize, key, Entry(None, now, 1), cache.entries)
        && key in cache.entries && cache.entries[key] == Entry(None, now, 1)
      case Ok(Some(schema)) =>
        && r == Ok(Some(schema))
        && IsSetResult(missed, cache.options.maxSize, key, Entry(Some(IdEntryInfo(id, schema)), now, 1), cache.entries)
        && key in cache.entries && cache.entries[key] == Entry(Some(IdEntryInfo(id, schema)), now, 1)
    }

    /** The factory a miss on `id:<id>` runs. */
    method LoadSchema(id: int, now: nat, reply: Outcome<Option<Schema>>) returns (r: Outcome<Option<Schema>>)
      requires cache.Valid() && IdKey(id) !in cache.entries
      modifies this`innerCalls, this`inflightSchemas, cache
      ensures cache.Valid() && cache.disposed == old(cache.disposed)
      ensures inflightSchemas == old(inflightSchemas) - {IdKey(id)}
      ensures innerCalls == old(innerCalls) + [FetchId(id)]
      ensures cache.hitCount == old(cache.hitCount) && cache.missCount == old(cache.missCount) + 1
      ensures FetchedId(id, now, reply, old(cache.entries), r)
    {
      var key := IdKey(id);
      ghost var missed := cache.entries;
      var again, _ := cache.TryGet(key, now);
      assert !again;
      RemoveAbsent(missed, key);
      innerCalls := innerCalls + [FetchId(id)];
      match reply {
        case Fail(e) =>
          r := Fail(e);
        case Ok(None) =>
          ghost var evicted := cache.Set(key, None, now);
          SetResultOf(missed, cache.options.maxSize, key, Entry(None, now, 1), evicted);
          r := Ok(None);
        case Ok(Some(schema)) =>
          ghost var evicted := cache.Set(key, Some(IdEntryInfo(id, schema)), now);
          SetResultOf(missed, cache.options.maxSize, key, Entry(Some(IdEntryInfo(id, schema)), now, 1), evicted);
          r := Ok(Some(schema));
      }
      inflightSchemas := inflightSchemas - {key};
    }

    /** `GetSchemaAsync(id)`: the same read-through caching on the key
        `id:<id>` alone. A hit on a negative entry gives null, a hit on a
        record gives its text with the parsed type. */
    method GetSchema(id: int, now: nat, reply: Outcome<Option<Schema>>) returns (r: Outcome<Option<Schema>>)
      requires Valid()
      modifies this, cache
      ensures Valid() && cache.disposed == old(cache.disposed)
      ensures
        var key := IdKey(id);
        var ttl := cache.options.timeToLiveSeconds;
        if IsFresh(old(cache.entries), key, now, ttl) then
          var cached := old(cache.entries)[key].info;
          && r == Ok(if cached.Some? then Some(SchemaOfInfo(cached.value)) else None)
          && innerCalls == old(innerCalls)
          && cache.hitCount == old(cache.hitCount) + 1 && cache.missCount == old(cache.missCount)
          && cache.entries == old(cache.entries)[key := old(cache.entries)[key].(hits := old(cache.entries)[key].hits + 1)]
        else
          && innerCalls == old(innerCalls) + [FetchId(id)]
          && cache.hitCount == old(cache.hitCount) && cache.missCount == old(cache.missCount) + 2
          && FetchedId(id, now, reply, old(cache.entries) - {key}, r)
    {
      var key := IdKey(id);
      var found, cached := cache.TryGet(key, now);
      if found {
        if cached.None? {
          return Ok(None);
        }
        return Ok(Some(SchemaOfInfo(cached.value)));
      }
      inflightSchemas := inflightSchemas + {key};
      r := LoadSchema(id, now, reply);
    }

    /** `RegisterSchemaAsync`: always calls the inner registrar and returns
        its id. It then writes `<subject>:latest` and `id:<id>` and sweeps
        every key starting with `<subject>:`, which removes the latest alias
        just written; the id entry survives unless the subject is "id". */
    method RegisterSchema(subject: string, schema: Schema, now: nat, reply: Outcome<int>) returns (r: Outcome<int>)
      requires Valid()
      modifies this, cache
      ensures Valid() && cache.disposed == old(cache.disposed)
      ensures innerCalls == old(innerCalls) + [Register(subject, schema)]
      ensures r == reply
      ensures cache.hitCount == old(cache.hitCount) && cache.missCount == old(cache.missCount)
      ensures reply.Fail? ==> cache.entries == old(cache.entries)
      ensures reply.Ok? ==>
        IsRegisterResult(old(cache.entries), cache.options.maxSize, subject, reply.value,
                         Entry(Some(RegisteredInfo(subject, reply.value, schema)), now, 1), cache.entries)
      ensures reply.Ok? ==>
        && (forall k :: k in cache.entries ==> !(SubjectPrefix(subject) <= k))
        && LatestKey(subject) !in cache.entries
        && (subject != "id" ==>
              && IdKey(reply.value) in cache.entries
              && cache.entries[IdKey(reply.value)] == Entry(Some(RegisteredInfo(subject, reply.value, schema)), now, 1))
        && (forall k :: k in cache.entries && k != IdKey(reply.value) ==>
              k in old(cache.entries) && cache.entries[k] == old(cache.entries)[k])
        && (|old(cache.entries)| + 1 < cache.options.maxSize ==>
              forall k :: k in old(cache.entries) && !(SubjectPrefix(subject) <= k) && k != IdKey(reply.value) ==>
                k in cache.entries && cache.entries[k] == old(cache.entries)[k])
    {
      innerCalls := innerCalls + [Register(subject, schema)];
      if reply.Fail? {
        return reply;
      }
      var id := reply.value;
      var info := RegisteredInfo(subject, id, schema);
      ghost var before := cache.entries;
      SetTwice(LatestKey(subject), IdKey(id), info, now);
      ghost var written := cache.entries;
      IdKeyInSubjectNamespace(subject, id);
      var stale := cache.KeysMatchingPrefix(SubjectPrefix(subject));
      RemoveKeys(stale);
      RegisterResultKeeps(before, cache.options.maxSize, subject, id, Entry(Some(info), now, 1), written, stale, cache.entries);
      r := Ok(id);
    }

    /** The invalidation after a delete: drops the version key, the latest
        alias, the in-flight fetch of the version and then every other key of
        the subject; keys outside the subject are untouched. */
    method ForgetVersion(subject: string, version: int)
      requires Valid()
      modifies this`inflightRegistered, cache
      ensures Valid() && cache.disposed == old(cache.disposed)
      ensures cache.hitCount == old(cache.hitCount) && cache.missCount == old(cache.missCount)
      ensures cache.entries == old(cache.entries) - old(cache.KeysMatchingPrefix(SubjectPrefix(subject)))
      ensures SubjectVersionKey(subject, version) !in cache.entries && LatestKey(subject) !in cache.entries
    {
      var key := SubjectVersionKey(subject, version);
      var prefix := SubjectPrefix(subject);
      ghost var before := cache.entries;
      ghost var matching := cache.KeysMatchingPrefix(prefix);
      cache.Remove(key);
      cache.Remove(LatestKey(subject));
      inflightRegistered := inflightRegistered - {key};
      var stale := cache.KeysMatchingPrefix(prefix);
      RemoveKeys(stale);
      SweepAfterRemovals(before, prefix, key, LatestKey(subject), stale, matching);
      SweptKeyGone(before, prefix, matching, key);
      SweptKeyGone(before, prefix, matching, LatestKey(subject));
    }

    /** `DeleteSchemaVersionAsync`: the inner delete, then the invalidation of
        the subject's keys; a failed inner delete changes nothing. */
    method DeleteSchemaVersion(subject: string, version: int, reply: Outcome<()>) returns (r: Outcome<()>)
      requires Valid()
      modifies this, cache
      ensures Valid() && cache.disposed == old(cache.disposed)
      ensures innerCalls == old(innerCalls) + [DeleteVersion(subject, version)]
      ensures r == reply
      ensures cache.hitCount == old(cache.hitCount) && cache.missCount == old(cache.missCount)
      ensures reply.Fail? ==> cache.entries == old(cache.entries)
      ensures reply.Ok? ==>
        && cache.entries == old(cache.entries) - old(cache.KeysMatchingPrefix(SubjectPrefix(subject)))
        && SubjectVersionKey(subject, version) !in cache.entries
        && LatestKey(subject) !in cache.entries
    {
      innerCalls := innerCalls + [DeleteVersion(subject, version)];
      if reply.Fail? {
        return reply;
      }
      ForgetVersion(subject, version);
      r := reply;
    }
  }
}
