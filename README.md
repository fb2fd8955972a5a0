# Schema registry extension client, modelled in Dafny

This project models the core of JohBloch.ConfluentKafka.SchemaRegistryExtClient. That library is a caching and credential layer in front of a Confluent Schema Registry. Five pieces are modelled:

- **`InMemorySchemaCache`** (`schema_cache.dfy`): a bounded map from string keys to cached schema records. A stored `None` is a negative entry. Reads expire entries after a time-to-live. A write to a full cache first evicts the least-hit entry, the oldest among equals. Hits and misses are counted.
- **`CachingSchemaRegistrar`** (`caching_registrar.dfy`): read-through caching in front of an inner registrar. It uses the key namespace `<subject>:<version>`, `<subject>:latest` and `id:<id>`, and invalidates a subject's keys on register and on delete.
- **`TokenManager`** (`token_manager.dfy`): a token and its expiry, renewed through a refresh callback that may fail.
- **`SchemaRegistryExtClient`** (`ext_client.dfy`), which:
  - binds a registry connection to the current token, rebuilding it only for a changed non-blank token;
  - decodes the wire-format header (`wire_format.dfy`);
  - names subjects;
  - reads and registers schemas through the cache.
- **The subject-name strategies** (`subject_names.dfy`).

Supporting modules:

- `values.dfy`: the shared record and outcome types.
- `text.dfy`: `IsNullOrWhiteSpace`, `ToLowerInvariant` and integer rendering.
- `cache_keys.dfy`: the key builders.
- `schema_types.dfy`: schema-type names and parsing.

`scenarios.dfy` replays the repository's unit tests against the model.

How the model represents the environment:

- Time is a natural number of seconds since `DateTime.MinValue` (0). Each operation receives it as a parameter `now`.
- The inner registrar, the registry and the token callback are oracles. An operation that calls one receives that call's answer as a parameter: a value, or `Fail(Upstream)` for a thrown exception.
- Ghost logs record the calls made (`innerCalls`, `backendCalls`, `callbackCalls`) and the successful refreshes (`refreshes`).
- A nullable string argument is represented by a string, with null written as `""`. The built-in code tests such arguments only with `IsNullOrEmpty`, `IsNullOrWhiteSpace` or `?.ToLowerInvariant()`, which treat null and `""` alike. A custom naming strategy is the exception; see "Left out".
- An exception is a `Fail` value of `Outcome`.

Where the code and its comments promise different things, the model follows the code:

- **Registration sweeps its own writes.** `RegisterSchemaAsync` first writes `<subject>:latest` and `id:<id>`. It then removes every key that starts with `<subject>:`, which includes the `latest` alias it has just written. So after a registration the alias is gone, although the comment at CachingSchemaRegistrar.cs line 139 says the sweep is meant to make later reads reflect the latest schema. The `id:<id>` entry does survive, unless the subject is literally `id`.
- **The refresh margin has no effect.** `GetTokenAndRefreshIfNeededAsync` enters a refresh one minute before expiry. But `RefreshTokenAsync` re-checks `now < expiresAt` and returns without calling the callback while the token is still valid. So the callback runs only once the token has expired. The doc comment at TokenManager.cs line 44 promises a refresh with less than a minute left.
- **A forced refresh is not forced.** `ForceRefreshAsync` goes through the same re-check. The doc comment at line 58 promises a forced refresh.
- **A small expiry throws.** An expiry between `MinValue` and one minute after it (exclusive at both ends) makes `_expiresAt - threshold` throw `ArgumentOutOfRangeException`. The model returns `Fail(ArgumentOutOfRange)` there.
- **Header ids are signed.** The header id is computed in a signed 32-bit `int`. A first id byte of 0x80 or more gives a negative id, which is rejected.

## Model

| member | source | states |
|---|---|---|
| Text.LowerInvariant | src/JohBloch.ConfluentKafka.SchemaRegistryExtClient/Services/SubjectNameStrategies.cs:9 | lower-cases character by character, keeps the length, and leaves a blank string as it is |
| Text.BlankExamples | src/JohBloch.ConfluentKafka.SchemaRegistryExtClient/Services/SchemaRegistryExtClient.cs:122 | `IsNullOrWhiteSpace` holds for the empty string and for strings made only of white-space characters (tab, line breaks, no-break and ideographic spaces); one other character, a zero-width space included, makes a string not blank |
| Text.IntToString | src/JohBloch.ConfluentKafka.SchemaRegistryExtClient/Services/SchemaRegistryExtClient.cs:276-278 | renders an int as digits with a leading '-' exactly for negative values |
| Text.IntToStringInjective | src/JohBloch.ConfluentKafka.SchemaRegistryExtClient/Services/SchemaRegistryExtClient.cs:276-278 | distinct ints render as distinct strings, so distinct versions and ids give distinct keys |
| Values.SchemaText | src/JohBloch.ConfluentKafka.SchemaRegistryExtClient/Services/SchemaRegistryExtClient.cs:127 | the text returned for a cache or registrar result is null exactly for a negative result or a record without text, and is the record's text otherwise |
| CacheKeys.SubjectPrefix | src/JohBloch.ConfluentKafka.SchemaRegistryExtClient/Services/CachingSchemaRegistrar.cs:140 | the sweep prefix is non-empty and ends in ':' |
| CacheKeys.SubjectVersionKey | src/JohBloch.ConfluentKafka.SchemaRegistryExtClient/Services/SchemaRegistryExtClient.cs:276 | a version key lies in its subject's prefix namespace |
| CacheKeys.LatestKey | src/JohBloch.ConfluentKafka.SchemaRegistryExtClient/Services/CachingSchemaRegistrar.cs:137 | the latest alias lies in its subject's prefix namespace |
| CacheKeys.IdKey | src/JohBloch.ConfluentKafka.SchemaRegistryExtClient/Services/SchemaRegistryExtClient.cs:278 | an id key starts with "id:" and is never empty |
| CacheKeys.NullableIdKey | src/JohBloch.ConfluentKafka.SchemaRegistryExtClient/Services/CachingSchemaRegistrar.cs:62 | a present id gives its id key; a null id gives "id:" |
| CacheKeys.SubjectVersionKeyInjective | src/JohBloch.ConfluentKafka.SchemaRegistryExtClient/Services/CachingSchemaRegistrar.cs:24 | equal version keys have the same subject and the same version |
| CacheKeys.LatestKeyIsNoVersionKey | src/JohBloch.ConfluentKafka.SchemaRegistryExtClient/Services/CachingSchemaRegistrar.cs:137 | the latest alias of any subject never equals a version key of any subject |
| CacheKeys.IdKeyInSubjectNamespace | src/JohBloch.ConfluentKafka.SchemaRegistryExtClient/Services/CachingSchemaRegistrar.cs:140-144 | an id key starts with a subject's prefix if and only if the subject is "id" |
| SchemaTypes.ParseSchemaType | src/JohBloch.ConfluentKafka.SchemaRegistryExtClient/Services/SchemaRegistryExtClient.cs:184-190 | Protobuf exactly for "protobuf" and Json exactly for "json" in any case; Avro for blank, "avro" and every other input |
| SchemaTypes.SchemaTypeName | src/JohBloch.ConfluentKafka.SchemaRegistryExtClient/Services/SchemaRegistryExtClient.cs:313 | the type name stored in a cached record parses back to the same schema type |
| SchemaTypes.ParseSchemaTypeExamples | tests/JohBloch.ConfluentKafka.SchemaRegistryExtClient.Tests/SchemaTypeParsingTests.cs:13-20 | the parsing cases of the unit test, null included |
| SchemaTypes.IdEntryInfo | src/JohBloch.ConfluentKafka.SchemaRegistryExtClient/Services/CachingSchemaRegistrar.cs:105-112 | the record cached by id carries that id and the schema text, with no subject and no role |
| SchemaTypes.SchemaOfInfo | src/JohBloch.ConfluentKafka.SchemaRegistryExtClient/Services/CachingSchemaRegistrar.cs:84 | a cache hit yields the cached text; a missing type name gives Avro |
| SchemaTypes.IdEntryRoundTrip | src/JohBloch.ConfluentKafka.SchemaRegistryExtClient/Services/CachingSchemaRegistrar.cs:105-115 | a schema cached by id and read back from the cache equals the schema the inner registrar returned |
| WireFormat.SchemaIdOf | src/JohBloch.ConfluentKafka.SchemaRegistryExtClient/Services/SchemaRegistryExtClient.cs:144 | the id is a signed 32-bit value; it is positive if and only if the first byte is below 0x80 and not all four bytes are zero |
| WireFormat.DecodeSchemaId | src/JohBloch.ConfluentKafka.SchemaRegistryExtClient/Services/SchemaRegistryExtClient.cs:140-145 | an id is decoded if and only if the message has 5 bytes or more, a zero magic byte, a first id byte below 0x80 and a non-zero id; the id is positive |
| WireFormat.Header | src/JohBloch.ConfluentKafka.SchemaRegistryExtClient/Services/SchemaRegistryExtClient.cs:141-144 | the producer-side header is five bytes and starts with the magic byte |
| WireFormat.DecodeHeader | src/JohBloch.ConfluentKafka.SchemaRegistryExtClient/Services/SchemaRegistryExtClient.cs:140-145 | any positive 32-bit id behind its header decodes back to itself, whatever payload follows |
| WireFormat.DecodedHeader | src/JohBloch.ConfluentKafka.SchemaRegistryExtClient/Services/SchemaRegistryExtClient.cs:140-145 | a message that decodes to an id starts with exactly that id's header |
| SubjectNames.TopicNameStrategy | src/JohBloch.ConfluentKafka.SchemaRegistryExtClient/Services/SubjectNameStrategies.cs:7-13 | "topic-key" if and only if the role is "key" in any case, "topic-value" if and only if it is "value", else the topic |
| SubjectNames.TopicRecordNameStrategy | src/JohBloch.ConfluentKafka.SchemaRegistryExtClient/Services/SubjectNameStrategies.cs:18-25 | "topic-recordType" for a non-blank record type, otherwise exactly the topic strategy's result |
| SubjectNames.RecordNameStrategy | src/JohBloch.ConfluentKafka.SchemaRegistryExtClient/Services/SubjectNameStrategies.cs:30-35 | the record type when it is non-blank, otherwise the topic |
| SubjectNames.TopicNameIgnoresRecordType | src/JohBloch.ConfluentKafka.SchemaRegistryExtClient/Services/SubjectNameStrategies.cs:9-12 | the topic strategy gives the same subject for any two record types |
| SubjectNames.StrategiesKeepSubjectNonBlank | src/JohBloch.ConfluentKafka.SchemaRegistryExtClient/Services/SubjectNameStrategies.cs:5-36 | every built-in strategy turns a non-blank topic into a non-blank subject |
| SchemaCache.LeastUsedKey | src/JohBloch.ConfluentKafka.SchemaRegistryExtClient/Services/SchemaCache.cs:74 | the scan returns a key of the cache with the fewest hits, the earliest written among those |
| SchemaCache.InMemorySchemaCache.constructor | src/JohBloch.ConfluentKafka.SchemaRegistryExtClient/Services/SchemaCache.cs:18-23 | an empty cache with zero counters, using the given options or the defaults 1000 and 1800 s |
| SchemaCache.InMemorySchemaCache.Count | src/JohBloch.ConfluentKafka.SchemaRegistryExtClient/Services/SchemaCache.cs:27 | the number of entries never exceeds the size bound |
| SchemaCache.InMemorySchemaCache.TryGet | src/JohBloch.ConfluentKafka.SchemaRegistryExtClient/Services/SchemaCache.cs:29-61 | found if and only if the key is non-empty and its entry is younger than the time-to-live. A hit returns the value (negative included) and bumps that entry's hits and the hit counter. A miss removes an expired entry and bumps the miss counter. Each call counts exactly one hit or miss |
| SchemaCache.InMemorySchemaCache.Set | src/JohBloch.ConfluentKafka.SchemaRegistryExtClient/Services/SchemaCache.cs:64-84 | an empty key changes nothing. A full cache first evicts exactly one least-used victim, even when the key is present. The key then maps to (value, now, 1) and nothing else changes. The size stays within the bound |
| SchemaCache.SetWithinBound | src/JohBloch.ConfluentKafka.SchemaRegistryExtClient/Services/SchemaCache.cs:72-82 | evicting one victim from a full cache before the write keeps the cache within its size bound |
| SchemaCache.SetResultOf | src/JohBloch.ConfluentKafka.SchemaRegistryExtClient/Services/SchemaCache.cs:64-84 | what Set leaves (its chosen victim evicted, then the key written) is a Set result as IsSetResult describes it |
| SchemaCache.SetResultKeeps | src/JohBloch.ConfluentKafka.SchemaRegistryExtClient/Services/SchemaCache.cs:64-84 | after a write the key holds the new entry; every other entry is an old one unchanged; with room to spare the write evicts nothing; the cache grows by one at most |
| SchemaCache.SetTwiceKeeps | src/JohBloch.ConfluentKafka.SchemaRegistryExtClient/Services/CachingSchemaRegistrar.cs:61-62 | after two writes of one record the second key holds it, the first holds it unless the second write evicted it, and every other entry is an old one unchanged; with room for both nothing is evicted |
| SchemaCache.InMemorySchemaCache.Remove | src/JohBloch.ConfluentKafka.SchemaRegistryExtClient/Services/SchemaCache.cs:86-91 | deletes only the key; nothing changes for an empty or absent key |
| SchemaCache.InMemorySchemaCache.KeysMatchingPrefix | src/JohBloch.ConfluentKafka.SchemaRegistryExtClient/Services/SchemaCache.cs:93-97 | exactly the present keys starting with the prefix; none for an empty prefix |
| SchemaCache.InMemorySchemaCache.Clear | src/JohBloch.ConfluentKafka.SchemaRegistryExtClient/Services/SchemaCache.cs:99-103 | the cache is empty and the counters are kept |
| SchemaCache.InMemorySchemaCache.Dispose | src/JohBloch.ConfluentKafka.SchemaRegistryExtClient/Services/SchemaCache.cs:105-113 | the first call empties the cache; later calls change nothing |
| CachingRegistrar.RegisteredInfo | src/JohBloch.ConfluentKafka.SchemaRegistryExtClient/Services/CachingSchemaRegistrar.cs:129-136 | the record cached on registration carries subject and id, and reads back as the registered schema |
| CachingRegistrar.CachingSchemaRegistrar.constructor | src/JohBloch.ConfluentKafka.SchemaRegistryExtClient/Services/CachingSchemaRegistrar.cs:15-20 | wraps the given cache with no fetch in flight and no inner call made |
| CachingRegistrar.CachingSchemaRegistrar.RemoveKeys | src/JohBloch.ConfluentKafka.SchemaRegistryExtClient/Services/CachingSchemaRegistrar.cs:141-144 | removing the keys one by one leaves the cache minus exactly those keys, with the counters unchanged |
| CachingRegistrar.CachingSchemaRegistrar.LoadRegistered | src/JohBloch.ConfluentKafka.SchemaRegistryExtClient/Services/CachingSchemaRegistrar.cs:34-71 | the re-check misses once more, then the inner registrar is called exactly once. A thrown exception writes nothing. Not found is one write of a negative entry. A record is written under the version key and then under `id:<id>`, with null rendered as an empty id; the cache is exactly the result of those writes, so the id entry is present, and the version entry too unless the second write evicted it. The in-flight marker is cleared |
| CachingRegistrar.CachingSchemaRegistrar.GetRegisteredSchema | src/JohBloch.ConfluentKafka.SchemaRegistryExtClient/Services/CachingSchemaRegistrar.cs:22-74 | a fresh entry is returned (null included) with one hit and no inner call. Otherwise the stale entry is dropped, there is exactly one inner call and two misses, and the cache is exactly the result of LoadRegistered's writes. No fetch is left in flight |
| CachingRegistrar.CachingSchemaRegistrar.LoadSchema | src/JohBloch.ConfluentKafka.SchemaRegistryExtClient/Services/CachingSchemaRegistrar.cs:87-121 | the re-check misses, then one inner call. A schema or not-found is one write under `id:<id>`, and the cache is exactly its result; an exception writes nothing. The in-flight marker is cleared |
| CachingRegistrar.CachingSchemaRegistrar.GetSchema | src/JohBloch.ConfluentKafka.SchemaRegistryExtClient/Services/CachingSchemaRegistrar.cs:76-124 | a fresh negative entry gives null; a fresh record gives its text with the parsed type (Avro by default); neither makes an inner call. A miss drops the stale entry, makes one inner call, and the cache is exactly the result of writing its answer under `id:<id>` |
| CachingRegistrar.CachingSchemaRegistrar.RegisterSchema | src/JohBloch.ConfluentKafka.SchemaRegistryExtClient/Services/CachingSchemaRegistrar.cs:126-147 | one inner call, whose id is returned. On success the cache is exactly the result of writing the latest alias and `id:<id>` and then sweeping `<subject>:`: no such key remains, `id:<id>` holds the new record unless the subject is "id", and every other surviving entry is unchanged (all of them, with room for both writes). A failure leaves the cache alone |
| CachingRegistrar.CachingSchemaRegistrar.SetTwice | src/JohBloch.ConfluentKafka.SchemaRegistryExtClient/Services/CachingSchemaRegistrar.cs:137-138 | the cache is exactly the result of the two writes of one record, and the counters are kept |
| CachingRegistrar.RegisterResultKeeps | src/JohBloch.ConfluentKafka.SchemaRegistryExtClient/Services/CachingSchemaRegistrar.cs:137-144 | after the writes and the sweep no key of the subject remains, `id:<id>` holds the record unless the subject is "id", every other entry is an old one unchanged, and with room for both writes every old entry outside the subject survives |
| CachingRegistrar.CachingSchemaRegistrar.ForgetVersion | src/JohBloch.ConfluentKafka.SchemaRegistryExtClient/Services/CachingSchemaRegistrar.cs:152-165 | the cache loses exactly the keys that started with `<subject>:` (version key and latest alias among them); no fetch of the version is left in flight |
| CachingRegistrar.CachingSchemaRegistrar.DeleteSchemaVersion | src/JohBloch.ConfluentKafka.SchemaRegistryExtClient/Services/CachingSchemaRegistrar.cs:149-168 | one inner delete. On success the subject's keys are all removed and the other keys are untouched; a failure leaves the cache alone and is returned |
| Tokens.RefreshGate | src/JohBloch.ConfluentKafka.SchemaRegistryExtClient/Services/TokenManager.cs:48-50 | throws exactly when the expiry lies strictly between MinValue and one minute; otherwise opens at MinValue or from one minute before expiry |
| Tokens.RefreshOnlyWhenExpired | src/JohBloch.ConfluentKafka.SchemaRegistryExtClient/Services/TokenManager.cs:50-74 | the callback is called if and only if the gate does not throw and the token has expired, so the margin never causes an early refresh |
| Tokens.TokenRead | src/JohBloch.ConfluentKafka.SchemaRegistryExtClient/Services/TokenManager.cs:46-90 | a token read fails exactly when the gate throws or the called callback throws. Without a callback the held pair is kept; after one, the issued pair is held |
| Tokens.TokenReadKeepsOrRenews | src/JohBloch.ConfluentKafka.SchemaRegistryExtClient/Services/TokenManager.cs:46-90 | a successful read keeps an unexpired token and replaces an expired one with the callback's token |
| Tokens.TokenManager.constructor | src/JohBloch.ConfluentKafka.SchemaRegistryExtClient/Services/TokenManager.cs:9-32 | a new manager holds the empty token and the expiry MinValue |
| Tokens.TokenManager.RefreshToken | src/JohBloch.ConfluentKafka.SchemaRegistryExtClient/Services/TokenManager.cs:65-90 | while the token is valid nothing happens. Otherwise the callback is called once. Success replaces both fields and counts one refresh; failure keeps both fields and propagates |
| Tokens.TokenManager.GetTokenAndRefreshIfNeeded | src/JohBloch.ConfluentKafka.SchemaRegistryExtClient/Services/TokenManager.cs:46-55 | the result and the new state are those of TokenRead; the callback count grows by one exactly when the token had expired, and the refresh count exactly when that callback issued a token |
| Tokens.TokenManager.GetToken | src/JohBloch.ConfluentKafka.SchemaRegistryExtClient/Services/TokenManager.cs:37-41 | the same as GetTokenAndRefreshIfNeeded, counters included |
| Tokens.TokenManager.ForceRefresh | src/JohBloch.ConfluentKafka.SchemaRegistryExtClient/Services/TokenManager.cs:60-63 | no callback while the token is valid; otherwise one callback whose success replaces the pair and counts a refresh, and whose failure keeps it |
| Tokens.TokenManager.Dispose | src/JohBloch.ConfluentKafka.SchemaRegistryExtClient/Services/TokenManager.cs:92-99 | marks the manager disposed; the token, its expiry and the callback and refresh counts are kept |
| ExtClient.SubjectNameOf | src/JohBloch.ConfluentKafka.SchemaRegistryExtClient/Services/SchemaRegistryExtClient.cs:196-220 | a custom strategy wins, then the configured built-in one; with neither, a non-blank record type selects topic-record naming and a blank one topic naming |
| ExtClient.GetSubjectName | src/JohBloch.ConfluentKafka.SchemaRegistryExtClient/Services/SchemaRegistryExtClient.cs:192-221 | fails with an argument error if and only if the topic is blank; otherwise gives the dispatched subject |
| ExtClient.SubjectNameNonBlank | src/JohBloch.ConfluentKafka.SchemaRegistryExtClient/Services/SchemaRegistryExtClient.cs:192-221 | without a custom strategy, a non-blank topic always yields a non-blank subject |
| ExtClient.SubjectNameExamples | tests/JohBloch.ConfluentKafka.SchemaRegistryExtClient.Tests/SubjectNameStrategyTests.cs:12-25 | the naming cases of the strategy tests and of the custom-strategy test |
| ExtClient.Decide | src/JohBloch.ConfluentKafka.SchemaRegistryExtClient/Services/SchemaRegistryExtClient.cs:72-94 | a blank token is refused unless a connection bound to a non-blank token exists, which is then reused. Without a token manager a connection is built only when there is none. A non-blank token rebuilds exactly when there is no connection or the token differs from the bound one |
| ExtClient.SchemaRegistryExtClient.constructor | src/JohBloch.ConfluentKafka.SchemaRegistryExtClient/Services/SchemaRegistryExtClient.cs:28-44 | keeps the given token manager and cache; there is no connection yet and nothing has been disposed |
| ExtClient.SchemaRegistryExtClient.Rebind | src/JohBloch.ConfluentKafka.SchemaRegistryExtClient/Services/SchemaRegistryExtClient.cs:96-112 | a new connection is bound with its token, both registrars point to it (through a new caching layer when there is a cache), and the old connection is closed |
| ExtClient.SchemaRegistryExtClient.Connection | src/JohBloch.ConfluentKafka.SchemaRegistryExtClient/Services/SchemaRegistryExtClient.cs:61-118 | the exception `GetClientAsync` throws from a state: ObjectDisposed when disposed, none without a token manager, otherwise the token read's failure or InvalidOperation for a refused blank token |
| ExtClient.SchemaRegistryExtClient.GetClient | src/JohBloch.ConfluentKafka.SchemaRegistryExtClient/Services/SchemaRegistryExtClient.cs:61-118 | fails exactly as Connection says, with that error and the client unchanged; otherwise returns the current connection. Connects states the whole new state: a token manager is read once unless the client is disposed (token and expiry as TokenRead leaves them, the callback and refresh counts bumped exactly when the callback runs), and a connection is rebuilt exactly when Decide says so, every binding field kept otherwise |
| ExtClient.SchemaRegistryExtClient.Lookup | src/JohBloch.ConfluentKafka.SchemaRegistryExtClient/Services/SchemaRegistryExtClient.cs:280-284 | always a miss without a cache; otherwise exactly TryGet: a hit for a fresh entry bumps its hits and the hit counter, a miss drops the key and bumps the miss counter |
| ExtClient.SchemaRegistryExtClient.StoreVersion | src/JohBloch.ConfluentKafka.SchemaRegistryExtClient/Services/SchemaRegistryExtClient.cs:286-295 | the cache is exactly the result of writing the record (or its absence) under the version key and, when it carries an id, under its id key. The id entry is then present, and the version entry too for a record without an id, a negative answer, or a cache with room for both |
| ExtClient.SchemaRegistryExtClient.StoreId | src/JohBloch.ConfluentKafka.SchemaRegistryExtClient/Services/SchemaRegistryExtClient.cs:297-315 | the cache is exactly the result of one write under `id:<id>` of the schema found, as a record with its id and type name, or of a negative entry; with room, nothing else changes |
| ExtClient.StoredVersionKeeps | src/JohBloch.ConfluentKafka.SchemaRegistryExtClient/Services/SchemaRegistryExtClient.cs:286-295 | after the version writes the id entry is present, the version entry is present unless evicted by the id write (always, without an id or with room), and every other entry is an old one unchanged |
| ExtClient.StoredVersionOf | src/JohBloch.ConfluentKafka.SchemaRegistryExtClient/Services/SchemaRegistryExtClient.cs:286-295 | the two writes of SetCacheSubjectVersion, each as Set makes it, are exactly a StoredVersion result, with the id entry in place and the version entry kept unless evicted |
| ExtClient.SchemaRegistryExtClient.GetSchemaBySubject | src/JohBloch.ConfluentKafka.SchemaRegistryExtClient/Services/SchemaRegistryExtClient.cs:120-136 | a blank subject fails and changes nothing. A fresh entry answers with one hit and no connection, leaving the token manager alone. Otherwise a miss is counted and the stale entry dropped, the connection and token end as Connects says, and the call fails exactly as Connection says with the client unchanged, or makes one registry call whose answer is returned, and the cache is exactly the result of StoreVersion's writes |
| ExtClient.SchemaRegistryExtClient.FetchSubjectVersion | src/JohBloch.ConfluentKafka.SchemaRegistryExtClient/Services/SchemaRegistryExtClient.cs:129-135 | the connection and token end as Connects says; it fails exactly as Connection says and then changes neither the client nor a cache entry; otherwise one registry call, whose answer is returned and written as StoreVersion writes it |
| ExtClient.SchemaRegistryExtClient.GetSchemaByMessage | src/JohBloch.ConfluentKafka.SchemaRegistryExtClient/Services/SchemaRegistryExtClient.cs:138-159 | a null message fails and a message without a valid header gives null; neither changes anything. A valid id is read as ResolveId states |
| ExtClient.SchemaRegistryExtClient.ResolveId | src/JohBloch.ConfluentKafka.SchemaRegistryExtClient/Services/SchemaRegistryExtClient.cs:147-158 | a fresh `id:<id>` entry answers with one hit and no connection. Otherwise a miss is counted and the stale entry dropped, the connection and token end as Connects says, and the call fails exactly as Connection says with the client unchanged, or makes one registry call whose answer is returned, and the cache is exactly the result of StoreId's write |
| ExtClient.SchemaRegistryExtClient.FetchSchemaId | src/JohBloch.ConfluentKafka.SchemaRegistryExtClient/Services/SchemaRegistryExtClient.cs:152-158 | the connection and token end as Connects says; it fails exactly as Connection says and then changes neither the client nor a cache entry; otherwise one registry call, whose answer is returned and written as StoreId writes it |
| ExtClient.SchemaRegistryExtClient.RegisterSchema | src/JohBloch.ConfluentKafka.SchemaRegistryExtClient/Services/SchemaRegistryExtClient.cs:161-176 | a blank topic or schema fails and changes nothing. Otherwise the connection and token end as Connects says, and the call fails exactly as Connection says, leaving the client and the cache alone, or makes one registration under the dispatched subject and parsed type and returns its reply. With a cache and a new id, the cache is exactly the caching layer's registration result: the latest alias is gone and `id:<id>` holds the record |
| ExtClient.SchemaRegistryExtClient.RegisterAs | src/JohBloch.ConfluentKafka.SchemaRegistryExtClient/Services/SchemaRegistryExtClient.cs:170-175 | the registration under a named subject: the connection and token end as Connects says; it fails exactly as Connection says with the client and cache unchanged, or makes one registration whose reply is returned, with the cache exactly the caching layer's registration result |
| ExtClient.SchemaRegistryExtClient.Forward | src/JohBloch.ConfluentKafka.SchemaRegistryExtClient/Services/SchemaRegistryExtClient.cs:175 | one registration call whose reply is returned; with a cache, the cache is exactly the caching layer's registration result, and a failure leaves it alone |
| ExtClient.SchemaRegistryExtClient.RegisterValueSchema | src/JohBloch.ConfluentKafka.SchemaRegistryExtClient/Services/SchemaRegistryExtClient.cs:178-179 | everything RegisterSchema states, for the subject named for the "value" role |
| ExtClient.SchemaRegistryExtClient.RegisterKeySchema | src/JohBloch.ConfluentKafka.SchemaRegistryExtClient/Services/SchemaRegistryExtClient.cs:181-182 | everything RegisterSchema states, for the subject named for the "key" role |
| ExtClient.SchemaRegistryExtClient.Dispose | src/JohBloch.ConfluentKafka.SchemaRegistryExtClient/Services/SchemaRegistryExtClient.cs:223-242 | the first call closes the current connection, drops it and disposes the token manager, keeping the connection's token, both registrars, the caching layer, the build count and the token manager's token, expiry and counts; later calls change nothing |
| Scenarios.CachesResult | tests/JohBloch.ConfluentKafka.SchemaRegistryExtClient.Tests/CachingSchemaRegistrarTests.cs:12-33 | a second read of the same version is served from the cache with one hit and no further inner call |
| Scenarios.RegisterUpdatesCache | tests/JohBloch.ConfluentKafka.SchemaRegistryExtClient.Tests/CachingSchemaRegistrarTests.cs:35-53 | registration returns the inner id and makes `id:321` a cache hit holding id 321 |
| Scenarios.DeleteInvalidates | tests/JohBloch.ConfluentKafka.SchemaRegistryExtClient.Tests/CachingSchemaRegistrarTests.cs:55-84 | the cached "first" is served until a delete; the next read sees "second" |
| Scenarios.NegativeCaching | tests/JohBloch.ConfluentKafka.SchemaRegistryExtClient.Tests/CachingSchemaRegistrarTests.cs:86-110 | a not-found answer is served again from the cache until a delete; the next read sees "later" |
| Scenarios.NegativeEntryExpires | src/JohBloch.ConfluentKafka.SchemaRegistryExtClient/Services/SchemaCache.cs:40-60 | a negative entry with a 60 s time-to-live is a hit at 59 s and a miss that refetches at 60 s |
| Scenarios.ClientRecreatedOnTokenRefresh | tests/JohBloch.ConfluentKafka.SchemaRegistryExtClient.Tests/DIRegistrationTests.cs:62-91 | with a callback issuing expired tokens, each client read fetches a new token and builds a new connection, two in all |
| Scenarios.BlankTokenRefused | src/JohBloch.ConfluentKafka.SchemaRegistryExtClient/Services/SchemaRegistryExtClient.cs:72-81 | a blank token with no existing connection is refused and no connection is built |
| Scenarios.ReadsShareConnection | src/JohBloch.ConfluentKafka.SchemaRegistryExtClient/Services/SchemaRegistryExtClient.cs:88-94 | without a token manager or a cache, two reads each ask the registry and return its answer over the one connection the first read built |

## Left out

- Concurrency is not modelled: the `SemaphoreSlim`, the token lock, `Lazy` coalescing of concurrent fetches and thread-safe dictionaries. Calls run one at a time. Each in-flight table is a set that holds a key only while that key's fetch runs, and is empty between calls.
- `async`/`await` is not modelled. Each operation is a sequential method.
- The clock is read once per call as `now`, in whole seconds. Sub-second time is not modelled.
- Logging, events and metrics are left out, apart from ghost counters for callback calls and successful refreshes.
- DefaultSchemaRegistrar.cs, including its reflection-based delete, is not part of this model. The inner registrar and the registry are oracles.
- The client factory and configuration mutation are left out: `BearerAuthToken`, `ApplyConfluentCloudOAuthExtensions`, and factory exceptions. Connections are numbers in build order.
- The null-argument constructor exceptions are left out (a null config, callback, inner registrar or cache). The model's types cannot be null there.
- The proxy's "not initialised" branch is not reachable in the model: the proxy is only used after `GetClientAsync` has bound it.
- `TryGetSchemaTypeString` reads the type name by reflection. It is modelled as the schema type's name.
- `Enum.TryParse` also accepts numeric strings, surrounding spaces and comma lists; these are not modelled. `ToLowerInvariant` is modelled on ASCII letters only.
- Integer overflow of hit counts and of the hit and miss counters is not modelled; they are unbounded.
- A custom naming strategy is a total function. Its exceptions are not modelled.
- SchemaCache.LeastUsedKey: returns some key that is least in (hits, cachedAt) order, rather than the first such key in dictionary enumeration order.
- The client's lock disposal is not modelled, and neither is the `Count` property beyond the size bound.
- A custom naming strategy receives the role and the record type as given (SchemaRegistryExtClient.cs:199). The model passes `""` where the caller passed null, so a custom strategy that tells null from `""` is not modelled.
- `SchemaCacheOptions` has public setters (Models/SchemaCacheOptions.cs:5-6), and the cache keeps the caller's options object (SchemaCache.cs:20). Changing the size bound or the time-to-live after construction is not modelled; the model's options are fixed when the cache is built.
