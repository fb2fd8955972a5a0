/** End-to-end runs of the caching registrar and the client over fresh
    objects, with the registry's and the token callback's answers spelled
    out, mirroring the behaviours the repository's tests check. */
module Scenarios {
  import opened Values
  import opened Text
  import opened CacheKeys
  import opened SchemaCache
  import opened CachingRegistrar
  import opened Tokens
  import opened ExtClient

  /** A record as the registry reports it. */
  function Registered(id: int, text: string): SchemaInfo
  {
    SchemaInfo(None, Some(id), Some(text), None, Some("AVRO"))
  }

  /** A second read of the same version is a cache hit: the registry is not
      asked again (its failure would otherwise surface) and one hit is
      counted. */
  method CachesResult() returns (first: Outcome<Option<SchemaInfo>>, second: Outcome<Option<SchemaInfo>>, hits: nat)
    ensures first.Ok? && first.value.Some? && first.value.value.id == Some(123)
    ensures second == first
    ensures hits == 1
  {
    var cache := new InMemorySchemaCache(None);
    var registrar := new CachingSchemaRegistrar(cache);
    first := registrar.GetRegisteredSchema("topic", 1, 0, Ok(Some(Registered(123, "schema"))));
    second := registrar.GetRegisteredSchema("topic", 1, 0, Fail(Upstream));
    hits := cache.hitCount;
  }

  /** Registering caches the new schema under its id. */
  method RegisterUpdatesCache() returns (id: Outcome<int>, found: bool, cachedId: Option<int>)
    ensures id == Ok(321) && found && cachedId == Some(321)
  {
    var cache := new InMemorySchemaCache(None);
    var registrar := new CachingSchemaRegistrar(cache);
    id := registrar.RegisterSchema("topic", Schema(Some("s"), Avro), 0, Ok(321));
    assert "topic" != "id";
    var cached;
    found, cached := cache.TryGet(IdKey(321), 0);
    cachedId := if cached.Some? then cached.value.id else None;
  }

  /** A delete invalidates the version: the next read asks the registry
      again and sees its new answer. */
  method DeleteInvalidates() returns (first: Option<string>, second: Option<string>, third: Option<string>)
    ensures first == Some("first") && second == Some("first") && third == Some("second")
  {
    var cache := new InMemorySchemaCache(None);
    var registrar := new CachingSchemaRegistrar(cache);
    var r1 := registrar.GetRegisteredSchema("topic", 1, 0, Ok(Some(Registered(1, "first"))));
    var r2 := registrar.GetRegisteredSchema("topic", 1, 0, Ok(Some(Registered(1, "second"))));
    var _ := registrar.DeleteSchemaVersion("topic", 1, Ok(()));
    var r3 := registrar.GetRegisteredSchema("topic", 1, 0, Ok(Some(Registered(1, "second"))));
    first := if r1.Ok? then SchemaText(r1.value) else None;
    second := if r2.Ok? then SchemaText(r2.value) else None;
    third := if r3.Ok? then SchemaText(r3.value) else None;
  }

  /** A not-found answer is cached: the next read gives null without asking
      the registry, until a delete invalidates it. */
  method NegativeCaching() returns (first: Outcome<Option<SchemaInfo>>, second: Outcome<Option<SchemaInfo>>, third: Option<string>)
    ensures first == Ok(None) && second == Ok(None) && third == Some("later")
  {
    var cache := new InMemorySchemaCache(Some(CacheOptions(DefaultMaxSize, 60)));
    var registrar := new CachingSchemaRegistrar(cache);
    first := registrar.GetRegisteredSchema("topic", 42, 0, Ok(None));
    second := registrar.GetRegisteredSchema("topic", 42, 0, Ok(Some(Registered(9, "later"))));
    var _ := registrar.DeleteSchemaVersion("topic", 42, Ok(()));
    var r3 := registrar.GetRegisteredSchema("topic", 42, 0, Ok(Some(Registered(9, "later"))));
    third := if r3.Ok? then SchemaText(r3.value) else None;
  }

  /** A negative entry lives for the time-to-live only: a read that many
      seconds later asks the registry again. */
  method NegativeEntryExpires() returns (early: Outcome<Option<SchemaInfo>>, late: Option<string>)
    ensures early == Ok(None) && late == Some("later")
  {
    var cache := new InMemorySchemaCache(Some(CacheOptions(DefaultMaxSize, 60)));
    var registrar := new CachingSchemaRegistrar(cache);
    var _ := registrar.GetRegisteredSchema("topic", 42, 0, Ok(None));
    early := registrar.GetRegisteredSchema("topic", 42, 59, Ok(Some(Registered(9, "later"))));
    var r := registrar.GetRegisteredSchema("topic", 42, 60, Ok(Some(Registered(9, "later"))));
    late := if r.Ok? then SchemaText(r.value) else None;
  }

  /** A callback that issues already-expired tokens makes every read fetch a
      new token, and each new token makes the client build a new connection. */
  method ClientRecreatedOnTokenRefresh() returns (c1: Outcome<nat>, c2: Outcome<nat>, created: nat)
    ensures c1 == Ok(0) && c2 == Ok(1) && created == 2
  {
    var manager := new TokenManager();
    var client := new SchemaRegistryExtClient(manager, null, NamingOptions(None, None));
    assert !IsBlank("t1") by { assert !IsWhiteSpace("t1"[0]); }
    assert !IsBlank("t3") by { assert !IsWhiteSpace("t3"[0]); }
    c1 := client.GetClient(100, Issued("t1", 90));
    var _ := manager.ForceRefresh(100, Issued("t2", 90));
    c2 := client.GetClient(100, Issued("t3", 90));
    created := client.connectionsBuilt;
  }

  /** With a token manager, a blank token is never used to build a
      connection. */
  method BlankTokenRefused() returns (r: Outcome<nat>, created: nat)
    ensures r == Fail(InvalidOperation) && created == 0
  {
    var manager := new TokenManager();
    var client := new SchemaRegistryExtClient(manager, null, NamingOptions(None, None));
    r := client.GetClient(100, Issued(" ", 200));
    created := client.connectionsBuilt;
  }

  /** Without a token manager or a cache, two reads ask the registry twice
      over the one connection the first read built. */
  method ReadsShareConnection() returns (first: Outcome<Option<string>>, second: Outcome<Option<string>>, created: nat)
    ensures first == Ok(Some("s1")) && second == Ok(None) && created == 1
  {
    var client := new SchemaRegistryExtClient(null, null, NamingOptions(None, None));
    assert !IsBlank("orders") by { assert !IsWhiteSpace("orders"[0]); }
    first := client.GetSchemaBySubject("orders", 1, 10, Thrown, Ok(Some(Registered(1, "s1"))));
    second := client.GetSchemaBySubject("orders", 2, 20, Thrown, Ok(None));
    created := client.connectionsBuilt;
  }
}
