/** `SchemaRegistryExtClient`: binds a registry connection to the current
    bearer token, names subjects, decodes the wire-format header, and reads
    and registers schemas through the shared cache and a registrar bound to
    the current connection.

    Connections are opaque: each one the factory builds is numbered in build
    order. The registry is an oracle: an operation that reaches it receives
    the reply it would give as a parameter, and the ghost log `backendCalls`
    records each call made. */
module ExtClient {
  import opened Values
  import opened Text
  import opened CacheKeys
  import opened SchemaTypes
  import opened WireFormat
  import opened SubjectNames
  import opened SchemaCache
  import opened CachingRegistrar
  import opened Tokens

  /** `SubjectNameStrategy`. */
  datatype NamingStrategy = TopicName | TopicRecordName | RecordName

  /** The naming part of `SchemaClientOptions`: a custom strategy (a function
      of topic, role and record type) and the built-in strategy to use. */
  datatype NamingOptions = NamingOptions(
    custom: Option<(string, string, string) -> string>,
    strategy: Option<NamingStrategy>)

  /** The subject the client derives once the topic is known not to be blank:
      a custom strategy wins, then the configured built-in one; with neither,
      the record type decides between topic-record and topic naming. */
  function SubjectNameOf(options: NamingOptions, topic: string, roleType: string, recordType: string): (subject: string)
    ensures options.custom.Some? ==> subject == options.custom.value(topic, roleType, recordType)
    ensures options.custom.None? && options.strategy == Some(TopicName) ==>
      subject == TopicNameStrategy(topic, roleType, recordType)
    ensures options.custom.None? && options.strategy == Some(RecordName) ==>
      subject == RecordNameStrategy(topic, roleType, recordType)
    ensures options.custom.None? && options.strategy != Some(TopicName) && options.strategy != Some(RecordName) ==>
      subject == TopicRecordNameStrategy(topic, roleType, recordType)
  {
    if options.custom.Some? then options.custom.value(topic, roleType, recordType)
    else if options.strategy.Some? then
      match options.strategy.value
      case TopicName => TopicNameStrategy(topic, roleType, recordType)
      case TopicRecordName => TopicRecordNameStrategy(topic, roleType, recordType)
      case RecordName => RecordNameStrategy(topic, roleType, recordType)
    else if !IsBlank(recordType) then TopicRecordNameStrategy(topic, roleType, recordType)
    else TopicNameStrategy(topic, roleType, recordType)
  }

  /** `GetSubjectName`: a blank topic is rejected. */
  function GetSubjectName(options: NamingOptions, topic: string, roleType: string, recordType: string): (r: Outcome<string>)
    ensures r.Fail? <==> IsBlank(topic)
    ensures r.Fail? ==> r.error == Argument
    ensures r.Ok? ==> r.value == SubjectNameOf(options, topic, roleType, recordType)
  {
    if IsBlank(topic) then Fail(Argument) else Ok(SubjectNameOf(options, topic, roleType, recordType))
  }

  /** Without a custom strategy, a non-blank topic always gives a non-blank
      subject. */
  lemma {:induction false} SubjectNameNonBlank(options: NamingOptions, topic: string, roleType: string, recordType: string)
    requires options.custom.None? && !IsBlank(topic)
    ensures GetSubjectName(options, topic, roleType, recordType).Ok?
    ensures !IsBlank(GetSubjectName(options, topic, roleType, recordType).value)
  {
    StrategiesKeepSubjectNonBlank(topic, roleType, recordType);
  }

  /** The naming cases the client's tests check. */
  lemma SubjectNameExamples()
    ensures GetSubjectName(NamingOptions(None, Some(RecordName)), "my-topic", "key", "MyRecord") == Ok("MyRecord")
    ensures GetSubjectName(NamingOptions(None, Some(RecordName)), "my-topic", "value", "MyRecord") == Ok("MyRecord")
    ensures GetSubjectName(NamingOptions(None, Some(TopicRecordName)), "my-topic", "key", "MyRecord") == Ok("my-topic-MyRecord")
    ensures GetSubjectName(NamingOptions(None, Some(TopicRecordName)), "my-topic", "value", "MyRecord") == Ok("my-topic-MyRecord")
    ensures GetSubjectName(NamingOptions(None, Some(TopicName)), "my-topic", "key", "") == Ok("my-topic-key")
    ensures GetSubjectName(NamingOptions(None, Some(TopicName)), "my-topic", "value", "") == Ok("my-topic-value")
    ensures GetSubjectName(NamingOptions(None, None), "my-topic", "key", "MyRecord") == Ok("my-topic-MyRecord")
    ensures GetSubjectName(NamingOptions(None, None), "my-topic", "key", "") == Ok("my-topic-key")
    ensures GetSubjectName(NamingOptions(None, None), "my-topic", "value", "") == Ok("my-topic-value")
    ensures GetSubjectName(NamingOptions(Some((t, r, c) => "my-fixed-subject"), None), "orders", "value", "OrderValue")
      == Ok("my-fixed-subject")
  {
    assert !IsBlank("my-topic") by { assert !IsWhiteSpace("my-topic"[0]); }
    assert !IsBlank("orders") by { assert !IsWhiteSpace("orders"[0]); }
    assert !IsBlank("MyRecord") by { assert !IsWhiteSpace("MyRecord"[0]); }
    assert LowerInvariant("key") == "key";
    assert LowerInvariant("value") == "value";
    assert "my-topic" + "-" + "MyRecord" == "my-topic-MyRecord";
    assert "my-topic" + "-key" == "my-topic-key";
    assert "my-topic" + "-value" == "my-topic-value";
  }

  /** What `GetClientAsync` does with the connection it holds. */
  datatype Binding =
    | Reuse    // hand out the current connection
    | Rebuild  // build a new connection and rebind the registrars to it
    | Refuse   // throw InvalidOperationException

  /** The binding decision for the token read (`None` without a token
      manager), whether a connection exists, and the token it was built with. */
  function Decide(token: Option<string>, hasClient: bool, clientToken: Option<string>): (b: Binding)
    ensures b == Reuse ==> hasClient
    ensures b == Refuse <==>
      token.Some? && IsBlank(token.value) && !(hasClient && clientToken.Some? && !IsBlank(clientToken.value))
    ensures b == Rebuild ==> token.None? || !IsBlank(token.value)
    ensures token.None? ==> (b == Rebuild <==> !hasClient)
    ensures token.Some? && !IsBlank(token.value) ==> (b == Rebuild <==> !hasClient || clientToken != token)
  {
    if token.Some? && IsBlank(token.value) then
      if hasClient && clientToken.Some? && !IsBlank(clientToken.value) then Reuse else Refuse
    else if !hasClient || (clientToken != token && token.Some? && !IsBlank(token.value)) then Rebuild
    else Reuse
  }

  /** The connection closed by a rebuild, if there was one. */
  function Closed(client: Option<nat>): (s: seq<nat>)
    ensures |s| <= 1 && (client.Some? <==> |s| == 1)
    ensures client.Some? ==> s[0] == client.value
  {
    if client.Some? then [client.value] else []
  }

  /** What `SetCacheSubjectVersion` makes of the cache: the record, or its
      absence, is written under the version key and then, when the record
      carries an id, under its id key as well. */
  ghost predicate StoredVersion(before: map<string, Entry>, maxSize: int, key: string, registered: Option<SchemaInfo>,
                                now: nat, after: map<string, Entry>)
  {
    if registered.Some? && registered.value.id.Some? then
      IsSetTwiceResult(before, maxSize, key, IdKey(registered.value.id.value), Entry(registered, now, 1), after)
    else
      IsSetResult(before, maxSize, key, Entry(registered, now, 1), after)
  }

  /** After `SetCacheSubjectVersion` the id entry is in place, and so is the
      version entry unless the id write evicted it from a full cache; every
      other surviving entry is as it was. */
  lemma {:induction false} StoredVersionKeeps(before: map<string, Entry>, maxSize: int, key: string,
                                              registered: Option<SchemaInfo>, now: nat, after: map<string, Entry>)
    requires StoredVersion(before, maxSize, key, registered, now, after)
    ensures registered.Some? && registered.value.id.Some? ==>
      && IdKey(registered.value.id.value) in after && after[IdKey(registered.value.id.value)] == Entry(registered, now, 1)
      && (key in after ==> after[key] == Entry(registered, now, 1))
    ensures registered.None? || registered.value.id.None? || |before| + 1 < maxSize ==>
      key in after && after[key] == Entry(registered, now, 1)
    ensures forall k :: k in after && k != key && !(registered.Some? && registered.value.id.Some? && k == IdKey(registered.value.id.value)) ==>
      k in before && after[k] == before[k]
  {
    if registered.Some? && registered.value.id.Some? {
      SetTwiceKeeps(before, maxSize, key, IdKey(registered.value.id.value), Entry(registered, now, 1), after);
    } else {
      SetResultKeeps(before, maxSize, key, Entry(registered, now, 1), after);
    }
  }

  /** The writes of `SetCacheSubjectVersion`, each one as `Set` makes it,
      give `StoredVersion` and the entries it keeps. */
  lemma {:induction false} StoredVersionOf(before: map<string, Entry>, maxSize: int, key: string,
                                           registered: Option<SchemaInfo>, now: nat,
                                           first: Option<string>, second: Option<string>, after: map<string, Entry>)
    requires first.Some? <==> |before| >= maxSize && |before| > 0
    requires first.Some? ==> IsEvictionVictim(before, first.value)
    requires registered.None? || registered.value.id.None? ==>
      after == Evicting(before, first)[key := Entry(registered, now, 1)]
    requires registered.Some? && registered.value.id.Some? ==>
      var written := Evicting(before, first)[key := Entry(registered, now, 1)];
      && (second.Some? <==> |written| >= maxSize && |written| > 0)
      && (second.Some? ==> IsEvictionVictim(written, second.value))
      && after == Evicting(written, second)[IdKey(registered.value.id.value) := Entry(registered, now, 1)]
    ensures StoredVersion(before, maxSize, key, registered, now, after)
    ensures registered.Some? && registered.value.id.Some? ==>
      && IdKey(registered.value.id.value) in after && after[IdKey(registered.value.id.value)] == Entry(registered, now, 1)
      && (key in after ==> after[key] == Entry(registered, now, 1))
    ensures registered.None? || registered.value.id.None? || |before| + 1 < maxSize ==>
      key in after && after[key] == Entry(registered, now, 1)
  {
    var entry := Entry(registered, now, 1);
    var written := Evicting(before, first)[key := entry];
    SetResultOf(before, maxSize, key, entry, first);
    if registered.Some? && registered.value.id.Some? {
      SetResultOf(written, maxSize, IdKey(registered.value.id.value), entry, second);
    }
    StoredVersionKeeps(before, maxSize, key, registered, now, after);
  }

  /** What `SetCacheId` makes of the cache: the schema found under `id`, or
      its absence, is written under the id key. */
  ghost predicate StoredId(before: map<string, Entry>, maxSize: int, key: string, id: int, schema: Option<Schema>,
                           now: nat, after: map<string, Entry>)
  {
    IsSetResult(before, maxSize, key, Entry(if schema.Some? then Some(IdEntryInfo(id, schema.value)) else None, now, 1), after)
  }

  class SchemaRegistryExtClient {
    const cache: InMemorySchemaCache?
    const tokenManager: TokenManager?
    const naming: NamingOptions

    /** `_client`: the current connection. */
    var client: Option<nat>
    /** `_clientToken`: the token the current connection was built with. */
    var clientToken: Option<string>
    /** `_uncachedRegistrar`: the connection the uncached registrar uses. */
    var uncached: Option<nat>
    /** The connection the registrar proxy forwards to. */
    var bound: Option<nat>
    /** The caching layer the proxy forwards to when there is a cache. */
    var layer: CachingSchemaRegistrar?
    var disposed: bool
    /** Connections built so far; the next one gets this number. */
    var connectionsBuilt: nat
    /** Connections disposed, in order. */
    ghost var closed: seq<nat>
    ghost var backendCalls: seq<Call>

    ghost predicate Valid()
      reads this, cache, layer
    {
      && (cache != null ==> cache.Valid())
      && (layer != null ==> cache != null && layer.cache == cache && layer.Valid())
      && (cache != null && bound.Some? ==> layer != null)
      && (uncached.Some? <==> bound.Some?) && (uncached.Some? ==> uncached == bound)
      && (client.Some? ==> uncached == client && client.value < connectionsBuilt)
      && (tokenManager == null ==> clientToken.None?)
      && (tokenManager != null && client.Some? ==> clientToken.Some? && !IsBlank(clientToken.value))
    }

    /** A client with no connection yet; the token manager and cache are the
        ones given, either of which may be absent. */
    constructor (tokenManager: TokenManager?, cache: InMemorySchemaCache?, naming: NamingOptions)
      requires cache != null ==> cache.Valid()
      ensures Valid()
      ensures this.tokenManager == tokenManager && this.cache == cache
      ensures client.None? && bound.None? && !disposed && connectionsBuilt == 0
      ensures closed == [] && backendCalls == []
    {
      this.tokenManager := tokenManager;
      this.cache := cache;
      this.naming := naming;
      client, clientToken, uncached, bound := None, None, None, None;
      layer := null;
      disposed := false;
      connectionsBuilt := 0;
      closed, backendCalls := [], [];
    }

    /** Builds a connection, rebinds both registrars to it (the proxy through
        a new caching layer when there is a cache) and closes the old one. */
    method Rebind(token: Option<string>)
      requires Valid()
      requires tokenManager == null ==> token.None?
      requires tokenManager != null ==> token.Some? && !IsBlank(token.value)
      modifies this
      ensures Valid()
      ensures client == Some(old(connectionsBuilt)) && clientToken == token
      ensures uncached == client && bound == client && connectionsBuilt == old(connectionsBuilt) + 1
      ensures closed == old(closed) + Closed(old(client))
      ensures cache != null ==> fresh(layer) && layer.innerCalls == []
      ensures disposed == old(disposed) && backendCalls == old(backendCalls)
    {
      var connection := connectionsBuilt;
      connectionsBuilt := connectionsBuilt + 1;
      if cache != null {
        layer := new CachingSchemaRegistrar(cache);
      }
      var previous := client;
      client, clientToken := Some(connection), token;
      uncached, bound := Some(connection), Some(connection);
      closed := closed + Closed(previous);
    }

    /** How `GetClientAsync` ends from the current state: the exception it
        throws (disposed, a failed token read, or a blank token with no
        usable connection), or a connection. */
    ghost function Connection(now: nat, tokenReply: RefreshReply): (c: Outcome<()>)
      reads this, tokenManager
      ensures disposed ==> c == Fail(ObjectDisposed)
      ensures !disposed && tokenManager == null ==> c.Ok?
      ensures c.Fail? ==> c.error in {ObjectDisposed, ArgumentOutOfRange, Upstream, InvalidOperation}
    {
      if disposed then Fail(ObjectDisposed)
      else if tokenManager == null then Ok(())
      else
        var read := TokenRead(Held(tokenManager.accessToken, tokenManager.expiresAt), now, tokenReply);
        if read.Fail? then Fail(read.error)
        else if Decide(Some(read.value.token), client.Some?, clientToken) == Refuse then Fail(InvalidOperation)
        else Ok(())
    }

    /** The connection and the token as `GetClientAsync` leaves them from the
        state on entry: the token manager, when there is one and the client is
        not disposed, has been read once (renewing or keeping its token, the
        callback counted); a connection is rebuilt exactly when `Decide` says
        so and the call does not throw, and otherwise the connection, its
        token, both registrars, the build count and the closed log are kept. */
    twostate predicate Connects(now: nat, tokenReply: RefreshReply)
      reads this`disposed, this`client, this`clientToken, this`uncached, this`bound, this`layer,
            this`connectionsBuilt, this`closed, tokenManager
    {
      var read := if old(disposed) || tokenManager == null then None
                  else Some(TokenRead(Held(old(tokenManager.accessToken), old(tokenManager.expiresAt)), now, tokenReply));
      var token := if read.Some? && read.value.Ok? then Some(read.value.value.token) else None;
      && disposed == old(disposed)
      && (tokenManager != null && read.None? ==>
            && tokenManager.accessToken == old(tokenManager.accessToken)
            && tokenManager.expiresAt == old(tokenManager.expiresAt)
            && tokenManager.callbackCalls == old(tokenManager.callbackCalls)
            && tokenManager.refreshes == old(tokenManager.refreshes)
            && tokenManager.disposed == old(tokenManager.disposed))
      && (read.Some? ==>
            && tokenManager.disposed == old(tokenManager.disposed)
            && (read.value.Ok? ==> Held(tokenManager.accessToken, tokenManager.expiresAt) == read.value.value)
            && (read.value.Fail? ==>
                  tokenManager.accessToken == old(tokenManager.accessToken)
                  && tokenManager.expiresAt == old(tokenManager.expiresAt))
            && tokenManager.callbackCalls ==
                 old(tokenManager.callbackCalls) + (if CallsBack(old(tokenManager.expiresAt), now) then 1 else 0)
            && tokenManager.refreshes ==
                 old(tokenManager.refreshes) + (if CallsBack(old(tokenManager.expiresAt), now) && tokenReply.Issued? then 1 else 0))
      && if old(Connection(now, tokenReply)).Ok? && Decide(token, old(client).Some?, old(clientToken)) == Rebuild then
           && client == Some(old(connectionsBuilt)) && clientToken == token
           && uncached == client && bound == client && connectionsBuilt == old(connectionsBuilt) + 1
           && closed == old(closed) + Closed(old(client))
           && (cache != null ==> fresh(layer)) && (cache == null ==> layer == old(layer))
         else
           && client == old(client) && clientToken == old(clientToken)
           && uncached == old(uncached) && bound == old(bound) && layer == old(layer)
           && connectionsBuilt == old(connectionsBuilt) && closed == old(closed)
    }

    /** `GetClientAsync`: rejects a disposed client, reads the token (when
        there is a token manager) and then reuses, rebuilds or refuses as
        `Decide` says; `Connects` states the connection and token it leaves. */
    method GetClient(now: nat, tokenReply: RefreshReply) returns (r: Outcome<nat>)
      requires Valid()
      modifies this, tokenManager
      ensures Valid()
      ensures backendCalls == old(backendCalls)
      ensures old(Connection(now, tokenReply)).Fail? ==> r == Fail(old(Connection(now, tokenReply)).error) && unchanged(this)
      ensures old(Connection(now, tokenReply)).Ok? ==> r.Ok? && client == Some(r.value) && uncached == client && bound == client
      ensures Connects(now, tokenReply)
      ensures cache != null && layer != old(layer) ==> layer.innerCalls == []
    {
      if disposed {
        return Fail(ObjectDisposed);
      }
      var token: Option<string> := None;
      if tokenManager != null {
        var read := tokenManager.GetToken(now, tokenReply);
        if read.Fail? {
          return Fail(read.error);
        }
        token := Some(read.value);
      }
      match Decide(token, client.Some?, clientToken) {
        case Refuse =>
          r := Fail(InvalidOperation);
        case Reuse =>
          r := Ok(client.value);
        case Rebuild =>
          Rebind(token);
          r := Ok(client.value);
      }
    }

    /** `TryGetFromCache`: a miss when there is no cache. */
    method Lookup(key: string, now: nat) returns (found: bool, cached: Option<SchemaInfo>)
      requires Valid()
      modifies cache
      ensures Valid()
      ensures cache == null ==> !found && cached.None?
      ensures cache != null ==>
        && cache.disposed == old(cache.disposed)
        && (found <==> key != "" && IsFresh(old(cache.entries), key, now, cache.options.timeToLiveSeconds))
        && (found ==>
              && cached == old(cache.entries)[key].info
              && cache.entries == old(cache.entries)[key := old(cache.entries)[key].(hits := old(cache.entries)[key].hits + 1)]
              && cache.hitCount == old(cache.hitCount) + 1 && cache.missCount == old(cache.missCount))
        && (!found ==>
              && cached.None? && cache.entries == old(cache.entries) - {key}
              && cache.hitCount == old(cache.hitCount) && cache.missCount == old(cache.missCount) + 1)
    {
      found, cached := false, None;
      if cache != null {
        found, cached := cache.TryGet(key, now);
      }
    }

    /** `SetCacheSubjectVersion`: caches the record (or its absence) under the
        version key and, when the record carries an id, under its id key. */
    method StoreVersion(key: string, registered: Option<SchemaInfo>, now: nat)
      requires Valid() && key != ""
      modifies cache
      ensures Valid()
      ensures cache != null ==>
        && cache.disposed == old(cache.disposed)
        && cache.hitCount == old(cache.hitCount) && cache.missCount == old(cache.missCount)
        && StoredVersion(old(cache.entries), cache.options.maxSize, key, registered, now, cache.entries)
      ensures cache != null && registered.Some? && registered.value.id.Some? ==>
        && IdKey(registered.value.id.value) in cache.entries
        && cache.entries[IdKey(registered.value.id.value)] == Entry(registered, now, 1)
        && (key in cache.entries ==> cache.entries[key] == Entry(registered, now, 1))
      ensures cache != null && (registered.None? || registered.value.id.None? || |old(cache.entries)| + 1 < cache.options.maxSize) ==>
        key in cache.entries && cache.entries[key] == Entry(registered, now, 1)
    {
      if cache == null {
        return;
      }
      ghost var before := cache.entries;
      ghost var first := cache.Set(key, registered, now);
      ghost var second: Option<string> := None;
      if registered.Some? && registered.value.id.Some? {
        second := cache.Set(IdKey(registered.value.id.value), registered, now);
      }
      StoredVersionOf(before, cache.options.maxSize, key, registered, now, first, second, cache.entries);
    }

    /** `SetCacheId`: caches the schema found under `id`, or its absence. */
    method StoreId(key: string, id: int, schema: Option<Schema>, now: nat)
      requires Valid() && key != ""
      modifies cache
      ensures Valid()
      ensures cache != null ==>
        && cache.disposed == old(cache.disposed)
        && cache.hitCount == old(cache.hitCount) && cache.missCount == old(cache.missCount)
        && StoredId(old(cache.entries), cache.options.maxSize, key, id, schema, now, cache.entries)
        && key in cache.entries
        && cache.entries[key] == Entry(if schema.Some? then Some(IdEntryInfo(id, schema.value)) else None, now, 1)
        && (|old(cache.entries)| < cache.options.maxSize ==>
              cache.entries == old(cache.entries)[key := Entry(if schema.Some? then Some(IdEntryInfo(id, schema.value)) else None, now, 1)])
    {
      if cache == null {
        return;
      }
      ghost var before := cache.entries;
      ghost var evicted;
      if schema.None? {
        evicted := cache.Set(key, None, now);
      } else {
        evicted := cache.Set(key, Some(IdEntryInfo(id, schema.value)), now);
      }
      SetResultOf(before, cache.options.maxSize, key,
                  Entry(if schema.Some? then Some(IdEntryInfo(id, schema.value)) else None, now, 1), evicted);
      SetResultKeeps(before, cache.options.maxSize, key,
                     Entry(if schema.Some? then Some(IdEntryInfo(id, schema.value)) else None, now, 1), cache.entries);
    }

    /** The miss path of `GetSchemaAsync(subject, version)`: obtain a
        current connection, ask its uncached registrar once, and cache the
        answer under `key`. */
    method FetchSubjectVersion(subject: string, version: int, key: string, now: nat, tokenReply: RefreshReply,
                               reply: Outcome<Option<SchemaInfo>>) returns (r: Outcome<Option<string>>)
      requires Valid() && key != ""
      modifies this, cache, tokenManager
      ensures Valid() && disposed == old(disposed)
      ensures cache != null ==> cache.hitCount == old(cache.hitCount) && cache.missCount == old(cache.missCount)
      ensures Connects(now, tokenReply)
      ensures var connection := old(Connection(now, tokenReply));
        if connection.Fail? then
          && r == Fail(connection.error) && unchanged(this)
          && (cache != null ==> cache.entries == old(cache.entries))
        else
          && backendCalls == old(backendCalls) + [FetchVersion(subject, version)]
          && client.Some?
          && (reply.Fail? ==> r == Fail(reply.error))
          && (reply.Ok? ==> r == Ok(SchemaText(reply.value)))
          && (cache != null && reply.Fail? ==> cache.entries == old(cache.entries))
          && (cache != null && reply.Ok? ==>
                && StoredVersion(old(cache.entries), cache.options.maxSize, key, reply.value, now, cache.entries)
                && (reply.value.Some? && reply.value.value.id.Some? ==>
                      && IdKey(reply.value.value.id.value) in cache.entries
                      && cache.entries[IdKey(reply.value.value.id.value)] == Entry(reply.value, now, 1))
                && (key in cache.entries ==> cache.entries[key] == Entry(reply.value, now, 1))
                && (reply.value.None? || reply.value.value.id.None? || |old(cache.entries)| + 1 < cache.options.maxSize ==>
                      key in cache.entries))
    {
      var connected := GetClient(now, tokenReply);
      if connected.Fail? {
        return Fail(connected.error);
      }
      label connected:
      backendCalls := backendCalls + [FetchVersion(subject, version)];
      if reply.Fail? {
        return Fail(reply.error);
      }
      StoreVersion(key, reply.value, now);
      assert unchanged@connected(this`client, this`clientToken, this`uncached, this`bound, this`layer, this`connectionsBuilt,
                                 this`closed, this`disposed);
      assert tokenManager != null ==> unchanged@connected(tokenManager);
      r := Ok(SchemaText(reply.value));
    }

    /** `GetSchemaAsync(subject, version)`: a cache hit is answered without
        a connection; otherwise the uncached registrar of a current connection
        is asked and its answer, negative included, is cached. */
    method GetSchemaBySubject(subject: string, version: int, now: nat, tokenReply: RefreshReply,
                              reply: Outcome<Option<SchemaInfo>>) returns (r: Outcome<Option<string>>)
      requires Valid()
      modifies this, cache, tokenManager
      ensures Valid() && disposed == old(disposed)
      ensures IsBlank(subject) ==>
        && r == Fail(Argument) && unchanged(this)
        && (cache != null ==> unchanged(cache)) && (tokenManager != null ==> unchanged(tokenManager))
      ensures !IsBlank(subject) &&
              !(cache != null && IsFresh(old(cache.entries), SubjectVersionKey(subject, version), now, cache.options.timeToLiveSeconds)) ==>
        Connects(now, tokenReply)
      ensures !IsBlank(subject) ==>
        var key := SubjectVersionKey(subject, version);
        var connection := old(Connection(now, tokenReply));
        if cache != null && IsFresh(old(cache.entries), key, now, cache.options.timeToLiveSeconds) then
          && r == Ok(SchemaText(old(cache.entries)[key].info)) && unchanged(this)
          && (tokenManager != null ==> unchanged(tokenManager))
          && cache.entries == old(cache.entries)[key := old(cache.entries)[key].(hits := old(cache.entries)[key].hits + 1)]
          && cache.hitCount == old(cache.hitCount) + 1 && cache.missCount == old(cache.missCount)
        else if connection.Fail? then
          && r == Fail(connection.error) && unchanged(this)
          && (cache != null ==>
                && cache.entries == old(cache.entries) - {key}
                && cache.hitCount == old(cache.hitCount) && cache.missCount == old(cache.missCount) + 1)
        else
          && backendCalls == old(backendCalls) + [FetchVersion(subject, version)]
          && client.Some?
          && (reply.Fail? ==> r == Fail(reply.error))
          && (reply.Ok? ==> r == Ok(SchemaText(reply.value)))
          && (cache != null ==> cache.hitCount == old(cache.hitCount) && cache.missCount == old(cache.missCount) + 1)
          && (cache != null && reply.Fail? ==> cache.entries == old(cache.entries) - {key})
          && (cache != null && reply.Ok? ==>
                StoredVersion(old(cache.entries) - {key}, cache.options.maxSize, key, reply.value, now, cache.entries))
      ensures !IsBlank(subject) && cache != null && reply.Ok? && !IsFresh(old(cache.entries), SubjectVersionKey(subject, version), now, cache.options.timeToLiveSeconds)
              && old(Connection(now, tokenReply)).Ok? ==>
        var key := SubjectVersionKey(subject, version);
        var entry := Entry(reply.value, now, 1);
        && (reply.value.Some? && reply.value.value.id.Some? ==>
              IdKey(reply.value.value.id.value) in cache.entries && cache.entries[IdKey(reply.value.value.id.value)] == entry)
        && (key in cache.entries ==> cache.entries[key] == entry)
        && (reply.value.None? || reply.value.value.id.None? || |old(cache.entries) - {key}| + 1 < cache.options.maxSize ==>
              key in cache.entries)
    {
      if IsBlank(subject) {
        return Fail(Argument);
      }
      var key := SubjectVersionKey(subject, version);
      var found, cached := Lookup(key, now);
      if found {
        return Ok(SchemaText(cached));
      }
      r := FetchSubjectVersion(subject, version, key, now, tokenReply, reply);
    }

    /** The miss path of `GetSchema(message)`: obtain a current connection,
        ask its uncached registrar once for the schema under `id`, and cache
        the answer under `key`. */
    method FetchSchemaId(id: int, key: string, now: nat, tokenReply: RefreshReply, reply: Outcome<Option<Schema>>)
      returns (r: Outcome<Option<string>>)
      requires Valid() && key != ""
      modifies this, cache, tokenManager
      ensures Valid() && disposed == old(disposed)
      ensures cache != null ==> cache.hitCount == old(cache.hitCount) && cache.missCount == old(cache.missCount)
      ensures Connects(now, tokenReply)
      ensures var connection := old(Connection(now, tokenReply));
        if connection.Fail? then
          && r == Fail(connection.error) && unchanged(this)
          && (cache != null ==> cache.entries == old(cache.entries))
        else
          && backendCalls == old(backendCalls) + [FetchId(id)]
          && client.Some?
          && (reply.Fail? ==> r == Fail(reply.error))
          && (reply.Ok? ==> r == Ok(if reply.value.Some? then reply.value.value.text else None))
          && (cache != null && reply.Fail? ==> cache.entries == old(cache.entries))
          && (cache != null && reply.Ok? ==>
                && StoredId(old(cache.entries), cache.options.maxSize, key, id, reply.value, now, cache.entries)
                && key in cache.entries
                && cache.entries[key].info == (if reply.value.Some? then Some(IdEntryInfo(id, reply.value.value)) else None))
    {
      var connected := GetClient(now, tokenReply);
      if connected.Fail? {
        return Fail(connected.error);
      }
      label connected:
      backendCalls := backendCalls + [FetchId(id)];
      if reply.Fail? {
        return Fail(reply.error);
      }
      StoreId(key, id, reply.value, now);
      assert unchanged@connected(this`client, this`clientToken, this`uncached, this`bound, this`layer, this`connectionsBuilt,
                                 this`closed, this`disposed);
      assert tokenManager != null ==> unchanged@connected(tokenManager);
      r := Ok(if reply.value.Some? then reply.value.value.text else None);
    }

    /** The part of `GetSchema(message)` after a valid header: the id is
        resolved like a subject and version are, on the key `id:<id>`. */
    method ResolveId(id: int, now: nat, tokenReply: RefreshReply, reply: Outcome<Option<Schema>>)
      returns (r: Outcome<Option<string>>)
      requires Valid()
      modifies this, cache, tokenManager
      ensures Valid() && disposed == old(disposed)
      ensures !(cache != null && IsFresh(old(cache.entries), IdKey(id), now, cache.options.timeToLiveSeconds)) ==>
        Connects(now, tokenReply)
      ensures var key := IdKey(id);
        var connection := old(Connection(now, tokenReply));
        if cache != null && IsFresh(old(cache.entries), key, now, cache.options.timeToLiveSeconds) then
          && r == Ok(SchemaText(old(cache.entries)[key].info)) && unchanged(this)
          && (tokenManager != null ==> unchanged(tokenManager))
          && cache.entries == old(cache.entries)[key := old(cache.entries)[key].(hits := old(cache.entries)[key].hits + 1)]
          && cache.hitCount == old(cache.hitCount) + 1 && cache.missCount == old(cache.missCount)
        else if connection.Fail? then
          && r == Fail(connection.error) && unchanged(this)
          && (cache != null ==>
                && cache.entries == old(cache.entries) - {key}
                && cache.hitCount == old(cache.hitCount) && cache.missCount == old(cache.missCount) + 1)
        else
          && backendCalls == old(backendCalls) + [FetchId(id)]
          && client.Some?
          && (reply.Fail? ==> r == Fail(reply.error))
          && (reply.Ok? ==> r == Ok(if reply.value.Some? then reply.value.value.text else None))
          && (cache != null ==> cache.hitCount == old(cache.hitCount) && cache.missCount == old(cache.missCount) + 1)
          && (cache != null && reply.Fail? ==> cache.entries == old(cache.entries) - {key})
          && (cache != null && reply.Ok? ==>
                && StoredId(old(cache.entries) - {key}, cache.options.maxSize, key, id, reply.value, now, cache.entries)
                && key in cache.entries
                && cache.entries[key].info == (if reply.value.Some? then Some(IdEntryInfo(id, reply.value.value)) else None))
    {
      var key := IdKey(id);
      var found, cached := Lookup(key, now);
      if found {
        return Ok(SchemaText(cached));
      }
      r := FetchSchemaId(id, key, now, tokenReply, reply);
    }

    /** `GetSchema(message)`: reads the schema id from the wire-format header;
        a null message throws, a message without a valid header gives null
        without touching anything, and a valid id is resolved by `ResolveId`. */
    method GetSchemaByMessage(message: Option<seq<byte>>, now: nat, tokenReply: RefreshReply,
                              reply: Outcome<Option<Schema>>) returns (r: Outcome<Option<string>>)
      requires Valid()
      modifies this, cache, tokenManager
      ensures Valid() && disposed == old(disposed)
      ensures message.None? ==>
        && r == Fail(ArgumentNull) && unchanged(this)
        && (cache != null ==> unchanged(cache)) && (tokenManager != null ==> unchanged(tokenManager))
      ensures message.Some? && DecodeSchemaId(message.value).None? ==>
        && r == Ok(None) && unchanged(this)
        && (cache != null ==> unchanged(cache)) && (tokenManager != null ==> unchanged(tokenManager))
      ensures message.Some? && DecodeSchemaId(message.value).Some? &&
              !(cache != null && IsFresh(old(cache.entries), IdKey(DecodeSchemaId(message.value).value), now,
                                         cache.options.timeToLiveSeconds)) ==>
        Connects(now, tokenReply)
      ensures message.Some? && DecodeSchemaId(message.value).Some? ==>
        var id := DecodeSchemaId(message.value).value;
        var key := IdKey(id);
        var connection := old(Connection(now, tokenReply));
        if cache != null && IsFresh(old(cache.entries), key, now, cache.options.timeToLiveSeconds) then
          && r == Ok(SchemaText(old(cache.entries)[key].info)) && unchanged(this)
          && (tokenManager != null ==> unchanged(tokenManager))
          && cache.entries == old(cache.entries)[key := old(cache.entries)[key].(hits := old(cache.entries)[key].hits + 1)]
          && cache.hitCount == old(cache.hitCount) + 1 && cache.missCount == old(cache.missCount)
        else if connection.Fail? then
          && r == Fail(connection.error) && unchanged(this)
          && (cache != null ==>
                && cache.entries == old(cache.entries) - {key}
                && cache.hitCount == old(cache.hitCount) && cache.missCount == old(cache.missCount) + 1)
        else
          && backendCalls == old(backendCalls) + [FetchId(id)]
          && client.Some?
          && (reply.Fail? ==> r == Fail(reply.error))
          && (reply.Ok? ==> r == Ok(if reply.value.Some? then reply.value.value.text else None))
          && (cache != null ==> cache.hitCount == old(cache.hitCount) && cache.missCount == old(cache.missCount) + 1)
          && (cache != null && reply.Fail? ==> cache.entries == old(cache.entries) - {key})
          && (cache != null && reply.Ok? ==>
                && StoredId(old(cache.entries) - {key}, cache.options.maxSize, key, id, reply.value, now, cache.entries)
                && key in cache.entries
                && cache.entries[key].info == (if reply.value.Some? then Some(IdEntryInfo(id, reply.value.value)) else None))
    {
      if message.None? {
        return Fail(ArgumentNull);
      }
      var decoded := DecodeSchemaId(message.value);
      if decoded.None? {
        return Ok(None);
      }
      r := ResolveId(decoded.value, now, tokenReply, reply);
    }

    /** How a registration changes the client, the cache and the token
        manager: a blank topic or schema is rejected before anything else;
        otherwise it registers as `RegistersAs` says under the subject the
        naming options give. */
    twostate predicate Registers(topic: string, schemaText: string, schemaType: string, roleType: string,
                                 recordType: string, now: nat, tokenReply: RefreshReply, reply: Outcome<int>,
                                 new r: Outcome<int>)
      reads this, cache, tokenManager
    {
      if IsBlank(topic) || IsBlank(schemaText) then
        && r == Fail(Argument) && unchanged(this)
        && (cache != null ==> unchanged(cache)) && (tokenManager != null ==> unchanged(tokenManager))
      else
        RegistersAs(SubjectNameOf(naming, topic, roleType, recordType),
                    Schema(Some(schemaText), ParseSchemaType(schemaType)), now, tokenReply, reply, r)
    }

    /** A registration under a named subject: it ends with the exception
        `GetClientAsync` throws, or asks the registry once and returns its
        reply; a new id then replaces every cached entry of the subject with
        the registered record under its id key. */
    twostate predicate RegistersAs(subject: string, schema: Schema, now: nat, tokenReply: RefreshReply,
                                   reply: Outcome<int>, new r: Outcome<int>)
      reads this, cache, tokenManager
    {
      var connection := old(Connection(now, tokenReply));
      if connection.Fail? then
        && r == Fail(connection.error) && unchanged(this)
        && (cache != null ==> unchanged(cache))
      else
        && backendCalls == old(backendCalls) + [Register(subject, schema)]
        && client.Some? && r == reply
        && (cache != null ==> cache.hitCount == old(cache.hitCount) && cache.missCount == old(cache.missCount))
        && (cache != null && reply.Fail? ==> cache.entries == old(cache.entries))
        && (cache != null && reply.Ok? ==>
              var entry := Entry(Some(RegisteredInfo(subject, reply.value, schema)), now, 1);
              && IsRegisterResult(old(cache.entries), cache.options.maxSize, subject, reply.value, entry, cache.entries)
              && LatestKey(subject) !in cache.entries
              && (subject != "id" ==> IdKey(reply.value) in cache.entries && cache.entries[IdKey(reply.value)] == entry))
    }

    /** The registration once a connection is current: the proxy forwards it
        through the caching layer, which then updates the cache, when there is
        a cache, and straight to the registry otherwise. */
    method Forward(subject: string, schema: Schema, now: nat, reply: Outcome<int>) returns (r: Outcome<int>)
      requires Valid() && client.Some? && bound == client
      modifies this`backendCalls, cache, layer
      ensures Valid()
      ensures backendCalls == old(backendCalls) + [Register(subject, schema)] && r == reply
      ensures cache != null ==> cache.hitCount == old(cache.hitCount) && cache.missCount == old(cache.missCount)
      ensures cache != null && reply.Fail? ==> cache.entries == old(cache.entries)
      ensures cache != null && reply.Ok? ==>
        var entry := Entry(Some(RegisteredInfo(subject, reply.value, schema)), now, 1);
        && IsRegisterResult(old(cache.entries), cache.options.maxSize, subject, reply.value, entry, cache.entries)
        && LatestKey(subject) !in cache.entries
        && (subject != "id" ==> IdKey(reply.value) in cache.entries && cache.entries[IdKey(reply.value)] == entry)
    {
      if cache != null {
        r := layer.RegisterSchema(subject, schema, now, reply);
      } else {
        r := reply;
      }
      backendCalls := backendCalls + [Register(subject, schema)];
    }

    /** `RegisterSchemaAsync`: rejects a blank topic or schema before anything
        else, obtains a current connection, names the subject, parses the
        schema type and registers through the proxy: through the caching
        layer (which then updates the cache) when there is a cache, directly
        otherwise. */
    method RegisterSchema(topic: string, schemaText: string, schemaType: string, roleType: string, recordType: string,
                          now: nat, tokenReply: RefreshReply, reply: Outcome<int>) returns (r: Outcome<int>)
      requires Valid()
      modifies this, cache, tokenManager, layer
      ensures Valid() && disposed == old(disposed)
      ensures Registers(topic, schemaText, schemaType, roleType, recordType, now, tokenReply, reply, r)
      ensures !IsBlank(topic) && !IsBlank(schemaText) ==> Connects(now, tokenReply)
    {
      if IsBlank(topic) || IsBlank(schemaText) {
        return Fail(Argument);
      }
      var subject := SubjectNameOf(naming, topic, roleType, recordType);
      var schema := Schema(Some(schemaText), ParseSchemaType(schemaType));
      r := RegisterAs(subject, schema, now, tokenReply, reply);
    }

    /** The registration once the subject is named: obtain a current
        connection and register through the proxy. */
    method RegisterAs(subject: string, schema: Schema, now: nat, tokenReply: RefreshReply, reply: Outcome<int>)
      returns (r: Outcome<int>)
      requires Valid()
      modifies this, cache, tokenManager, layer
      ensures Valid() && disposed == old(disposed)
      ensures RegistersAs(subject, schema, now, tokenReply, reply, r)
      ensures Connects(now, tokenReply)
    {
      var connected := GetClient(now, tokenReply);
      if connected.Fail? {
        return Fail(connected.error);
      }
      label connected:
      r := Forward(subject, schema, now, reply);
      assert unchanged@connected(this`client, this`clientToken, this`uncached, this`bound, this`layer, this`connectionsBuilt,
                                 this`closed, this`disposed);
      assert tokenManager != null ==> unchanged@connected(tokenManager);
    }

    /** `RegisterValueSchemaAsync`: registers under the value role. */
    method RegisterValueSchema(topic: string, schemaText: string, schemaType: string, recordType: string,
                               now: nat, tokenReply: RefreshReply, reply: Outcome<int>) returns (r: Outcome<int>)
      requires Valid()
      modifies this, cache, tokenManager, layer
      ensures Valid() && disposed == old(disposed)
      ensures Registers(topic, schemaText, schemaType, "value", recordType, now, tokenReply, reply, r)
      ensures !IsBlank(topic) && !IsBlank(schemaText) ==> Connects(now, tokenReply)
    {
      r := RegisterSchema(topic, schemaText, schemaType, "value", recordType, now, tokenReply, reply);
    }

    /** `RegisterKeySchemaAsync`: registers under the key role. */
    method RegisterKeySchema(topic: string, schemaText: string, schemaType: string, recordType: string,
                             now: nat, tokenReply: RefreshReply, reply: Outcome<int>) returns (r: Outcome<int>)
      requires Valid()
      modifies this, cache, tokenManager, layer
      ensures Valid() && disposed == old(disposed)
      ensures Registers(topic, schemaText, schemaType, "key", recordType, now, tokenReply, reply, r)
      ensures !IsBlank(topic) && !IsBlank(schemaText) ==> Connects(now, tokenReply)
    {
      r := RegisterSchema(topic, schemaText, schemaType, "key", recordType, now, tokenReply, reply);
    }

    /** `Dispose`: closes the current connection and disposes the token
        manager, once; later calls do nothing. */
    method Dispose()
      requires Valid()
      modifies this, tokenManager
      ensures Valid() && disposed
      ensures old(disposed) ==> unchanged(this) && (tokenManager != null ==> unchanged(tokenManager))
      ensures !old(disposed) ==>
        && client.None? && closed == old(closed) + Closed(old(client))
        && clientToken == old(clientToken) && bound == old(bound) && uncached == old(uncached) && layer == old(layer)
        && connectionsBuilt == old(connectionsBuilt) && backendCalls == old(backendCalls)
        && (tokenManager != null ==> tokenManager.disposed)
      ensures tokenManager != null ==>
        && tokenManager.accessToken == old(tokenManager.accessToken) && tokenManager.expiresAt == old(tokenManager.expiresAt)
        && tokenManager.callbackCalls == old(tokenManager.callbackCalls) && tokenManager.refreshes == old(tokenManager.refreshes)
    {
      if disposed {
        return;
      }
      disposed := true;
      closed := closed + Closed(client);
      client := None;
      if tokenManager != null {
        tokenManager.Dispose();
      }
    }
  }
}
