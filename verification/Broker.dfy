/**
 * MCPBroker (server/services/MCPBroker.ts): a registry of database
 * connections in an insertion-ordered map, tied to one schema snapshot
 * service and one query cache. Queries go to the cache first and to the
 * mock connector on a miss; schemas come from the newest snapshot, or are
 * captured fresh from a connected database; disconnecting invalidates the
 * database's cached queries. The asynchronous connect, query, schema,
 * disconnect and natural-language operations answer with a
 * `{success, data, error, executionTime}` envelope; the connection
 * lookups, the statistics and destroy return plain values.
 *
 * The clock is the `now` parameter, its local calendar fields are `local`
 * (for snapshot versions), and the measured `Date.now() - startTime` of an
 * operation is the `elapsed` parameter.
 */
module Broker {
  import opened Wrappers
  import opened JsText
  import opened JsMaps
  import opened Sorting
  import opened JsonValues
  import opened DatabaseTypes
  import opened SchemaSnapshots
  import opened QueryCaching
  import opened MockConnector
  import Claude

  // ----- masking the password of a connection string -----

  /** The case-insensitive regular expression `password=[^;]+` matches at `i`. */
  predicate PasswordAt(s: string, i: int) {
    0 <= i && i + 10 <= |s| && ToLower(s[i..i + 9]) == "password=" && s[i + 9] != ';'
  }

  /** Where the regular-expression search starting at `from` finds its leftmost match. */
  function FirstPassword(s: string, from: nat): (r: Option<nat>)
    decreases |s| - from
    ensures r.Some? ==> from <= r.value && PasswordAt(s, r.value)
    ensures r.Some? ==> forall k :: from <= k < r.value ==> !PasswordAt(s, k)
    ensures r.None? ==> forall k :: from <= k ==> !PasswordAt(s, k)
  {
    if from + 10 > |s| then None
    else if PasswordAt(s, from) then Some(from)
    else FirstPassword(s, from + 1)
  }

  /** Where the greedy `[^;]+` run starting at `from` stops: at the next `;`, or at the end. */
  function SecretEnd(s: string, from: nat): (e: nat)
    requires from <= |s|
    decreases |s| - from
    ensures from <= e <= |s|
    ensures e == |s| || s[e] == ';'
    ensures forall k :: from <= k < e ==> s[k] != ';'
  {
    if from == |s| || s[from] == ';' then from else SecretEnd(s, from + 1)
  }

  /**
   * `s.replace(/password=[^;]+/i, 'password=***')`: only the leftmost
   * match is replaced; the text before it and from the `;` that ends it
   * on is kept.
   */
  function MaskPassword(s: string): (r: string)
    ensures FirstPassword(s, 0).None? ==> r == s
    ensures FirstPassword(s, 0).Some? ==>
              var i := FirstPassword(s, 0).value;
              var e := SecretEnd(s, i + 9);
              i + 9 < e && r == s[..i] + "password=***" + s[e..]
  {
    match FirstPassword(s, 0)
    case None => s
    case Some(i) => s[..i] + "password=***" + s[SecretEnd(s, i + 9)..]
  }

  /** The connection string kept in a connection's metadata: masked, and `mock://connection` when empty. */
  function StoredConnectionString(connectionString: string): (r: string)
    ensures r != ""
    ensures connectionString == "" ==> r == "mock://connection"
    ensures connectionString != "" ==> r == MaskPassword(connectionString)
  {
    var masked := MaskPassword(connectionString);
    if masked == "" then "mock://connection" else masked
  }

  /** Lower-casing changes no character of `password=`. */
  lemma MaskLowerCase(s: string, i: nat, k: nat)
    requires PasswordAt(s, i) && i <= k < i + 9
    ensures LowerChar(s[k]) == "password="[k - i] && LowerChar("password="[k - i]) == "password="[k - i]
  {
    assert ToLower(s[i..i + 9])[k - i] == LowerChar(s[k]);
  }

  /** Before the replaced text, the masked string matches exactly where the original does. */
  lemma MaskedMatchesBefore(s: string, i: nat, e: nat, k: nat)
    requires PasswordAt(s, i) && i + 9 < e <= |s| && k < i
    ensures PasswordAt(s[..i] + "password=***" + s[e..], k) == PasswordAt(s, k)
  {
    var r := s[..i] + "password=***" + s[e..];
    forall p | k <= p < k + 9
      ensures LowerChar(r[p]) == LowerChar(s[p])
    {
      if p >= i {
        MaskLowerCase(s, i, p);
      }
    }
    assert ToLower(r[k..k + 9]) == ToLower(s[k..k + 9]);
    if k + 9 >= i {
      MaskLowerCase(s, i, k + 9);
      assert LowerChar(s[k + 9]) != ';';
    }
  }

  /** Masking a masked string changes nothing: the stored `password=***` matches again and is replaced by itself. */
  lemma MaskIdempotent(s: string)
    ensures MaskPassword(MaskPassword(s)) == MaskPassword(s)
  {
    var r := MaskPassword(s);
    if FirstPassword(s, 0).Some? {
      var i := FirstPassword(s, 0).value;
      var e := SecretEnd(s, i + 9);
      assert r[..i] == s[..i] && r[i..i + 12] == "password=***";
      assert r[i + 12..] == s[e..];
      forall k | 0 <= k < i
        ensures !PasswordAt(r, k)
      {
        MaskedMatchesBefore(s, i, e, k);
      }
      assert r[i..i + 9] == "password=";
      assert PasswordAt(r, i);
      assert FirstPassword(r, 0) == Some(i);
      assert SecretEnd(r, i + 12) == i + 12;
      assert SecretEnd(r, i + 9) == i + 12;
      assert r == r[..i] + "password=***" + r[i + 12..];
    }
  }

  // ----- connections and responses -----

  /** An open connection; its metadata holds the database name and the masked connection string. */
  datatype Connection = Connection(
    id: string,
    databaseId: int,
    dbType: string,
    status: string,
    lastActivity: int,
    name: string,
    connectionString: string)

  function ConnectionKey(c: Connection): string { c.id }

  function OfDatabase(databaseId: int): Connection -> bool {
    (c: Connection) => c.databaseId == databaseId
  }

  /** The `data` an operation answers with. */
  datatype Payload =
    | Connected(connectionId: string, status: string, message: string)
    | Rows(result: QueryResult)
    | Schema(schema: SchemaInfo)
    | Answer(response: Claude.QueryResponse)
    | Note(message: string)

  /** `MCPResponse`: the envelope every operation answers with. */
  datatype Response = Response(success: bool, data: Option<Payload>, error: Option<string>, executionTime: int)

  function Succeeded(data: Payload, elapsed: int): Response {
    Response(true, Some(data), None, elapsed)
  }

  /** A connection id is the database type and id joined by a dash. */
  function ConnectionId(config: DatabaseConfig): string {
    config.dbType + "-" + IntToString(config.id)
  }

  /** `updateConnectionActivity`: the connection under `id`, if any, gets `now` as its last activity; nothing else changes. */
  function Touched(m: JsMap<string, Connection>, id: string, now: int): (r: JsMap<string, Connection>)
    requires m.Valid()
    ensures r.Valid() && r.keys == m.keys && r.items.Keys == m.items.Keys
    ensures forall k :: k in m.items && k != id ==> r.items[k] == m.items[k]
    ensures id in m.items ==> r.items[id] == m.items[id].(lastActivity := now)
  {
    if id in m.items then m.Set(id, m.items[id].(lastActivity := now)) else m
  }

  /**
   * What a query that misses the cache is answered with: the mock
   * connector's rows, with the measured time as its execution time.
   */
  function MockAnswer(query: string, parameters: string, mockTime: real, elapsed: int): (r: QueryResult)
    ensures r.rows == MockRows(query) && r.rowCount == |r.rows|
    ensures r.query == query && r.parameters == Some(parameters) && r.executionTime == Some(elapsed as real)
  {
    ExecuteMockQuery(query, parameters, mockTime).(executionTime := Some(elapsed as real))
  }

  /** The cache answers `key` at `now`: an entry is stored under it and has not expired. */
  predicate Hit(cache: JsMap<string, CacheEntry>, key: string, now: int) {
    key in cache.items && !Expired(cache.items[key], now)
  }

  /** The figures getServiceStats reports; the process uptime is left out. */
  datatype ServiceStats = ServiceStats(connections: nat, cache: CacheStats, schema: SnapshotStats)

  /** The schema of the newest snapshot of a non-empty history is that of a stored snapshot no other one postdates. */
  lemma NewestSnapshot(service: SchemaSnapshotService, databaseId: int)
    requires service.StoredHistory(databaseId) != []
    ensures |service.GetSnapshotHistory(databaseId, 1)| == 1
    ensures var newest := service.GetSnapshotHistory(databaseId, 1)[0];
            newest in service.StoredHistory(databaseId)
            && forall s :: s in service.StoredHistory(databaseId) ==> s.timestamp <= newest.timestamp
  {
    var h := service.StoredHistory(databaseId);
    var sorted := SortDesc(h, SnapshotTime);
    SortDescMembers(h, SnapshotTime);
    assert service.GetSnapshotHistory(databaseId, 1) == Take(sorted, 1);
    assert Take(sorted, 1)[0] == sorted[0];
    forall s | s in h
      ensures SnapshotTime(s) <= SnapshotTime(sorted[0])
    {
      var j :| 0 <= j < |sorted| && sorted[j] == s;
      if j > 0 {
        assert SnapshotTime(sorted[0]) >= SnapshotTime(sorted[j]);
      }
    }
  }

  class MCPBroker {
    var connections: JsMap<string, Connection>
    const schemaService: SchemaSnapshotService
    const queryCache: QueryCache

    /**
     * Every stored connection is filed under its own id and is connected;
     * the broker is not one of its own services.
     */
    ghost predicate Registered()
      reads this
    {
      && this as object != queryCache as object && this as object != schemaService as object
      && connections.Valid()
      && forall k :: k in connections.items ==> connections.items[k].id == k && connections.items[k].status == "connected"
    }

    /** The registry and the cache are well formed (the snapshot service's own invariant is stated where it is used). */
    ghost predicate Valid()
      reads this, queryCache
    {
      Registered() && queryCache.Valid()
    }

    constructor()
      ensures Valid() && schemaService.Valid() && fresh(schemaService) && fresh(queryCache)
      ensures connections == Empty()
      ensures schemaService.snapshots == Empty() && schemaService.lastSnapshot == map[]
      ensures queryCache.cache == Empty() && queryCache.totalQueries == 0
    {
      connections := Empty();
      schemaService := new SchemaSnapshotService();
      queryCache := new QueryCache(None, None);
    }

    /** findConnection as a value: the first connection, in insertion order, of that database. */
    function FirstConnection(databaseId: int): (r: Option<Connection>)
      requires Registered()
      reads this
      ensures r.None? <==> forall k :: k in connections.items ==> connections.items[k].databaseId != databaseId
      ensures r.Some? ==> r.value.databaseId == databaseId && r.value.id in connections.items
                          && connections.items[r.value.id] == r.value
      ensures r.Some? ==> forall i :: 0 <= i < |connections.keys| && connections.keys[i] == r.value.id ==>
                            forall j :: 0 <= j < i ==> connections.items[connections.keys[j]].databaseId != databaseId
    {
      FoundFirst(connections, ConnectionKey, OfDatabase(databaseId));
      Find(connections.Values(), OfDatabase(databaseId))
    }

    /** getConnectionId as a value: the id of the first connection of that database, or `unknown-<id>`. */
    function ConnectionIdOf(databaseId: int): (id: string)
      requires Registered()
      reads this
      ensures FirstConnection(databaseId).Some? ==> id == FirstConnection(databaseId).value.id && id in connections.items
      ensures FirstConnection(databaseId).None? ==> id == "unknown-" + IntToString(databaseId)
    {
      match FirstConnection(databaseId)
      case Some(c) => c.id
      case None => "unknown-" + IntToString(databaseId)
    }

    /** findConnection: walks the connections in insertion order and stops at the first of that database. */
    method FindConnection(databaseId: int) returns (r: Option<Connection>)
      requires Registered()
      ensures r == FirstConnection(databaseId)
    {
      var values := connections.Values();
      var i := 0;
      while i < |values|
        invariant 0 <= i <= |values|
        invariant forall j :: 0 <= j < i ==> values[j].databaseId != databaseId
      {
        if values[i].databaseId == databaseId {
          return Some(values[i]);
        }
        i := i + 1;
      }
      return None;
    }

    /** getConnectionStatus: the first connection of that database, if any. */
    method GetConnectionStatus(databaseId: int) returns (r: Option<Connection>)
      requires Registered()
      ensures r == FirstConnection(databaseId)
    {
      r := FindConnection(databaseId);
    }

    /** getConnectionId. */
    method GetConnectionId(databaseId: int) returns (id: string)
      requires Registered()
      ensures id == ConnectionIdOf(databaseId)
    {
      var connection := FindConnection(databaseId);
      id := if connection.Some? then connection.value.id else "unknown-" + IntToString(databaseId);
    }

    /** getAllConnections: every stored connection once, in insertion order. */
    function GetAllConnections(): (r: seq<Connection>)
      requires Registered()
      reads this
      ensures |r| == connections.Size()
      ensures forall c :: c in r <==> c.id in connections.items && connections.items[c.id] == c
    {
      ValuesAreListed(connections);
      connections.Values()
    }

    /** updateConnectionActivity. */
    method UpdateConnectionActivity(connectionId: string, now: int)
      requires Registered()
      modifies this
      ensures Registered()
      ensures connections == Touched(old(connections), connectionId, now)
    {
      var connection := connections.Get(connectionId);
      if connection.Some? {
        connections := connections.Set(connectionId, connection.value.(lastActivity := now));
      }
    }

    /**
     * connectDatabase: files a connected connection under `<type>-<id>`
     * (replacing one already there), then captures the mock schema of the
     * type as a snapshot of the database. The cache is not touched.
     */
    method ConnectDatabase(config: DatabaseConfig, now: int, local: LocalTime, elapsed: int) returns (r: Response)
      requires Registered() && schemaService.Valid()
      modifies this, schemaService
      ensures Registered() && schemaService.Valid()
      ensures r == Succeeded(Connected(ConnectionId(config), "connected", "Successfully connected to " + config.name), elapsed)
      ensures connections == old(connections).Set(ConnectionId(config),
                Connection(ConnectionId(config), config.id, config.dbType, "connected", now, config.name,
                           StoredConnectionString(config.connectionString)))
      ensures var h := schemaService.StoredHistory(config.id);
              && |h| == (if |old(schemaService.StoredHistory(config.id))| < MaxHistory then |old(schemaService.StoredHistory(config.id))| + 1 else MaxHistory)
              && h[|h| - 1].schema == MockSchema(config.dbType) && h[|h| - 1].timestamp == now
      ensures forall d :: d != config.id ==> schemaService.StoredHistory(d) == old(schemaService.StoredHistory(d))
      ensures var snap := Captured(config.id, MockSchema(config.dbType), now, local);
              && schemaService.snapshots == old(schemaService.snapshots).Set(HistoryKey(config.id),
                                              AppendCapped(old(schemaService.StoredHistory(config.id)), snap))
              && schemaService.lastSnapshot == old(schemaService.lastSnapshot)[config.id := snap]
    {
      var connectionId := ConnectionId(config);
      var connection := Connection(connectionId, config.id, config.dbType, "connected", now, config.name,
                                   StoredConnectionString(config.connectionString));
      connections := connections.Set(connectionId, connection);
      var mockSchema := MockSchema(config.dbType);
      ghost var before := schemaService.StoredHistory(config.id);
      var snapshot := schemaService.CaptureSnapshot(config.id, mockSchema, now, local);
      HistoryStored(old(schemaService.snapshots), config.id, AppendCapped(before, snapshot));
      r := Succeeded(Connected(connectionId, "connected", "Successfully connected to " + config.name), elapsed);
    }

    /**
     * executeQuery: a cached, unexpired result is answered as it is and
     * nothing runs; otherwise the mock connector runs the query, its
     * result is cached and the connection's activity is stamped. The
     * cache stores a copy, so the entry keeps the simulated execution time
     * while the answer carries the measured one.
     */
    method ExecuteQuery(databaseId: int, query: string, parameters: string, now: int, mockTime: real, elapsed: int)
      returns (r: Response)
      requires Valid()
      modifies this, queryCache
      ensures Valid()
      ensures Hit(old(queryCache.cache), CacheKey(query, parameters, databaseId), now) ==>
                && r == Succeeded(Rows(old(queryCache.cache.items[CacheKey(query, parameters, databaseId)]).result), elapsed)
                && GetOutcome(old(queryCache.cache), old(queryCache.hits), old(queryCache.misses), CacheKey(query, parameters, databaseId),
                              now, Some(r.data.value.result), queryCache.cache, queryCache.hits, queryCache.misses)
      ensures !Hit(old(queryCache.cache), CacheKey(query, parameters, databaseId), now) ==>
                && r == Succeeded(Rows(MockAnswer(query, parameters, mockTime, elapsed)), elapsed)
                && queryCache.hits == old(queryCache.hits) && queryCache.misses == old(queryCache.misses) + 1
                && CacheKey(query, parameters, databaseId) in queryCache.cache.items
                && queryCache.cache.items[CacheKey(query, parameters, databaseId)].result == ExecuteMockQuery(query, parameters, mockTime)
                && var key := CacheKey(query, parameters, databaseId);
                   var left := if key in old(queryCache.cache.items) then old(queryCache.cache).Delete(key) else old(queryCache.cache);
                   queryCache.cache == Inserted(left, old(queryCache.maxCacheSize), key,
                                                NewEntry(key, query, ExecuteMockQuery(query, parameters, mockTime), databaseId,
                                                         parameters, None, old(queryCache.defaultTTL), now))
      ensures queryCache.maxCacheSize == old(queryCache.maxCacheSize) && queryCache.defaultTTL == old(queryCache.defaultTTL)
      ensures connections == if Hit(old(queryCache.cache), CacheKey(query, parameters, databaseId), now) then old(connections)
                             else Touched(old(connections), old(ConnectionIdOf(databaseId)), now)
    {
      ghost var key := CacheKey(query, parameters, databaseId);
      var connectionId := GetConnectionId(databaseId);
      var cachedResult := queryCache.Get(query, parameters, databaseId, now);
      if cachedResult.Some? {
        assert Hit(old(queryCache.cache), key, now);
        return Succeeded(Rows(cachedResult.value), elapsed);
      }
      assert !Hit(old(queryCache.cache), key, now);
      var result := ExecuteMockQuery(query, parameters, mockTime);
      r := CacheAndAnswer(databaseId, query, parameters, connectionId, result, now, elapsed);
    }

    /**
     * The miss path of executeQuery once the mock result is in hand: cache
     * (a copy of) it, stamp the connection's activity, answer it with the
     * measured execution time.
     */
    method CacheAndAnswer(databaseId: int, query: string, parameters: string, connectionId: string, result: QueryResult,
                          now: int, elapsed: int)
      returns (r: Response)
      requires Valid()
      modifies this, queryCache
      ensures Valid()
      ensures r == Succeeded(Rows(result.(executionTime := Some(elapsed as real))), elapsed)
      ensures queryCache.hits == old(queryCache.hits) && queryCache.misses == old(queryCache.misses)
      ensures CacheKey(query, parameters, databaseId) in queryCache.cache.items
              && queryCache.cache.items[CacheKey(query, parameters, databaseId)].result == result
      ensures queryCache.maxCacheSize == old(queryCache.maxCacheSize) && queryCache.defaultTTL == old(queryCache.defaultTTL)
      ensures var key := CacheKey(query, parameters, databaseId);
              queryCache.cache == Inserted(old(queryCache.cache), queryCache.maxCacheSize, key,
                                           NewEntry(key, query, result, databaseId, parameters, None, queryCache.defaultTTL, now))
      ensures connections == Touched(old(connections), connectionId, now)
    {
      queryCache.Set(query, result, databaseId, parameters, None, now);
      UpdateConnectionActivity(connectionId, now);
      r := Succeeded(Rows(result.(executionTime := Some(elapsed as real))), elapsed);
    }

    /**
     * getSchema: the schema of the newest snapshot when the database has a
     * history; otherwise the mock schema of its first connection, captured
     * as its one snapshot; with neither, the not-connected error.
     */
    method GetSchema(databaseId: int, now: int, local: LocalTime, elapsed: int) returns (r: Response)
      requires Registered() && schemaService.Valid()
      modifies schemaService
      ensures schemaService.Valid()
      ensures old(schemaService.StoredHistory(databaseId)) != [] ==>
                && r == Succeeded(Schema(old(schemaService.GetSnapshotHistory(databaseId, 1))[0].schema), elapsed)
                && schemaService.snapshots == SortedIn(old(schemaService.snapshots), databaseId)
                && schemaService.lastSnapshot == old(schemaService.lastSnapshot)
      ensures old(schemaService.StoredHistory(databaseId)) == [] && old(FirstConnection(databaseId)).None? ==>
                && r == Response(false, None, Some("Schema retrieval failed: Database not connected"), elapsed)
                && schemaService.snapshots == SortedIn(old(schemaService.snapshots), databaseId)
                && schemaService.lastSnapshot == old(schemaService.lastSnapshot)
      ensures old(schemaService.StoredHistory(databaseId)) == [] && old(FirstConnection(databaseId)).Some? ==>
                var schema := MockSchema(old(FirstConnection(databaseId)).value.dbType);
                var snap := Captured(databaseId, schema, now, local);
                && r == Succeeded(Schema(schema), elapsed)
                && schemaService.snapshots == old(schemaService.snapshots).Set(HistoryKey(databaseId), [snap])
                && schemaService.lastSnapshot == old(schemaService.lastSnapshot)[databaseId := snap]
      ensures forall d :: d != databaseId ==> schemaService.StoredHistory(d) == old(schemaService.StoredHistory(d))
    {
      SortedInHistories(schemaService.snapshots, databaseId);
      var snapshots := schemaService.GetSnapshotHistorySortingStored(databaseId, 1);
      if |snapshots| > 0 {
        return Succeeded(Schema(snapshots[0].schema), elapsed);
      }
      var connection := FindConnection(databaseId);
      if connection.None? {
        return Response(false, None, Some("Schema retrieval failed: Database not connected"), elapsed);
      }
      var schema := MockSchema(connection.value.dbType);
      ghost var before := schemaService.StoredHistory(databaseId);
      var snapshot := schemaService.CaptureSnapshot(databaseId, schema, now, local);
      assert AppendCapped(before, snapshot) == [snapshot];
      SortedInThenSet(old(schemaService.snapshots), databaseId, [snapshot]);
      HistoryStored(old(schemaService.snapshots), databaseId, [snapshot]);
      r := Succeeded(Schema(schema), elapsed);
    }

    /**
     * disconnectDatabase: the connection getConnectionId names, when it is
     * stored, is removed and the database's cached queries are
     * invalidated (all of them for database 0, which invalidate reads as
     * no criterion); the answer is a success either way.
     */
    method DisconnectDatabase(databaseId: int, elapsed: int) returns (r: Response)
      requires Valid()
      modifies this, queryCache
      ensures Valid()
      ensures r == Succeeded(Note("Database disconnected successfully"), elapsed)
      ensures queryCache.hits == old(queryCache.hits) && queryCache.misses == old(queryCache.misses)
      ensures queryCache.maxCacheSize == old(queryCache.maxCacheSize) && queryCache.defaultTTL == old(queryCache.defaultTTL)
      ensures var id := old(ConnectionIdOf(databaseId));
              && (id !in old(connections.items) ==> connections == old(connections) && queryCache.cache == old(queryCache.cache))
              && (id in old(connections.items) ==>
                    && connections == old(connections).Delete(id)
                    && queryCache.cache == (if databaseId == 0 then Empty()
                                            else old(queryCache.cache).DeleteAll(KeysWhere(old(queryCache.cache), InvalidateMatch(None, Some(databaseId))))))
      ensures old(FirstConnection(databaseId)).Some? ==>
                forall k :: k in queryCache.cache.items ==> queryCache.cache.items[k].databaseId != databaseId
    {
      var connectionId := GetConnectionId(databaseId);
      var connection := connections.Get(connectionId);
      if connection.Some? {
        connections := connections.Delete(connectionId);
        var removed := queryCache.Invalidate(None, Some(databaseId));
        if databaseId != 0 {
          InvalidatedGone(old(queryCache.cache), databaseId);
        }
      }
      r := Succeeded(Note("Database disconnected successfully"), elapsed);
    }

    /**
     * processNaturalLanguageQuery: the request goes to the language-model
     * helper with the schemas of its databases; that helper answers every
     * failure with an envelope of its own, so the broker always succeeds.
     * Reading each history through getSnapshotHistory leaves it sorted.
     */
    method ProcessNaturalLanguageQuery(request: Claude.QueryRequest, apiKey: Option<string>, envKey: Option<string>,
                                       api: Claude.ApiRequest -> Result<Claude.Content>, parse: string -> Option<Json>,
                                       stringify: seq<SchemaInfo> -> string, elapsed: int)
      returns (r: Response)
      requires schemaService.Valid()
      modifies schemaService
      ensures schemaService.Valid() && schemaService.lastSnapshot == old(schemaService.lastSnapshot)
      ensures schemaService.snapshots == SortedAll(old(schemaService.snapshots), request.databaseIds)
      ensures r == Succeeded(Answer(Claude.ProcessNaturalLanguageQuery(
                    request.(schema := Some(SchemaContext(old(schemaService.snapshots), request.databaseIds))),
                    apiKey, envKey, api, parse, stringify)), elapsed)
    {
      var schemas := CollectSchemas(request.databaseIds);
      var response := Claude.ProcessNaturalLanguageQuery(request.(schema := Some(schemas)), apiKey, envKey, api, parse, stringify);
      r := Succeeded(Answer(response), elapsed);
    }

    /** The loop of processNaturalLanguageQuery that gathers the newest schema of each listed database. */
    method CollectSchemas(databaseIds: seq<int>) returns (schemas: seq<SchemaInfo>)
      requires schemaService.Valid()
      modifies schemaService
      ensures schemaService.Valid() && schemaService.lastSnapshot == old(schemaService.lastSnapshot)
      ensures schemaService.snapshots == SortedAll(old(schemaService.snapshots), databaseIds)
      ensures schemas == SchemaContext(old(schemaService.snapshots), databaseIds)
    {
      ghost var m0 := schemaService.snapshots;
      schemas := [];
      for i := 0 to |databaseIds|
        invariant schemaService.Valid() && schemaService.lastSnapshot == old(schemaService.lastSnapshot)
        invariant schemaService.snapshots == SortedAll(m0, databaseIds[..i])
        invariant schemas == SchemaContext(m0, databaseIds[..i])
      {
        SchemaContextStep(m0, databaseIds, i);
        var snapshots := schemaService.GetSnapshotHistorySortingStored(databaseIds[i], 1);
        if |snapshots| > 0 {
          schemas := schemas + [snapshots[0].schema];
        }
      }
      assert databaseIds[..|databaseIds|] == databaseIds;
    }

    /** getServiceStats: the number of connections and the two services' own figures. */
    method GetServiceStats() returns (stats: ServiceStats)
      requires Valid() && schemaService.Valid()
      ensures stats.connections == connections.Size()
      ensures stats.cache.totalEntries == queryCache.cache.Size() && stats.cache.hitRate == HitRate(queryCache.hits, queryCache.totalQueries)
      ensures stats.cache.totalHits == queryCache.hits && stats.cache.totalMisses == queryCache.misses
      ensures var (t, n) := TimedTotals(queryCache.cache.Values());
              stats.cache.averageQueryTime == if n > 0 then t / n as real else 0.0
      ensures stats.schema.totalSnapshots == |Flatten(schemaService.snapshots.Values())|
      ensures stats.schema.databaseCount == schemaService.snapshots.Size()
      ensures stats.schema.oldestSnapshot == MinTime(Flatten(schemaService.snapshots.Values()))
      ensures stats.schema.newestSnapshot == MaxTime(Flatten(schemaService.snapshots.Values()))
    {
      var cache := queryCache.GetStats();
      var schema := schemaService.GetStats();
      stats := ServiceStats(connections.Size(), cache, schema);
    }

    /**
     * destroy: disconnects the connections in insertion order (each
     * disconnect removes the entry being visited, which is the first of its
     * database) and then empties the cache. Histories stay.
     */
    method Destroy(elapsed: int)
      requires Valid()
      modifies this, queryCache
      ensures Valid()
      ensures connections.Size() == 0 && queryCache.cache == Empty()
      ensures queryCache.hits == old(queryCache.hits) && queryCache.misses == old(queryCache.misses)
      ensures queryCache.maxCacheSize == old(queryCache.maxCacheSize) && queryCache.defaultTTL == old(queryCache.defaultTTL)
    {
      while connections.Size() > 0
        invariant Valid()
        invariant queryCache.hits == old(queryCache.hits) && queryCache.misses == old(queryCache.misses)
        invariant queryCache.maxCacheSize == old(queryCache.maxCacheSize) && queryCache.defaultTTL == old(queryCache.defaultTTL)
        decreases connections.Size()
      {
        var first := connections.items[connections.keys[0]];
        assert connections.Values()[0] == first;
        assert ConnectionIdOf(first.databaseId) == connections.keys[0];
        var r := DisconnectDatabase(first.databaseId, elapsed);
      }
      queryCache.Destroy();
    }
  }

  /** The schemas processNaturalLanguageQuery hands on: the newest of each listed database with a history, in order. */
  function SchemaContext(m: JsMap<string, seq<SchemaSnapshot>>, databaseIds: seq<int>): (r: seq<SchemaInfo>)
    ensures |r| <= |databaseIds|
  {
    if databaseIds == [] then []
    else
      var newest := Take(SortDesc(History(m, databaseIds[|databaseIds| - 1]), SnapshotTime), 1);
      SchemaContext(m, databaseIds[..|databaseIds| - 1]) + (if |newest| > 0 then [newest[0].schema] else [])
  }

  /**
   * One more database in the loop of processNaturalLanguageQuery: the store
   * sorted so far reads its newest snapshot as the original store does.
   */
  lemma SchemaContextStep(m0: JsMap<string, seq<SchemaSnapshot>>, databaseIds: seq<int>, i: nat)
    requires m0.Valid() && i < |databaseIds|
    ensures var newest := Take(SortDesc(History(SortedAll(m0, databaseIds[..i]), databaseIds[i]), SnapshotTime), 1);
            SchemaContext(m0, databaseIds[..i + 1])
              == SchemaContext(m0, databaseIds[..i]) + (if |newest| > 0 then [newest[0].schema] else [])
    ensures SortedAll(m0, databaseIds[..i + 1]) == SortedIn(SortedAll(m0, databaseIds[..i]), databaseIds[i])
  {
    SortedAllHistories(m0, databaseIds[..i]);
    assert databaseIds[..i + 1][..i] == databaseIds[..i];
  }

  /** One schema per listed database when all of them have a history; none when none has. */
  lemma {:induction false} SchemaContextCount(m: JsMap<string, seq<SchemaSnapshot>>, databaseIds: seq<int>)
    ensures (forall i :: 0 <= i < |databaseIds| ==> History(m, databaseIds[i]) != []) ==>
              |SchemaContext(m, databaseIds)| == |databaseIds|
    ensures (forall i :: 0 <= i < |databaseIds| ==> History(m, databaseIds[i]) == []) ==>
              SchemaContext(m, databaseIds) == []
  {
    if databaseIds != [] {
      var front := databaseIds[..|databaseIds| - 1];
      var last := databaseIds[|databaseIds| - 1];
      SchemaContextCount(m, front);
      assert forall i :: 0 <= i < |front| ==> front[i] == databaseIds[i];
      SortDescMembers(History(m, last), SnapshotTime);
    }
  }

  /** After invalidating a database's entries, none of its entries is left. */
  lemma InvalidatedGone(m: JsMap<string, CacheEntry>, databaseId: int)
    requires m.Valid() && databaseId != 0
    ensures forall k :: k in m.DeleteAll(KeysWhere(m, InvalidateMatch(None, Some(databaseId)))).items ==>
              m.items[k].databaseId != databaseId
  {
  }

  /** Every value listed by a map is the entry filed under its own key. */
  lemma ValuesAreListed(m: JsMap<string, Connection>)
    requires m.Valid() && forall k :: k in m.items ==> m.items[k].id == k
    ensures forall c :: c in m.Values() <==> c.id in m.items && m.items[c.id] == c
  {
    var vs := m.Values();
    forall c
      ensures c in vs <==> c.id in m.items && m.items[c.id] == c
    {
      if c in vs {
        var i :| 0 <= i < |vs| && vs[i] == c;
        assert m.keys[i] in m.items;
      }
      if c.id in m.items && m.items[c.id] == c {
        var i :| 0 <= i < |m.keys| && m.keys[i] == c.id;
        assert vs[i] == c;
      }
    }
  }

  /** Storing one database's history sets that history and leaves every other database's history as it was. */
  lemma HistoryStored(m: JsMap<string, seq<SchemaSnapshot>>, databaseId: int, h: seq<SchemaSnapshot>)
    requires m.Valid()
    ensures m.Set(HistoryKey(databaseId), h).Get(HistoryKey(databaseId)).GetOr([]) == h
    ensures forall d :: d != databaseId ==>
              m.Set(HistoryKey(databaseId), h).Get(HistoryKey(d)).GetOr([]) == m.Get(HistoryKey(d)).GetOr([])
  {
    forall d | d != databaseId
      ensures HistoryKey(d) != HistoryKey(databaseId)
    {
      if HistoryKey(d) == HistoryKey(databaseId) {
        HistoryKeyInjective(d, databaseId);
      }
    }
  }
}
