# PromptELT server core, modelled in Dafny

This project models the server-side core of PromptELT, a natural-language ETL assistant. Five parts are modelled:

- **The query-result cache** (`QueryCache`). An insertion-ordered map from a cache key to an entry. The key is built from the database id, the normalised query text and the parameters. Entries expire lazily by time to live. When the cache is full, it evicts the least recently accessed entry. Invalidation goes by database id or by query text. There is a sweep for expired entries, and hit and miss counters.
- **The schema snapshot service** (`SchemaSnapshotService`). A history of at most 50 snapshots per database, plus a separate last-snapshot map. It also has the schema diff engine, which compares table by table and then column by column, and the 32-bit rolling checksum.
- **The broker** (`MCPBroker`). A registry of connections over the cache and the snapshot service. It runs queries cache first and then through the mock connector. It looks schemas up, falling back to a capture. Disconnecting invalidates the cache. The asynchronous connect, query, schema, disconnect and natural-language operations answer with a `{success, data, error, executionTime}` envelope. The connection lookups, the statistics and `destroy` return plain values.
- **The in-memory store** (`MemStorage`). Six maps of records share one id counter. The store is seeded with fixed demo data. It has create, update, get and filtered-query operations.
- **The text logic around the language-model call** (`ClaudeService`):
  - the choice of user prompt;
  - assembly of the system prompt;
  - extraction of the JSON reply from the first `{` to the last `}`;
  - default and fallback values when the reply is parsed;
  - the numbered-step extractor.

The service objects, whose fields the source updates in place, are Dafny classes. `QueryCaching.QueryCache`, `SchemaSnapshots.SchemaSnapshotService`, `Broker.MCPBroker` and `Storage.MemStorage` have `modifies` clauses on their methods.

A JavaScript `Map` is the value type `JsMaps.JsMap`. It holds a sequence of keys in insertion order next to a Dafny `map`, because several operations depend on iteration order:

- ties in LRU eviction;
- the first connection found for a database;
- the last snapshot found by id;
- the order of records that a getter returns.

The loops of the source are methods with loop invariants. Each is proved against a function that specifies it.

The environment becomes parameters:

- The clock is an integer `now`. The measured execution time is `elapsed`, and the random mock timing is `mockTime`.
- `JSON.parse` and `JSON.stringify` are function parameters.
- The Anthropic API is a function parameter `api` that may fail.
- Local date fields for version strings are a `LocalTime` record.

Text is `seq<char>`. A Dafny `char` is a Unicode scalar value, whereas a JavaScript string is a sequence of UTF-16 code units. The two agree on text without astral characters (see "## Left out").

Modules:

- `Wrappers`: `Option` and `Result`.
- `JsText`: JavaScript whitespace, `trim`, `toLowerCase`, `indexOf`, `lastIndexOf`, and number-to-string.
- `JsonValues`: a JSON value type and truthiness.
- `JsMaps`: the insertion-ordered map.
- `Sorting`: a stable sort and `slice`.
- `Encoding`: 32-bit wrap-around, UTF-8 and base64.
- `DatabaseTypes`: the records of the database types module.
- `SchemaDiff`: the diff.
- `SchemaSnapshots`, `QueryCaching`, `MockConnector`, `Broker`, `Storage` and `Claude`: one per service.

## Model

| member | source | states |
|---|---|---|
| QueryCaching.NormalizeQuery | server/services/QueryCache.ts:150-159 | the normalised query text neither starts nor ends with whitespace |
| QueryCaching.NormalizedIsLowerCase | server/services/QueryCache.ts:150-159 | the normalised query text contains no upper-case letter |
| QueryCaching.CollapseSpaces | server/services/QueryCache.ts:154 | collapsing whitespace runs never lengthens the text |
| QueryCaching.CollapseSpacesChars | server/services/QueryCache.ts:154 | after collapsing, every character is a plain space or a non-space character of the input |
| QueryCaching.LineEnd | server/services/QueryCache.ts:156 | the end of a `--` comment is the first line terminator at or after the start, or the end of the text |
| QueryCaching.StripLineComments | server/services/QueryCache.ts:156 | removing `--` comments never lengthens the text |
| QueryCaching.StripLineCommentsChars | server/services/QueryCache.ts:156 | removing `--` comments introduces no new characters |
| QueryCaching.CommentRunsToEnd | server/services/QueryCache.ts:154-156 | on one line, a `--` comment removes everything from the first `--` on |
| QueryCaching.StripBlockComments | server/services/QueryCache.ts:157 | removing `/* */` comments never lengthens the text |
| QueryCaching.StripBlockCommentsChars | server/services/QueryCache.ts:157 | removing `/* */` comments introduces no new characters |
| QueryCaching.CacheKeyShape | server/services/QueryCache.ts:45-49 | a cache key starts with the decimal database id followed by `:` |
| QueryCaching.CacheKeyDatabase | server/services/QueryCache.ts:45-49 | two equal cache keys have the same database id, so different databases never share an entry |
| QueryCaching.NewEntry | server/services/QueryCache.ts:91-101 | a stored entry is never accessed yet, with last access equal to its timestamp, and its time to live is the custom one when given and non-zero, else the default |
| QueryCaching.LruIsOldest | server/services/QueryCache.ts:161-176 | the LRU candidate exists exactly when the cache is non-empty, is a stored entry, and no entry was accessed earlier |
| QueryCaching.LruFirstOfTies | server/services/QueryCache.ts:165-171 | with the strict comparison, the candidate is the first entry in iteration order among those with the least last-access time |
| QueryCaching.Evicted | server/services/QueryCache.ts:161-176 | eviction keeps the map well formed, adds no key and changes no kept entry |
| QueryCaching.Inserted | server/services/QueryCache.ts:80-110 | after `set`, the new entry is stored under its key |
| QueryCaching.InsertedKeepsOthers | server/services/QueryCache.ts:80-110 | every other entry left by `set` was stored before with the same value |
| QueryCaching.InsertedWithRoom | server/services/QueryCache.ts:103-108 | below the size limit, `set` evicts nothing and only writes the key |
| QueryCaching.EvictedSize | server/services/QueryCache.ts:161-176 | eviction from a non-empty cache removes exactly one entry |
| QueryCaching.DeleteEachAll | server/services/QueryCache.ts:141-144 | deleting the keys one by one equals deleting the set of those keys |
| QueryCaching.MatchingKeysAre | server/services/QueryCache.ts:125-139 | the keys collected by the invalidation loop are distinct and are exactly the stored keys whose entry matches |
| QueryCaching.MatchingKeysOfMap | server/services/QueryCache.ts:125-146 | the collected keys are the matching keys of the map, and their number is the count `invalidate` returns |
| QueryCaching.HitRateBounded | server/services/QueryCache.ts:198-199 | the hit rate is a percentage between 0 and 100 |
| QueryCaching.FilterEntries | server/services/QueryCache.ts:271-273 | the filter keeps exactly the entries of the given database, and never more entries than it is given |
| QueryCaching.QueryCache.constructor | server/services/QueryCache.ts:35-43 | an empty cache with zero counters, whose size limit and time to live are the arguments when truthy, else 1000 entries and 300000 ms |
| QueryCaching.QueryCache.Get | server/services/QueryCache.ts:51-78 | a missing entry is a miss, and an expired one is a miss that deletes it. Otherwise it is a hit: the stored result is returned, and the entry's access count and last access are updated. Every call counts one query, so hits plus misses stays equal to the total |
| QueryCaching.QueryCache.Lookup | server/services/QueryCache.ts:53-77 | the same outcome as `get`, for a given key |
| QueryCaching.QueryCache.Set | server/services/QueryCache.ts:80-110 | a full cache first evicts its LRU entry, then the new entry is stored under the key: the new cache is `Inserted` of the old one. Counters are unchanged and the size bound keeps holding |
| QueryCaching.QueryCache.Store | server/services/QueryCache.ts:108 | the entry is written under its key and nothing else changes |
| QueryCaching.QueryCache.EvictLRU | server/services/QueryCache.ts:161-176 | the cache loses exactly its LRU entry, or stays empty |
| QueryCaching.QueryCache.Invalidate | server/services/QueryCache.ts:112-148 | with no pattern and a falsy database id, everything is cleared and the old size is returned. Otherwise exactly the entries of that database, or whose lower-cased query contains the lower-cased pattern, are removed, the rest are untouched, and the number removed is returned |
| QueryCaching.QueryCache.KeysToInvalidate | server/services/QueryCache.ts:123-139 | the collected keys are the stored keys, in insertion order, whose entry has the given database id or whose lower-cased query contains the lower-cased pattern |
| QueryCaching.QueryCache.DeleteKeys | server/services/QueryCache.ts:141-144 | each listed key is deleted, and the count is the number of keys listed |
| QueryCaching.QueryCache.Remove | server/services/QueryCache.ts:64 | the one entry is deleted, nothing else changes |
| QueryCaching.QueryCache.Cleanup | server/services/QueryCache.ts:178-195 | exactly the expired entries are removed and all others are kept |
| QueryCaching.QueryCache.GetStats | server/services/QueryCache.ts:197-226 | the statistics report the size, hits, misses, a hit rate between 0 and 100, and the mean execution time over entries that carry one |
| QueryCaching.QueryCache.WarmCache | server/services/QueryCache.ts:228-252 | the new cache and the count are `Warmed` of the old cache over the queries' keys and empty entries in order, so every property proved of `Warmed` holds. The counters, the size limit and the default time to live are unchanged, and the count never exceeds the number of queries |
| QueryCaching.QueryCache.WarmOne | server/services/QueryCache.ts:233-246 | a query whose key is cached changes nothing. Otherwise its empty result is `set` under the default time to live, and it reports that it added one. Counters and configuration are unchanged |
| QueryCaching.QueryCache.WarmNext | server/services/QueryCache.ts:232-247 | one visit of the loop takes the cache and count from `Warmed` over the first `i` planned queries to `Warmed` over the first `i + 1` |
| QueryCaching.WarmPlan | server/services/QueryCache.ts:232-245 | one key and one empty, zero-time entry under the default time to live per query, in order |
| QueryCaching.Warmed | server/services/QueryCache.ts:232-248 | warming keeps the cache well formed and counts at most one per query |
| QueryCaching.WarmStep | server/services/QueryCache.ts:235-247 | one query adds at most one to the count |
| QueryCaching.WarmedSnoc | server/services/QueryCache.ts:232-248 | the loop's next iteration is one more `WarmStep` |
| QueryCaching.WarmedKeysWithin | server/services/QueryCache.ts:232-248 | warming stores no key beyond the old ones and the queries' keys |
| QueryCaching.WarmedAllNew | server/services/QueryCache.ts:232-248 | when no key is stored yet and all keys differ, every query is counted, even with evictions |
| QueryCaching.WarmPlanAllNew | server/services/QueryCache.ts:228-252 | so `warmCache` returns the number of queries when their keys are new and distinct |
| QueryCaching.WarmedWithRoom | server/services/QueryCache.ts:232-248 | with room for every query, the keys afterwards are the old ones plus the queries' keys, and every old entry is kept unchanged |
| QueryCaching.WarmedCount | server/services/QueryCache.ts:232-248 | with room for every query, the count is the number of distinct query keys that were not cached |
| QueryCaching.QueryCache.Candidates | server/services/QueryCache.ts:268-273 | exactly the stored entries, only those of the database when a non-zero id is given, and all of them without one |
| QueryCaching.QueryCache.GetCacheEntries | server/services/QueryCache.ts:267-278 | the entries are stored ones of the given database, ordered by last access newest first. There are `slice(0, limit)` of them, drawn without repetition from the candidates, and no candidate left out was accessed later than one returned |
| QueryCaching.QueryCache.Destroy | server/services/QueryCache.ts:280-286 | the cache is emptied. The counters, the size limit and the default time to live are unchanged |
| SchemaSnapshots.HistoryKeyInjective | server/services/SchemaSnapshotService.ts:40 | different databases have different history keys |
| SchemaSnapshots.AppendCapped | server/services/SchemaSnapshotService.ts:46-51 | after a capture, the history has at most 50 snapshots, the new snapshot is last, and the ones before it are the newest of the old history, in order |
| SchemaSnapshots.CaptureKeepsNewest | server/services/SchemaSnapshotService.ts:46-51 | a capture into a full history in capture order drops exactly the oldest snapshot |
| SchemaSnapshots.Pad2 | server/services/SchemaSnapshotService.ts:210 | padding gives at least two characters, and exactly two for a number below 100 |
| SchemaSnapshots.GenerateVersion | server/services/SchemaSnapshotService.ts:209-211 | a version string starts with `v` and has at least 13 characters |
| SchemaSnapshots.VersionWidth | server/services/SchemaSnapshotService.ts:209-211 | for a four-digit year and valid date fields, the version is exactly 16 characters |
| SchemaSnapshots.HashOf | server/services/SchemaSnapshotService.ts:199-204 | the rolling hash stays a signed 32-bit integer |
| SchemaSnapshots.HashStep | server/services/SchemaSnapshotService.ts:202-203 | the `(h << 5) - h + c` step wrapped to 32 bits equals `31 * h + c` wrapped to 32 bits |
| SchemaSnapshots.ChecksumIgnoresContent | server/services/SchemaSnapshotService.ts:195-207 | because the key list is applied at every level, two schemas with the same data flag and the same numbers of tables, views and procedures have the same checksum |
| SchemaSnapshots.LastWithId | server/services/SchemaSnapshotService.ts:252-257 | a found snapshot is in the list and carries the id |
| SchemaSnapshots.LastWithIdFound | server/services/SchemaSnapshotService.ts:252-257 | a snapshot is found exactly when one carries the id, and no later one does |
| SchemaSnapshots.MinTime | server/services/SchemaSnapshotService.ts:309-320 | there is an oldest time exactly when there are snapshots |
| SchemaSnapshots.MaxTime | server/services/SchemaSnapshotService.ts:309-320 | there is a newest time exactly when there are snapshots |
| SchemaSnapshots.MinTimeIsLeast | server/services/SchemaSnapshotService.ts:309-320 | the oldest time is some snapshot's time and no snapshot is older |
| SchemaSnapshots.MaxTimeIsGreatest | server/services/SchemaSnapshotService.ts:309-320 | the newest time is some snapshot's time and no snapshot is newer |
| SchemaSnapshots.StopIndex | server/services/SchemaSnapshotService.ts:180-186 | the loop of getSchemaChanges stops within the history |
| SchemaSnapshots.SchemaSnapshotService.constructor | server/services/SchemaSnapshotService.ts:21-23 | both maps start empty |
| SchemaSnapshots.SchemaSnapshotService.CaptureSnapshot | server/services/SchemaSnapshotService.ts:25-57 | the snapshot's id is `<databaseId>-<time>`, with its version and checksum. It is appended to that database's capped history, becomes its last snapshot, and no other history changes |
| SchemaSnapshots.SortedIn | server/services/SchemaSnapshotService.ts:171-172 | sorting one stored history in place keeps the store well formed with the same keys |
| SchemaSnapshots.SortedAll | server/services/SchemaSnapshotService.ts:171-172 | sorting several histories in turn keeps the store well formed with the same keys |
| SchemaSnapshots.SortedInHistories | server/services/SchemaSnapshotService.ts:171-172 | after the in-place sort, that history is its sorted self, every other history is untouched, and no history reads differently once sorted again |
| SchemaSnapshots.SortedAllHistories | server/services/SchemaSnapshotService.ts:171-172 | after sorting a list of histories in turn, no history reads differently once sorted, and the histories of unlisted databases are untouched |
| SchemaSnapshots.SortedInThenSet | server/services/SchemaSnapshotService.ts:40-46 | storing a history over one sorted in place is storing it over the original |
| SchemaSnapshots.SchemaSnapshotService.CalculateChecksum | server/services/SchemaSnapshotService.ts:195-207 | the checksum is the hex absolute value of the 32-bit rolling hash of the serialised schema |
| SchemaSnapshots.SchemaSnapshotService.HashCodeUnits | server/services/SchemaSnapshotService.ts:199-204 | the loop computes the rolling hash |
| SchemaSnapshots.SchemaSnapshotService.CompareTableColumns | server/services/SchemaSnapshotService.ts:108-156 | the column changes are added columns, then removed columns, then modified ones |
| SchemaSnapshots.SchemaSnapshotService.AddedColumns | server/services/SchemaSnapshotService.ts:115-125 | one `column_added` per new column absent from the old table, in the new table's order |
| SchemaSnapshots.SchemaSnapshotService.RemovedColumns | server/services/SchemaSnapshotService.ts:128-138 | one `column_removed` per old column absent from the new table, in the old table's order |
| SchemaSnapshots.SchemaSnapshotService.ModifiedColumns | server/services/SchemaSnapshotService.ts:141-153 | one `column_modified` per shared column whose compared attributes differ, in the new table's order |
| SchemaSnapshots.SchemaSnapshotService.CompareTables | server/services/SchemaSnapshotService.ts:71-103 | the loops compute the schema diff |
| SchemaSnapshots.SchemaSnapshotService.TableEvents | server/services/SchemaSnapshotService.ts:75-94 | one table event per table of one schema missing from the other |
| SchemaSnapshots.SchemaSnapshotService.ChangedTables | server/services/SchemaSnapshotService.ts:97-103 | the column changes of each shared table, in the new schema's order |
| SchemaSnapshots.SchemaSnapshotService.CompareSchemas | server/services/SchemaSnapshotService.ts:59-106 | without a last snapshot there are no changes. Otherwise the result is the diff from the last snapshot's schema to the new one |
| SchemaSnapshots.SchemaSnapshotService.GetSnapshotHistory | server/services/SchemaSnapshotService.ts:167-174 | the history newest first, with `slice(0, limit)` snapshots drawn without repetition from the stored history, and no snapshot left out newer than one returned |
| SchemaSnapshots.NewestFirst | server/services/SchemaSnapshotService.ts:171-173 | a history sorted newest first and sliced keeps `SliceEnd` snapshots drawn from the history, and none left out is newer than one kept |
| SchemaSnapshots.SchemaSnapshotService.GetSnapshotHistorySortingStored | server/services/SchemaSnapshotService.ts:167-174 | as written: the result is the sorted history cut to the limit, and the stored history is itself left sorted newest first |
| SchemaSnapshots.SchemaSnapshotService.GetSchemaChanges | server/services/SchemaSnapshotService.ts:176-193 | as written: the 100 newest snapshots are read through `getSnapshotHistory`, which leaves the stored history sorted. Every loop step diffs the last snapshot against `newer`, stopping at the `since` bound, and the result is sorted newest first |
| SchemaSnapshots.SchemaSnapshotService.PairwiseChanges | server/services/SchemaSnapshotService.ts:180-190 | the loop collects those diffs in loop order |
| SchemaSnapshots.SchemaSnapshotService.GenerateSchemaDiff | server/services/SchemaSnapshotService.ts:247-302 | an error when either id is in no history. Otherwise the diff from the last snapshot with the first id to the last with the second |
| SchemaSnapshots.SchemaSnapshotService.ImportSnapshot | server/services/SchemaSnapshotService.ts:223-245 | a record without a parse, a truthy id, a truthy database id or a schema is rejected and changes nothing. A record that passes is accepted: the result is `Imported(parsed)`, the snapshot with exactly the parsed fields, and it is appended to its history without the cap and without touching the last-snapshot map |
| SchemaSnapshots.Imported | server/services/SchemaSnapshotService.ts:223-240 | a snapshot is returned iff the parse succeeded with a truthy id, a truthy database id and a schema, and it then carries every parsed field unchanged |
| SchemaSnapshots.ImportParsed | server/services/SchemaSnapshotService.ts:213-240 | the fields of a snapshot the service made, as exported, are imported back as the same snapshot |
| SchemaSnapshots.SchemaSnapshotService.GetStats | server/services/SchemaSnapshotService.ts:304-328 | the total is the sum of the history lengths, the database count is the number of histories, and the oldest and newest times are over all snapshots |
| SchemaSnapshots.SortIncreasingHistory | server/services/SchemaSnapshotService.ts:171-172 | sorting a history in capture order puts its latest snapshot first |
| SchemaSnapshots.CaptureDropsFirst | server/services/SchemaSnapshotService.ts:49-51 | a capture into a full history drops whatever is first |
| SchemaSnapshots.InPlaceSortThenCaptureDropsNewest | server/services/SchemaSnapshotService.ts:49-51 | after the in-place sort of a full history, the next capture drops the newest earlier snapshot and keeps the oldest |
| SchemaSnapshots.AsWrittenMissesChange | server/services/SchemaSnapshotService.ts:180-189 | as written, a two-snapshot history whose newer snapshot is the last capture reports no change, whatever the older one holds |
| SchemaSnapshots.ConsecutiveReportsChange | server/services/SchemaSnapshotService.ts:180-189 | comparing each snapshot with the one before it reports exactly their diff, which is empty exactly when the schemas agree |
| SchemaDiff.IndexBy | server/services/SchemaSnapshotService.ts:71-72 | indexing a list by name gives a well-formed map |
| SchemaDiff.IndexByHasNames | server/services/SchemaSnapshotService.ts:71-72 | every listed name is a key of the index |
| SchemaDiff.IndexByOnlyNames | server/services/SchemaSnapshotService.ts:71-72 | every key of the index is a listed name |
| SchemaDiff.IndexByLastWins | server/services/SchemaSnapshotService.ts:71-72 | for a repeated name, the later element is the one indexed |
| SchemaDiff.CollectMember | server/services/SchemaSnapshotService.ts:75-103 | a change is collected exactly when some key's step produces it |
| SchemaDiff.CollectEmpty | server/services/SchemaSnapshotService.ts:75-103 | nothing is collected exactly when every step produces nothing |
| SchemaDiff.CollectAll | server/services/SchemaSnapshotService.ts:75-103 | a property of every step's changes holds for the whole collection |
| SchemaDiff.SameColumnsNoPasses | server/services/SchemaSnapshotService.ts:108-165 | tables with the same indexed columns give no column change |
| SchemaDiff.NoPassesSameColumns | server/services/SchemaSnapshotService.ts:108-165 | no column change means the same indexed columns |
| SchemaDiff.ColumnChangesEmpty | server/services/SchemaSnapshotService.ts:108-165 | a table's column changes are empty exactly when its columns agree on the compared attributes |
| SchemaDiff.NoTableEventInColumns | server/services/SchemaSnapshotService.ts:108-156 | column changes always name a column |
| SchemaDiff.TableNamesIndexed | server/services/SchemaSnapshotService.ts:71-72 | the keys of the table index are the schema's table names |
| SchemaDiff.SameSchemaNoDiff | server/services/SchemaSnapshotService.ts:71-105 | agreeing schemas give no changes |
| SchemaDiff.NoEventsSameNames | server/services/SchemaSnapshotService.ts:75-94 | no added and no removed table means the same table names |
| SchemaDiff.NoColumnPassSameColumns | server/services/SchemaSnapshotService.ts:97-103 | no column change means each shared table has agreeing columns |
| SchemaDiff.NoDiffSameSchema | server/services/SchemaSnapshotService.ts:71-105 | no changes means the schemas agree |
| SchemaDiff.DiffEmpty | server/services/SchemaSnapshotService.ts:71-105 | the diff is empty exactly when the schemas agree |
| SchemaDiff.UnchangedTablesNoColumnChanges | server/services/SchemaSnapshotService.ts:97-103 | identical shared tables give no column change |
| SchemaDiff.DiffSelf | server/services/SchemaSnapshotService.ts:71-105 | a schema diffed against itself has no changes |
| SchemaDiff.NoTableEventInColumnPass | server/services/SchemaSnapshotService.ts:97-103 | the column pass produces no table event |
| SchemaDiff.TableEventIn | server/services/SchemaSnapshotService.ts:75-94 | a pass reports a table exactly when it is in one schema and not the other, and reports no event of the other kind |
| SchemaDiff.TableAddedRemoved | server/services/SchemaSnapshotService.ts:74-103 | `table_added` is reported exactly for the names only in the new schema, and `table_removed` exactly for those only in the old one |
| SchemaDiff.ForeignKeyIgnored | server/services/SchemaSnapshotService.ts:158-165 | a change to `foreignKey` alone is not a column change |
| MockConnector.MockSchema | server/services/MCPBroker.ts:275-354 | there are no views or procedures. Salesforce has exactly Account and Contact. Every other type starts with users and orders, and Snowflake and Databricks have one more table |
| MockConnector.BaseTablesIndexed | server/services/MCPBroker.ts:275-305 | the index of the base tables |
| MockConnector.SnowflakeTablesIndexed | server/services/MCPBroker.ts:306-316 | the index of the Snowflake tables |
| MockConnector.SnowflakeAdded | server/services/MCPBroker.ts:306-316 | the Snowflake schema adds only `warehouse_analytics` over the base tables |
| MockConnector.SnowflakeRemoved | server/services/MCPBroker.ts:306-316 | the Snowflake schema removes no base table |
| MockConnector.SnowflakeColumns | server/services/MCPBroker.ts:306-316 | the Snowflake schema changes no column of the base tables |
| MockConnector.SqlServerToSnowflake | server/services/MCPBroker.ts:275-354 | moving from the SQL Server mock to the Snowflake mock reports exactly the `warehouse_analytics` table as added |
| MockConnector.MockRows | server/services/MCPBroker.ts:356-388 | a mock query returns one or two rows |
| MockConnector.ExecuteMockQuery | server/services/MCPBroker.ts:356-388 | the row count is the number of rows, and the result echoes the query, the parameters and the simulated time |
| MockConnector.MockRowsIgnoreCase | server/services/MCPBroker.ts:358 | the row choice ignores the query's letter case |
| Broker.FirstPassword | server/services/MCPBroker.ts:48 | the first case-insensitive `password=` at or after a position, or none |
| Broker.SecretEnd | server/services/MCPBroker.ts:48 | the secret ends at the first `;` after it, or at the end |
| Broker.MaskPassword | server/services/MCPBroker.ts:48 | without `password=` the text is unchanged. Otherwise the first non-empty secret is replaced by `password=***` and everything around it is kept |
| Broker.MaskIdempotent | server/services/MCPBroker.ts:48 | masking twice is masking once |
| Broker.StoredConnectionString | server/services/MCPBroker.ts:48 | an empty connection string becomes `mock://connection`, and any other is masked |
| Broker.Touched | server/services/MCPBroker.ts:268-273 | only the named connection's last activity changes |
| Broker.MockAnswer | server/services/MCPBroker.ts:98-113 | the answer carries the mock rows, their count, the query and parameters, and the measured time |
| Broker.NewestSnapshot | server/services/MCPBroker.ts:168-172 | asking for one history entry gives the newest stored snapshot |
| Broker.InvalidatedGone | server/services/MCPBroker.ts:213 | after invalidating a non-zero database id, no entry of that database remains |
| Broker.ValuesAreListed | server/services/MCPBroker.ts:241-243 | the listed connections are exactly the stored ones |
| Broker.HistoryStored | server/services/SchemaSnapshotService.ts:40-46 | storing a database's history replaces only that history |
| Broker.MCPBroker.constructor | server/services/MCPBroker.ts:22-32 | no connections, an empty cache and no snapshots |
| Broker.MCPBroker.FirstConnection | server/services/MCPBroker.ts:259-266 | the first connection in registry order for the database, or none exactly when no connection belongs to it |
| Broker.MCPBroker.ConnectionIdOf | server/services/MCPBroker.ts:254-257 | the first matching connection's id, or `unknown-<id>` |
| Broker.MCPBroker.FindConnection | server/services/MCPBroker.ts:259-266 | the search loop finds the first matching connection |
| Broker.MCPBroker.GetConnectionStatus | server/services/MCPBroker.ts:237-239 | the first matching connection, or none |
| Broker.MCPBroker.GetConnectionId | server/services/MCPBroker.ts:254-257 | the connection id of the database |
| Broker.MCPBroker.GetAllConnections | server/services/MCPBroker.ts:241-243 | every stored connection, each once |
| Broker.MCPBroker.UpdateConnectionActivity | server/services/MCPBroker.ts:268-273 | the named connection's last activity becomes `now`, nothing else changes |
| Broker.MCPBroker.ConnectDatabase | server/services/MCPBroker.ts:34-80 | a connection under `<type>-<id>`, connected, with the masked connection string. The captured snapshot of the mock schema is appended to that database's capped history and becomes its last snapshot, no other history changes, and a success envelope is returned |
| Broker.MCPBroker.ExecuteQuery | server/services/MCPBroker.ts:82-124 | a hit returns the cached result without executing or caching. A miss executes the mock query and caches its result, which keeps the simulated time, while the answer carries the measured time. The cache after a miss is `Inserted` of the cache `get` leaves (the expired entry deleted), under the size limit and default time to live from before the call, which stay unchanged. Only a miss touches the connection's activity |
| Broker.MCPBroker.CacheAndAnswer | server/services/MCPBroker.ts:101-113 | the cache becomes `Inserted` of the old one with the result's entry, the connection is touched, and the answer carries the measured time |
| Broker.MCPBroker.GetSchema | server/services/MCPBroker.ts:164-200 | the history is read through `getSnapshotHistory`, which leaves it sorted in place. With a history, the newest snapshot's schema is returned and nothing is captured. With neither history nor connection, `success: false` with `Database not connected`. Otherwise the history becomes the one captured snapshot of the mock schema, which is also the last snapshot, and that schema is returned |
| Broker.MCPBroker.DisconnectDatabase | server/services/MCPBroker.ts:202-235 | an existing connection is removed and that database's cache entries are invalidated. Success is returned even when there was no connection. The cache counters, size limit and default time to live are unchanged |
| Broker.SchemaContext | server/services/MCPBroker.ts:131-137 | at most one schema per requested database |
| Broker.SchemaContextCount | server/services/MCPBroker.ts:131-137 | one schema per database when all have a history, none when none has |
| Broker.SchemaContextStep | server/services/MCPBroker.ts:132-136 | after the earlier databases' histories were sorted in place, the next database's newest schema is still the one of the original store |
| Broker.MCPBroker.ProcessNaturalLanguageQuery | server/services/MCPBroker.ts:126-162 | the language-model answer for the request, with the newest schema of each database with a history, in the original store, as context. Each listed history is left sorted in place and the last-snapshot map is unchanged |
| Broker.MCPBroker.CollectSchemas | server/services/MCPBroker.ts:131-137 | the loop collects that schema context and leaves each listed history sorted in place |
| Broker.MCPBroker.GetServiceStats | server/services/MCPBroker.ts:245-252 | the connection count, the cache's size, hits, misses, hit rate and mean execution time, and the snapshot total, database count, oldest and newest times |
| Broker.MCPBroker.Destroy | server/services/MCPBroker.ts:390-402 | all connections are gone and the cache is empty. The cache counters, size limit and default time to live are unchanged |
| Storage.Assign | server/storage.ts:381 | every field the update gives replaces the run's field, and the others are kept |
| Storage.AssignNothing | server/storage.ts:381 | an empty update keeps the run |
| Storage.Where | server/storage.ts:251-253 | the filter keeps exactly the elements that pass, with their multiplicities |
| Storage.WhereKeepsAll | server/storage.ts:251-253 | a filter that everything passes keeps the list |
| Storage.OldestFirst | server/storage.ts:309-313 | messages sorted by the negated time are in ascending time |
| Storage.ConversationMessages | server/storage.ts:309-313 | a conversation's messages are exactly its stored messages, in ascending time |
| Storage.ValuesAreStored | server/storage.ts:251-253 | the values of a map are its stored records |
| Storage.Selected | server/storage.ts:251-253 | the filtered values are exactly the stored records that pass |
| Storage.MemStorage.IdsUnique | server/storage.ts:59 | no id is used by two records of any kinds, and every id in use is below the counter |
| Storage.MemStorage.constructor | server/storage.ts:52-63 | user 1, databases 2-5 online for user 1, conversation 6, pipelines 7-12, no messages or runs, and the counter at 13 |
| Storage.MemStorage.InitializeDemo | server/storage.ts:65-230 | the demo seed from an empty store |
| Storage.MemStorage.SeedDatabases | server/storage.ts:74-121 | four online databases of the demo user under consecutive ids |
| Storage.MemStorage.SeedPipelines | server/storage.ts:133-229 | six pipelines under ids 7 to 12 |
| Storage.MemStorage.SeedProductionFamily | server/storage.ts:133-180 | the production pipeline and its two children under consecutive ids |
| Storage.MemStorage.SeedAdditionalPipelines | server/storage.ts:183-229 | three more pipelines under consecutive ids |
| Storage.MemStorage.SeedDatabase | server/storage.ts:75-85 | one online database under the next id |
| Storage.MemStorage.SeedPipeline | server/storage.ts:133-147 | one pipeline under the next id |
| Storage.MemStorage.NextId | server/storage.ts:241 | the id is the counter before the call, is unused, and the counter goes up by one |
| Storage.MemStorage.StoreUser | server/storage.ts:243 | the user is stored under its id, and nothing else changes |
| Storage.MemStorage.StoreDatabase | server/storage.ts:263 | the database is stored under its id, and nothing else changes |
| Storage.MemStorage.StoreConversation | server/storage.ts:305 | the conversation is stored under its id, and nothing else changes |
| Storage.MemStorage.StoreMessage | server/storage.ts:322 | the message is stored under its id, and nothing else changes |
| Storage.MemStorage.StorePipeline | server/storage.ts:347 | the pipeline is stored under its id, and nothing else changes |
| Storage.MemStorage.StorePipelineRun | server/storage.ts:374 | the run is stored under its id, and nothing else changes |
| Storage.MemStorage.GetUser | server/storage.ts:232-234 | the user with the id, present exactly when stored |
| Storage.MemStorage.GetUserByUsername | server/storage.ts:236-238 | the first user in insertion order with the name, or none exactly when no user has it |
| Storage.MemStorage.CreateUser | server/storage.ts:240-245 | a new user under a fresh id, with the counter up by one |
| Storage.MemStorage.GetDatabase | server/storage.ts:247-249 | the database with the id, present exactly when stored |
| Storage.MemStorage.GetDatabasesByUserId | server/storage.ts:251-253 | exactly the stored databases of the user |
| Storage.MemStorage.CreateDatabase | server/storage.ts:255-265 | a new database under a fresh id, always `offline`, stamped with `now` |
| Storage.MemStorage.UpdateDatabase | server/storage.ts:267-277 | absent id: none, and nothing changes. Otherwise the alias changes only when given |
| Storage.MemStorage.UpdateDatabaseStatus | server/storage.ts:279-286 | absent id: none, and nothing changes. Otherwise only the status changes |
| Storage.MemStorage.GetConversation | server/storage.ts:288-290 | the conversation with the id, present exactly when stored |
| Storage.MemStorage.GetConversationsByUserId | server/storage.ts:292-296 | exactly the user's stored conversations, newest first |
| Storage.MemStorage.CreateConversation | server/storage.ts:298-307 | a new conversation under a fresh id, stamped with `now` |
| Storage.MemStorage.GetMessagesByConversationId | server/storage.ts:309-313 | exactly the conversation's stored messages, oldest first |
| Storage.MemStorage.MessageTies | server/storage.ts:309-313 | messages with the same creation time come out in insertion order |
| Storage.MemStorage.CreateMessage | server/storage.ts:315-324 | a new message under a fresh id, stamped with `now` |
| Storage.MemStorage.GetPipeline | server/storage.ts:326-328 | the pipeline with the id, present exactly when stored |
| Storage.MemStorage.GetPipelinesByUserId | server/storage.ts:330-332 | exactly the stored pipelines of the user |
| Storage.MemStorage.GetPipelinesByParentId | server/storage.ts:334-336 | exactly the stored pipelines with that parent |
| Storage.MemStorage.CreatePipeline | server/storage.ts:338-349 | a new pipeline under a fresh id, always `inactive`, created and updated at `now` |
| Storage.MemStorage.UpdatePipelineStatus | server/storage.ts:351-359 | absent id: none, and nothing changes. Otherwise only the status and the update time change |
| Storage.MemStorage.GetPipelineRunsByPipelineId | server/storage.ts:361-365 | exactly the pipeline's runs, each as often as stored, latest start first |
| Storage.MemStorage.RunTies | server/storage.ts:361-365 | runs with the same start time come out in insertion order |
| Storage.MemStorage.CreatePipelineRun | server/storage.ts:367-376 | a new run under a fresh id, started at `now` and not ended |
| Storage.MemStorage.UpdatePipelineRun | server/storage.ts:378-385 | absent id: none, and nothing changes. Otherwise the given fields are assigned onto the run |
| Claude.ConnectionMentionsConnect | server/services/ClaudeService.ts:180-182 | a query mentioning `connection` also mentions `connect` |
| Claude.BuildUserPrompt | server/services/ClaudeService.ts:179-218 | the connection template is used exactly for connection questions and the data template otherwise. Each starts with its lead and the quoted query, and lists the database ids joined by `, ` |
| Claude.SystemPrompt | server/services/ClaudeService.ts:137-177 | the base prompt, then the schema section only for a non-empty schema list, then the context section only for a non-empty context |
| Claude.PlainSystemPrompt | server/services/ClaudeService.ts:168-174 | without schema or context, the prompt is the base prompt |
| Claude.BuildSystemPrompt | server/services/ClaudeService.ts:137-177 | the appending steps build that prompt |
| Claude.EmptySchemaListTreatedDifferently | server/services/ClaudeService.ts:92-99 | an empty schema list is left out of the chat prompt but rendered into the ETL prompt |
| Claude.FirstIndexOfChar | server/services/ClaudeService.ts:223 | the first occurrence of the character, or none |
| Claude.JsonSpan | server/services/ClaudeService.ts:223 | there is a span exactly when a `{` comes before a `}`. It runs from the first `{` to the last `}` |
| Claude.ParseClaudeResponse | server/services/ClaudeService.ts:220-246 | a parsed reply falls back to the text, confidence 75, and empty suggestions and follow-ups for falsy fields. An unparsed reply is the text at confidence 60 with one suggestion |
| Claude.DigitRunEnd | server/services/ClaudeService.ts:275 | the end of the digit run |
| Claude.SpaceRunEnd | server/services/ClaudeService.ts:275 | the end of the whitespace run |
| Claude.NewlineAt | server/services/ClaudeService.ts:275 | the next newline, or the end |
| Claude.LastNonNewline | server/services/ClaudeService.ts:275 | the last character before a position that is not a newline |
| Claude.MatchAt | server/services/ClaudeService.ts:275 | a step line match starts at a digit and captures a non-empty description |
| Claude.NextMatch | server/services/ClaudeService.ts:275-279 | the next match ends after the search position |
| Claude.TrimAll | server/services/ClaudeService.ts:283 | one trimmed description per match |
| Claude.ExtractPipelineSteps | server/services/ClaudeService.ts:272-290 | the loop builds the numbered steps of the matches |
| Claude.StepsNumbered | server/services/ClaudeService.ts:279-287 | step k has id `step-k`, name `Step k`, the trimmed description, and `5-15 minutes` |
| Claude.StepIdsDistinct | server/services/ClaudeService.ts:279-287 | no two steps share an id |
| Claude.TwoNumberedLines | server/services/ClaudeService.ts:275-287 | two numbered lines give their two descriptions |
| Claude.NoDigitNoGroups | server/services/ClaudeService.ts:275-287 | a text without digits gives no steps |
| Claude.ParseEtlResponse | server/services/ClaudeService.ts:248-270 | a parsed reply defaults to confidence 80 and to the extracted steps. An unparsed reply is the text at confidence 70 with one suggestion and the extracted steps |
| Claude.AnthropicKey | server/services/ClaudeService.ts:44-50 | the given key, else the environment key, else the missing-key error |
| Claude.CallModel | server/services/ClaudeService.ts:59-72 | the API request uses the default model. A failure or a non-text first block is an error, and a text block gives its text |
| Claude.ProcessNaturalLanguageQuery | server/services/ClaudeService.ts:52-83 | a failed call gives confidence 0 with the error message and two suggestions. Otherwise the parsed reply, and its confidence is falsy exactly when the call failed |
| Claude.GenerateEtlPipeline | server/services/ClaudeService.ts:85-135 | a failed call gives confidence 0 with one suggestion. Otherwise the parsed ETL reply |
| Claude.ValidationVerdict | server/services/ClaudeService.ts:311-326 | the parse of the reply's JSON span, or valid with no errors and one caution when there is no reply, no span or no parse |
| Claude.ValidateQuery | server/services/ClaudeService.ts:292-327 | a failed call gives the fallback verdict |
| JsMaps.JsMap.Get | server/services/QueryCache.ts:53 | the value stored under the key, or none exactly when absent |
| JsMaps.JsMap.Set | server/services/QueryCache.ts:108 | the value is stored under the key, and a new key goes last in iteration order |
| JsMaps.JsMap.DeleteAll | server/services/QueryCache.ts:141-144 | the keys are removed and the rest keep their order |
| JsMaps.JsMap.Delete | server/services/MCPBroker.ts:210 | the key is removed, and the size drops by one exactly when it was present |
| JsMaps.JsMap.Values | server/storage.ts:251-253 | the values in key order |
| JsMaps.ValuesListed | server/services/QueryCache.ts:268 | the listed values are exactly the stored values |
| JsMaps.DeleteAllThenDelete | server/services/QueryCache.ts:141-144 | deleting a key after a set of keys is deleting both |
| JsMaps.RemoveWhere | server/services/QueryCache.ts:141-146 | removing the matching keys lowers the size by their number |
| JsMaps.FilterOut | server/services/QueryCache.ts:141-144 | the keys left are exactly the others, still distinct |
| JsMaps.FilterOutSize | server/services/QueryCache.ts:141-144 | the kept keys and the removed keys together are all the keys |
| JsMaps.FindIndex | server/storage.ts:236-238 | the first position that passes, or none exactly when none passes |
| JsMaps.Find | server/storage.ts:236-238 | the element at that first position |
| JsMaps.FoundFirst | server/services/MCPBroker.ts:259-266 | over a map's values: the first stored record that passes, or none exactly when none passes |
| Sorting.SortDesc | server/services/SchemaSnapshotService.ts:171-172 | the result is ordered by a non-increasing key and is a permutation of the input |
| Sorting.InsertDescPermutes | server/services/SchemaSnapshotService.ts:171-172 | insertion adds exactly the element |
| Sorting.InsertDescSorted | server/services/SchemaSnapshotService.ts:171-172 | insertion keeps the order |
| Sorting.SortDescMembers | server/services/SchemaSnapshotService.ts:171-172 | sorting keeps the same elements |
| Sorting.SortDescEqualKeys | server/services/SchemaSnapshotService.ts:171-172 | sorting a sequence whose keys are all equal leaves it as it is |
| Sorting.WithKeyAppend | server/services/SchemaSnapshotService.ts:171-172 | the elements with one key, taken from a concatenation, are those of each part in turn |
| Sorting.InsertDescWithKey | server/services/SchemaSnapshotService.ts:171-172 | inserting into a sorted sequence puts the new element after every element of its key |
| Sorting.SortDescStable | server/services/SchemaSnapshotService.ts:171-172 | the sort is stable: for every key, the elements with that key keep their relative order |
| Sorting.SortDescSorted | server/services/SchemaSnapshotService.ts:171-172 | a sequence already ordered newest first is left as it is |
| Sorting.SortDescIdempotent | server/services/SchemaSnapshotService.ts:171-172 | sorting twice is sorting once |
| Sorting.TakeSortDescGreatest | server/services/SchemaSnapshotService.ts:171-173 | sorting and then `slice(0, end)` gives that many elements, drawn without repetition from the input, and none left out has a greater key than one taken |
| Sorting.SortGreatestLast | server/services/SchemaSnapshotService.ts:171-172 | a strictly greatest last element moves to the front |
| Sorting.SliceEnd | server/services/SchemaSnapshotService.ts:173 | the end of `slice(0, end)`, with a negative end counting from the back |
| Sorting.Take | server/services/QueryCache.ts:277 | `slice(0, end)` is the prefix up to that end |
| JsText.TrimStart | server/services/QueryCache.ts:153 | only leading whitespace is removed |
| JsText.TrimEnd | server/services/QueryCache.ts:158 | only trailing whitespace is removed |
| JsText.Trim | server/services/QueryCache.ts:153-158 | the trimmed text neither starts nor ends with whitespace |
| JsText.LowerChar | server/services/QueryCache.ts:155 | a lower-cased character is never an upper-case letter, and other characters are kept |
| JsText.ToLower | server/services/QueryCache.ts:155 | each character is lower-cased in place |
| JsText.ToLowerIdempotent | server/services/QueryCache.ts:155 | lower-casing twice is lower-casing once |
| JsText.IndexOfFrom | server/services/QueryCache.ts:134 | the first occurrence at or after a position, or none |
| JsText.LastIndexOfChar | server/services/ClaudeService.ts:223 | the last occurrence of the character, or none |
| JsText.NatToDecimal | server/services/QueryCache.ts:48 | decimal digits only |
| JsText.NatToDecimalInjective | server/services/QueryCache.ts:48 | different numbers have different decimal forms |
| JsText.IntToString | server/services/QueryCache.ts:48 | digits and a sign only |
| JsText.IntToStringSign | server/services/QueryCache.ts:48 | a leading `-` exactly for negative numbers |
| JsText.IntToStringInjective | server/services/QueryCache.ts:48 | different integers have different strings |
| JsText.NatToHex | server/services/SchemaSnapshotService.ts:206 | a non-empty string of lower-case hex digits, with at least two digits from 16 up and no leading zero |
| JsText.NatToHexValue | server/services/SchemaSnapshotService.ts:206 | the rendered digits, read back in base 16, give the number |
| JsText.NatToHexInjective | server/services/SchemaSnapshotService.ts:206 | distinct numbers render differently |
| Encoding.Int32 | server/services/SchemaSnapshotService.ts:203 | the value wrapped to a signed 32-bit integer, congruent modulo 2^32 |
| Encoding.Int32Identity | server/services/SchemaSnapshotService.ts:203 | values already in range are kept |
| Encoding.Int32Congruent | server/services/SchemaSnapshotService.ts:203 | congruent values wrap to the same integer |
| Encoding.Utf8Char | server/services/QueryCache.ts:48 | one to four bytes per character, a single byte exactly for ASCII |
| Encoding.Utf8 | server/services/QueryCache.ts:48 | between one and four bytes per character |
| Encoding.Utf8Append | server/services/QueryCache.ts:48 | the encoding of a concatenation is the concatenation of the encodings |
| Encoding.Base64 | server/services/QueryCache.ts:48 | four characters per three bytes, rounded up, and never a `:` |
| JsonValues.Member | server/services/ClaudeService.ts:226-234 | the field's value, or none exactly when the object lacks it |
| JsonValues.OrElse | server/services/ClaudeService.ts:226-234 | a truthy field is kept, and anything else gives the default |
| JsonValues.Strings | server/services/ClaudeService.ts:241-245 | a JSON array of the strings, in order |

## Left out

- I/O and time. `Date`, `setInterval`/`clearInterval`, `console` logging, `Math.random` timings and `process.uptime()` are not modelled. Times are integer parameters (`now`, `elapsed`, `mockTime`), and the cleanup timer is only "`Cleanup` can be called".
- JSON. `JSON.parse` and `JSON.stringify` are foreign calls and become function parameters. For the same reason, `exportSnapshot` (server/services/SchemaSnapshotService.ts:213-221), `exportCache` (server/services/QueryCache.ts:254-265) and `getStats().memoryUsage` are not modelled.
- Parameters: query parameters are represented by their JSON text, which is `[]` when none are given.
- The checksum serialisation is modelled as written. The key list passed to `JSON.stringify` also filters nested objects, so tables, views and procedures serialise as `{}`.
- Floating point. Numbers are Dafny `real`s. `toFixed(2)` rounding of the hit rate and `Math.round` in the statistics are not modelled. A confidence of `NaN` is not represented.
- Dates: `generateVersion` takes its local-time fields as a record instead of reading a time zone.
- `toLowerCase` is modelled for ASCII letters only. Unicode case mapping is not modelled.
- The Anthropic SDK becomes the `api` parameter. It returns the first content block or an error, so an empty content array is not distinguished from an error. Prompt wording beyond the structure above (leads, sections, ids) is left as unspecified constants (`ConnectionInstructions`, `DataInstructions`, `SystemPromptBase`).
- `undefined` and `null` are both `None`.
- Exceptions. The catch arms of `connectDatabase`, `executeQuery` and `disconnectDatabase`, and of the storage, are unreachable in the model, because its timestamps are integers and no modelled call throws. Besides `getSchema` without history or connection, the only way the source reaches a catch arm is the imported-timestamp error described in the `ImportSnapshot` line below, which the model does not capture.
- Aliasing. Records handed out by the store and the broker are values. A caller mutating a returned object, and `disconnectDatabase` setting `status = 'disconnected'` on the object it then deletes, are not modelled.
- Broker.MCPBroker.DisconnectDatabase: database id 0 is falsy in `invalidate`, so disconnecting database 0 clears the whole cache. This is modelled as written.
- Broker.MCPBroker.ConnectDatabase: a missing connection string is modelled as the empty string. Both become `mock://connection`.
- Storage.MemStorage.constructor: the seed uses one `now` for all records. Only the facts listed above (ids, statuses, owners) are stated about the seeded records. Their names and configurations are the constants in the seeding methods.
- Storage.MemStorage.UpdatePipelineRun: an `id` in the update renumbers the record inside the map, as `Object.assign` does. The map key is not changed.
- Storage.MemStorage.GetConversationsByUserId: states membership and order, not that each conversation appears once.
- Storage.MemStorage.GetDatabasesByUserId: states membership, not that each database appears once.
- Storage.MemStorage.GetPipelinesByUserId: states membership, not that each pipeline appears once.
- Storage.MemStorage.GetPipelinesByParentId: states membership, not that each pipeline appears once.
- Storage.MemStorage.GetMessagesByConversationId: states membership and order, not that each message appears once.
- Claude.ValidateQuery: its contract states only the fallback for a failed call. The verdict on a reply is stated by `Claude.ValidationVerdict`.
- Broker.SchemaContext: its own contract states only the bound. The exact counts are in `SchemaContextCount`.
- QueryCaching.QueryCache.Destroy: `clearInterval` is not modelled, and `Destroy` only empties the cache.
- SchemaSnapshots.SchemaSnapshotService.ImportSnapshot: `JSON.parse` leaves the imported `timestamp` a string, and the model takes it as an integer. So the model does not capture what follows in the source once an imported snapshot sits in a history of two or more. The sort comparator's `getTime()` throws a `TypeError`. `getSchema` (Broker.MCPBroker.GetSchema) and `processNaturalLanguageQuery` (Broker.MCPBroker.ProcessNaturalLanguageQuery) then answer with their catch envelopes, and `getSchemaChanges` (SchemaSnapshots.SchemaSnapshotService.GetSchemaChanges) rejects. `getStats` (SchemaSnapshots.SchemaSnapshotService.GetStats) compares the string with a `Date`, which is always false, so its oldest and newest times depend on the order of the histories.
- Text: a lone surrogate cannot be represented in a Dafny string. For astral characters, positions and `.length` count scalar values, not UTF-16 code units, so `charCodeAt` in the checksum hash (SchemaSnapshots.HashOf) and `substring` positions differ from the source on such text.
- SchemaDiff.HasColumnChanged: `defaultValue` is typed `any` and compared with `!==`. The model takes it as a scalar (`DatabaseTypes.Scalar`) compared by value. It does not capture that an object or array default is always reported as modified between two snapshots, because `!==` compares references, or that a `NaN` default is always reported as modified. So `SchemaDiff.SameSchemaNoDiff`, `SchemaDiff.DiffEmpty` and `SchemaDiff.DiffSelf` hold only for scalar defaults.
- Concurrency across `await` points is not a sequential property and is not modelled. This includes two identical queries that both miss.

## Findings

| source | as written | input that shows it | evidently intended | confidence | as-written member | corrected member |
|---|---|---|---|---|---|---|
| server/services/SchemaSnapshotService.ts:171-172 | `getSnapshotHistory` sorts the stored array newest first in place, and `getSchema`, `processNaturalLanguageQuery` and `getSchemaChanges` all read histories through it. The next capture's `splice(0, …)` then drops the newest earlier snapshot instead of the oldest | a database with 50 snapshots captured at t1 < … < t50: call `getSchema`, then `connectDatabase` at t51. The history keeps t1 … t49 and t51, where t2 … t51 was meant | sort a copy, so that the stored history stays in capture order and a capture drops the oldest snapshot. The returned snapshots are the same either way | not executed | SchemaSnapshots.SchemaSnapshotService.GetSnapshotHistorySortingStored, SchemaSnapshots.InPlaceSortThenCaptureDropsNewest | SchemaSnapshots.SchemaSnapshotService.GetSnapshotHistory, SchemaSnapshots.CaptureKeepsNewest |
| server/services/SchemaSnapshotService.ts:180-189 | `getSchemaChanges` diffs the last snapshot against `newer` and never uses `older` | two snapshots with different schemas, the newer being the last capture: no change is reported | diff `older` against `newer` at each step | not executed | SchemaSnapshots.SchemaSnapshotService.GetSchemaChanges, SchemaSnapshots.AsWrittenMissesChange | SchemaSnapshots.ConsecutiveChanges, SchemaSnapshots.ConsecutiveReportsChange |
