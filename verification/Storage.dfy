/**
 * The in-memory entity store (server/storage.ts): one insertion-ordered
 * Map per entity kind and a single id counter shared by all of them.
 * Record shapes follow shared/schema.ts; a nullable or optional column is
 * an `Option`, a timestamp is milliseconds since the epoch, and `new
 * Date()` is the `now` parameter of the operation that reads the clock.
 */
module Storage {
  import opened Wrappers
  import opened JsMaps
  import opened JsonValues
  import opened Sorting

  datatype User = User(id: int, username: string, password: string)

  datatype InsertUser = InsertUser(username: string, password: string)

  datatype Database = Database(
    id: int,
    name: string,
    alias: Option<string>,
    dbType: string,
    connectionString: string,
    status: string,
    userId: Option<int>,
    createdAt: Option<int>)

  datatype InsertDatabase = InsertDatabase(
    name: string,
    alias: Option<string>,
    dbType: string,
    connectionString: string,
    userId: Option<int>)

  datatype Conversation = Conversation(id: int, title: string, userId: Option<int>, createdAt: Option<int>)

  datatype InsertConversation = InsertConversation(title: string, userId: Option<int>)

  datatype Message = Message(
    id: int,
    conversationId: Option<int>,
    role: string,
    content: string,
    metadata: Option<Json>,
    createdAt: Option<int>)

  datatype InsertMessage = InsertMessage(conversationId: Option<int>, role: string, content: string, metadata: Option<Json>)

  datatype Pipeline = Pipeline(
    id: int,
    name: string,
    description: Option<string>,
    status: string,
    schedule: Option<string>,
    sourceDbId: Option<int>,
    targetDbId: Option<int>,
    configuration: Option<Json>,
    userId: Option<int>,
    parentPipelineId: Option<int>,
    createdAt: Option<int>,
    updatedAt: Option<int>)

  datatype InsertPipeline = InsertPipeline(
    name: string,
    description: Option<string>,
    schedule: Option<string>,
    sourceDbId: Option<int>,
    targetDbId: Option<int>,
    configuration: Option<Json>,
    userId: Option<int>,
    parentPipelineId: Option<int>)

  datatype PipelineRun = PipelineRun(
    id: int,
    pipelineId: Option<int>,
    status: string,
    startTime: Option<int>,
    endTime: Option<int>,
    logs: Option<string>,
    rowsProcessed: Option<int>)

  datatype InsertPipelineRun = InsertPipelineRun(
    pipelineId: Option<int>,
    status: string,
    logs: Option<string>,
    rowsProcessed: Option<int>)

  /**
   * A `Partial<PipelineRun>`: `None` is a property the update object does
   * not have; for a nullable column, `Some(None)` is an explicit `null`.
   */
  datatype RunUpdate = RunUpdate(
    id: Option<int>,
    pipelineId: Option<Option<int>>,
    status: Option<string>,
    startTime: Option<Option<int>>,
    endTime: Option<Option<int>>,
    logs: Option<Option<string>>,
    rowsProcessed: Option<Option<int>>)

  /** `Object.assign(run, updates)`: every property the update has overwrites the record's. */
  function Assign(run: PipelineRun, u: RunUpdate): (r: PipelineRun)
    ensures r.id == u.id.GetOr(run.id)
    ensures r.status == u.status.GetOr(run.status)
    ensures r.pipelineId == u.pipelineId.GetOr(run.pipelineId)
    ensures r.startTime == u.startTime.GetOr(run.startTime)
    ensures r.endTime == u.endTime.GetOr(run.endTime)
    ensures r.logs == u.logs.GetOr(run.logs)
    ensures r.rowsProcessed == u.rowsProcessed.GetOr(run.rowsProcessed)
  {
    PipelineRun(
      if u.id.Some? then u.id.value else run.id,
      if u.pipelineId.Some? then u.pipelineId.value else run.pipelineId,
      if u.status.Some? then u.status.value else run.status,
      if u.startTime.Some? then u.startTime.value else run.startTime,
      if u.endTime.Some? then u.endTime.value else run.endTime,
      if u.logs.Some? then u.logs.value else run.logs,
      if u.rowsProcessed.Some? then u.rowsProcessed.value else run.rowsProcessed)
  }

  /** An update object with no properties leaves the run as it was. */
  lemma AssignNothing(run: PipelineRun)
    ensures Assign(run, RunUpdate(None, None, None, None, None, None, None)) == run
  {
  }

  // ----- array helpers the getters use -----

  /** `s.filter(p)`: the elements satisfying `p`, in their order, each as often as in `s`. */
  function Where<T(!new)>(s: seq<T>, p: T -> bool): (r: seq<T>)
    ensures |r| <= |s|
    ensures forall x :: x in r <==> x in s && p(x)
    ensures forall x :: multiset(r)[x] == if p(x) then multiset(s)[x] else 0
  {
    if s == [] then []
    else
      var rest := Where(s[1..], p);
      assert s == [s[0]] + s[1..];
      if p(s[0]) then [s[0]] + rest else rest
  }

  /** Filtering keeps the relative order: the result is `s` with some elements dropped. */
  lemma {:induction false} WhereKeepsAll<T(!new)>(s: seq<T>, p: T -> bool)
    requires forall i :: 0 <= i < |s| ==> p(s[i])
    ensures Where(s, p) == s
  {
    if s != [] {
      WhereKeepsAll(s[1..], p);
    }
  }

  /** `createdAt?.getTime() || 0`: a missing timestamp sorts as the epoch. */
  function ConversationTime(c: Conversation): int { c.createdAt.GetOr(0) }

  /** The ascending comparator on messages, as a descending key. */
  function MessageTimeNegated(m: Message): int { -m.createdAt.GetOr(0) }

  function RunTime(r: PipelineRun): int { r.startTime.GetOr(0) }

  function Config(kind: string, key: string, value: Json): Json {
    JObj([("type", JStr(kind)), (key, value)])
  }

  function UserId(u: User): int { u.id }
  function DatabaseId(d: Database): int { d.id }
  function ConversationId(c: Conversation): int { c.id }
  function MessageId(m: Message): int { m.id }
  function PipelineId(p: Pipeline): int { p.id }

  function HasUsername(username: string): User -> bool {
    (u: User) => u.username == username
  }

  function RunOf(pipelineId: int): PipelineRun -> bool {
    (run: PipelineRun) => run.pipelineId == Some(pipelineId)
  }

  function InConversation(conversationId: int): Message -> bool {
    (m: Message) => m.conversationId == Some(conversationId)
  }

  /** Messages in ascending creation time (a missing time counts as 0). */
  predicate Chronological(s: seq<Message>) {
    forall i, j :: 0 <= i < j < |s| ==> s[i].createdAt.GetOr(0) <= s[j].createdAt.GetOr(0)
  }

  /** Read in ascending order, a list sorted by the negated creation time is oldest first. */
  lemma OldestFirst(s: seq<Message>)
    requires SortedDesc(s, MessageTimeNegated)
    ensures Chronological(s)
  {
    forall i, j | 0 <= i < j < |s|
      ensures s[i].createdAt.GetOr(0) <= s[j].createdAt.GetOr(0)
    {
      assert MessageTimeNegated(s[i]) >= MessageTimeNegated(s[j]);
    }
  }

  /** No id is a key of two of the six maps. */
  predicate Disjoint(a: set<int>, b: set<int>, c: set<int>, d: set<int>, e: set<int>, f: set<int>) {
    a !! b && a !! c && a !! d && a !! e && a !! f
    && b !! c && b !! d && b !! e && b !! f
    && c !! d && c !! e && c !! f
    && d !! e && d !! f
    && e !! f
  }

  class MemStorage {
    var users: JsMap<int, User>
    var databases: JsMap<int, Database>
    var conversations: JsMap<int, Conversation>
    var messages: JsMap<int, Message>
    var pipelines: JsMap<int, Pipeline>
    var pipelineRuns: JsMap<int, PipelineRun>
    var currentId: int

    /** Whether any of the six maps holds key `k`. */
    predicate InUse(k: int)
      reads this
    {
      k in users.items || k in databases.items || k in conversations.items
      || k in messages.items || k in pipelines.items || k in pipelineRuns.items
    }

    /**
     * Every key lies in [1, currentId) and is held by one map only; every
     * record except a pipeline run carries its own key as its id (an
     * update may renumber a run).
     */
    ghost predicate Valid()
      reads this
    {
      users.Valid() && databases.Valid() && conversations.Valid()
      && messages.Valid() && pipelines.Valid() && pipelineRuns.Valid()
      && 1 <= currentId
      && Disjoint(users.items.Keys, databases.items.Keys, conversations.items.Keys,
                  messages.items.Keys, pipelines.items.Keys, pipelineRuns.items.Keys)
      && (forall k :: k in users.items ==> 1 <= k < currentId && users.items[k].id == k)
      && (forall k :: k in databases.items ==> 1 <= k < currentId && databases.items[k].id == k)
      && (forall k :: k in conversations.items ==> 1 <= k < currentId && conversations.items[k].id == k)
      && (forall k :: k in messages.items ==> 1 <= k < currentId && messages.items[k].id == k)
      && (forall k :: k in pipelines.items ==> 1 <= k < currentId && pipelines.items[k].id == k)
      && (forall k :: k in pipelineRuns.items ==> 1 <= k < currentId)
    }

    /** No id is held by two kinds of entity. */
    lemma IdsUnique(k: int)
      requires Valid()
      ensures k in users.items ==> k !in databases.items && k !in conversations.items && k !in messages.items
                                   && k !in pipelines.items && k !in pipelineRuns.items
      ensures k in databases.items ==> k !in conversations.items && k !in messages.items
                                       && k !in pipelines.items && k !in pipelineRuns.items
      ensures k in conversations.items ==> k !in messages.items && k !in pipelines.items && k !in pipelineRuns.items
      ensures k in messages.items ==> k !in pipelines.items && k !in pipelineRuns.items
      ensures k in pipelines.items ==> k !in pipelineRuns.items
      ensures InUse(k) ==> 1 <= k < currentId
    {
    }

    /** The six maps start empty and the counter at 1; then the demo seed is stored. */
    constructor (now: int)
      ensures Valid() && currentId == 13
      ensures users.keys == [1] && databases.keys == [2, 3, 4, 5] && conversations.keys == [6]
      ensures pipelines.keys == [7, 8, 9, 10, 11, 12] && messages == Empty() && pipelineRuns == Empty()
      ensures users.items[1] == User(1, "demo", "demo123")
      ensures forall k :: k in databases.items ==> databases.items[k].status == "online" && databases.items[k].userId == Some(1)
      ensures conversations.items[6].userId == Some(1)
    {
      users := Empty();
      databases := Empty();
      conversations := Empty();
      messages := Empty();
      pipelines := Empty();
      pipelineRuns := Empty();
      currentId := 1;
      new;
      InitializeDemo(now);
    }

    /**
     * `initializeDemo`: the demo user 1, databases 2-5 (all online),
     * conversation 6 and pipelines 7-12, each under the next id.
     */
    method InitializeDemo(now: int)
      requires Valid() && currentId == 1
      requires users == Empty() && databases == Empty() && conversations == Empty()
      requires messages == Empty() && pipelines == Empty() && pipelineRuns == Empty()
      modifies this
      ensures Valid() && currentId == 13
      ensures users.keys == [1] && databases.keys == [2, 3, 4, 5] && conversations.keys == [6]
      ensures pipelines.keys == [7, 8, 9, 10, 11, 12] && messages == Empty() && pipelineRuns == Empty()
      ensures users.items[1] == User(1, "demo", "demo123")
      ensures forall k :: k in databases.items ==> databases.items[k].status == "online" && databases.items[k].userId == Some(1)
      ensures conversations.items[6].userId == Some(1)
    {
      var demo := NextId();
      StoreUser(User(demo, "demo", "demo123"));
      SeedDatabases(demo, now);
      var conversation := NextId();
      StoreConversation(Conversation(conversation, "Customer data extraction pipeline", Some(demo), Some(now)));
      SeedPipelines(demo, now);
    }

    /** The four demo databases, under the next four ids. */
    method SeedDatabases(demo: int, now: int)
      requires Valid() && databases == Empty()
      modifies this
      ensures Valid() && currentId == old(currentId) + 4
      ensures databases.keys == [old(currentId), old(currentId) + 1, old(currentId) + 2, old(currentId) + 3]
      ensures forall k :: k in databases.items ==> databases.items[k].status == "online" && databases.items[k].userId == Some(demo)
      ensures users == old(users) && conversations == old(conversations)
      ensures messages == old(messages) && pipelines == old(pipelines) && pipelineRuns == old(pipelineRuns)
    {
      var snowflake := SeedDatabase("snowflake-prod", "snow-prod", "snowflake", "snowflake://prod.account.snowflakecomputing.com", demo, now);
      var databricks := SeedDatabase("databricks", "databricks-main", "databricks", "databricks://workspace.cloud.databricks.com", demo, now);
      var sqlServer := SeedDatabase("mssql-server", "sql-dev", "sqlserver", "sqlserver://dev-server:1433/database", demo, now);
      var salesforce := SeedDatabase("salesforce-crm", "sf-crm", "salesforce", "salesforce://na1.salesforce.com", demo, now);
    }

    /**
     * The six demo pipelines, ids 7-12: a production pipeline with two
     * children, then three more top-level pipelines. Source and target
     * databases are the seeded ids 2-5.
     */
    method SeedPipelines(demo: int, now: int)
      requires Valid() && pipelines == Empty() && currentId == 7
      modifies this
      ensures Valid() && currentId == 13
      ensures pipelines.keys == [7, 8, 9, 10, 11, 12]
      ensures users == old(users) && databases == old(databases) && conversations == old(conversations)
      ensures messages == old(messages) && pipelineRuns == old(pipelineRuns)
    {
      var production := SeedProductionFamily(demo, now);
      SeedAdditionalPipelines(demo, now);
    }

    /** The production pipeline and its two children, under the next three ids. */
    method SeedProductionFamily(demo: int, now: int) returns (production: int)
      requires Valid()
      modifies this
      ensures Valid() && production == old(currentId) && currentId == production + 3
      ensures pipelines.keys == old(pipelines.keys) + [production, production + 1, production + 2]
      ensures users == old(users) && databases == old(databases) && conversations == old(conversations)
      ensures messages == old(messages) && pipelineRuns == old(pipelineRuns)
    {
      var snowflake, databricks, salesforce := 2, 3, 5;
      production := SeedPipeline("Production ETL", "Main production data pipeline", "active", "0 0 * * *",
        snowflake, databricks, Config("ETL", "steps", JArr([JStr("extract"), JStr("transform"), JStr("load")])), None, demo, now);
      var customerSync := SeedPipeline("Customer Sync", "Sync customer data", "active", "0 */4 * * *",
        snowflake, databricks, Config("ETL", "table", JStr("customers")), Some(production), demo, now);
      var salesData := SeedPipeline("Sales Data", "Process sales data", "active", "0 */6 * * *",
        salesforce, snowflake, Config("ELT", "table", JStr("sales")), Some(production), demo, now);
    }

    /** The three further top-level pipelines, under the next three ids; the first is running. */
    method SeedAdditionalPipelines(demo: int, now: int)
      requires Valid()
      modifies this
      ensures Valid() && currentId == old(currentId) + 3
      ensures pipelines.keys == old(pipelines.keys) + [old(currentId), old(currentId) + 1, old(currentId) + 2]
      ensures users == old(users) && databases == old(databases) && conversations == old(conversations)
      ensures messages == old(messages) && pipelineRuns == old(pipelineRuns)
    {
      var snowflake, databricks, sqlServer, salesforce := 2, 3, 4, 5;
      var migration := SeedPipeline("Snowflake Databricks Migration", "Migrate warehouse data to Databricks", "running", "0 2 * * *",
        snowflake, databricks, Config("ETL", "migration", JStr("full_warehouse")), None, demo, now);
      var churn := SeedPipeline("SQL Server Churn Analysis Pipeline", "Customer churn analysis from SQL Server to Databricks", "active", "0 3 * * 1",
        sqlServer, databricks, Config("ETL", "analysis", JStr("customer_churn")), None, demo, now);
      var realTime := SeedPipeline("Real-time Data Sync", "Live data synchronization pipeline", "active", "*/15 * * * *",
        salesforce, snowflake, Config("ELT", "sync", JStr("real_time")), None, demo, now);
    }

    /** One online demo database owned by `userId`, under the next id. */
    method SeedDatabase(name: string, alias: string, dbType: string, connectionString: string, userId: int, now: int)
      returns (id: int)
      requires Valid()
      modifies this
      ensures Valid() && id == old(currentId) && currentId == id + 1
      ensures databases.keys == old(databases.keys) + [id]
      ensures databases.items == old(databases.items)[id := Database(id, name, Some(alias), dbType, connectionString, "online", Some(userId), Some(now))]
      ensures users == old(users) && conversations == old(conversations)
      ensures messages == old(messages) && pipelines == old(pipelines) && pipelineRuns == old(pipelineRuns)
    {
      id := NextId();
      StoreDatabase(Database(id, name, Some(alias), dbType, connectionString, "online", Some(userId), Some(now)));
    }

    /** One demo pipeline owned by `userId`, under the next id, created and updated now. */
    method SeedPipeline(name: string, description: string, status: string, schedule: string, source: int, target: int,
                        configuration: Json, parent: Option<int>, userId: int, now: int) returns (id: int)
      requires Valid()
      modifies this
      ensures Valid() && id == old(currentId) && currentId == id + 1
      ensures pipelines.keys == old(pipelines.keys) + [id]
      ensures users == old(users) && databases == old(databases) && conversations == old(conversations)
      ensures messages == old(messages) && pipelineRuns == old(pipelineRuns)
    {
      id := NextId();
      StorePipeline(Pipeline(id, name, Some(description), status, Some(schedule), Some(source), Some(target),
                             Some(configuration), Some(userId), parent, Some(now), Some(now)));
    }

    /** `this.currentId++`: hands out the current id and moves the counter on; no map changes. */
    method NextId() returns (id: int)
      requires Valid()
      modifies this
      ensures Valid()
      ensures 1 <= id == old(currentId) && currentId == id + 1 && !InUse(id)
      ensures users == old(users) && databases == old(databases) && conversations == old(conversations)
      ensures messages == old(messages) && pipelines == old(pipelines) && pipelineRuns == old(pipelineRuns)
    {
      id := currentId;
      currentId := currentId + 1;
    }

    /** `this.users.set(id, user)` for a record under an id no map holds yet. */
    method StoreUser(user: User)
      requires Valid() && 1 <= user.id < currentId && !InUse(user.id)
      modifies this
      ensures Valid() && currentId == old(currentId)
      ensures users.keys == old(users.keys) + [user.id] && users.items == old(users.items)[user.id := user]
      ensures databases == old(databases) && conversations == old(conversations) && messages == old(messages)
      ensures pipelines == old(pipelines) && pipelineRuns == old(pipelineRuns)
    {
      users := users.Set(user.id, user);
    }

    /** `this.databases.set(id, database)` for a record under an id no map holds yet. */
    method StoreDatabase(database: Database)
      requires Valid() && 1 <= database.id < currentId && !InUse(database.id)
      modifies this
      ensures Valid() && currentId == old(currentId)
      ensures databases.keys == old(databases.keys) + [database.id] && databases.items == old(databases.items)[database.id := database]
      ensures users == old(users) && conversations == old(conversations) && messages == old(messages)
      ensures pipelines == old(pipelines) && pipelineRuns == old(pipelineRuns)
    {
      databases := databases.Set(database.id, database);
    }

    /** `this.conversations.set(id, conversation)` for a record under an id no map holds yet. */
    method StoreConversation(conversation: Conversation)
      requires Valid() && 1 <= conversation.id < currentId && !InUse(conversation.id)
      modifies this
      ensures Valid() && currentId == old(currentId)
      ensures conversations.keys == old(conversations.keys) + [conversation.id] && conversations.items == old(conversations.items)[conversation.id := conversation]
      ensures users == old(users) && databases == old(databases) && messages == old(messages)
      ensures pipelines == old(pipelines) && pipelineRuns == old(pipelineRuns)
    {
      conversations := conversations.Set(conversation.id, conversation);
    }

    /** `this.messages.set(id, message)` for a record under an id no map holds yet. */
    method StoreMessage(message: Message)
      requires Valid() && 1 <= message.id < currentId && !InUse(message.id)
      modifies this
      ensures Valid() && currentId == old(currentId)
      ensures messages.keys == old(messages.keys) + [message.id] && messages.items == old(messages.items)[message.id := message]
      ensures users == old(users) && databases == old(databases) && conversations == old(conversations)
      ensures pipelines == old(pipelines) && pipelineRuns == old(pipelineRuns)
    {
      messages := messages.Set(message.id, message);
    }

    /** `this.pipelines.set(id, pipeline)` for a record under an id no map holds yet. */
    method StorePipeline(pipeline: Pipeline)
      requires Valid() && 1 <= pipeline.id < currentId && !InUse(pipeline.id)
      modifies this
      ensures Valid() && currentId == old(currentId)
      ensures pipelines.keys == old(pipelines.keys) + [pipeline.id] && pipelines.items == old(pipelines.items)[pipeline.id := pipeline]
      ensures users == old(users) && databases == old(databases) && conversations == old(conversations)
      ensures messages == old(messages) && pipelineRuns == old(pipelineRuns)
    {
      pipelines := pipelines.Set(pipeline.id, pipeline);
    }

    /** `this.pipelineRuns.set(id, run)` for a record under an id no map holds yet. */
    method StorePipelineRun(run: PipelineRun)
      requires Valid() && 1 <= run.id < currentId && !InUse(run.id)
      modifies this
      ensures Valid() && currentId == old(currentId)
      ensures pipelineRuns.keys == old(pipelineRuns.keys) + [run.id] && pipelineRuns.items == old(pipelineRuns.items)[run.id := run]
      ensures users == old(users) && databases == old(databases) && conversations == old(conversations)
      ensures messages == old(messages) && pipelines == old(pipelines)
    {
      pipelineRuns := pipelineRuns.Set(run.id, run);
    }

    // ----- users -----

    /** `getUser`: the user stored under `id`, which carries that id. */
    function GetUser(id: int): (r: Option<User>)
      requires Valid()
      reads this
      ensures r.Some? <==> id in users.items
      ensures r.Some? ==> r.value.id == id
    {
      users.Get(id)
    }

    /**
     * `getUserByUsername`: the first user, in insertion order, with that
     * username; `None` exactly when no stored user has it.
     */
    function GetUserByUsername(username: string): (r: Option<User>)
      requires Valid()
      reads this
      ensures r.None? <==> forall k :: k in users.items ==> users.items[k].username != username
      ensures r.Some? ==> r.value.username == username && r.value.id in users.items && users.items[r.value.id] == r.value
      ensures r.Some? ==> forall i :: 0 <= i < |users.keys| && users.keys[i] == r.value.id ==>
                            forall j :: 0 <= j < i ==> users.items[users.keys[j]].username != username
    {
      var p := HasUsername(username);
      assert forall k :: k in users.items ==> UserId(users.items[k]) == k;
      FoundFirst(users, UserId, p);
      Find(users.Values(), p)
    }

    /** `createUser`: a new user under a fresh id, the old counter value. */
    method CreateUser(insert: InsertUser) returns (user: User)
      requires Valid()
      modifies this
      ensures Valid()
      ensures user == User(old(currentId), insert.username, insert.password)
      ensures !old(InUse(user.id)) && currentId == old(currentId) + 1
      ensures users == old(users).Set(user.id, user)
      ensures databases == old(databases) && conversations == old(conversations)
      ensures messages == old(messages) && pipelines == old(pipelines) && pipelineRuns == old(pipelineRuns)
    {
      var id := NextId();
      user := User(id, insert.username, insert.password);
      StoreUser(user);
    }

    // ----- databases -----

    /** `getDatabase`: the database stored under `id`, which carries that id. */
    function GetDatabase(id: int): (r: Option<Database>)
      requires Valid()
      reads this
      ensures r.Some? <==> id in databases.items
      ensures r.Some? ==> r.value.id == id
    {
      databases.Get(id)
    }

    /** `getDatabasesByUserId`: exactly the databases of that user, in insertion order. */
    function GetDatabasesByUserId(userId: int): (r: seq<Database>)
      requires Valid()
      reads this
      ensures forall d :: d in r <==> d.id in databases.items && databases.items[d.id] == d && d.userId == Some(userId)
    {
      var p := (d: Database) => d.userId == Some(userId);
      assert forall k :: k in databases.items ==> DatabaseId(databases.items[k]) == k;
      Selected(databases, DatabaseId, p);
      Where(databases.Values(), p)
    }

    /** `createDatabase`: a new database under a fresh id, always `"offline"` whatever the input. */
    method CreateDatabase(insert: InsertDatabase, now: int) returns (database: Database)
      requires Valid()
      modifies this
      ensures Valid()
      ensures database == Database(old(currentId), insert.name, insert.alias, insert.dbType, insert.connectionString,
                                   "offline", insert.userId, Some(now))
      ensures !old(InUse(database.id)) && currentId == old(currentId) + 1
      ensures databases == old(databases).Set(database.id, database)
      ensures users == old(users) && conversations == old(conversations)
      ensures messages == old(messages) && pipelines == old(pipelines) && pipelineRuns == old(pipelineRuns)
    {
      var id := NextId();
      database := Database(id, insert.name, insert.alias, insert.dbType, insert.connectionString, "offline", insert.userId, Some(now));
      StoreDatabase(database);
    }

    /**
     * `updateDatabase`: when the id is stored, replaces its alias if one is
     * given and returns the record; otherwise returns `None` and changes nothing.
     */
    method UpdateDatabase(id: int, alias: Option<string>) returns (r: Option<Database>)
      requires Valid()
      modifies this
      ensures Valid()
      ensures id !in old(databases.items) ==> r == None && databases == old(databases)
      ensures id in old(databases.items) ==>
                r == Some(if alias.Some? then old(databases.items[id]).(alias := alias) else old(databases.items[id]))
                && databases == old(databases).Set(id, r.value)
      ensures users == old(users) && conversations == old(conversations) && currentId == old(currentId)
      ensures messages == old(messages) && pipelines == old(pipelines) && pipelineRuns == old(pipelineRuns)
    {
      var found := databases.Get(id);
      if found.Some? {
        var database := found.value;
        if alias.Some? {
          database := database.(alias := alias);
        }
        databases := databases.Set(id, database);
        return Some(database);
      }
      return None;
    }

    /**
     * `updateDatabaseStatus`: when the id is stored, sets only its status and
     * returns the record; otherwise returns `None` and changes nothing.
     */
    method UpdateDatabaseStatus(id: int, status: string) returns (r: Option<Database>)
      requires Valid()
      modifies this
      ensures Valid()
      ensures id !in old(databases.items) ==> r == None && databases == old(databases)
      ensures id in old(databases.items) ==>
                r == Some(old(databases.items[id]).(status := status)) && databases == old(databases).Set(id, r.value)
      ensures users == old(users) && conversations == old(conversations) && currentId == old(currentId)
      ensures messages == old(messages) && pipelines == old(pipelines) && pipelineRuns == old(pipelineRuns)
    {
      r := databases.Get(id);
      if r.Some? {
        r := Some(r.value.(status := status));
        databases := databases.Set(id, r.value);
      }
    }

    // ----- conversations and messages -----

    /** `getConversation`: the conversation stored under `id`, which carries that id. */
    function GetConversation(id: int): (r: Option<Conversation>)
      requires Valid()
      reads this
      ensures r.Some? <==> id in conversations.items
      ensures r.Some? ==> r.value.id == id
    {
      conversations.Get(id)
    }

    /** `getConversationsByUserId`: exactly that user's conversations, newest first, ties in insertion order. */
    function GetConversationsByUserId(userId: int): (r: seq<Conversation>)
      requires Valid()
      reads this
      ensures SortedDesc(r, ConversationTime)
      ensures forall c :: c in r <==> c.id in conversations.items && conversations.items[c.id] == c && c.userId == Some(userId)
    {
      var p := (c: Conversation) => c.userId == Some(userId);
      var mine := Where(conversations.Values(), p);
      assert forall k :: k in conversations.items ==> ConversationId(conversations.items[k]) == k;
      Selected(conversations, ConversationId, p);
      SortDescMembers(mine, ConversationTime);
      SortDesc(mine, ConversationTime)
    }

    /** `createConversation`: a new conversation under a fresh id, created now. */
    method CreateConversation(insert: InsertConversation, now: int) returns (conversation: Conversation)
      requires Valid()
      modifies this
      ensures Valid()
      ensures conversation == Conversation(old(currentId), insert.title, insert.userId, Some(now))
      ensures !old(InUse(conversation.id)) && currentId == old(currentId) + 1
      ensures conversations == old(conversations).Set(conversation.id, conversation)
      ensures users == old(users) && databases == old(databases)
      ensures messages == old(messages) && pipelines == old(pipelines) && pipelineRuns == old(pipelineRuns)
    {
      var id := NextId();
      conversation := Conversation(id, insert.title, insert.userId, Some(now));
      StoreConversation(conversation);
    }

    /** `getMessagesByConversationId`: exactly that conversation's messages, oldest first, ties in insertion order. */
    function GetMessagesByConversationId(conversationId: int): (r: seq<Message>)
      requires Valid()
      reads this
      ensures Chronological(r)
      ensures forall m :: m in r <==> m.id in messages.items && messages.items[m.id] == m && m.conversationId == Some(conversationId)
    {
      assert forall k :: k in messages.items ==> MessageId(messages.items[k]) == k;
      ConversationMessages(messages, conversationId);
      SortDesc(Where(messages.Values(), InConversation(conversationId)), MessageTimeNegated)
    }

    /** `createMessage`: a new message under a fresh id, created now. */
    method CreateMessage(insert: InsertMessage, now: int) returns (message: Message)
      requires Valid()
      modifies this
      ensures Valid()
      ensures message == Message(old(currentId), insert.conversationId, insert.role, insert.content, insert.metadata, Some(now))
      ensures !old(InUse(message.id)) && currentId == old(currentId) + 1
      ensures messages == old(messages).Set(message.id, message)
      ensures users == old(users) && databases == old(databases)
      ensures conversations == old(conversations) && pipelines == old(pipelines) && pipelineRuns == old(pipelineRuns)
    {
      var id := NextId();
      message := Message(id, insert.conversationId, insert.role, insert.content, insert.metadata, Some(now));
      StoreMessage(message);
    }

    // ----- pipelines -----

    /** `getPipeline`: the pipeline stored under `id`, which carries that id. */
    function GetPipeline(id: int): (r: Option<Pipeline>)
      requires Valid()
      reads this
      ensures r.Some? <==> id in pipelines.items
      ensures r.Some? ==> r.value.id == id
    {
      pipelines.Get(id)
    }

    /** `getPipelinesByUserId`: exactly the pipelines of that user, in insertion order. */
    function GetPipelinesByUserId(userId: int): (r: seq<Pipeline>)
      requires Valid()
      reads this
      ensures forall p :: p in r <==> p.id in pipelines.items && pipelines.items[p.id] == p && p.userId == Some(userId)
    {
      var p := (p: Pipeline) => p.userId == Some(userId);
      assert forall k :: k in pipelines.items ==> PipelineId(pipelines.items[k]) == k;
      Selected(pipelines, PipelineId, p);
      Where(pipelines.Values(), p)
    }

    /** `getPipelinesByParentId`: exactly the children of that pipeline, in insertion order. */
    function GetPipelinesByParentId(parentId: int): (r: seq<Pipeline>)
      requires Valid()
      reads this
      ensures forall p :: p in r <==> p.id in pipelines.items && pipelines.items[p.id] == p && p.parentPipelineId == Some(parentId)
    {
      var p := (p: Pipeline) => p.parentPipelineId == Some(parentId);
      assert forall k :: k in pipelines.items ==> PipelineId(pipelines.items[k]) == k;
      Selected(pipelines, PipelineId, p);
      Where(pipelines.Values(), p)
    }

    /** `createPipeline`: a new pipeline under a fresh id, always `"inactive"`, created and updated now. */
    method CreatePipeline(insert: InsertPipeline, now: int) returns (pipeline: Pipeline)
      requires Valid()
      modifies this
      ensures Valid()
      ensures pipeline == Pipeline(old(currentId), insert.name, insert.description, "inactive", insert.schedule,
                                   insert.sourceDbId, insert.targetDbId, insert.configuration, insert.userId,
                                   insert.parentPipelineId, Some(now), Some(now))
      ensures !old(InUse(pipeline.id)) && currentId == old(currentId) + 1
      ensures pipelines == old(pipelines).Set(pipeline.id, pipeline)
      ensures users == old(users) && databases == old(databases)
      ensures conversations == old(conversations) && messages == old(messages) && pipelineRuns == old(pipelineRuns)
    {
      var id := NextId();
      pipeline := Pipeline(id, insert.name, insert.description, "inactive", insert.schedule, insert.sourceDbId,
                           insert.targetDbId, insert.configuration, insert.userId, insert.parentPipelineId, Some(now), Some(now));
      StorePipeline(pipeline);
    }

    /**
     * `updatePipelineStatus`: when the id is stored, sets its status and
     * `updatedAt` and returns the record; otherwise returns `None` and changes nothing.
     */
    method UpdatePipelineStatus(id: int, status: string, now: int) returns (r: Option<Pipeline>)
      requires Valid()
      modifies this
      ensures Valid()
      ensures id !in old(pipelines.items) ==> r == None && pipelines == old(pipelines)
      ensures id in old(pipelines.items) ==>
                r == Some(old(pipelines.items[id]).(status := status, updatedAt := Some(now)))
                && pipelines == old(pipelines).Set(id, r.value)
      ensures users == old(users) && databases == old(databases) && currentId == old(currentId)
      ensures conversations == old(conversations) && messages == old(messages) && pipelineRuns == old(pipelineRuns)
    {
      r := pipelines.Get(id);
      if r.Some? {
        r := Some(r.value.(status := status, updatedAt := Some(now)));
        pipelines := pipelines.Set(id, r.value);
      }
    }

    // ----- pipeline runs -----

    /**
     * `getPipelineRunsByPipelineId`: that pipeline's runs, latest start
     * first, ties in insertion order; each stored run appears as often as
     * it is stored.
     */
    function GetPipelineRunsByPipelineId(pipelineId: int): (r: seq<PipelineRun>)
      requires Valid()
      reads this
      ensures SortedDesc(r, RunTime)
      ensures multiset(r) == multiset(Where(pipelineRuns.Values(), RunOf(pipelineId)))
      ensures forall run :: run in r <==> run in pipelineRuns.Values() && run.pipelineId == Some(pipelineId)
    {
      var mine := Where(pipelineRuns.Values(), RunOf(pipelineId));
      SortDescMembers(mine, RunTime);
      SortDesc(mine, RunTime)
    }

    /** `createPipelineRun`: a new run under a fresh id, started now. */
    method CreatePipelineRun(insert: InsertPipelineRun, now: int) returns (run: PipelineRun)
      requires Valid()
      modifies this
      ensures Valid()
      ensures run == PipelineRun(old(currentId), insert.pipelineId, insert.status, Some(now), None, insert.logs, insert.rowsProcessed)
      ensures !old(InUse(run.id)) && currentId == old(currentId) + 1
      ensures pipelineRuns == old(pipelineRuns).Set(run.id, run)
      ensures users == old(users) && databases == old(databases)
      ensures conversations == old(conversations) && messages == old(messages) && pipelines == old(pipelines)
    {
      var id := NextId();
      run := PipelineRun(id, insert.pipelineId, insert.status, Some(now), None, insert.logs, insert.rowsProcessed);
      StorePipelineRun(run);
    }

    /**
     * `updatePipelineRun`: when the id is stored, overwrites the run with
     * every property of the update (its `id` included) and returns it;
     * otherwise returns `None` and changes nothing.
     */
    method UpdatePipelineRun(id: int, updates: RunUpdate) returns (r: Option<PipelineRun>)
      requires Valid()
      modifies this
      ensures Valid()
      ensures id !in old(pipelineRuns.items) ==> r == None && pipelineRuns == old(pipelineRuns)
      ensures id in old(pipelineRuns.items) ==>
                r == Some(Assign(old(pipelineRuns.items[id]), updates)) && pipelineRuns == old(pipelineRuns).Set(id, r.value)
      ensures users == old(users) && databases == old(databases) && currentId == old(currentId)
      ensures conversations == old(conversations) && messages == old(messages) && pipelines == old(pipelines)
    {
      r := pipelineRuns.Get(id);
      if r.Some? {
        r := Some(Assign(r.value, updates));
        pipelineRuns := pipelineRuns.Set(id, r.value);
      }
    }

    /** Messages created at the same moment keep their insertion order in `getMessagesByConversationId`. */
    lemma MessageTies(conversationId: int, t: int)
      requires Valid()
      ensures WithKey(GetMessagesByConversationId(conversationId), MessageTimeNegated, t)
              == WithKey(Where(messages.Values(), InConversation(conversationId)), MessageTimeNegated, t)
    {
      SortDescStable(Where(messages.Values(), InConversation(conversationId)), MessageTimeNegated, t);
    }

    /** Runs started at the same moment keep their insertion order in `getPipelineRunsByPipelineId`. */
    lemma RunTies(pipelineId: int, t: int)
      requires Valid()
      ensures WithKey(GetPipelineRunsByPipelineId(pipelineId), RunTime, t)
              == WithKey(Where(pipelineRuns.Values(), RunOf(pipelineId)), RunTime, t)
    {
      SortDescStable(Where(pipelineRuns.Values(), RunOf(pipelineId)), RunTime, t);
    }
  }

  /** Every value listed by a map is the entry of the key at the same position. */
  lemma ValuesAreStored<V>(m: JsMap<int, V>)
    requires m.Valid()
    ensures forall v :: v in m.Values() <==> exists k :: k in m.items && m.items[k] == v
  {
    var vs := m.Values();
    forall v
      ensures v in vs <==> exists k :: k in m.items && m.items[k] == v
    {
      if v in vs {
        var i :| 0 <= i < |vs| && vs[i] == v;
        assert m.keys[i] in m.items;
      }
      if exists k :: k in m.items && m.items[k] == v {
        var k :| k in m.items && m.items[k] == v;
        var i :| 0 <= i < |m.keys| && m.keys[i] == k;
        assert vs[i] == v;
      }
    }
  }

  /** Filtering the values of a map keyed by id selects exactly the stored records that satisfy `p`. */
  lemma Selected<V(!new)>(m: JsMap<int, V>, id: V -> int, p: V -> bool)
    requires m.Valid() && forall k :: k in m.items ==> id(m.items[k]) == k
    ensures forall v :: v in Where(m.Values(), p) <==> id(v) in m.items && m.items[id(v)] == v && p(v)
  {
    ValuesAreStored(m);
  }

  /** The messages of one conversation, sorted by negated creation time: oldest first, and exactly the stored ones of that conversation. */
  lemma ConversationMessages(m: JsMap<int, Message>, conversationId: int)
    requires m.Valid() && forall k :: k in m.items ==> MessageId(m.items[k]) == k
    ensures var r := SortDesc(Where(m.Values(), InConversation(conversationId)), MessageTimeNegated);
            && Chronological(r)
            && forall x :: x in r <==> x.id in m.items && m.items[x.id] == x && x.conversationId == Some(conversationId)
  {
    var p := InConversation(conversationId);
    var mine := Where(m.Values(), p);
    Selected(m, MessageId, p);
    SortDescMembers(mine, MessageTimeNegated);
    OldestFirst(SortDesc(mine, MessageTimeNegated));
  }
}
