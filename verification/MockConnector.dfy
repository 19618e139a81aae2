/**
 * The stand-ins MCPBroker uses for a real database: the schema it reports
 * for each database type (getMockSchema) and the rows it returns for a
 * query (executeMockQuery). The simulated execution time, random in the
 * source, is a parameter.
 */
module MockConnector {
  import opened Wrappers
  import opened JsText
  import opened JsMaps
  import opened JsonValues
  import opened DatabaseTypes
  import opened SchemaDiff

  function Col(name: string, colType: string, nullable: bool): ColumnInfo {
    ColumnInfo(name, colType, nullable, None, None, None)
  }

  function KeyCol(name: string, colType: string): ColumnInfo {
    ColumnInfo(name, colType, false, Some(true), None, None)
  }

  function RefCol(name: string, colType: string, nullable: bool): ColumnInfo {
    ColumnInfo(name, colType, nullable, None, Some(true), None)
  }

  function Table(name: string, columns: seq<ColumnInfo>): TableInfo {
    TableInfo(name, columns, None)
  }

  const UsersTable := Table("users", [
    KeyCol("id", "INTEGER"),
    Col("name", "VARCHAR(255)", false),
    Col("email", "VARCHAR(255)", false),
    Col("created_at", "TIMESTAMP", false)])

  const OrdersTable := Table("orders", [
    KeyCol("id", "INTEGER"),
    RefCol("user_id", "INTEGER", false),
    Col("total", "DECIMAL(10,2)", false),
    Col("status", "VARCHAR(50)", false),
    Col("created_at", "TIMESTAMP", false)])

  const WarehouseAnalyticsTable := Table("warehouse_analytics", [
    KeyCol("warehouse_id", "VARCHAR(100)"),
    Col("query_count", "NUMBER(38,0)", false),
    Col("execution_time", "NUMBER(38,3)", false),
    Col("date", "DATE", false)])

  const MlModelsTable := Table("ml_models", [
    KeyCol("model_id", "STRING"),
    Col("model_name", "STRING", false),
    Col("accuracy", "DOUBLE", true),
    Col("created_at", "TIMESTAMP", false)])

  const AccountTable := Table("Account", [
    KeyCol("Id", "ID"),
    Col("Name", "STRING", false),
    Col("Industry", "PICKLIST", true),
    Col("CreatedDate", "DATETIME", false)])

  const ContactTable := Table("Contact", [
    KeyCol("Id", "ID"),
    Col("FirstName", "STRING", true),
    Col("LastName", "STRING", false),
    Col("Email", "EMAIL", true),
    RefCol("AccountId", "REFERENCE", true)])

  /** getMockSchema: `users` and `orders`, plus one table for Snowflake and Databricks; Salesforce has its own two objects. */
  function MockSchema(dbType: string): (s: SchemaInfo)
    ensures s.views == [] && s.procedures == [] && !s.includeData
    ensures |s.tables| == if dbType == "snowflake" || dbType == "databricks" then 3 else 2
    ensures dbType == "salesforce" ==> s.tables == [AccountTable, ContactTable]
    ensures dbType != "salesforce" ==> s.tables[..2] == [UsersTable, OrdersTable]
  {
    var base := [UsersTable, OrdersTable];
    var tables :=
      if dbType == "snowflake" then base + [WarehouseAnalyticsTable]
      else if dbType == "databricks" then base + [MlModelsTable]
      else if dbType == "salesforce" then [AccountTable, ContactTable]
      else base;
    SchemaInfo(tables, [], [], false)
  }

  lemma BaseTablesIndexed()
    ensures IndexBy([UsersTable, OrdersTable], TableName)
            == BaseIndex
  {
    IndexBySnoc([], UsersTable, TableName);
    IndexBySnoc([UsersTable], OrdersTable, TableName);
    assert [UsersTable] == [] + [UsersTable];
    assert [UsersTable, OrdersTable] == [UsersTable] + [OrdersTable];
    assert "orders" != "users";
  }

  lemma SnowflakeTablesIndexed()
    ensures IndexBy([UsersTable, OrdersTable, WarehouseAnalyticsTable], TableName)
            == SnowflakeIndex
  {
    BaseTablesIndexed();
    IndexBySnoc([UsersTable, OrdersTable], WarehouseAnalyticsTable, TableName);
    assert [UsersTable, OrdersTable, WarehouseAnalyticsTable] == [UsersTable, OrdersTable] + [WarehouseAnalyticsTable];
    assert "warehouse_analytics" != "users" && "warehouse_analytics" != "orders";
  }

  const BaseIndex := JsMap(["users", "orders"], map["users" := UsersTable, "orders" := OrdersTable])

  const SnowflakeIndex := JsMap(["users", "orders", "warehouse_analytics"],
    map["users" := UsersTable, "orders" := OrdersTable, "warehouse_analytics" := WarehouseAnalyticsTable])

  lemma SnowflakeAdded(now: int)
    ensures Collect(SnowflakeIndex.keys, TableStep(TableAdded, BaseIndex.items, now))
            == [TableEvent(TableAdded, "warehouse_analytics", now)]
  {
    var fa := TableStep(TableAdded, BaseIndex.items, now);
    assert SnowflakeIndex.keys[..2] == ["users", "orders"] && SnowflakeIndex.keys[..2][..1] == ["users"];
    assert fa("users") == [] && fa("orders") == [];
    assert "warehouse_analytics" !in BaseIndex.items;
  }

  lemma SnowflakeRemoved(now: int)
    ensures Collect(BaseIndex.keys, TableStep(TableRemoved, SnowflakeIndex.items, now)) == []
  {
    var fr := TableStep(TableRemoved, SnowflakeIndex.items, now);
    assert BaseIndex.keys[..1] == ["users"];
    assert fr("users") == [] && fr("orders") == [];
  }

  lemma SnowflakeColumns(now: int)
    ensures Collect(SnowflakeIndex.keys, TableColumnsStep(BaseIndex.items, SnowflakeIndex.items, now)) == []
  {
    UnchangedTablesNoColumnChanges(SnowflakeIndex.keys, BaseIndex.items, SnowflakeIndex.items, now);
  }

  /** Moving from the SQL Server mock schema to the Snowflake one adds exactly the analytics table. */
  lemma SqlServerToSnowflake(now: int)
    ensures Diff(MockSchema("sqlserver"), MockSchema("snowflake"), now)
            == [TableEvent(TableAdded, "warehouse_analytics", now)]
  {
    assert MockSchema("sqlserver").tables == [UsersTable, OrdersTable];
    assert MockSchema("snowflake").tables == [UsersTable, OrdersTable, WarehouseAnalyticsTable];
    BaseTablesIndexed();
    SnowflakeTablesIndexed();
    SnowflakeAdded(now);
    SnowflakeRemoved(now);
    SnowflakeColumns(now);
  }


  // ----- query execution -----

  function Obj(members: seq<(string, Json)>): Json { JObj(members) }

  const UserRows := [
    Obj([("id", JNum(1.0)), ("name", JStr("John Doe")), ("email", JStr("john@example.com")),
         ("created_at", JStr("2024-01-15T10:30:00Z"))]),
    Obj([("id", JNum(2.0)), ("name", JStr("Jane Smith")), ("email", JStr("jane@example.com")),
         ("created_at", JStr("2024-01-16T14:22:00Z"))])]

  const OrderRows := [
    Obj([("id", JNum(101.0)), ("user_id", JNum(1.0)), ("total", JNum(299.99)), ("status", JStr("completed")),
         ("created_at", JStr("2024-01-20T09:15:00Z"))]),
    Obj([("id", JNum(102.0)), ("user_id", JNum(2.0)), ("total", JNum(199.50)), ("status", JStr("pending")),
         ("created_at", JStr("2024-01-21T16:45:00Z"))])]

  /** The rows the mock returns for a query, decided on the lower-cased, trimmed text. */
  function MockRows(query: string): (rows: seq<Json>)
    ensures 1 <= |rows| <= 2
  {
    var q := Trim(ToLower(query));
    if Contains(q, "select") && Contains(q, "users") then UserRows
    else if Contains(q, "select") && Contains(q, "orders") then OrderRows
    else if Contains(q, "count") then [Obj([("count", JNum(42.0))])]
    else [Obj([("result", JStr("Query executed successfully"))])]
  }

  /** executeMockQuery: the mock rows, their number, the query and parameters as given, and the simulated time. */
  function ExecuteMockQuery(query: string, parameters: string, mockTime: real): (r: QueryResult)
    ensures r.rowCount == |r.rows| && r.rows == MockRows(query)
    ensures r.query == query && r.parameters == Some(parameters) && r.executionTime == Some(mockTime)
  {
    QueryResult(MockRows(query), |MockRows(query)|, query, Some(parameters), Some(mockTime))
  }

  /** The mock ignores letter case: a query and its lower-cased text get the same rows. */
  lemma MockRowsIgnoreCase(query: string)
    ensures MockRows(ToLower(query)) == MockRows(query)
  {
    ToLowerIdempotent(query);
  }
}
