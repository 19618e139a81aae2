/**
 * The shapes exchanged between the services (server/types/database.ts):
 * schema descriptions, query results and database configurations.
 * Timestamps are milliseconds since the epoch; query parameter lists are
 * carried as their `JSON.stringify` text.
 */
module DatabaseTypes {
  import opened Wrappers
  import opened JsonValues

  /** A column default: a SQL literal, `null` included. */
  datatype Scalar = SNull | SBool(b: bool) | SNum(n: real) | SStr(s: string)

  datatype ColumnInfo = ColumnInfo(
    name: string,
    colType: string,
    nullable: bool,
    primaryKey: Option<bool>,
    foreignKey: Option<bool>,
    defaultValue: Option<Scalar>)

  datatype TableInfo = TableInfo(name: string, columns: seq<ColumnInfo>, rowCount: Option<int>)

  datatype ViewInfo = ViewInfo(name: string, definition: string, columns: seq<ColumnInfo>)

  datatype Direction = In | Out | InOut

  datatype ParameterInfo = ParameterInfo(name: string, paramType: string, direction: Direction, required: bool)

  datatype ProcedureInfo = ProcedureInfo(name: string, parameters: seq<ParameterInfo>, returnType: Option<string>)

  datatype SchemaInfo = SchemaInfo(
    tables: seq<TableInfo>,
    views: seq<ViewInfo>,
    procedures: seq<ProcedureInfo>,
    includeData: bool)

  datatype QueryResult = QueryResult(
    rows: seq<Json>,
    rowCount: int,
    query: string,
    parameters: Option<string>,
    executionTime: Option<real>)

  datatype DatabaseConfig = DatabaseConfig(
    id: int,
    name: string,
    dbType: string,
    connectionString: string,
    status: string)

  function TableName(t: TableInfo): string { t.name }

  function ColumnName(c: ColumnInfo): string { c.name }
}
