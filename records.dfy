// The back end's transfer records (com.ora2pg.migration.model) and the JPA
// entities the project mapper copies them to. Every reference-typed Java field
// may be null, so each is an Option; primitives are plain values.

module Model {
  import opened JavaStr

  datatype ColumnMapping = ColumnMapping(
    id: Option<string>,
    sourceColumn: Option<string>,
    sourceDataType: Option<string>,
    sourceDataLength: Option<int>,
    sourceDataPrecision: Option<int>,
    sourceDataScale: Option<int>,
    targetColumn: Option<string>,
    targetDataType: Option<string>,
    targetDataLength: Option<int>,
    targetDataPrecision: Option<int>,
    targetDataScale: Option<int>,
    transformation: Option<string>,
    nullable: Option<bool>,
    isPrimaryKey: Option<bool>,
    isForeignKey: Option<bool>)

  datatype TableMapping = TableMapping(
    id: Option<string>,
    sourceTable: Option<string>,
    sourceSchema: Option<string>,
    targetTable: Option<string>,
    targetSchema: Option<string>,
    enabled: Option<bool>,
    columnMappings: Option<seq<ColumnMapping>>,
    status: Option<string>,
    filterCondition: Option<string>,
    dropBeforeInsert: Option<bool>,
    truncateBeforeInsert: Option<bool>,
    partitionColumn: Option<string>,
    chunkSize: Option<int>,
    chunkWorkers: Option<int>,
    partitionMinValue: Option<string>,
    partitionMaxValue: Option<string>)

  datatype ConnectionConfig = ConnectionConfig(
    dbType: Option<string>,
    host: Option<string>,
    port: Option<int>,
    database: Option<string>,
    schema: Option<string>,
    username: Option<string>,
    password: Option<string>,
    connectionString: Option<string>,
    isConnected: Option<bool>)

  datatype Project = Project(
    id: Option<string>,
    name: Option<string>,
    description: Option<string>,
    createdAt: Option<int>,
    updatedAt: Option<int>,
    sourceConnection: Option<ConnectionConfig>,
    targetConnection: Option<ConnectionConfig>,
    tableMappings: Option<seq<TableMapping>>,
    status: Option<string>)

  datatype AppSettings = AppSettings(
    parallelJobs: Option<int>,
    batchSize: Option<int>,
    commitInterval: Option<int>,
    smtpEnabled: Option<bool>,
    smtpHost: Option<string>,
    smtpPort: Option<int>,
    smtpUser: Option<string>,
    smtpPassword: Option<string>,
    smtpFromEmail: Option<string>,
    notifyOnComplete: Option<bool>,
    notifyOnError: Option<bool>,
    logLevel: Option<string>,
    logRetentionDays: Option<int>,
    logToFile: Option<bool>,
    logFilePath: Option<string>,
    truncateTarget: Option<bool>,
    disableConstraints: Option<bool>,
    preserveSequences: Option<bool>,
    skipErrors: Option<bool>,
    maxErrors: Option<int>,
    autoCommit: Option<bool>,
    tableNameFilter: Option<string>)

  /** A column of a discovered Oracle table. */
  datatype ColumnInfo = ColumnInfo(
    columnName: Option<string>,
    dataType: Option<string>,
    dataLength: Option<int>,
    dataPrecision: Option<int>,
    dataScale: Option<int>,
    nullable: Option<bool>,
    isPrimaryKey: Option<bool>,
    isForeignKey: Option<bool>)

  /** A discovered Oracle table. */
  datatype TableInfo = TableInfo(
    tableName: Option<string>,
    schema: Option<string>,
    columns: Option<seq<ColumnInfo>>)
}

module Entities {
  import opened JavaStr

  datatype ColumnMappingEntity = ColumnMappingEntity(
    id: Option<string>,
    sourceColumn: Option<string>,
    sourceDataType: Option<string>,
    sourceDataLength: Option<int>,
    sourceDataPrecision: Option<int>,
    sourceDataScale: Option<int>,
    targetColumn: Option<string>,
    targetDataType: Option<string>,
    targetDataLength: Option<int>,
    targetDataPrecision: Option<int>,
    targetDataScale: Option<int>,
    transformation: Option<string>,
    nullable: Option<bool>,
    isPrimaryKey: Option<bool>,
    isForeignKey: Option<bool>)

  /**
   * The table-mapping entity, with the partition fields the project mapper
   * reads and writes (chunking settings) declared on it.
   */
  datatype TableMappingEntity = TableMappingEntity(
    id: Option<string>,
    sourceTable: Option<string>,
    sourceSchema: Option<string>,
    targetTable: Option<string>,
    targetSchema: Option<string>,
    enabled: Option<bool>,
    status: Option<string>,
    filterCondition: Option<string>,
    dropBeforeInsert: Option<bool>,
    truncateBeforeInsert: Option<bool>,
    partitionColumn: Option<string>,
    chunkSize: Option<int>,
    chunkWorkers: Option<int>,
    partitionMinValue: Option<string>,
    partitionMaxValue: Option<string>,
    projectId: Option<string>,
    columnMappings: seq<ColumnMappingEntity>)

  datatype ConnectionConfigEntity = ConnectionConfigEntity(
    dbType: Option<string>,
    host: Option<string>,
    port: Option<int>,
    database: Option<string>,
    schema: Option<string>,
    username: Option<string>,
    password: Option<string>,
    connectionString: Option<string>,
    isConnected: Option<bool>,
    connectionType: Option<string>)

  datatype ProjectEntity = ProjectEntity(
    id: Option<string>,
    name: Option<string>,
    description: Option<string>,
    createdAt: Option<int>,
    updatedAt: Option<int>,
    status: Option<string>,
    ownerId: string,
    connections: seq<ConnectionConfigEntity>,
    tableMappings: seq<TableMappingEntity>)
}
