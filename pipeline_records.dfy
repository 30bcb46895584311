// The pg2pg pipeline transfer records (com.ora2pg.migration.model.pg2pg) and
// their JPA entities. As in records.dfy every reference-typed Java field is
// an Option; an entity's link to its parent is kept as the parent's id.

module PipelineModel {
  import opened JavaStr
  import Model

  datatype Pg2PgColumnMapping = Pg2PgColumnMapping(
    id: Option<string>,
    sourceColumn: Option<string>,
    sourceDataType: Option<string>,
    targetColumn: Option<string>,
    targetDataType: Option<string>,
    transformationType: Option<string>,
    transformation: Option<string>,
    description: Option<string>,
    nullable: Option<bool>,
    isPrimaryKey: Option<bool>,
    isForeignKey: Option<bool>,
    pipelineStepId: Option<string>)

  datatype PipelineStep = PipelineStep(
    id: Option<string>,
    order: Option<int>,
    sourceSchema: Option<string>,
    sourceTable: Option<string>,
    targetSchema: Option<string>,
    targetTable: Option<string>,
    description: Option<string>,
    status: Option<string>,
    filterEnabled: Option<bool>,
    filterWhereClause: Option<string>,
    filterDescription: Option<string>,
    disableTriggers: Option<bool>,
    disableConstraints: Option<bool>,
    pipelineId: Option<string>,
    columnMappings: Option<seq<Pg2PgColumnMapping>>)

  datatype Pipeline = Pipeline(
    id: Option<string>,
    name: Option<string>,
    description: Option<string>,
    createdAt: Option<int>,
    updatedAt: Option<int>,
    status: Option<string>,
    userId: Option<string>,
    steps: Option<seq<PipelineStep>>,
    sourceConnection: Option<Model.ConnectionConfig>,
    targetConnection: Option<Model.ConnectionConfig>,
    totalRuns: Option<int>,
    lastRunAt: Option<int>)

  datatype PipelineExecution = PipelineExecution(
    id: Option<string>,
    pipelineId: Option<string>,
    status: Option<string>,
    startTime: Option<int>,
    endTime: Option<int>,
    totalRows: Option<int>,
    processedRows: Option<int>,
    failedRows: Option<int>,
    errorMessage: Option<string>)

  datatype PipelineLog = PipelineLog(
    id: Option<string>,
    pipelineId: Option<string>,
    executionId: Option<string>,
    timestamp: Option<int>,
    level: Option<string>,
    message: Option<string>,
    details: Option<string>,
    stepId: Option<string>)
}

module PipelineEntities {
  import opened JavaStr

  datatype Pg2PgColumnMappingEntity = Pg2PgColumnMappingEntity(
    id: Option<string>,
    sourceColumn: Option<string>,
    sourceDataType: Option<string>,
    targetColumn: Option<string>,
    targetDataType: Option<string>,
    transformationType: Option<string>,
    transformation: Option<string>,
    description: Option<string>,
    nullable: Option<bool>,
    isPrimaryKey: Option<bool>,
    isForeignKey: Option<bool>)

  datatype PipelineStepEntity = PipelineStepEntity(
    id: Option<string>,
    stepOrder: Option<int>,
    sourceSchema: Option<string>,
    sourceTable: Option<string>,
    targetSchema: Option<string>,
    targetTable: Option<string>,
    description: Option<string>,
    status: Option<string>,
    filterEnabled: Option<bool>,
    filterWhereClause: Option<string>,
    filterDescription: Option<string>,
    disableTriggers: Option<bool>,
    disableConstraints: Option<bool>,
    columnMappings: seq<Pg2PgColumnMappingEntity>)

  /**
   * The generated equals of a step entity compares every field except the
   * parent pipeline and the column mappings.
   */
  predicate SameStep(a: PipelineStepEntity, b: PipelineStepEntity)
  {
    a.(columnMappings := []) == b.(columnMappings := [])
  }

  datatype PipelineConnectionEntity = PipelineConnectionEntity(
    id: Option<string>,
    dbType: Option<string>,
    host: Option<string>,
    port: Option<int>,
    database: Option<string>,
    schema: Option<string>,
    username: Option<string>,
    password: Option<string>,
    connectionString: Option<string>,
    isConnected: Option<bool>,
    connectionType: Option<string>)

  datatype PipelineEntity = PipelineEntity(
    id: Option<string>,
    name: Option<string>,
    description: Option<string>,
    createdAt: Option<int>,
    updatedAt: Option<int>,
    status: Option<string>,
    ownerId: string,
    steps: seq<PipelineStepEntity>,
    connections: seq<PipelineConnectionEntity>,
    totalRuns: Option<int>,
    lastRunAt: Option<int>)

  datatype PipelineExecutionEntity = PipelineExecutionEntity(
    id: Option<string>,
    pipelineId: Option<string>,
    status: Option<string>,
    startTime: Option<int>,
    endTime: Option<int>,
    totalRows: Option<int>,
    processedRows: Option<int>,
    failedRows: Option<int>,
    errorMessage: Option<string>)

  /** executionId is None when the log has no execution, else that execution's (nullable) id. */
  datatype PipelineLogEntity = PipelineLogEntity(
    id: Option<string>,
    pipelineId: Option<string>,
    executionId: Option<Option<string>>,
    timestamp: Option<int>,
    level: Option<string>,
    message: Option<string>,
    details: Option<string>,
    stepId: Option<string>)

  /** The last connection of the given type: the one a forEach that overwrites on each match leaves. */
  function LastConnection(conns: seq<PipelineConnectionEntity>, kind: string): (r: Option<PipelineConnectionEntity>)
    ensures r.Some? ==> r.value in conns && r.value.connectionType == Some(kind)
    ensures r.None? <==> forall k :: 0 <= k < |conns| ==> conns[k].connectionType != Some(kind)
  {
    if conns == [] then None
    else if conns[|conns| - 1].connectionType == Some(kind) then Some(conns[|conns| - 1])
    else LastConnection(conns[..|conns| - 1], kind)
  }
}
