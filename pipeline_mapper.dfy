// PipelineMapper: field-by-field copies between the pg2pg transfer records
// and their entities. An entity's parent is passed as its id, since the
// copies only ever read the parent's id.

module PipelineMapper {
  import opened JavaStr
  import Model
  import opened PipelineModel
  import opened PipelineEntities

  // ---------------------------------------------------------------- column mappings

  function ToColumnMapping(e: Pg2PgColumnMappingEntity, stepId: Option<string>): Pg2PgColumnMapping
  {
    Pg2PgColumnMapping(e.id, e.sourceColumn, e.sourceDataType, e.targetColumn, e.targetDataType,
                       e.transformationType, e.transformation, e.description,
                       e.nullable, e.isPrimaryKey, e.isForeignKey, stepId)
  }

  function ToColumnMappingEntity(m: Pg2PgColumnMapping): Pg2PgColumnMappingEntity
  {
    Pg2PgColumnMappingEntity(m.id, m.sourceColumn, m.sourceDataType, m.targetColumn, m.targetDataType,
                             m.transformationType, m.transformation, m.description,
                             Some(OrElse(m.nullable, true)), Some(OrElse(m.isPrimaryKey, false)),
                             Some(OrElse(m.isForeignKey, false)))
  }

  /** A column mapping whose three flags are set, filed under the given step. */
  predicate FullColumn(m: Pg2PgColumnMapping, stepId: Option<string>)
  {
    m.nullable.Some? && m.isPrimaryKey.Some? && m.isForeignKey.Some? && m.pipelineStepId == stepId
  }

  /** A column entity whose three flags are set. */
  predicate FlaggedColumn(e: Pg2PgColumnMappingEntity)
  {
    e.nullable.Some? && e.isPrimaryKey.Some? && e.isForeignKey.Some?
  }

  /**
   * toColumnMappingEntity never leaves a flag null: nullable defaults to
   * true, the key flags to false, and a set flag is copied.
   */
  lemma ColumnEntityDefaults(m: Pg2PgColumnMapping)
    ensures var e := ToColumnMappingEntity(m);
            FlaggedColumn(e)
            && (m.nullable.None? ==> e.nullable == Some(true))
            && (m.isPrimaryKey.None? ==> e.isPrimaryKey == Some(false))
            && (m.isForeignKey.None? ==> e.isForeignKey == Some(false))
            && (m.nullable.Some? ==> e.nullable == m.nullable)
            && (m.isPrimaryKey.Some? ==> e.isPrimaryKey == m.isPrimaryKey)
            && (m.isForeignKey.Some? ==> e.isForeignKey == m.isForeignKey)
  {
  }

  /** Model to entity and back gives the same column mapping when its flags are set. */
  lemma ColumnRoundTrip(m: Pg2PgColumnMapping, stepId: Option<string>)
    requires FullColumn(m, stepId)
    ensures ToColumnMapping(ToColumnMappingEntity(m), stepId) == m
  {
  }

  /** Entity to model and back gives the same entity when its flags are set. */
  lemma ColumnEntityRoundTrip(e: Pg2PgColumnMappingEntity, stepId: Option<string>)
    requires FlaggedColumn(e)
    ensures ToColumnMappingEntity(ToColumnMapping(e, stepId)) == e
  {
  }

  function ToColumnMappings(es: seq<Pg2PgColumnMappingEntity>, stepId: Option<string>): (r: seq<Pg2PgColumnMapping>)
    ensures |r| == |es|
  {
    seq(|es|, i requires 0 <= i < |es| => ToColumnMapping(es[i], stepId))
  }

  function ToColumnMappingEntities(ms: seq<Pg2PgColumnMapping>): (r: seq<Pg2PgColumnMappingEntity>)
    ensures |r| == |ms|
  {
    seq(|ms|, i requires 0 <= i < |ms| => ToColumnMappingEntity(ms[i]))
  }

  // ---------------------------------------------------------------- steps

  /** toPipelineStep; the step's pipeline is given by its id. */
  function ToPipelineStep(e: PipelineStepEntity, pipelineId: Option<string>): PipelineStep
  {
    PipelineStep(e.id, e.stepOrder, e.sourceSchema, e.sourceTable, e.targetSchema, e.targetTable,
                 e.description, e.status, e.filterEnabled, e.filterWhereClause, e.filterDescription,
                 e.disableTriggers, e.disableConstraints, pipelineId,
                 Some(ToColumnMappings(e.columnMappings, e.id)))
  }

  /** toPipelineStepEntity; a null column list leaves the entity's empty list. */
  function ToPipelineStepEntity(m: PipelineStep): PipelineStepEntity
  {
    PipelineStepEntity(m.id, m.order, m.sourceSchema, m.sourceTable, m.targetSchema, m.targetTable,
                       m.description, Some(OrElse(m.status, "draft")), Some(OrElse(m.filterEnabled, false)),
                       m.filterWhereClause, m.filterDescription,
                       Some(OrElse(m.disableTriggers, false)), Some(OrElse(m.disableConstraints, false)),
                       if m.columnMappings.Some? then ToColumnMappingEntities(m.columnMappings.value) else [])
  }

  /**
   * toPipelineStepEntity never leaves the status or a flag null: status
   * defaults to "draft" and the three flags to false; set values are copied.
   */
  lemma StepEntityDefaults(m: PipelineStep)
    ensures var e := ToPipelineStepEntity(m);
            e.status == Some(OrElse(m.status, "draft"))
            && e.filterEnabled == Some(OrElse(m.filterEnabled, false))
            && e.disableTriggers == Some(OrElse(m.disableTriggers, false))
            && e.disableConstraints == Some(OrElse(m.disableConstraints, false))
            && (m.status.None? ==> e.status == Some("draft"))
            && (m.filterEnabled.None? ==> e.filterEnabled == Some(false))
            && (m.disableTriggers.None? ==> e.disableTriggers == Some(false))
            && (m.disableConstraints.None? ==> e.disableConstraints == Some(false))
            && |e.columnMappings| == (if m.columnMappings.Some? then |m.columnMappings.value| else 0)
  {
  }

  /** A step whose status, flags and columns are set, filed under the given pipeline. */
  predicate FullStep(s: PipelineStep, pipelineId: Option<string>)
  {
    s.status.Some? && s.filterEnabled.Some? && s.disableTriggers.Some? && s.disableConstraints.Some?
    && s.pipelineId == pipelineId && s.columnMappings.Some?
    && forall i :: 0 <= i < |s.columnMappings.value| ==> FullColumn(s.columnMappings.value[i], s.id)
  }

  /** A step entity whose status and flags are set, as are its columns' flags. */
  predicate FlaggedStep(e: PipelineStepEntity)
  {
    e.status.Some? && e.filterEnabled.Some? && e.disableTriggers.Some? && e.disableConstraints.Some?
    && forall i :: 0 <= i < |e.columnMappings| ==> FlaggedColumn(e.columnMappings[i])
  }

  /**
   * toPipelineStep(toPipelineStepEntity(s, p)) == s: every field and the
   * column mappings in order survive the trip.
   */
  lemma StepRoundTrip(s: PipelineStep, pipelineId: Option<string>)
    requires FullStep(s, pipelineId)
    ensures ToPipelineStep(ToPipelineStepEntity(s), pipelineId) == s
  {
    var cs := s.columnMappings.value;
    var back := ToColumnMappings(ToColumnMappingEntities(cs), s.id);
    forall i | 0 <= i < |cs|
      ensures back[i] == cs[i]
    {
      ColumnRoundTrip(cs[i], s.id);
    }
    assert back == cs;
  }

  /** The other direction: an entity with its flags set survives model and back. */
  lemma StepEntityRoundTrip(e: PipelineStepEntity, pipelineId: Option<string>)
    requires FlaggedStep(e)
    ensures ToPipelineStepEntity(ToPipelineStep(e, pipelineId)) == e
  {
    var cs := e.columnMappings;
    var back := ToColumnMappingEntities(ToColumnMappings(cs, e.id));
    forall i | 0 <= i < |cs|
      ensures back[i] == cs[i]
    {
      ColumnEntityRoundTrip(cs[i], e.id);
    }
    assert back == cs;
  }

  function ToPipelineSteps(es: seq<PipelineStepEntity>, pipelineId: Option<string>): (r: seq<PipelineStep>)
    ensures |r| == |es|
  {
    seq(|es|, i requires 0 <= i < |es| => ToPipelineStep(es[i], pipelineId))
  }

  function ToPipelineStepEntities(ms: seq<PipelineStep>): (r: seq<PipelineStepEntity>)
    ensures |r| == |ms|
  {
    seq(|ms|, i requires 0 <= i < |ms| => ToPipelineStepEntity(ms[i]))
  }

  // ---------------------------------------------------------------- connections

  function ToConnectionConfig(e: PipelineConnectionEntity): Model.ConnectionConfig
  {
    Model.ConnectionConfig(e.dbType, e.host, e.port, e.database, e.schema, e.username, e.password,
                           e.connectionString, e.isConnected)
  }

  /** toConnectionEntity: a new entity (no id yet) of the given connection type. */
  function ToConnectionEntity(c: Model.ConnectionConfig, connectionType: string): PipelineConnectionEntity
  {
    PipelineConnectionEntity(None, c.dbType, c.host, c.port, c.database, c.schema, c.username, c.password,
                             c.connectionString, c.isConnected, Some(connectionType))
  }

  /** A connection stored with toConnectionEntity reads back unchanged, and carries its type. */
  lemma ConnectionRoundTrip(c: Model.ConnectionConfig, connectionType: string)
    ensures ToConnectionConfig(ToConnectionEntity(c, connectionType)) == c
    ensures ToConnectionEntity(c, connectionType).connectionType == Some(connectionType)
  {
  }

  // ---------------------------------------------------------------- pipelines

  /** The connection toModel assigns for a type: the last one typed exactly so, if any. */
  function ConnectionFor(conns: seq<PipelineConnectionEntity>, kind: string): Option<Model.ConnectionConfig>
  {
    match LastConnection(conns, kind)
      case Some(c) => Some(ToConnectionConfig(c))
      case None => None
  }

  /** toModel; the owner is given as its id. */
  function ToModel(e: PipelineEntity): Pipeline
  {
    Pipeline(e.id, e.name, e.description, e.createdAt, e.updatedAt, e.status, Some(e.ownerId),
             Some(ToPipelineSteps(e.steps, e.id)),
             ConnectionFor(e.connections, "source"), ConnectionFor(e.connections, "target"),
             e.totalRuns, e.lastRunAt)
  }

  /**
   * toModel sets the source (target) connection exactly when some
   * connection is typed "source" ("target"), from the last such one; a
   * connection of any other type is ignored.
   */
  lemma {:induction false} ModelConnections(conns: seq<PipelineConnectionEntity>, kind: string)
    ensures ConnectionFor(conns, kind).Some? <==>
            exists k :: 0 <= k < |conns| && conns[k].connectionType == Some(kind)
    ensures ConnectionFor(conns, kind).Some? ==>
            exists k :: 0 <= k < |conns| && conns[k].connectionType == Some(kind)
              && ConnectionFor(conns, kind) == Some(ToConnectionConfig(conns[k]))
              && forall j :: k < j < |conns| ==> conns[j].connectionType != Some(kind)
  {
    if LastConnection(conns, kind).Some? {
      var k := LastIndex(conns, kind);
      assert conns[k].connectionType == Some(kind);
    }
  }

  /** The position of the connection LastConnection picks. */
  lemma {:induction false} LastIndex(conns: seq<PipelineConnectionEntity>, kind: string) returns (k: nat)
    requires LastConnection(conns, kind).Some?
    ensures k < |conns| && LastConnection(conns, kind) == Some(conns[k])
    ensures forall j :: k < j < |conns| ==> conns[j].connectionType != Some(kind)
  {
    var n := |conns| - 1;
    if conns[n].connectionType == Some(kind) {
      k := n;
    } else {
      var prefix := conns[..n];
      k := LastIndex(prefix, kind);
      assert conns[k] == prefix[k];
    }
  }

  /** toEntity: status defaults to "draft", the run counter starts at 0, and there are no connections yet. */
  function ToEntity(m: Pipeline, ownerId: string): PipelineEntity
  {
    PipelineEntity(m.id, m.name, m.description, None, None, Some(OrElse(m.status, "draft")), ownerId,
                   if m.steps.Some? then ToPipelineStepEntities(m.steps.value) else [],
                   [], Some(0), None)
  }

  /**
   * A pipeline converted with toEntity reads back through toModel with the
   * same id, name, description and steps, the owner's id, status defaulting
   * to "draft", no connections and no runs.
   */
  lemma PipelineRoundTrip(m: Pipeline, ownerId: string)
    requires m.steps.Some? && forall i :: 0 <= i < |m.steps.value| ==> FullStep(m.steps.value[i], m.id)
    ensures var back := ToModel(ToEntity(m, ownerId));
            back.id == m.id && back.name == m.name && back.description == m.description
            && back.status == Some(OrElse(m.status, "draft")) && back.userId == Some(ownerId)
            && back.steps == m.steps
            && back.sourceConnection.None? && back.targetConnection.None?
            && back.totalRuns == Some(0) && back.lastRunAt.None?
  {
    var ss := m.steps.value;
    var back := ToPipelineSteps(ToPipelineStepEntities(ss), m.id);
    forall i | 0 <= i < |ss|
      ensures back[i] == ss[i]
    {
      StepRoundTrip(ss[i], m.id);
    }
    assert back == ss;
  }

  // ---------------------------------------------------------------- executions and logs

  function ToExecution(e: PipelineExecutionEntity): PipelineExecution
  {
    PipelineExecution(e.id, e.pipelineId, e.status, e.startTime, e.endTime, e.totalRows,
                      e.processedRows, e.failedRows, e.errorMessage)
  }

  function ToLog(e: PipelineLogEntity): PipelineLog
  {
    PipelineLog(e.id, e.pipelineId, if e.executionId.Some? then e.executionId.value else None,
                e.timestamp, e.level, e.message, e.details, e.stepId)
  }

  /**
   * toLog leaves executionId null for a log without an execution, and
   * otherwise copies that execution's id; everything else is copied.
   */
  lemma LogExecutionId(e: PipelineLogEntity)
    ensures e.executionId.None? ==> ToLog(e).executionId.None?
    ensures e.executionId.Some? ==> ToLog(e).executionId == e.executionId.value
    ensures ToLog(e).(executionId := None) ==
            PipelineLog(e.id, e.pipelineId, None, e.timestamp, e.level, e.message, e.details, e.stepId)
  {
  }
}
