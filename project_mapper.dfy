// ProjectMapper: field-by-field copies between the migration project's
// transfer records and its entities. A table mapping's parent project is
// passed as its id, the only thing the copies read of it.

module ProjectMapper {
  import opened JavaStr
  import opened Model
  import opened Entities

  // ---------------------------------------------------------------- column mappings

  function ToColumnMapping(e: ColumnMappingEntity): ColumnMapping
  {
    ColumnMapping(e.id, e.sourceColumn, e.sourceDataType, e.sourceDataLength, e.sourceDataPrecision,
                  e.sourceDataScale, e.targetColumn, e.targetDataType, e.targetDataLength,
                  e.targetDataPrecision, e.targetDataScale, e.transformation,
                  e.nullable, e.isPrimaryKey, e.isForeignKey)
  }

  function ToColumnMappingEntity(m: ColumnMapping): ColumnMappingEntity
  {
    ColumnMappingEntity(m.id, m.sourceColumn, m.sourceDataType, m.sourceDataLength, m.sourceDataPrecision,
                        m.sourceDataScale, m.targetColumn, m.targetDataType, m.targetDataLength,
                        m.targetDataPrecision, m.targetDataScale, m.transformation,
                        Some(OrElse(m.nullable, true)), Some(OrElse(m.isPrimaryKey, false)),
                        Some(OrElse(m.isForeignKey, false)))
  }

  /** A column mapping whose three flags are set. */
  predicate FullColumn(m: ColumnMapping)
  {
    m.nullable.Some? && m.isPrimaryKey.Some? && m.isForeignKey.Some?
  }

  /**
   * toColumnMappingEntity never leaves a flag null: nullable defaults to
   * true, the key flags to false, and a set flag is copied.
   */
  lemma ColumnEntityDefaults(m: ColumnMapping)
    ensures var e := ToColumnMappingEntity(m);
            e.nullable.Some? && e.isPrimaryKey.Some? && e.isForeignKey.Some?
            && e.nullable.value == (m.nullable.None? || m.nullable.value)
            && e.isPrimaryKey.value == (m.isPrimaryKey.Some? && m.isPrimaryKey.value)
            && e.isForeignKey.value == (m.isForeignKey.Some? && m.isForeignKey.value)
  {
  }

  /** Model to entity and back gives the same column mapping when its flags are set. */
  lemma ColumnRoundTrip(m: ColumnMapping)
    requires FullColumn(m)
    ensures ToColumnMapping(ToColumnMappingEntity(m)) == m
  {
  }

  function ToColumnMappings(es: seq<ColumnMappingEntity>): (r: seq<ColumnMapping>)
    ensures |r| == |es|
  {
    seq(|es|, i requires 0 <= i < |es| => ToColumnMapping(es[i]))
  }

  function ToColumnMappingEntities(ms: seq<ColumnMapping>): (r: seq<ColumnMappingEntity>)
    ensures |r| == |ms|
  {
    seq(|ms|, i requires 0 <= i < |ms| => ToColumnMappingEntity(ms[i]))
  }

  // ---------------------------------------------------------------- table mappings

  /** toTableMapping; the entity's column list is never null, so the model's is set. */
  function ToTableMapping(e: TableMappingEntity): TableMapping
  {
    TableMapping(e.id, e.sourceTable, e.sourceSchema, e.targetTable, e.targetSchema, e.enabled,
                 Some(ToColumnMappings(e.columnMappings)), e.status, e.filterCondition,
                 e.dropBeforeInsert, e.truncateBeforeInsert, e.partitionColumn, e.chunkSize,
                 e.chunkWorkers, e.partitionMinValue, e.partitionMaxValue)
  }

  /** toTableMappingEntity under the project with the given id; a null column list leaves the entity's empty one. */
  function ToTableMappingEntity(m: TableMapping, projectId: Option<string>): TableMappingEntity
  {
    TableMappingEntity(m.id, m.sourceTable, m.sourceSchema, m.targetTable, m.targetSchema,
                       Some(OrElse(m.enabled, true)), Some(OrElse(m.status, "pending")), m.filterCondition,
                       Some(OrElse(m.dropBeforeInsert, false)), Some(OrElse(m.truncateBeforeInsert, false)),
                       m.partitionColumn, m.chunkSize, m.chunkWorkers, m.partitionMinValue, m.partitionMaxValue,
                       projectId,
                       if m.columnMappings.Some? then ToColumnMappingEntities(m.columnMappings.value) else [])
  }

  /**
   * toTableMappingEntity's defaults: enabled true, status "pending", drop and
   * truncate false, each used only when the model's value is null; the
   * chunking settings are copied as they are.
   */
  lemma TableEntityDefaults(m: TableMapping, projectId: Option<string>)
    ensures var e := ToTableMappingEntity(m, projectId);
            e.enabled.Some? && e.status.Some? && e.dropBeforeInsert.Some? && e.truncateBeforeInsert.Some?
            && e.enabled.value == (m.enabled.None? || m.enabled.value)
            && e.status.value == (if m.status.Some? then m.status.value else "pending")
            && e.dropBeforeInsert.value == (m.dropBeforeInsert.Some? && m.dropBeforeInsert.value)
            && e.truncateBeforeInsert.value == (m.truncateBeforeInsert.Some? && m.truncateBeforeInsert.value)
            && e.partitionColumn == m.partitionColumn && e.chunkSize == m.chunkSize && e.chunkWorkers == m.chunkWorkers
            && e.partitionMinValue == m.partitionMinValue && e.partitionMaxValue == m.partitionMaxValue
            && e.projectId == projectId
  {
  }

  /** A table mapping with every defaulted field and every column flag set, and a column list. */
  predicate FullTable(m: TableMapping)
  {
    m.enabled.Some? && m.status.Some? && m.dropBeforeInsert.Some? && m.truncateBeforeInsert.Some?
    && m.columnMappings.Some?
    && forall i :: 0 <= i < |m.columnMappings.value| ==> FullColumn(m.columnMappings.value[i])
  }

  /** Model to entity and back gives the same table mapping, its columns in order included. */
  lemma {:induction false} TableRoundTrip(m: TableMapping, projectId: Option<string>)
    requires FullTable(m)
    ensures ToTableMapping(ToTableMappingEntity(m, projectId)) == m
  {
    var cs := m.columnMappings.value;
    var back := ToColumnMappings(ToColumnMappingEntities(cs));
    forall i | 0 <= i < |cs|
      ensures back[i] == cs[i]
    {
      ColumnRoundTrip(cs[i]);
    }
    assert back == cs;
  }

  function ToTableMappings(es: seq<TableMappingEntity>): (r: seq<TableMapping>)
    ensures |r| == |es|
  {
    seq(|es|, i requires 0 <= i < |es| => ToTableMapping(es[i]))
  }

  function ToTableMappingEntities(ms: seq<TableMapping>, projectId: Option<string>): (r: seq<TableMappingEntity>)
    ensures |r| == |ms|
  {
    seq(|ms|, i requires 0 <= i < |ms| => ToTableMappingEntity(ms[i], projectId))
  }

  /** A list of full table mappings survives the trip to entities and back, in order. */
  lemma TablesRoundTrip(ms: seq<TableMapping>, projectId: Option<string>)
    requires forall i :: 0 <= i < |ms| ==> FullTable(ms[i])
    ensures ToTableMappings(ToTableMappingEntities(ms, projectId)) == ms
  {
    var back := ToTableMappings(ToTableMappingEntities(ms, projectId));
    forall i | 0 <= i < |ms|
      ensures back[i] == ms[i]
    {
      TableRoundTrip(ms[i], projectId);
    }
  }

  // ---------------------------------------------------------------- connections

  function ToConnectionConfig(e: ConnectionConfigEntity): ConnectionConfig
  {
    ConnectionConfig(e.dbType, e.host, e.port, e.database, e.schema, e.username, e.password,
                     e.connectionString, e.isConnected)
  }

  /** toConnectionConfigEntity: the configuration stored under the given connection type. */
  function ToConnectionConfigEntity(c: ConnectionConfig, connectionType: string): ConnectionConfigEntity
  {
    ConnectionConfigEntity(c.dbType, c.host, c.port, c.database, c.schema, c.username, c.password,
                           c.connectionString, c.isConnected, Some(connectionType))
  }

  lemma ConnectionRoundTrip(c: ConnectionConfig, connectionType: string)
    ensures ToConnectionConfig(ToConnectionConfigEntity(c, connectionType)) == c
    ensures ToConnectionConfigEntity(c, connectionType).connectionType == Some(connectionType)
  {
  }

  /** The last connection of the given type: the one the forEach in toModel leaves behind. */
  function LastConnection(conns: seq<ConnectionConfigEntity>, kind: string): (r: Option<ConnectionConfigEntity>)
    ensures r.Some? ==> r.value in conns && r.value.connectionType == Some(kind)
    ensures r.None? <==> forall k :: 0 <= k < |conns| ==> conns[k].connectionType != Some(kind)
  {
    if conns == [] then None
    else if conns[|conns| - 1].connectionType == Some(kind) then Some(conns[|conns| - 1])
    else LastConnection(conns[..|conns| - 1], kind)
  }

  function ConnectionFor(conns: seq<ConnectionConfigEntity>, kind: string): Option<ConnectionConfig>
  {
    match LastConnection(conns, kind)
      case Some(c) => Some(ToConnectionConfig(c))
      case None => None
  }

  /** Returns an index of the last connection of the type, which exists. */
  lemma {:induction false} LastIndex(conns: seq<ConnectionConfigEntity>, kind: string) returns (k: nat)
    requires LastConnection(conns, kind).Some?
    ensures k < |conns| && conns[k] == LastConnection(conns, kind).value
    ensures forall j :: k < j < |conns| ==> conns[j].connectionType != Some(kind)
  {
    if conns[|conns| - 1].connectionType == Some(kind) {
      k := |conns| - 1;
    } else {
      k := LastIndex(conns[..|conns| - 1], kind);
    }
  }

  // ---------------------------------------------------------------- projects

  /** toModel: a connection typed "source" or "target" sets that side, a later one overwriting an earlier one. */
  function ToModel(e: ProjectEntity): Project
  {
    Project(e.id, e.name, e.description, e.createdAt, e.updatedAt,
            ConnectionFor(e.connections, "source"), ConnectionFor(e.connections, "target"),
            Some(ToTableMappings(e.tableMappings)), e.status)
  }

  /**
   * toModel reads a side exactly when some connection has that type, and
   * then reads the last such connection: none of that type comes after it.
   */
  lemma ModelConnections(e: ProjectEntity, kind: string)
    requires kind == "source" || kind == "target"
    ensures var side := if kind == "source" then ToModel(e).sourceConnection else ToModel(e).targetConnection;
            (side.Some? <==> exists k :: 0 <= k < |e.connections| && e.connections[k].connectionType == Some(kind))
            && (side.Some? ==> exists k :: 0 <= k < |e.connections| && e.connections[k].connectionType == Some(kind)
                                 && side.value == ToConnectionConfig(e.connections[k])
                                 && forall j :: k < j < |e.connections| ==> e.connections[j].connectionType != Some(kind))
  {
    if LastConnection(e.connections, kind).Some? {
      var k := LastIndex(e.connections, kind);
    }
  }

  /** toEntity's connections: the source, then the target, each only when set. */
  function EntityConnections(m: Project): seq<ConnectionConfigEntity>
  {
    (if m.sourceConnection.Some? then [ToConnectionConfigEntity(m.sourceConnection.value, "source")] else [])
    + (if m.targetConnection.Some? then [ToConnectionConfigEntity(m.targetConnection.value, "target")] else [])
  }

  /** toEntity: status defaults to "draft"; the times are left to the entity's callbacks. */
  function ToEntity(m: Project, ownerId: string): ProjectEntity
  {
    ProjectEntity(m.id, m.name, m.description, None, None, Some(OrElse(m.status, "draft")), ownerId,
                  EntityConnections(m),
                  if m.tableMappings.Some? then ToTableMappingEntities(m.tableMappings.value, m.id) else [])
  }

  /** How many connections have exactly this type. */
  function CountType(conns: seq<ConnectionConfigEntity>, kind: string): nat
  {
    if conns == [] then 0
    else CountType(conns[..|conns| - 1], kind) + (if conns[|conns| - 1].connectionType == Some(kind) then 1 else 0)
  }

  lemma CountSnoc(base: seq<ConnectionConfigEntity>, x: ConnectionConfigEntity, kind: string)
    ensures CountType(base + [x], kind) == CountType(base, kind) + (if x.connectionType == Some(kind) then 1 else 0)
  {
    assert (base + [x])[..|base|] == base;
  }

  lemma LastSnoc(base: seq<ConnectionConfigEntity>, x: ConnectionConfigEntity, kind: string)
    ensures LastConnection(base + [x], kind) == if x.connectionType == Some(kind) then Some(x) else LastConnection(base, kind)
  {
    assert (base + [x])[..|base|] == base;
  }

  /** The source entity toEntity creates, if any: the connections before the target's. */
  function SourcePart(m: Project): seq<ConnectionConfigEntity>
  {
    if m.sourceConnection.Some? then [ToConnectionConfigEntity(m.sourceConnection.value, "source")] else []
  }

  lemma SourcePartFacts(m: Project, kind: string)
    ensures CountType(SourcePart(m), kind) == (if m.sourceConnection.Some? && kind == "source" then 1 else 0)
    ensures LastConnection(SourcePart(m), kind)
            == (if m.sourceConnection.Some? && kind == "source"
                then Some(ToConnectionConfigEntity(m.sourceConnection.value, "source")) else None)
  {
    if m.sourceConnection.Some? {
      var x := ToConnectionConfigEntity(m.sourceConnection.value, "source");
      CountSnoc([], x, kind);
      LastSnoc([], x, kind);
      assert [] + [x] == SourcePart(m);
    }
  }

  lemma EntityConnectionsSplit(m: Project)
    ensures EntityConnections(m)
            == SourcePart(m) + (if m.targetConnection.Some? then [ToConnectionConfigEntity(m.targetConnection.value, "target")] else [])
  {
  }

  /**
   * toEntity creates at most one connection of each type, one exactly when
   * the model has that side, and nothing of any other type.
   */
  lemma EntityConnectionsPerType(m: Project, kind: string)
    ensures CountType(EntityConnections(m), kind)
            == (if kind == "source" then (if m.sourceConnection.Some? then 1 else 0)
                else if kind == "target" then (if m.targetConnection.Some? then 1 else 0)
                else 0)
  {
    EntityConnectionsSplit(m);
    SourcePartFacts(m, kind);
    if m.targetConnection.Some? {
      CountSnoc(SourcePart(m), ToConnectionConfigEntity(m.targetConnection.value, "target"), kind);
    } else {
      assert EntityConnections(m) == SourcePart(m);
    }
  }

  /** toEntity keeps the model's status, or starts as "draft" when it has none. */
  lemma EntityStatus(m: Project, ownerId: string)
    ensures ToEntity(m, ownerId).status == Some(if m.status.Some? then m.status.value else "draft")
    ensures ToEntity(m, ownerId).ownerId == ownerId
  {
  }

  /** A project with its status set and only full table mappings. */
  predicate FullProject(m: Project)
  {
    m.status.Some? && m.tableMappings.Some?
    && forall i :: 0 <= i < |m.tableMappings.value| ==> FullTable(m.tableMappings.value[i])
  }

  /**
   * Model to entity and back gives the same project, but for the creation
   * and update times, which toEntity does not copy.
   */
  lemma ProjectRoundTrip(m: Project, ownerId: string)
    requires FullProject(m)
    ensures ToModel(ToEntity(m, ownerId)) == m.(createdAt := None, updatedAt := None)
  {
    var e := ToEntity(m, ownerId);
    TablesRoundTrip(m.tableMappings.value, m.id);
    EntityConnectionsReadBack(m);
  }

  lemma EntityConnectionsReadBack(m: Project)
    ensures ConnectionFor(EntityConnections(m), "source") == m.sourceConnection
    ensures ConnectionFor(EntityConnections(m), "target") == m.targetConnection
  {
    EntityConnectionsSplit(m);
    SourcePartFacts(m, "source");
    SourcePartFacts(m, "target");
    if m.targetConnection.Some? {
      var t := ToConnectionConfigEntity(m.targetConnection.value, "target");
      LastSnoc(SourcePart(m), t, "source");
      LastSnoc(SourcePart(m), t, "target");
      ConnectionRoundTrip(m.targetConnection.value, "target");
    } else {
      assert EntityConnections(m) == SourcePart(m);
    }
    if m.sourceConnection.Some? {
      ConnectionRoundTrip(m.sourceConnection.value, "source");
    }
  }
}
