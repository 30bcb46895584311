// ProjectService: ownership-checked changes to stored migration projects.
// The project repository is the field of a ProjectStore; the signed-in user
// is the userId parameter, and generated ids and clocks are parameters too.

module ProjectService {
  import opened JavaStr
  import opened Model
  import opened Entities
  import opened ProjectMapper
  import opened Outcomes

  /** findById(id) followed by the owner check every operation makes. */
  function Access(projects: map<string, ProjectEntity>, userId: string, id: string): (r: Outcome<ProjectEntity>)
    ensures r.Ok? <==> id in projects && projects[id].ownerId == userId
    ensures r.Ok? ==> r.value == projects[id]
    ensures r.Failed? ==> r.failure == (if id in projects then AccessDenied else NotFound)
  {
    if id !in projects then Failed(NotFound)
    else if projects[id].ownerId != userId then Failed(AccessDenied)
    else Ok(projects[id])
  }

  /** Every stored project is filed under its own id. */
  predicate Keyed(projects: map<string, ProjectEntity>)
  {
    forall k :: k in projects ==> projects[k].id == Some(k)
  }

  // ---------------------------------------------------------------- create and update

  /** createProject's new entity, given its generated id and creation time. */
  function Created(name: Option<string>, description: Option<string>, userId: string, freshId: string, now: int): ProjectEntity
  {
    var m := Project(None, name, description, None, None, None, None, None, Some("draft"));
    ToEntity(m, userId).(id := Some(freshId), createdAt := Some(now), updatedAt := Some(now))
  }

  /** A created project reads back as a draft with no connections and no table mappings. */
  lemma CreatedIsDraft(name: Option<string>, description: Option<string>, userId: string, freshId: string, now: int)
    ensures ToModel(Created(name, description, userId, freshId, now))
            == Project(Some(freshId), name, description, Some(now), Some(now), None, None, Some([]), Some("draft"))
  {
  }

  /** updateProject: name and description as given, the status only when one is given. */
  function Updated(e: ProjectEntity, p: Project): ProjectEntity
  {
    e.(name := p.name, description := p.description, status := if p.status.Some? then p.status else e.status)
  }

  /**
   * updateProject never clears the status: a null status keeps the stored
   * one; the connections, table mappings, owner and id are untouched.
   */
  lemma UpdatedStatus(e: ProjectEntity, p: Project)
    ensures var r := Updated(e, p);
            r.status == (if p.status.None? then e.status else p.status)
            && (e.status.Some? ==> r.status.Some?)
            && r.(name := e.name, description := e.description, status := e.status) == e
            && r.name == p.name && r.description == p.description
  {
  }

  // ---------------------------------------------------------------- connections

  /** removeIf(c -> kind.equalsIgnoreCase(c.getConnectionType())); a null type never matches. */
  function WithoutTypeIgnoringCase(conns: seq<ConnectionConfigEntity>, kind: string): (r: seq<ConnectionConfigEntity>)
    ensures forall c :: c in r <==> c in conns && !(c.connectionType.Some? && EqualsIgnoreCase(kind, c.connectionType.value))
  {
    if conns == [] then []
    else
      var rest := WithoutTypeIgnoringCase(conns[..|conns| - 1], kind);
      var c := conns[|conns| - 1];
      if c.connectionType.Some? && EqualsIgnoreCase(kind, c.connectionType.value) then rest else rest + [c]
  }

  /** stream().anyMatch(c -> kind.equals(c.getConnectionType())). */
  predicate HasConnection(conns: seq<ConnectionConfigEntity>, kind: string)
  {
    exists k :: 0 <= k < |conns| && conns[k].connectionType == Some(kind)
  }

  /**
   * saveConnection on a stored project: replace the connections of the type
   * (ignoring case) by the new one; once a "source" and a "target" exist,
   * the project is "configured", whatever its status was.
   */
  function SavedConnection(e: ProjectEntity, kind: string, c: ConnectionConfig): ProjectEntity
  {
    var conns := WithoutTypeIgnoringCase(e.connections, kind) + [ToConnectionConfigEntity(c, kind)];
    e.(connections := conns,
       status := if HasConnection(conns, "source") && HasConnection(conns, "target") then Some("configured") else e.status)
  }

  /**
   * The status rule of saveConnection: "configured" when both a source and
   * a target exist afterwards, else unchanged; only the connections and the
   * status change.
   */
  lemma SavedConnectionStatus(e: ProjectEntity, kind: string, c: ConnectionConfig)
    ensures var r := SavedConnection(e, kind, c);
            (HasConnection(r.connections, "source") && HasConnection(r.connections, "target") ==> r.status == Some("configured"))
            && (!(HasConnection(r.connections, "source") && HasConnection(r.connections, "target")) ==> r.status == e.status)
            && r.(connections := e.connections, status := e.status) == e
  {
  }

  lemma {:induction false} IgnoringCaseLast(conns: seq<ConnectionConfigEntity>, kind: string, other: string)
    requires Upper(kind) != Upper(other)
    ensures LastConnection(WithoutTypeIgnoringCase(conns, kind), other) == LastConnection(conns, other)
  {
    if conns != [] {
      var init := conns[..|conns| - 1];
      IgnoringCaseLast(init, kind, other);
      var rest := WithoutTypeIgnoringCase(init, kind);
      var c := conns[|conns| - 1];
      if !(c.connectionType.Some? && EqualsIgnoreCase(kind, c.connectionType.value)) {
        LastSnoc(rest, c, other);
      }
    }
  }

  lemma SourceTargetDiffer(kind: string, other: string)
    requires (kind == "source" && other == "target") || (kind == "target" && other == "source")
    ensures Upper(kind) != Upper(other)
  {
    assert Upper(kind)[0] != Upper(other)[0];
  }

  /**
   * Saving under the exact type name "source" or "target": the project then
   * reads back with that connection on that side and the other side as it
   * was.
   */
  lemma SavedConnectionReadBack(e: ProjectEntity, kind: string, c: ConnectionConfig)
    requires kind == "source" || kind == "target"
    ensures var m := ToModel(SavedConnection(e, kind, c));
            var before := ToModel(e);
            if kind == "source" then m.sourceConnection == Some(c) && m.targetConnection == before.targetConnection
            else m.targetConnection == Some(c) && m.sourceConnection == before.sourceConnection
  {
    var other := if kind == "source" then "target" else "source";
    SourceTargetDiffer(kind, other);
    var rest := WithoutTypeIgnoringCase(e.connections, kind);
    var x := ToConnectionConfigEntity(c, kind);
    LastSnoc(rest, x, kind);
    LastSnoc(rest, x, other);
    ConnectionRoundTrip(c, kind);
    IgnoringCaseLast(e.connections, kind, other);
  }

  // ---------------------------------------------------------------- table mappings

  /** saveTableMappings: the stored list becomes the given mappings, in the given order. */
  function SavedTableMappings(e: ProjectEntity, tms: seq<TableMapping>): ProjectEntity
  {
    e.(tableMappings := ToTableMappingEntities(tms, e.id))
  }

  /**
   * After saveTableMappings the project reads back with exactly the given
   * mappings, in order, when each has its defaulted fields set; nothing
   * else changes.
   */
  lemma SavedTableMappingsReadBack(e: ProjectEntity, tms: seq<TableMapping>)
    requires forall i :: 0 <= i < |tms| ==> FullTable(tms[i])
    ensures ToModel(SavedTableMappings(e, tms)).tableMappings == Some(tms)
    ensures SavedTableMappings(e, tms).(tableMappings := e.tableMappings) == e
  {
    TablesRoundTrip(tms, e.id);
  }

  // ---------------------------------------------------------------- the repository

  /**
   * The project repository. Every operation looks the project up and checks
   * its owner first; on a failure nothing changes.
   */
  class ProjectStore {
    var projects: map<string, ProjectEntity>

    predicate Valid()
      reads this
    {
      Keyed(projects)
    }

    constructor ()
      ensures Valid() && projects == map[]
    {
      projects := map[];
    }

    /** getProjectById. */
    method GetProjectById(userId: string, id: string) returns (r: Outcome<Project>)
      ensures r.Ok? <==> id in projects && projects[id].ownerId == userId
      ensures r.Ok? ==> r.value == ToModel(projects[id])
      ensures r.Failed? ==> r.failure == (if id in projects then AccessDenied else NotFound)
    {
      var a := Access(projects, userId, id);
      if a.Failed? {
        return Failed(a.failure);
      }
      r := Ok(ToModel(a.value));
    }

    /** createProject(name, description); freshId is the generated id, now the creation time. */
    method CreateProject(userId: string, name: Option<string>, description: Option<string>, freshId: string, now: int)
      returns (r: Project)
      requires Valid() && freshId !in projects
      modifies this
      ensures Valid()
      ensures projects == old(projects)[freshId := Created(name, description, userId, freshId, now)]
      ensures r == ToModel(Created(name, description, userId, freshId, now))
    {
      var e := Created(name, description, userId, freshId, now);
      projects := projects[freshId := e];
      r := ToModel(e);
    }

    /** updateProject(p); now is the update time. A null id is not found. */
    method UpdateProject(userId: string, p: Project, now: int) returns (r: Outcome<Project>)
      requires Valid()
      modifies this
      ensures Valid()
      ensures p.id.None? ==> r == Failed(NotFound) && projects == old(projects)
      ensures p.id.Some? ==>
                var a := Access(old(projects), userId, p.id.value);
                if a.Failed? then r == Failed(a.failure) && projects == old(projects)
                else
                  var e := Updated(a.value, p).(updatedAt := Some(now));
                  projects == old(projects)[p.id.value := e] && r == Ok(ToModel(e))
    {
      if p.id.None? {
        return Failed(NotFound);
      }
      var a := Access(projects, userId, p.id.value);
      if a.Failed? {
        return Failed(a.failure);
      }
      var e := a.value;
      e := e.(name := p.name, description := p.description, updatedAt := Some(now));
      if p.status.Some? {
        e := e.(status := p.status);
      }
      projects := projects[p.id.value := e];
      r := Ok(ToModel(e));
    }

    /** deleteProject(id); None when it succeeds. */
    method DeleteProject(userId: string, id: string) returns (err: Option<Failure>)
      requires Valid()
      modifies this
      ensures Valid()
      ensures var a := Access(old(projects), userId, id);
              if a.Failed? then err == Some(a.failure) && projects == old(projects)
              else err.None? && projects == old(projects) - {id}
    {
      var a := Access(projects, userId, id);
      if a.Failed? {
        return Some(a.failure);
      }
      projects := projects - {id};
      err := None;
    }

    /** saveConnection(projectId, kind, c); now is the update time. */
    method SaveConnection(userId: string, projectId: string, kind: string, c: ConnectionConfig, now: int)
      returns (r: Outcome<Project>)
      requires Valid()
      modifies this
      ensures Valid()
      ensures var a := Access(old(projects), userId, projectId);
              if a.Failed? then r == Failed(a.failure) && projects == old(projects)
              else
                var e := SavedConnection(a.value, kind, c).(updatedAt := Some(now));
                projects == old(projects)[projectId := e] && r == Ok(ToModel(e))
    {
      var a := Access(projects, userId, projectId);
      if a.Failed? {
        return Failed(a.failure);
      }
      var e := SavedConnection(a.value, kind, c).(updatedAt := Some(now));
      projects := projects[projectId := e];
      r := Ok(ToModel(e));
    }

    /** saveTableMappings(projectId, tms): clear the list, then add each mapping in turn. */
    method SaveTableMappings(userId: string, projectId: string, tms: seq<TableMapping>, now: int)
      returns (r: Outcome<Project>)
      requires Valid()
      modifies this
      ensures Valid()
      ensures var a := Access(old(projects), userId, projectId);
              if a.Failed? then r == Failed(a.failure) && projects == old(projects)
              else
                var e := SavedTableMappings(a.value, tms).(updatedAt := Some(now));
                projects == old(projects)[projectId := e] && r == Ok(ToModel(e))
    {
      var a := Access(projects, userId, projectId);
      if a.Failed? {
        return Failed(a.failure);
      }
      var e := a.value;
      var mappings: seq<TableMappingEntity> := [];
      var i := 0;
      while i < |tms|
        invariant i <= |tms|
        invariant mappings == ToTableMappingEntities(tms[..i], e.id)
      {
        mappings := mappings + [ToTableMappingEntity(tms[i], e.id)];
        i := i + 1;
      }
      assert tms[..i] == tms;
      e := e.(tableMappings := mappings, updatedAt := Some(now));
      projects := projects[projectId := e];
      r := Ok(ToModel(e));
    }
  }
}
