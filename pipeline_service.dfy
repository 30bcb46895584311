// Pg2PgPipelineService: ownership-checked updates of stored pipelines. The
// repositories are the fields of a PipelineStore; the signed-in user is the
// userId parameter, and clocks and generated ids are parameters too.

module Pg2PgPipelineService {
  import opened JavaStr
  import Model
  import opened PipelineModel
  import opened PipelineEntities
  import opened PipelineMapper
  import opened Outcomes

  // ---------------------------------------------------------------- lookups by id

  /**
   * How the reconciliation's findFirst compares ids. As written it calls
   * getId().equals(id) on each stored entity and so throws on an entity that
   * has no id yet; NullSafe compares the other way round and skips it.
   */
  datatype Scan = AsWritten | NullSafe

  datatype Lookup = Found(index: nat) | Missing | NullId

  /** stream().filter(e -> e.getId().equals(id)).findFirst() over the entities' ids. */
  function FindId(scan: Scan, ids: seq<Option<string>>, id: string): (r: Lookup)
    ensures r.Found? ==> r.index < |ids| && ids[r.index] == Some(id)
    ensures r.Missing? ==> forall j :: 0 <= j < |ids| ==> ids[j] != Some(id)
    ensures r.NullId? ==> scan == AsWritten
  {
    if ids == [] then Missing
    else if ids[0] == Some(id) then Found(0)
    else if ids[0].None? && scan == AsWritten then NullId
    else match FindId(scan, ids[1..], id)
      case Found(i) => Found(i + 1)
      case r => r
  }

  /** Stored rows: every id is set and no two are equal. */
  predicate KeyedIds(ids: seq<Option<string>>)
  {
    (forall i :: 0 <= i < |ids| ==> ids[i].Some?) && forall i, j :: 0 <= i < j < |ids| ==> ids[i] != ids[j]
  }

  /** No two entries carry the same non-null id. */
  predicate DistinctIds(ids: seq<Option<string>>)
  {
    forall i, j :: 0 <= i < j < |ids| && ids[i].Some? ==> ids[i] != ids[j]
  }

  /** With distinct set ids, a found entry is the only one with that id. */
  lemma FoundUnique(scan: Scan, ids: seq<Option<string>>, id: string, k: nat)
    requires DistinctIds(ids) && k < |ids| && ids[k] == Some(id)
    ensures FindId(scan, ids, id) == Found(k) || FindId(scan, ids, id) == NullId
  {
    if ids[0] != Some(id) && !(ids[0].None? && scan == AsWritten) {
      assert ids[1..][k - 1] == ids[k];
      FoundUnique(scan, ids[1..], id, k - 1);
    }
  }

  /** The ids a removeIf(e -> !listed.contains(e.getId())) keeps. */
  function KeepIds(ids: seq<Option<string>>, listed: seq<string>): (r: seq<Option<string>>)
    ensures forall k :: 0 <= k < |r| ==> r[k] in ids
  {
    if ids == [] then []
    else
      var last := ids[|ids| - 1];
      var rest := KeepIds(ids[..|ids| - 1], listed);
      assert forall k :: 0 <= k < |rest| ==> rest[k] in ids;
      rest + (if last.Some? && last.value in listed then [last] else [])
  }

  lemma {:induction false} KeepIdsKeyed(ids: seq<Option<string>>, listed: seq<string>)
    requires KeyedIds(ids)
    ensures KeyedIds(KeepIds(ids, listed))
  {
    if ids != [] {
      var n := |ids| - 1;
      var prefix, last := ids[..n], ids[n];
      KeepIdsKeyed(prefix, listed);
      var rest := KeepIds(prefix, listed);
      forall k | 0 <= k < |rest|
        ensures rest[k] != last
      {
        var i :| 0 <= i < n && prefix[i] == rest[k];
      }
    }
  }

  // ---------------------------------------------------------------- column reconciliation

  function ColumnIds(cols: seq<Pg2PgColumnMappingEntity>): (r: seq<Option<string>>)
    ensures |r| == |cols| && forall i :: 0 <= i < |cols| ==> r[i] == cols[i].id
  {
    seq(|cols|, i requires 0 <= i < |cols| => cols[i].id)
  }

  function ModelColumnIds(ms: seq<Pg2PgColumnMapping>): (r: seq<Option<string>>)
    ensures |r| == |ms| && forall i :: 0 <= i < |ms| ==> r[i] == ms[i].id
  {
    seq(|ms|, i requires 0 <= i < |ms| => ms[i].id)
  }

  /** The non-null ids of the model's column mappings. */
  function ListedColumnIds(ms: seq<Pg2PgColumnMapping>): (r: seq<string>)
    ensures forall x :: x in r <==> exists j :: 0 <= j < |ms| && ms[j].id == Some(x)
  {
    if ms == [] then []
    else
      var rest := ListedColumnIds(ms[..|ms| - 1]);
      assert forall j :: 0 <= j < |ms| - 1 ==> ms[..|ms| - 1][j] == ms[j];
      rest + (if ms[|ms| - 1].id.Some? then [ms[|ms| - 1].id.value] else [])
  }

  /** removeIf(col -> !ids.contains(col.getId())): the entities whose id is listed, in order. */
  function KeepListedColumns(cols: seq<Pg2PgColumnMappingEntity>, ids: seq<string>): (r: seq<Pg2PgColumnMappingEntity>)
    ensures |r| <= |cols|
    ensures forall k :: 0 <= k < |r| ==> r[k] in cols && r[k].id.Some? && r[k].id.value in ids
    ensures forall k :: 0 <= k < |cols| && cols[k].id.Some? && cols[k].id.value in ids ==> cols[k] in r
  {
    if cols == [] then []
    else
      var last := cols[|cols| - 1];
      var rest := KeepListedColumns(cols[..|cols| - 1], ids);
      assert forall k :: 0 <= k < |cols| - 1 ==> cols[..|cols| - 1][k] == cols[k];
      rest + (if last.id.Some? && last.id.value in ids then [last] else [])
  }

  lemma {:induction false} KeepListedColumnsKeyed(cols: seq<Pg2PgColumnMappingEntity>, ids: seq<string>)
    requires KeyedIds(ColumnIds(cols))
    ensures KeyedIds(ColumnIds(KeepListedColumns(cols, ids)))
  {
    KeptColumnIds(cols, ids);
    KeepIdsKeyed(ColumnIds(cols), ids);
  }

  lemma {:induction false} KeptColumnIds(cols: seq<Pg2PgColumnMappingEntity>, ids: seq<string>)
    ensures ColumnIds(KeepListedColumns(cols, ids)) == KeepIds(ColumnIds(cols), ids)
  {
    if cols != [] {
      var n := |cols| - 1;
      var prefix, last := cols[..n], cols[n];
      assert ColumnIds(prefix) == ColumnIds(cols)[..n];
      KeptColumnIds(prefix, ids);
      var rest := KeepListedColumns(prefix, ids);
      if last.id.Some? && last.id.value in ids {
        assert ColumnIds(rest + [last]) == ColumnIds(rest) + [last.id];
      }
    }
  }

  /** A new Pg2PgColumnMappingEntity: no id, nullable true, not a key. */
  const NEW_COLUMN := Pg2PgColumnMappingEntity(None, None, None, None, None, None, None, None,
                                               Some(true), Some(false), Some(false))

  /** The setters the column loop applies: every field but the id, with the same defaults as the mapper. */
  function FillColumn(e: Pg2PgColumnMappingEntity, m: Pg2PgColumnMapping): Pg2PgColumnMappingEntity
  {
    ToColumnMappingEntity(m).(id := e.id)
  }

  /** One turn of the column loop: update the entity with the model's id, or add a new one unless an equal one is there. */
  function ColumnPass(scan: Scan, cur: seq<Pg2PgColumnMappingEntity>, m: Pg2PgColumnMapping): Option<seq<Pg2PgColumnMappingEntity>>
  {
    match (if m.id.Some? then FindId(scan, ColumnIds(cur), m.id.value) else Missing)
      case NullId => None
      case Found(i) => Some(cur[i := FillColumn(cur[i], m)])
      case Missing =>
        var c := FillColumn(NEW_COLUMN, m);
        Some(if c in cur then cur else cur + [c])
  }

  /** The column loop over the given models, from the entity list base; None when it throws. */
  function ColumnsAfter(scan: Scan, base: seq<Pg2PgColumnMappingEntity>, ms: seq<Pg2PgColumnMapping>): Option<seq<Pg2PgColumnMappingEntity>>
  {
    if ms == [] then Some(base)
    else match ColumnsAfter(scan, base, ms[..|ms| - 1])
      case None => None
      case Some(cur) => ColumnPass(scan, cur, ms[|ms| - 1])
  }

  /** Column reconciliation: drop the unlisted entities, then run the loop. */
  function ReconcileColumns(scan: Scan, cols: seq<Pg2PgColumnMappingEntity>, ms: seq<Pg2PgColumnMapping>): Option<seq<Pg2PgColumnMappingEntity>>
  {
    ColumnsAfter(scan, KeepListedColumns(cols, ListedColumnIds(ms)), ms)
  }

  /** What one turn of the column loop does, on a list whose set ids are distinct. */
  lemma ColumnPassFacts(cur: seq<Pg2PgColumnMappingEntity>, m: Pg2PgColumnMapping)
    requires DistinctIds(ColumnIds(cur))
    ensures ColumnPass(NullSafe, cur, m).Some?
    ensures var nxt := ColumnPass(NullSafe, cur, m).value;
            |cur| <= |nxt| <= |cur| + 1
            && (forall k :: 0 <= k < |cur| ==> nxt[k].id == cur[k].id)
            && (forall k :: |cur| <= k < |nxt| ==> nxt[k].id.None?)
            && (forall k :: 0 <= k < |cur| && (m.id.None? || cur[k].id != m.id) ==> nxt[k] == cur[k])
            && (forall k :: 0 <= k < |cur| && m.id.Some? && cur[k].id == m.id ==> nxt[k] == FillColumn(cur[k], m))
            && ((forall k :: 0 <= k < |cur| ==> m.id.None? || cur[k].id != m.id) ==>
                  exists q :: 0 <= q < |nxt| && nxt[q] == FillColumn(NEW_COLUMN, m))
  {
    if m.id.Some? {
      var f := FindId(NullSafe, ColumnIds(cur), m.id.value);
      if f.Found? {
        forall k | 0 <= k < |cur| && cur[k].id == m.id
          ensures k == f.index
        {
          FoundUnique(NullSafe, ColumnIds(cur), m.id.value, k);
        }
      }
    }
    var nxt := ColumnPass(NullSafe, cur, m).value;
    var c := FillColumn(NEW_COLUMN, m);
    if (m.id.None? || FindId(NullSafe, ColumnIds(cur), m.id.value).Missing?) && c !in cur {
      assert nxt[|cur|] == c;
    }
  }

  /** The column loop keeps the stored entities' ids in front, new entities after them. */
  predicate ColumnsShaped(base: seq<Pg2PgColumnMappingEntity>, n: nat, cur: seq<Pg2PgColumnMappingEntity>)
  {
    |base| <= |cur| <= |base| + n
    && (forall k :: 0 <= k < |base| ==> cur[k].id == base[k].id)
    && (forall k :: |base| <= k < |cur| ==> cur[k].id.None?)
  }

  /** After n turns, a stored entity holds the model with its id, or is untouched if there is none so far. */
  predicate ColumnsUpdated(base: seq<Pg2PgColumnMappingEntity>, ms: seq<Pg2PgColumnMapping>, n: nat,
                           cur: seq<Pg2PgColumnMappingEntity>)
    requires n <= |ms| && |base| <= |cur|
  {
    (forall j, k :: 0 <= j < n && 0 <= k < |base| && ms[j].id == base[k].id ==>
       cur[k] == FillColumn(base[k], ms[j]))
    && (forall k :: 0 <= k < |base| && (forall j :: 0 <= j < n ==> ms[j].id != base[k].id) ==> cur[k] == base[k])
  }

  /** No stored entity has this id. */
  predicate UnusedColumnId(base: seq<Pg2PgColumnMappingEntity>, id: Option<string>)
  {
    forall k :: 0 <= k < |base| ==> id != base[k].id
  }

  /** A new entity filled from m follows the stored ones. */
  predicate HasNewColumn(base: seq<Pg2PgColumnMappingEntity>, cur: seq<Pg2PgColumnMappingEntity>, m: Pg2PgColumnMapping)
  {
    exists q :: |base| <= q < |cur| && cur[q] == FillColumn(NEW_COLUMN, m)
  }

  /** After n turns, each model so far that names no stored entity has a new entity. */
  predicate ColumnsAdded(base: seq<Pg2PgColumnMappingEntity>, ms: seq<Pg2PgColumnMapping>, n: nat,
                         cur: seq<Pg2PgColumnMappingEntity>)
    requires n <= |ms|
  {
    forall j :: 0 <= j < n && UnusedColumnId(base, ms[j].id) ==> HasNewColumn(base, cur, ms[j])
  }

  /** The state of the column loop after its first n turns, started from stored entities. */
  predicate ColumnsInvariant(base: seq<Pg2PgColumnMappingEntity>, ms: seq<Pg2PgColumnMapping>, n: nat,
                             cur: seq<Pg2PgColumnMappingEntity>)
    requires n <= |ms|
  {
    ColumnsShaped(base, n, cur) && ColumnsUpdated(base, ms, n, cur) && ColumnsAdded(base, ms, n, cur)
  }

  lemma ColumnsUpdatedStep(base: seq<Pg2PgColumnMappingEntity>, ms: seq<Pg2PgColumnMapping>, n: nat,
                           cur: seq<Pg2PgColumnMappingEntity>, nxt: seq<Pg2PgColumnMappingEntity>)
    requires KeyedIds(ColumnIds(base)) && DistinctIds(ModelColumnIds(ms)) && 0 < n <= |ms|
    requires ColumnsShaped(base, n - 1, cur) && ColumnsUpdated(base, ms, n - 1, cur) && DistinctIds(ColumnIds(cur))
    requires |cur| <= |nxt|
    requires forall k :: 0 <= k < |cur| && (ms[n - 1].id.None? || cur[k].id != ms[n - 1].id) ==> nxt[k] == cur[k]
    requires forall k :: 0 <= k < |cur| && ms[n - 1].id.Some? && cur[k].id == ms[n - 1].id ==>
               nxt[k] == FillColumn(cur[k], ms[n - 1])
    ensures ColumnsUpdated(base, ms, n, nxt)
  {
    forall j, k | 0 <= j < n && 0 <= k < |base| && ms[j].id == base[k].id
      ensures nxt[k] == FillColumn(base[k], ms[j])
    {
      if j < n - 1 {
        assert ModelColumnIds(ms)[j] != ModelColumnIds(ms)[n - 1];
      } else {
        forall i | 0 <= i < n - 1
          ensures ms[i].id != base[k].id
        {
          assert ModelColumnIds(ms)[i] != ModelColumnIds(ms)[n - 1];
        }
      }
    }
  }

  lemma ColumnsAddedAt(base: seq<Pg2PgColumnMappingEntity>, ms: seq<Pg2PgColumnMapping>, n: nat,
                       cur: seq<Pg2PgColumnMappingEntity>, j: nat)
    requires n <= |ms| && ColumnsAdded(base, ms, n, cur) && j < n
    requires forall k :: 0 <= k < |base| ==> ms[j].id != base[k].id
    ensures exists q :: |base| <= q < |cur| && cur[q] == FillColumn(NEW_COLUMN, ms[j])
  {
    assert UnusedColumnId(base, ms[j].id);
    assert HasNewColumn(base, cur, ms[j]);
  }

  lemma ColumnsAddedStep(base: seq<Pg2PgColumnMappingEntity>, ms: seq<Pg2PgColumnMapping>, n: nat,
                         cur: seq<Pg2PgColumnMappingEntity>, nxt: seq<Pg2PgColumnMappingEntity>)
    requires KeyedIds(ColumnIds(base)) && 0 < n <= |ms|
    requires ColumnsShaped(base, n - 1, cur) && ColumnsAdded(base, ms, n - 1, cur)
    requires |cur| <= |nxt|
    requires forall k :: 0 <= k < |cur| ==> nxt[k].id == cur[k].id
    requires forall k :: 0 <= k < |cur| && (ms[n - 1].id.None? || cur[k].id != ms[n - 1].id) ==> nxt[k] == cur[k]
    requires (forall k :: 0 <= k < |cur| ==> ms[n - 1].id.None? || cur[k].id != ms[n - 1].id) ==>
               exists q :: 0 <= q < |nxt| && nxt[q] == FillColumn(NEW_COLUMN, ms[n - 1])
    ensures ColumnsAdded(base, ms, n, nxt)
  {
    forall j | 0 <= j < n && (forall k :: 0 <= k < |base| ==> ms[j].id != base[k].id)
      ensures exists q :: |base| <= q < |nxt| && nxt[q] == FillColumn(NEW_COLUMN, ms[j])
    {
      if j < n - 1 {
        ColumnsAddedAt(base, ms, n - 1, cur, j);
        var q :| |base| <= q < |cur| && cur[q] == FillColumn(NEW_COLUMN, ms[j]);
        assert nxt[q] == cur[q];
      } else {
        var q :| 0 <= q < |nxt| && nxt[q] == FillColumn(NEW_COLUMN, ms[n - 1]);
        assert nxt[q].id.None?;
      }
    }
  }

  lemma {:induction false} ColumnsLoop(base: seq<Pg2PgColumnMappingEntity>, ms: seq<Pg2PgColumnMapping>, n: nat)
    requires KeyedIds(ColumnIds(base)) && DistinctIds(ModelColumnIds(ms)) && n <= |ms|
    ensures ColumnsAfter(NullSafe, base, ms[..n]).Some?
    ensures ColumnsInvariant(base, ms, n, ColumnsAfter(NullSafe, base, ms[..n]).value)
  {
    if n == 0 {
      assert ms[..0] == [];
    } else {
      ColumnsLoop(base, ms, n - 1);
      assert ms[..n][..n - 1] == ms[..n - 1];
      var cur := ColumnsAfter(NullSafe, base, ms[..n - 1]).value;
      assert ColumnIds(cur)[..|base|] == ColumnIds(base);
      ColumnPassFacts(cur, ms[n - 1]);
      var nxt := ColumnPass(NullSafe, cur, ms[n - 1]).value;
      assert ColumnsAfter(NullSafe, base, ms[..n]) == Some(nxt);
      ColumnsUpdatedStep(base, ms, n, cur, nxt);
      ColumnsAddedStep(base, ms, n, cur, nxt);
    }
  }

  /**
   * Column reconciliation, null-safe: it never throws; the stored entities
   * that survive are exactly those whose id the models list, kept in order
   * in front; each of them holds the fields of the model with its id; and
   * each model naming no stored entity has a new entity (no id) after them,
   * shared with an identical one added earlier.
   */
  lemma ColumnsReconciled(cols: seq<Pg2PgColumnMappingEntity>, ms: seq<Pg2PgColumnMapping>)
    requires KeyedIds(ColumnIds(cols)) && DistinctIds(ModelColumnIds(ms))
    ensures ReconcileColumns(NullSafe, cols, ms).Some?
    ensures var kept := KeepListedColumns(cols, ListedColumnIds(ms));
            var r := ReconcileColumns(NullSafe, cols, ms).value;
            ColumnsInvariant(kept, ms, |ms|, r)
            && (forall k :: 0 <= k < |kept| ==> exists j :: 0 <= j < |ms| && ms[j].id == kept[k].id)
  {
    var kept := KeepListedColumns(cols, ListedColumnIds(ms));
    KeepListedColumnsKeyed(cols, ListedColumnIds(ms));
    ColumnsLoop(kept, ms, |ms|);
    assert ms[..|ms|] == ms;
  }

  /** Once a turn of the column loop has thrown, the loop has. */
  lemma {:induction false} ColumnsStayFailed(scan: Scan, base: seq<Pg2PgColumnMappingEntity>, ms: seq<Pg2PgColumnMapping>, n: nat)
    requires n <= |ms|
    ensures ColumnsAfter(scan, base, ms[..n]).None? ==> ColumnsAfter(scan, base, ms).None?
  {
    if n < |ms| {
      var init := ms[..|ms| - 1];
      assert init[..n] == ms[..n];
      ColumnsStayFailed(scan, base, init, n);
    } else {
      assert ms[..n] == ms;
    }
  }

  /** The column loop ends having run through the models, or at the first turn that throws. */
  lemma ColumnsLoopEnds(scan: Scan, cols: seq<Pg2PgColumnMappingEntity>, ms: seq<Pg2PgColumnMapping>, i: nat,
                        r: Option<seq<Pg2PgColumnMappingEntity>>)
    requires i <= |ms| && ColumnsAfter(scan, KeepListedColumns(cols, ListedColumnIds(ms)), ms[..i]) == r
    requires i == |ms| || r.None?
    ensures ReconcileColumns(scan, cols, ms) == r
  {
    ColumnsStayFailed(scan, KeepListedColumns(cols, ListedColumnIds(ms)), ms, i);
    if i == |ms| {
      assert ms[..i] == ms;
    }
  }

  /** The column loop of updatePipeline; None where a lookup throws. */
  method ReconcileColumnMappings(scan: Scan, cols: seq<Pg2PgColumnMappingEntity>, ms: seq<Pg2PgColumnMapping>)
    returns (r: Option<seq<Pg2PgColumnMappingEntity>>)
    ensures ReconcileColumns(scan, cols, ms) == r
  {
    var kept := KeepListedColumns(cols, ListedColumnIds(ms));
    ghost var base := kept;
    r := Some(kept);
    var i := 0;
    while i < |ms| && r.Some?
      invariant i <= |ms|
      invariant ColumnsAfter(scan, base, ms[..i]) == r
    {
      var m, cur := ms[i], r.value;
      var found := if m.id.Some? then FindId(scan, ColumnIds(cur), m.id.value) else Missing;
      if found.NullId? {
        r := None;
      } else if found.Found? {
        r := Some(cur[found.index := FillColumn(cur[found.index], m)]);
      } else {
        var c := FillColumn(NEW_COLUMN, m);
        r := Some(if c in cur then cur else cur + [c]);
      }
      assert ms[..i + 1][..i] == ms[..i];
      i := i + 1;
    }
    ColumnsLoopEnds(scan, cols, ms, i, r);
  }

  /** The null-safe column loop never throws. */
  lemma {:induction false} ColumnsNeverFail(base: seq<Pg2PgColumnMappingEntity>, ms: seq<Pg2PgColumnMapping>)
    ensures ColumnsAfter(NullSafe, base, ms).Some?
  {
    if ms != [] {
      ColumnsNeverFail(base, ms[..|ms| - 1]);
    }
  }

  // ---------------------------------------------------------------- step reconciliation

  function StepIds(steps: seq<PipelineStepEntity>): (r: seq<Option<string>>)
    ensures |r| == |steps| && forall i :: 0 <= i < |steps| ==> r[i] == steps[i].id
  {
    seq(|steps|, i requires 0 <= i < |steps| => steps[i].id)
  }

  function ModelStepIds(ms: seq<PipelineStep>): (r: seq<Option<string>>)
    ensures |r| == |ms| && forall i :: 0 <= i < |ms| ==> r[i] == ms[i].id
  {
    seq(|ms|, i requires 0 <= i < |ms| => ms[i].id)
  }

  /** The non-null ids of the model's steps. */
  function ListedStepIds(ms: seq<PipelineStep>): (r: seq<string>)
    ensures forall x :: x in r <==> exists j :: 0 <= j < |ms| && ms[j].id == Some(x)
  {
    if ms == [] then []
    else
      var rest := ListedStepIds(ms[..|ms| - 1]);
      assert forall j :: 0 <= j < |ms| - 1 ==> ms[..|ms| - 1][j] == ms[j];
      rest + (if ms[|ms| - 1].id.Some? then [ms[|ms| - 1].id.value] else [])
  }

  /** removeIf(step -> !ids.contains(step.getId())): the steps whose id is listed, in order. */
  function KeepListedSteps(steps: seq<PipelineStepEntity>, ids: seq<string>): (r: seq<PipelineStepEntity>)
    ensures |r| <= |steps|
    ensures forall k :: 0 <= k < |r| ==> r[k] in steps && r[k].id.Some? && r[k].id.value in ids
    ensures forall k :: 0 <= k < |steps| && steps[k].id.Some? && steps[k].id.value in ids ==> steps[k] in r
  {
    if steps == [] then []
    else
      var last := steps[|steps| - 1];
      var rest := KeepListedSteps(steps[..|steps| - 1], ids);
      assert forall k :: 0 <= k < |steps| - 1 ==> steps[..|steps| - 1][k] == steps[k];
      rest + (if last.id.Some? && last.id.value in ids then [last] else [])
  }

  lemma {:induction false} KeepListedStepsKeyed(steps: seq<PipelineStepEntity>, ids: seq<string>)
    requires KeyedIds(StepIds(steps))
    ensures KeyedIds(StepIds(KeepListedSteps(steps, ids)))
  {
    KeptStepIds(steps, ids);
    KeepIdsKeyed(StepIds(steps), ids);
  }

  lemma {:induction false} KeptStepIds(steps: seq<PipelineStepEntity>, ids: seq<string>)
    ensures StepIds(KeepListedSteps(steps, ids)) == KeepIds(StepIds(steps), ids)
  {
    if steps != [] {
      var n := |steps| - 1;
      var prefix, last := steps[..n], steps[n];
      assert StepIds(prefix) == StepIds(steps)[..n];
      KeptStepIds(prefix, ids);
      var rest := KeepListedSteps(prefix, ids);
      if last.id.Some? && last.id.value in ids {
        assert StepIds(rest + [last]) == StepIds(rest) + [last.id];
      }
    }
  }

  /** A new PipelineStepEntity: no id, status "draft", every flag false, no columns. */
  const NEW_STEP := PipelineStepEntity(None, None, None, None, None, None, None, Some("draft"), Some(false),
                                       None, None, Some(false), Some(false), [])

  /** The setters the step loop applies: every field but the id and the columns; null flags become false. */
  function FillStep(e: PipelineStepEntity, m: PipelineStep): PipelineStepEntity
  {
    e.(stepOrder := m.order, sourceSchema := m.sourceSchema, sourceTable := m.sourceTable,
       targetSchema := m.targetSchema, targetTable := m.targetTable, description := m.description,
       status := m.status, filterEnabled := Some(OrElse(m.filterEnabled, false)),
       filterWhereClause := m.filterWhereClause, filterDescription := m.filterDescription,
       disableTriggers := Some(OrElse(m.disableTriggers, false)),
       disableConstraints := Some(OrElse(m.disableConstraints, false)))
  }

  /** The step's column mappings reconciled with the model's, when the model has a list. */
  function StepColumns(scan: Scan, s: PipelineStepEntity, m: PipelineStep): Option<PipelineStepEntity>
  {
    if m.columnMappings.None? then Some(s)
    else match ReconcileColumns(scan, s.columnMappings, m.columnMappings.value)
      case None => None
      case Some(cs) => Some(s.(columnMappings := cs))
  }

  /** A stored step after the loop's turn for the model with its id (null-safe). */
  function UpdatedStep(e: PipelineStepEntity, m: PipelineStep): (r: PipelineStepEntity)
    ensures StepColumns(NullSafe, FillStep(e, m), m) == Some(r)
  {
    var s := FillStep(e, m);
    if m.columnMappings.None? then s
    else
      ColumnsNeverFail(KeepListedColumns(s.columnMappings, ListedColumnIds(m.columnMappings.value)), m.columnMappings.value);
      s.(columnMappings := ReconcileColumns(NullSafe, s.columnMappings, m.columnMappings.value).value)
  }

  /**
   * One turn of the step loop: update the step with the model's id, or add a
   * new one unless a step equal to it (columns aside) is already there.
   */
  function StepPass(scan: Scan, cur: seq<PipelineStepEntity>, m: PipelineStep): Option<seq<PipelineStepEntity>>
  {
    match (if m.id.Some? then FindId(scan, StepIds(cur), m.id.value) else Missing)
      case NullId => None
      case Found(i) =>
        (match StepColumns(scan, FillStep(cur[i], m), m)
           case None => None
           case Some(s) => Some(cur[i := s]))
      case Missing =>
        (match StepColumns(scan, FillStep(NEW_STEP, m), m)
           case None => None
           case Some(s) => Some(if exists q :: 0 <= q < |cur| && SameStep(cur[q], s) then cur else cur + [s]))
  }

  lemma SameStepId(a: PipelineStepEntity, b: PipelineStepEntity)
    requires SameStep(a, b)
    ensures a.id == b.id
  {
    assert a.(columnMappings := []).id == b.(columnMappings := []).id;
  }

  /** The step loop over the given models, from the step list base; None when it throws. */
  function StepsAfter(scan: Scan, base: seq<PipelineStepEntity>, ms: seq<PipelineStep>): Option<seq<PipelineStepEntity>>
  {
    if ms == [] then Some(base)
    else match StepsAfter(scan, base, ms[..|ms| - 1])
      case None => None
      case Some(cur) => StepPass(scan, cur, ms[|ms| - 1])
  }

  /** Step reconciliation: drop the unlisted steps, then run the loop. */
  function ReconcileSteps(scan: Scan, steps: seq<PipelineStepEntity>, ms: seq<PipelineStep>): Option<seq<PipelineStepEntity>>
  {
    StepsAfter(scan, KeepListedSteps(steps, ListedStepIds(ms)), ms)
  }

  /** What one turn of the step loop does, on a list whose set ids are distinct. */
  lemma StepPassFacts(cur: seq<PipelineStepEntity>, m: PipelineStep)
    requires DistinctIds(StepIds(cur))
    ensures StepPass(NullSafe, cur, m).Some?
    ensures var nxt := StepPass(NullSafe, cur, m).value;
            |cur| <= |nxt| <= |cur| + 1
            && (forall k :: 0 <= k < |cur| ==> nxt[k].id == cur[k].id)
            && (forall k :: |cur| <= k < |nxt| ==> nxt[k].id.None?)
            && (forall k :: 0 <= k < |cur| && (m.id.None? || cur[k].id != m.id) ==> nxt[k] == cur[k])
            && (forall k :: 0 <= k < |cur| && m.id.Some? && cur[k].id == m.id ==> nxt[k] == UpdatedStep(cur[k], m))
            && ((forall k :: 0 <= k < |cur| ==> m.id.None? || cur[k].id != m.id) ==>
                  exists q :: 0 <= q < |nxt| && SameStep(nxt[q], FillStep(NEW_STEP, m)))
  {
    if m.id.Some? {
      var f := FindId(NullSafe, StepIds(cur), m.id.value);
      if f.Found? {
        forall k | 0 <= k < |cur| && cur[k].id == m.id
          ensures k == f.index
        {
          FoundUnique(NullSafe, StepIds(cur), m.id.value, k);
        }
        assert UpdatedStep(cur[f.index], m).id == cur[f.index].id;
      }
    }
    var s := UpdatedStep(NEW_STEP, m);
    var nxt := StepPass(NullSafe, cur, m).value;
    if m.id.None? || FindId(NullSafe, StepIds(cur), m.id.value).Missing? {
      if exists q :: 0 <= q < |cur| && SameStep(cur[q], s) {
        var q :| 0 <= q < |cur| && SameStep(cur[q], s);
        assert SameStep(nxt[q], FillStep(NEW_STEP, m));
      } else {
        assert SameStep(nxt[|cur|], FillStep(NEW_STEP, m));
      }
    }
  }

  /** The step loop keeps the stored steps' ids in front, new steps after them. */
  predicate StepsShaped(base: seq<PipelineStepEntity>, n: nat, cur: seq<PipelineStepEntity>)
  {
    |base| <= |cur| <= |base| + n
    && (forall k :: 0 <= k < |base| ==> cur[k].id == base[k].id)
    && (forall k :: |base| <= k < |cur| ==> cur[k].id.None?)
  }

  /** After n turns, a stored step holds the model with its id, or is untouched if there is none so far. */
  predicate StepsUpdated(base: seq<PipelineStepEntity>, ms: seq<PipelineStep>, n: nat,
                           cur: seq<PipelineStepEntity>)
    requires n <= |ms| && |base| <= |cur|
  {
    (forall j, k :: 0 <= j < n && 0 <= k < |base| && ms[j].id == base[k].id ==>
       cur[k] == UpdatedStep(base[k], ms[j]))
    && (forall k :: 0 <= k < |base| && (forall j :: 0 <= j < n ==> ms[j].id != base[k].id) ==> cur[k] == base[k])
  }

  /** After n turns, each model so far that names no stored step has a new step, equal to it but for the columns. */
  predicate UnusedStepId(base: seq<PipelineStepEntity>, id: Option<string>)
  {
    forall k :: 0 <= k < |base| ==> id != base[k].id
  }

  predicate HasNewStep(base: seq<PipelineStepEntity>, cur: seq<PipelineStepEntity>, m: PipelineStep)
  {
    exists q :: |base| <= q < |cur| && SameStep(cur[q], FillStep(NEW_STEP, m))
  }

  predicate StepsAdded(base: seq<PipelineStepEntity>, ms: seq<PipelineStep>, n: nat,
                         cur: seq<PipelineStepEntity>)
    requires n <= |ms|
  {
    forall j :: 0 <= j < n && UnusedStepId(base, ms[j].id) ==> HasNewStep(base, cur, ms[j])
  }

  /** The state of the step loop after its first n turns, started from stored steps. */
  predicate StepsInvariant(base: seq<PipelineStepEntity>, ms: seq<PipelineStep>, n: nat,
                             cur: seq<PipelineStepEntity>)
    requires n <= |ms|
  {
    StepsShaped(base, n, cur) && StepsUpdated(base, ms, n, cur) && StepsAdded(base, ms, n, cur)
  }

  lemma StepsUpdatedStep(base: seq<PipelineStepEntity>, ms: seq<PipelineStep>, n: nat,
                           cur: seq<PipelineStepEntity>, nxt: seq<PipelineStepEntity>)
    requires KeyedIds(StepIds(base)) && DistinctIds(ModelStepIds(ms)) && 0 < n <= |ms|
    requires StepsShaped(base, n - 1, cur) && StepsUpdated(base, ms, n - 1, cur) && DistinctIds(StepIds(cur))
    requires |cur| <= |nxt|
    requires forall k :: 0 <= k < |cur| && (ms[n - 1].id.None? || cur[k].id != ms[n - 1].id) ==> nxt[k] == cur[k]
    requires forall k :: 0 <= k < |cur| && ms[n - 1].id.Some? && cur[k].id == ms[n - 1].id ==>
               nxt[k] == UpdatedStep(cur[k], ms[n - 1])
    ensures StepsUpdated(base, ms, n, nxt)
  {
    forall j, k | 0 <= j < n && 0 <= k < |base| && ms[j].id == base[k].id
      ensures nxt[k] == UpdatedStep(base[k], ms[j])
    {
      if j < n - 1 {
        assert ModelStepIds(ms)[j] != ModelStepIds(ms)[n - 1];
      } else {
        forall i | 0 <= i < n - 1
          ensures ms[i].id != base[k].id
        {
          assert ModelStepIds(ms)[i] != ModelStepIds(ms)[n - 1];
        }
      }
    }
  }

  lemma StepsAddedAt(base: seq<PipelineStepEntity>, ms: seq<PipelineStep>, n: nat, cur: seq<PipelineStepEntity>, j: nat)
    requires n <= |ms| && StepsAdded(base, ms, n, cur) && j < n
    requires forall k :: 0 <= k < |base| ==> ms[j].id != base[k].id
    ensures exists q :: |base| <= q < |cur| && SameStep(cur[q], FillStep(NEW_STEP, ms[j]))
  {
    assert UnusedStepId(base, ms[j].id);
    assert HasNewStep(base, cur, ms[j]);
  }

  lemma StepsAddedStep(base: seq<PipelineStepEntity>, ms: seq<PipelineStep>, n: nat,
                         cur: seq<PipelineStepEntity>, nxt: seq<PipelineStepEntity>)
    requires KeyedIds(StepIds(base)) && 0 < n <= |ms|
    requires StepsShaped(base, n - 1, cur) && StepsAdded(base, ms, n - 1, cur)
    requires |cur| <= |nxt|
    requires forall k :: 0 <= k < |cur| ==> nxt[k].id == cur[k].id
    requires forall k :: 0 <= k < |cur| && (ms[n - 1].id.None? || cur[k].id != ms[n - 1].id) ==> nxt[k] == cur[k]
    requires (forall k :: 0 <= k < |cur| ==> ms[n - 1].id.None? || cur[k].id != ms[n - 1].id) ==>
               exists q :: 0 <= q < |nxt| && SameStep(nxt[q], FillStep(NEW_STEP, ms[n - 1]))
    ensures StepsAdded(base, ms, n, nxt)
  {
    forall j | 0 <= j < n && (forall k :: 0 <= k < |base| ==> ms[j].id != base[k].id)
      ensures exists q :: |base| <= q < |nxt| && SameStep(nxt[q], FillStep(NEW_STEP, ms[j]))
    {
      if j < n - 1 {
        StepsAddedAt(base, ms, n - 1, cur, j);
        var q :| |base| <= q < |cur| && SameStep(cur[q], FillStep(NEW_STEP, ms[j]));
        assert nxt[q] == cur[q];
      } else {
        var q :| 0 <= q < |nxt| && SameStep(nxt[q], FillStep(NEW_STEP, ms[n - 1]));
        SameStepId(nxt[q], FillStep(NEW_STEP, ms[n - 1]));
      }
    }
  }

  lemma {:induction false} StepsLoop(base: seq<PipelineStepEntity>, ms: seq<PipelineStep>, n: nat)
    requires KeyedIds(StepIds(base)) && DistinctIds(ModelStepIds(ms)) && n <= |ms|
    ensures StepsAfter(NullSafe, base, ms[..n]).Some?
    ensures StepsInvariant(base, ms, n, StepsAfter(NullSafe, base, ms[..n]).value)
  {
    if n == 0 {
      assert ms[..0] == [];
    } else {
      StepsLoop(base, ms, n - 1);
      assert ms[..n][..n - 1] == ms[..n - 1];
      var cur := StepsAfter(NullSafe, base, ms[..n - 1]).value;
      assert StepIds(cur)[..|base|] == StepIds(base);
      StepPassFacts(cur, ms[n - 1]);
      var nxt := StepPass(NullSafe, cur, ms[n - 1]).value;
      assert StepsAfter(NullSafe, base, ms[..n]) == Some(nxt);
      StepsUpdatedStep(base, ms, n, cur, nxt);
      StepsAddedStep(base, ms, n, cur, nxt);
    }
  }


  /** The null-safe step loop never throws. */
  lemma {:induction false} StepsNeverFail(base: seq<PipelineStepEntity>, ms: seq<PipelineStep>)
    ensures StepsAfter(NullSafe, base, ms).Some?
  {
    if ms != [] {
      var prefix := ms[..|ms| - 1];
      StepsNeverFail(base, prefix);
      var cur := StepsAfter(NullSafe, base, prefix).value;
      var m := ms[|ms| - 1];
      var s := UpdatedStep(NEW_STEP, m);
      if m.id.Some? {
        var f := FindId(NullSafe, StepIds(cur), m.id.value);
        if f.Found? {
          var t := UpdatedStep(cur[f.index], m);
        }
      }
    }
  }

  /**
   * Step reconciliation, null-safe: it never throws; the stored steps that
   * survive are exactly those whose id the models list, kept in order in
   * front; each of them holds the fields of the model with its id, its
   * column mappings reconciled with the model's; and each model naming no
   * stored step has a new step (no id) after them that agrees with it on
   * every field but the columns. Two identical new steps share one entry,
   * since the list's contains compares steps field by field.
   */
  lemma StepsReconciled(steps: seq<PipelineStepEntity>, ms: seq<PipelineStep>)
    requires KeyedIds(StepIds(steps)) && DistinctIds(ModelStepIds(ms))
    ensures ReconcileSteps(NullSafe, steps, ms).Some?
    ensures var kept := KeepListedSteps(steps, ListedStepIds(ms));
            var r := ReconcileSteps(NullSafe, steps, ms).value;
            StepsInvariant(kept, ms, |ms|, r)
            && (forall k :: 0 <= k < |kept| ==> exists j :: 0 <= j < |ms| && ms[j].id == kept[k].id)
  {
    var kept := KeepListedSteps(steps, ListedStepIds(ms));
    KeepListedStepsKeyed(steps, ListedStepIds(ms));
    StepsLoop(kept, ms, |ms|);
    assert ms[..|ms|] == ms;
  }

  /** Once a turn of the step loop has thrown, the loop has. */
  lemma {:induction false} StepsStayFailed(scan: Scan, base: seq<PipelineStepEntity>, ms: seq<PipelineStep>, n: nat)
    requires n <= |ms|
    ensures StepsAfter(scan, base, ms[..n]).None? ==> StepsAfter(scan, base, ms).None?
  {
    if n < |ms| {
      var init := ms[..|ms| - 1];
      assert init[..n] == ms[..n];
      StepsStayFailed(scan, base, init, n);
    } else {
      assert ms[..n] == ms;
    }
  }

  /** The step loop ends having run through the models, or at the first turn that throws. */
  lemma StepsLoopEnds(scan: Scan, steps: seq<PipelineStepEntity>, ms: seq<PipelineStep>, i: nat, r: Option<seq<PipelineStepEntity>>)
    requires i <= |ms| && StepsAfter(scan, KeepListedSteps(steps, ListedStepIds(ms)), ms[..i]) == r
    requires i == |ms| || r.None?
    ensures ReconcileSteps(scan, steps, ms) == r
  {
    StepsStayFailed(scan, KeepListedSteps(steps, ListedStepIds(ms)), ms, i);
    if i == |ms| {
      assert ms[..i] == ms;
    }
  }

  lemma StepsAfterNext(scan: Scan, base: seq<PipelineStepEntity>, ms: seq<PipelineStep>, i: nat, cur: seq<PipelineStepEntity>)
    requires i < |ms| && StepsAfter(scan, base, ms[..i]) == Some(cur)
    ensures StepsAfter(scan, base, ms[..i + 1]) == StepPass(scan, cur, ms[i])
  {
    assert ms[..i + 1][..i] == ms[..i];
  }

  /** The step loop of updatePipeline; None where a lookup throws. */
  method ReconcilePipelineSteps(scan: Scan, steps: seq<PipelineStepEntity>, ms: seq<PipelineStep>)
    returns (r: Option<seq<PipelineStepEntity>>)
    ensures ReconcileSteps(scan, steps, ms) == r
  {
    var kept := KeepListedSteps(steps, ListedStepIds(ms));
    ghost var base := kept;
    r := Some(kept);
    var i := 0;
    while i < |ms| && r.Some?
      invariant i <= |ms|
      invariant StepsAfter(scan, base, ms[..i]) == r
    {
      StepsAfterNext(scan, base, ms, i, r.value);
      r := StepTurn(scan, r.value, ms[i]);
      i := i + 1;
    }
    StepsLoopEnds(scan, steps, ms, i, r);
  }

  /** One turn of the step loop of updatePipeline; None where a lookup throws. */
  method StepTurn(scan: Scan, cur: seq<PipelineStepEntity>, m: PipelineStep) returns (r: Option<seq<PipelineStepEntity>>)
    ensures StepPass(scan, cur, m) == r
  {
    var found := if m.id.Some? then FindId(scan, StepIds(cur), m.id.value) else Missing;
    if found.NullId? {
      return None;
    }
    var s := if found.Found? then FillStep(cur[found.index], m) else FillStep(NEW_STEP, m);
    if m.columnMappings.Some? {
      var cs := ReconcileColumnMappings(scan, s.columnMappings, m.columnMappings.value);
      if cs.None? {
        return None;
      }
      s := s.(columnMappings := cs.value);
    }
    if found.Found? {
      r := Some(cur[found.index := s]);
    } else if exists q :: 0 <= q < |cur| && SameStep(cur[q], s) {
      r := Some(cur);
    } else {
      r := Some(cur + [s]);
    }
  }

  // ------------------------------------------------ the as-written lookup next to the null-safe one

  /** Where the as-written lookup does not throw, it finds what the null-safe one finds. */
  lemma {:induction false} FindIdAgrees(ids: seq<Option<string>>, id: string)
    ensures !FindId(AsWritten, ids, id).NullId? ==> FindId(NullSafe, ids, id) == FindId(AsWritten, ids, id)
  {
    if ids != [] && ids[0] != Some(id) && ids[0].Some? {
      FindIdAgrees(ids[1..], id);
    }
  }

  lemma ColumnPassAgrees(cur: seq<Pg2PgColumnMappingEntity>, m: Pg2PgColumnMapping)
    ensures ColumnPass(AsWritten, cur, m).Some? ==> ColumnPass(NullSafe, cur, m) == ColumnPass(AsWritten, cur, m)
  {
    if m.id.Some? {
      FindIdAgrees(ColumnIds(cur), m.id.value);
    }
  }

  lemma {:induction false} ColumnsAfterAgrees(base: seq<Pg2PgColumnMappingEntity>, ms: seq<Pg2PgColumnMapping>)
    ensures ColumnsAfter(AsWritten, base, ms).Some? ==> ColumnsAfter(NullSafe, base, ms) == ColumnsAfter(AsWritten, base, ms)
  {
    if ms != [] {
      var init := ms[..|ms| - 1];
      ColumnsAfterAgrees(base, init);
      var cur := ColumnsAfter(AsWritten, base, init);
      if cur.Some? {
        ColumnPassAgrees(cur.value, ms[|ms| - 1]);
      }
    }
  }

  lemma StepPassAgrees(cur: seq<PipelineStepEntity>, m: PipelineStep)
    ensures StepPass(AsWritten, cur, m).Some? ==> StepPass(NullSafe, cur, m) == StepPass(AsWritten, cur, m)
  {
    if m.id.Some? {
      FindIdAgrees(StepIds(cur), m.id.value);
    }
    if m.columnMappings.Some? {
      var f := if m.id.Some? then FindId(AsWritten, StepIds(cur), m.id.value) else Missing;
      var s := if f.Found? then FillStep(cur[f.index], m) else FillStep(NEW_STEP, m);
      var ms := m.columnMappings.value;
      ColumnsAfterAgrees(KeepListedColumns(s.columnMappings, ListedColumnIds(ms)), ms);
    }
  }

  lemma {:induction false} StepsAfterAgrees(base: seq<PipelineStepEntity>, ms: seq<PipelineStep>)
    ensures StepsAfter(AsWritten, base, ms).Some? ==> StepsAfter(NullSafe, base, ms) == StepsAfter(AsWritten, base, ms)
  {
    if ms != [] {
      var init := ms[..|ms| - 1];
      StepsAfterAgrees(base, init);
      var cur := StepsAfter(AsWritten, base, init);
      if cur.Some? {
        StepPassAgrees(cur.value, ms[|ms| - 1]);
      }
    }
  }

  /**
   * Step reconciliation as written either throws or ends where the null-safe
   * one does, so every property of the null-safe result holds of it.
   */
  lemma ReconcileStepsAgrees(steps: seq<PipelineStepEntity>, ms: seq<PipelineStep>)
    ensures ReconcileSteps(AsWritten, steps, ms).Some? ==> ReconcileSteps(AsWritten, steps, ms) == ReconcileSteps(NullSafe, steps, ms)
  {
    StepsAfterAgrees(KeepListedSteps(steps, ListedStepIds(ms)), ms);
  }

  /**
   * As written, a pipeline update whose steps are a new step followed by a
   * step with an id that no stored step has throws: the lookup for the
   * second reaches the first, which has no id yet. The null-safe lookup adds
   * both.
   */
  lemma UnknownIdAfterNewStepThrows(first: PipelineStep, second: PipelineStep)
    requires first.id.None? && second.id == Some("stale") && first.columnMappings.None? && second.columnMappings.None?
    ensures ReconcileSteps(AsWritten, [], [first, second]).None?
    ensures ReconcileSteps(NullSafe, [], [first, second]).Some?
  {
    assert KeepListedSteps([], ListedStepIds([first, second])) == [];
    assert [first, second][..1] == [first];
    assert [first][..0] == [];
    assert StepsAfter(AsWritten, [], []) == Some([]);
    var s1 := FillStep(NEW_STEP, first);
    assert StepColumns(AsWritten, s1, first) == Some(s1);
    var none: seq<PipelineStepEntity> := [];
    assert none + [s1] == [s1];
    assert StepPass(AsWritten, none, first) == Some([s1]);
    var ms := [first, second];
    assert ms[..1] == [first] && ms[..1][..0] == [];
    assert StepsAfter(AsWritten, [], ms[..1]) == Some([FillStep(NEW_STEP, first)]);
    assert StepIds([FillStep(NEW_STEP, first)]) == [None];
    assert FindId(AsWritten, [None], "stale") == NullId;
    assert StepsAfter(AsWritten, [], ms).None?;
    StepsNeverFail([], ms);
  }

  // ---------------------------------------------------------------- connections

  /** removeIf(c -> kind.equals(c.getConnectionType())). */
  function WithoutType(conns: seq<PipelineConnectionEntity>, kind: string): (r: seq<PipelineConnectionEntity>)
    ensures forall c :: c in r <==> c in conns && c.connectionType != Some(kind)
  {
    if conns == [] then []
    else
      var rest := WithoutType(conns[..|conns| - 1], kind);
      var c := conns[|conns| - 1];
      if c.connectionType == Some(kind) then rest else rest + [c]
  }

  /** How many connections have exactly this type. */
  function CountType(conns: seq<PipelineConnectionEntity>, kind: string): nat
  {
    if conns == [] then 0
    else CountType(conns[..|conns| - 1], kind) + (if conns[|conns| - 1].connectionType == Some(kind) then 1 else 0)
  }

  lemma {:induction false} WithoutTypeCount(conns: seq<PipelineConnectionEntity>, kind: string, other: string)
    ensures CountType(WithoutType(conns, kind), kind) == 0
    ensures other != kind ==> CountType(WithoutType(conns, kind), other) == CountType(conns, other)
  {
    if conns != [] {
      var init := conns[..|conns| - 1];
      WithoutTypeCount(init, kind, other);
      var rest := WithoutType(init, kind);
      var c := conns[|conns| - 1];
      if c.connectionType != Some(kind) {
        assert (rest + [c])[..|rest + [c]| - 1] == rest;
      }
    }
  }

  lemma {:induction false} WithoutTypeLast(conns: seq<PipelineConnectionEntity>, kind: string, other: string)
    requires other != kind
    ensures LastConnection(WithoutType(conns, kind), other) == LastConnection(conns, other)
  {
    if conns != [] {
      var init := conns[..|conns| - 1];
      WithoutTypeLast(init, kind, other);
      var rest := WithoutType(init, kind);
      var c := conns[|conns| - 1];
      if c.connectionType != Some(kind) {
        assert (rest + [c])[..|rest + [c]| - 1] == rest;
      }
    }
  }

  /** One branch of updatePipeline's connection update: drop that type, add the new one. */
  function ReplaceConnection(conns: seq<PipelineConnectionEntity>, kind: string, c: Model.ConnectionConfig): seq<PipelineConnectionEntity>
  {
    WithoutType(conns, kind) + [ToConnectionEntity(c, kind)]
  }

  /**
   * A supplied connection replaces every connection of its type by exactly
   * one, which the mapper then reads back; the other types keep their count
   * and what the mapper reads for them.
   */
  lemma ReplaceConnectionSingle(conns: seq<PipelineConnectionEntity>, kind: string, c: Model.ConnectionConfig, other: string)
    requires other != kind
    ensures var r := ReplaceConnection(conns, kind, c);
            CountType(r, kind) == 1 && CountType(r, other) == CountType(conns, other)
            && ConnectionFor(r, kind) == Some(c) && ConnectionFor(r, other) == ConnectionFor(conns, other)
  {
    var rest := WithoutType(conns, kind);
    var r := ReplaceConnection(conns, kind, c);
    assert r[..|r| - 1] == rest;
    WithoutTypeCount(conns, kind, other);
    WithoutTypeLast(conns, kind, other);
    ConnectionRoundTrip(c, kind);
  }

  /** The connection part of updatePipeline: a null model connection leaves that type alone. */
  function UpdatedConnections(conns: seq<PipelineConnectionEntity>, p: Pipeline): seq<PipelineConnectionEntity>
  {
    var afterSource := if p.sourceConnection.Some? then ReplaceConnection(conns, "source", p.sourceConnection.value) else conns;
    if p.targetConnection.Some? then ReplaceConnection(afterSource, "target", p.targetConnection.value) else afterSource
  }

  /** Read back through the mapper, each supplied connection wins and each omitted one stays. */
  lemma UpdatedConnectionsReadBack(conns: seq<PipelineConnectionEntity>, p: Pipeline)
    ensures var r := UpdatedConnections(conns, p);
            ConnectionFor(r, "source") == (if p.sourceConnection.Some? then p.sourceConnection else ConnectionFor(conns, "source"))
            && ConnectionFor(r, "target") == (if p.targetConnection.Some? then p.targetConnection else ConnectionFor(conns, "target"))
            && (p.sourceConnection.Some? ==> CountType(r, "source") == 1)
            && (p.targetConnection.Some? ==> CountType(r, "target") == 1)
  {
    var afterSource := if p.sourceConnection.Some? then ReplaceConnection(conns, "source", p.sourceConnection.value) else conns;
    if p.sourceConnection.Some? {
      ReplaceConnectionSingle(conns, "source", p.sourceConnection.value, "target");
    }
    if p.targetConnection.Some? {
      ReplaceConnectionSingle(afterSource, "target", p.targetConnection.value, "source");
    }
  }

  /** removeIf(c -> kind.equalsIgnoreCase(c.getConnectionType())); a null type never matches. */
  function WithoutTypeIgnoringCase(conns: seq<PipelineConnectionEntity>, kind: string): (r: seq<PipelineConnectionEntity>)
    ensures forall c :: c in r <==> c in conns && !(c.connectionType.Some? && EqualsIgnoreCase(kind, c.connectionType.value))
  {
    if conns == [] then []
    else
      var rest := WithoutTypeIgnoringCase(conns[..|conns| - 1], kind);
      var c := conns[|conns| - 1];
      if c.connectionType.Some? && EqualsIgnoreCase(kind, c.connectionType.value) then rest else rest + [c]
  }

  /** stream().anyMatch(c -> kind.equals(c.getConnectionType())). */
  predicate HasConnection(conns: seq<PipelineConnectionEntity>, kind: string)
  {
    exists k :: 0 <= k < |conns| && conns[k].connectionType == Some(kind)
  }

  /**
   * saveConnection on a stored pipeline: replace the connections of the type
   * (ignoring case) by the new one, then, once a "source" and a "target"
   * exist, move a draft pipeline with steps to "configured". The status is
   * read only then, and a null status throws.
   */
  function SavedConnection(e: PipelineEntity, kind: string, c: Model.ConnectionConfig): Outcome<PipelineEntity>
  {
    var conns := WithoutTypeIgnoringCase(e.connections, kind) + [ToConnectionEntity(c, kind)];
    if HasConnection(conns, "source") && HasConnection(conns, "target") then
      if e.status.None? then Failed(NullPointer)
      else if e.status.value == "draft" && e.steps != [] then Ok(e.(connections := conns, status := Some("configured")))
      else Ok(e.(connections := conns))
    else Ok(e.(connections := conns))
  }

  /**
   * The status rule of saveConnection: the status becomes "configured"
   * exactly when the pipeline was a draft with steps and both a source and a
   * target connection exist afterwards; otherwise it is unchanged. The steps
   * and everything but the connections stay as they were.
   */
  lemma SavedConnectionStatus(e: PipelineEntity, kind: string, c: Model.ConnectionConfig)
    requires e.status.Some?
    ensures var conns := WithoutTypeIgnoringCase(e.connections, kind) + [ToConnectionEntity(c, kind)];
            var r := SavedConnection(e, kind, c);
            r.Ok? && r.value.connections == conns
            && r.value.(status := e.status, connections := e.connections) == e
            && (r.value.status == Some("configured") <==>
                  e.status == Some("configured")
                  || (e.status == Some("draft") && e.steps != []
                      && HasConnection(conns, "source") && HasConnection(conns, "target")))
  {
  }

  /**
   * A connection saved under the exact type name "source" or "target" is the
   * one the mapper reads back for that type, and the other type is kept.
   */
  lemma SavedConnectionReadBack(e: PipelineEntity, kind: string, c: Model.ConnectionConfig)
    requires kind == "source" || kind == "target"
    requires SavedConnection(e, kind, c).Ok?
    ensures var r := SavedConnection(e, kind, c).value;
            var other := if kind == "source" then "target" else "source";
            ConnectionFor(r.connections, kind) == Some(c)
            && LastConnection(r.connections, other) == LastConnection(e.connections, other)
  {
    var other := if kind == "source" then "target" else "source";
    SourceTargetDiffer(kind, other);
    SavedConnectionList(e, kind, c);
    IgnoringCaseReplace(e.connections, kind, c, other);
  }

  lemma SourceTargetDiffer(kind: string, other: string)
    requires (kind == "source" && other == "target") || (kind == "target" && other == "source")
    ensures Upper(kind) != Upper(other)
  {
    assert Upper(kind)[0] != Upper(other)[0];
  }

  lemma SavedConnectionList(e: PipelineEntity, kind: string, c: Model.ConnectionConfig)
    requires SavedConnection(e, kind, c).Ok?
    ensures SavedConnection(e, kind, c).value.connections
            == WithoutTypeIgnoringCase(e.connections, kind) + [ToConnectionEntity(c, kind)]
  {
  }

  /** Replacing ignoring case: the new entity is the last of its type, and a type that differs in case too is kept. */
  lemma IgnoringCaseReplace(conns: seq<PipelineConnectionEntity>, kind: string, c: Model.ConnectionConfig, other: string)
    requires Upper(kind) != Upper(other)
    ensures var r := WithoutTypeIgnoringCase(conns, kind) + [ToConnectionEntity(c, kind)];
            ConnectionFor(r, kind) == Some(c) && LastConnection(r, other) == LastConnection(conns, other)
  {
    var rest := WithoutTypeIgnoringCase(conns, kind);
    var r := rest + [ToConnectionEntity(c, kind)];
    assert r[..|r| - 1] == rest;
    ConnectionRoundTrip(c, kind);
    IgnoringCaseLast(conns, kind, other);
  }

  lemma {:induction false} IgnoringCaseLast(conns: seq<PipelineConnectionEntity>, kind: string, other: string)
    requires Upper(kind) != Upper(other)
    ensures LastConnection(WithoutTypeIgnoringCase(conns, kind), other) == LastConnection(conns, other)
  {
    if conns != [] {
      var init := conns[..|conns| - 1];
      IgnoringCaseLast(init, kind, other);
      var rest := WithoutTypeIgnoringCase(init, kind);
      var c := conns[|conns| - 1];
      if !(c.connectionType.Some? && EqualsIgnoreCase(kind, c.connectionType.value)) {
        assert (rest + [c])[..|rest + [c]| - 1] == rest;
      }
    }
  }

  /**
   * The type name is matched ignoring case when removing but stored as given:
   * saving under "Source" drops the existing source connection and adds one
   * the mapper does not read as the source.
   */
  lemma MixedCaseTypeDropsSource(e: PipelineEntity, kind: string, c: Model.ConnectionConfig)
    requires kind == "Source"
    ensures SavedConnection(e, kind, c).Ok? ==> ConnectionFor(SavedConnection(e, kind, c).value.connections, "source").None?
  {
    var rest := WithoutTypeIgnoringCase(e.connections, kind);
    var conns := rest + [ToConnectionEntity(c, kind)];
    assert conns[..|conns| - 1] == rest;
    assert Upper(kind) == Upper("source");
    forall k | 0 <= k < |rest|
      ensures rest[k].connectionType != Some("source")
    {
      assert rest[k] in rest;
    }
  }

  // ---------------------------------------------------------------- pipeline updates

  /** The steps after updatePipeline's reconciliation (null-safe, so it always completes). */
  function ReconciledSteps(steps: seq<PipelineStepEntity>, ms: seq<PipelineStep>): (r: seq<PipelineStepEntity>)
    ensures ReconcileSteps(NullSafe, steps, ms) == Some(r)
  {
    StepsNeverFail(KeepListedSteps(steps, ListedStepIds(ms)), ms);
    ReconcileSteps(NullSafe, steps, ms).value
  }

  /**
   * updatePipeline on the stored entity: name, description and status are
   * copied as given (null included), the supplied connections replace their
   * type, and a supplied step list is reconciled; a null one leaves the steps.
   */
  function Updated(e: PipelineEntity, p: Pipeline): PipelineEntity
  {
    e.(name := p.name, description := p.description, status := p.status,
       connections := UpdatedConnections(e.connections, p),
       steps := if p.steps.Some? then ReconciledSteps(e.steps, p.steps.value) else e.steps)
  }

  /**
   * updatePipeline as written: None where the step loop's lookup throws a
   * NullPointerException, which rolls the transaction back.
   */
  function UpdatedAsWritten(e: PipelineEntity, p: Pipeline): Option<PipelineEntity>
  {
    if p.steps.None? then Some(Updated(e, p))
    else match ReconcileSteps(AsWritten, e.steps, p.steps.value)
      case None => None
      case Some(steps) => Some(Updated(e, p).(steps := steps))
  }

  /** An update that does not throw stores the null-safe update, only a step list can make it throw. */
  lemma UpdatedAsWrittenAgrees(e: PipelineEntity, p: Pipeline)
    ensures UpdatedAsWritten(e, p).Some? ==> UpdatedAsWritten(e, p) == Some(Updated(e, p))
    ensures UpdatedAsWritten(e, p).None? <==> p.steps.Some? && ReconcileSteps(AsWritten, e.steps, p.steps.value).None?
  {
    if p.steps.Some? {
      ReconcileStepsAgrees(e.steps, p.steps.value);
    }
  }

  /**
   * What a client reads back after updatePipeline: its name, description and
   * status; each connection it supplied and, for an omitted one, the stored
   * one; the id, owner and counters unchanged.
   */
  lemma UpdatedReadBack(e: PipelineEntity, p: Pipeline)
    ensures var m := ToModel(Updated(e, p));
            m.id == e.id && m.userId == Some(e.ownerId) && m.totalRuns == e.totalRuns
            && m.name == p.name && m.description == p.description && m.status == p.status
            && m.sourceConnection == (if p.sourceConnection.Some? then p.sourceConnection else ToModel(e).sourceConnection)
            && m.targetConnection == (if p.targetConnection.Some? then p.targetConnection else ToModel(e).targetConnection)
  {
    UpdatedConnectionsReadBack(e.connections, p);
  }

  /** A new pipeline: createPipeline's model through toEntity, given its generated id and creation time. */
  function Created(name: Option<string>, description: Option<string>, userId: string, freshId: string, now: int): PipelineEntity
  {
    var m := Pipeline(None, name, description, None, None, Some("draft"), None, None, None, None, None, None);
    ToEntity(m, userId).(id := Some(freshId), createdAt := Some(now), updatedAt := Some(now))
  }

  /** A created pipeline reads back as an empty draft with no runs, owned by its creator. */
  lemma CreatedIsDraft(name: Option<string>, description: Option<string>, userId: string, freshId: string, now: int)
    ensures var m := ToModel(Created(name, description, userId, freshId, now));
            m == Pipeline(Some(freshId), name, description, Some(now), Some(now), Some("draft"), Some(userId),
                          Some([]), None, None, Some(0), None)
  {
  }

  // ---------------------------------------------------------------- executions

  predicate IsRunning(x: PipelineExecutionEntity)
  {
    x.status == Some("running")
  }

  /** The store's rule: no pipeline has two running executions. */
  predicate AtMostOneRunning(execs: seq<PipelineExecutionEntity>)
  {
    forall i, j ::
      (0 <= i < |execs| && 0 <= j < |execs| && IsRunning(execs[i]) && IsRunning(execs[j])
       && execs[i].pipelineId == execs[j].pipelineId) ==> i == j
  }

  /** findByPipelineIdAndStatus(pipelineId, "running"). */
  function FindRunning(execs: seq<PipelineExecutionEntity>, pipelineId: string): (r: Option<nat>)
    ensures r.Some? ==> r.value < |execs| && IsRunning(execs[r.value]) && execs[r.value].pipelineId == Some(pipelineId)
    ensures r.None? <==> forall k :: 0 <= k < |execs| ==> !(IsRunning(execs[k]) && execs[k].pipelineId == Some(pipelineId))
  {
    if execs == [] then None
    else if IsRunning(execs[0]) && execs[0].pipelineId == Some(pipelineId) then Some(0)
    else match FindRunning(execs[1..], pipelineId)
      case Some(k) => Some(k + 1)
      case None => None
  }

  /** The execution startExecution creates: running, started now, all counters zero. */
  function NewExecution(execId: string, pipelineId: string, now: int): PipelineExecutionEntity
  {
    PipelineExecutionEntity(Some(execId), Some(pipelineId), Some("running"), Some(now), None, Some(0), Some(0), Some(0), None)
  }

  /** startExecution's pipeline update; totalRuns is an Integer, so the increment wraps at 2^31 - 1. */
  function Started(e: PipelineEntity, now: int): (r: PipelineEntity)
    requires e.totalRuns.Some?
    ensures r.status == Some("running") && r.lastRunAt == Some(now) && r.totalRuns.Some?
    ensures INT_MIN <= e.totalRuns.value < INT_MAX ==> r.totalRuns.value == e.totalRuns.value + 1
    ensures r.(status := e.status, totalRuns := e.totalRuns, lastRunAt := e.lastRunAt, updatedAt := e.updatedAt) == e
  {
    e.(status := Some("running"), totalRuns := Some(IntWrap(e.totalRuns.value + 1)), lastRunAt := Some(now), updatedAt := Some(now))
  }

  /** The increment of Integer.MAX_VALUE runs gives Integer.MIN_VALUE. */
  lemma StartedWraps(e: PipelineEntity, now: int)
    requires e.totalRuns == Some(INT_MAX)
    ensures Started(e, now).totalRuns == Some(INT_MIN)
  {
  }

  function StartLog(logId: string, pipelineId: string, execId: string, now: int): PipelineLogEntity
  {
    PipelineLogEntity(Some(logId), Some(pipelineId), Some(Some(execId)), Some(now), Some("info"),
                      Some("Pipeline execution started"), None, None)
  }

  /** stopExecution's change to the running execution. */
  function Paused(x: PipelineExecutionEntity, now: int): PipelineExecutionEntity
  {
    x.(status := Some("paused"), endTime := Some(now))
  }

  function PauseLog(logId: string, pipelineId: string, execId: Option<string>, now: int): PipelineLogEntity
  {
    PipelineLogEntity(Some(logId), Some(pipelineId), Some(execId), Some(now), Some("info"),
                      Some("Pipeline execution paused"), None, None)
  }

  /**
   * Starting a run where none is running keeps at most one running execution
   * per pipeline, and the new one is the running execution found for it.
   */
  lemma StartKeepsOneRunning(execs: seq<PipelineExecutionEntity>, execId: string, pipelineId: string, now: int)
    requires AtMostOneRunning(execs) && FindRunning(execs, pipelineId).None?
    ensures var r := execs + [NewExecution(execId, pipelineId, now)];
            AtMostOneRunning(r) && FindRunning(r, pipelineId) == Some(|execs|)
  {
    var x := NewExecution(execId, pipelineId, now);
    var r := execs + [x];
    FindRunningUnique(r, pipelineId, |execs|);
  }

  /** The running execution of a pipeline is the only one, so the lookup finds exactly it. */
  lemma FindRunningUnique(execs: seq<PipelineExecutionEntity>, pipelineId: string, i: nat)
    requires i < |execs| && IsRunning(execs[i]) && execs[i].pipelineId == Some(pipelineId)
    requires forall k :: 0 <= k < |execs| && k != i ==> !(IsRunning(execs[k]) && execs[k].pipelineId == Some(pipelineId))
    ensures FindRunning(execs, pipelineId) == Some(i)
  {
    var f := FindRunning(execs, pipelineId);
  }

  /**
   * Pausing the running execution leaves the pipeline with none running,
   * keeps the rule, and does not change what is running for other pipelines.
   */
  lemma PauseKeepsOneRunning(execs: seq<PipelineExecutionEntity>, pipelineId: string, now: int, other: string)
    requires AtMostOneRunning(execs) && FindRunning(execs, pipelineId).Some?
    ensures var r := execs[FindRunning(execs, pipelineId).value := Paused(execs[FindRunning(execs, pipelineId).value], now)];
            AtMostOneRunning(r) && FindRunning(r, pipelineId).None?
            && (other != pipelineId ==> FindRunning(r, other) == FindRunning(execs, other))
  {
    var i := FindRunning(execs, pipelineId).value;
    var r := execs[i := Paused(execs[i], now)];
    if other != pipelineId {
      match FindRunning(execs, other)
      case Some(j) =>
        FindRunningUnique(r, other, j);
      case None =>
    }
  }

  /** A run that is started and then stopped is the one paused, with its start and end time. */
  lemma StartThenStop(execs: seq<PipelineExecutionEntity>, execId: string, pipelineId: string, start: int, stop: int)
    requires AtMostOneRunning(execs) && FindRunning(execs, pipelineId).None?
    ensures var r := execs + [NewExecution(execId, pipelineId, start)];
            FindRunning(r, pipelineId) == Some(|execs|)
            && var p := Paused(r[|execs|], stop);
               p.id == Some(execId) && p.status == Some("paused") && p.startTime == Some(start) && p.endTime == Some(stop)
               && FindRunning(r[|execs| := p], pipelineId).None?
  {
    StartKeepsOneRunning(execs, execId, pipelineId, start);
    var r := execs + [NewExecution(execId, pipelineId, start)];
    PauseKeepsOneRunning(r, pipelineId, stop, pipelineId);
  }

  // ---------------------------------------------------------------- ownership

  /** findById(id) followed by the owner check every operation makes. */
  function Access(pipelines: map<string, PipelineEntity>, userId: string, id: string): (r: Outcome<PipelineEntity>)
    ensures r.Ok? <==> id in pipelines && pipelines[id].ownerId == userId
    ensures r.Ok? ==> r.value == pipelines[id]
    ensures r.Failed? ==> r.failure == (if id in pipelines then AccessDenied else NotFound)
  {
    if id !in pipelines then Failed(NotFound)
    else if pipelines[id].ownerId != userId then Failed(AccessDenied)
    else Ok(pipelines[id])
  }

  /** Every stored pipeline is filed under its own id. */
  predicate Keyed(pipelines: map<string, PipelineEntity>)
  {
    forall k :: k in pipelines ==> pipelines[k].id == Some(k)
  }

  /** The step list after the step repository saves s: a step with a stored id replaces it, any other is appended. */
  function WithStep(steps: seq<PipelineStepEntity>, s: PipelineStepEntity): (r: seq<PipelineStepEntity>)
    ensures (exists k :: 0 <= k < |steps| && s.id.Some? && steps[k].id == s.id && r == steps[k := s])
            || (r == steps + [s] && (s.id.None? || forall k :: 0 <= k < |steps| ==> steps[k].id != s.id))
  {
    var found := if s.id.Some? then FindId(NullSafe, StepIds(steps), s.id.value) else Missing;
    if found.Found? then
      steps[found.index := s]
    else steps + [s]
  }

  // ---------------------------------------------------------------- the repositories

  /**
   * The pipeline, execution and log repositories. Every operation first
   * looks the pipeline up and checks its owner; on any failure the state is
   * left as it was, as the transaction rolls back.
   */
  class PipelineStore {
    var pipelines: map<string, PipelineEntity>
    var executions: seq<PipelineExecutionEntity>
    var logs: seq<PipelineLogEntity>

    predicate Valid()
      reads this
    {
      Keyed(pipelines) && AtMostOneRunning(executions)
    }

    constructor ()
      ensures Valid() && pipelines == map[] && executions == [] && logs == []
    {
      pipelines := map[];
      executions := [];
      logs := [];
    }

    /** getPipelineById. */
    method GetPipelineById(userId: string, id: string) returns (r: Outcome<Pipeline>)
      ensures r.Ok? <==> id in pipelines && pipelines[id].ownerId == userId
      ensures r.Ok? ==> r.value == ToModel(pipelines[id])
      ensures r.Failed? ==> r.failure == (if id in pipelines then AccessDenied else NotFound)
    {
      var a := Access(pipelines, userId, id);
      if a.Failed? {
        return Failed(a.failure);
      }
      r := Ok(ToModel(a.value));
    }

    /** createPipeline(name, description); freshId is the generated id, now the creation time. */
    method CreatePipeline(userId: string, name: Option<string>, description: Option<string>, freshId: string, now: int)
      returns (r: Pipeline)
      requires Valid() && freshId !in pipelines
      modifies this
      ensures Valid()
      ensures pipelines == old(pipelines)[freshId := Created(name, description, userId, freshId, now)]
      ensures executions == old(executions) && logs == old(logs)
      ensures r == ToModel(Created(name, description, userId, freshId, now))
    {
      var e := Created(name, description, userId, freshId, now);
      pipelines := pipelines[freshId := e];
      r := ToModel(e);
    }

    /**
     * updatePipeline(p); now is the update time. A null id is not found; a
     * step loop that throws fails with NullPointer and stores nothing.
     */
    method UpdatePipeline(userId: string, p: Pipeline, now: int) returns (r: Outcome<Pipeline>)
      requires Valid()
      modifies this
      ensures Valid()
      ensures executions == old(executions) && logs == old(logs)
      ensures p.id.None? ==> r == Failed(NotFound) && pipelines == old(pipelines)
      ensures p.id.Some? ==>
                var a := Access(old(pipelines), userId, p.id.value);
                if a.Failed? then r == Failed(a.failure) && pipelines == old(pipelines)
                else if UpdatedAsWritten(a.value, p).None? then r == Failed(NullPointer) && pipelines == old(pipelines)
                else
                  var e := UpdatedAsWritten(a.value, p).value.(updatedAt := Some(now));
                  pipelines == old(pipelines)[p.id.value := e] && r == Ok(ToModel(e))
    {
      if p.id.None? {
        return Failed(NotFound);
      }
      var id := p.id.value;
      var a := Access(pipelines, userId, id);
      if a.Failed? {
        return Failed(a.failure);
      }
      var e := a.value;
      var steps := e.steps;
      if p.steps.Some? {
        var reconciled := ReconcilePipelineSteps(AsWritten, e.steps, p.steps.value);
        if reconciled.None? {
          return Failed(NullPointer);
        }
        steps := reconciled.value;
      }
      e := e.(name := p.name, description := p.description, status := p.status,
              connections := UpdatedConnections(e.connections, p), steps := steps, updatedAt := Some(now));
      pipelines := pipelines[id := e];
      r := Ok(ToModel(e));
    }

    /** deletePipeline(id); None when it succeeds. */
    method DeletePipeline(userId: string, id: string) returns (err: Option<Failure>)
      requires Valid()
      modifies this
      ensures Valid()
      ensures executions == old(executions) && logs == old(logs)
      ensures var a := Access(old(pipelines), userId, id);
              if a.Failed? then err == Some(a.failure) && pipelines == old(pipelines)
              else err.None? && pipelines == old(pipelines) - {id}
    {
      var a := Access(pipelines, userId, id);
      if a.Failed? {
        return Some(a.failure);
      }
      pipelines := pipelines - {id};
      err := None;
    }

    /** addStepToPipeline(pipelineId, step): the step repository saves the mapped entity. */
    method AddStepToPipeline(userId: string, pipelineId: string, step: PipelineStep) returns (r: Outcome<PipelineStep>)
      requires Valid()
      modifies this
      ensures Valid()
      ensures executions == old(executions) && logs == old(logs)
      ensures var a := Access(old(pipelines), userId, pipelineId);
              if a.Failed? then r == Failed(a.failure) && pipelines == old(pipelines)
              else
                var s := ToPipelineStepEntity(step);
                pipelines == old(pipelines)[pipelineId := a.value.(steps := WithStep(a.value.steps, s))]
                && r == Ok(ToPipelineStep(s, Some(pipelineId)))
    {
      var a := Access(pipelines, userId, pipelineId);
      if a.Failed? {
        return Failed(a.failure);
      }
      var s := ToPipelineStepEntity(step);
      pipelines := pipelines[pipelineId := a.value.(steps := WithStep(a.value.steps, s))];
      r := Ok(ToPipelineStep(s, Some(pipelineId)));
    }

    /** saveConnection(pipelineId, kind, c); now is the update time. */
    method SaveConnection(userId: string, pipelineId: string, kind: string, c: Model.ConnectionConfig, now: int)
      returns (r: Outcome<Pipeline>)
      requires Valid()
      modifies this
      ensures Valid()
      ensures executions == old(executions) && logs == old(logs)
      ensures var a := Access(old(pipelines), userId, pipelineId);
              if a.Failed? then r == Failed(a.failure) && pipelines == old(pipelines)
              else
                var saved := SavedConnection(a.value, kind, c);
                if saved.Failed? then r == Failed(saved.failure) && pipelines == old(pipelines)
                else
                  var e := saved.value.(updatedAt := Some(now));
                  pipelines == old(pipelines)[pipelineId := e] && r == Ok(ToModel(e))
    {
      var a := Access(pipelines, userId, pipelineId);
      if a.Failed? {
        return Failed(a.failure);
      }
      var saved := SavedConnection(a.value, kind, c);
      if saved.Failed? {
        return Failed(saved.failure);
      }
      var e := saved.value.(updatedAt := Some(now));
      pipelines := pipelines[pipelineId := e];
      r := Ok(ToModel(e));
    }

    /**
     * startExecution(pipelineId): refused while a run is going on; otherwise
     * a running execution with zero counters, the pipeline running with one
     * more run, and a log line. The background run itself is not part of it.
     */
    method StartExecution(userId: string, pipelineId: string, execId: string, logId: string, now: int)
      returns (r: Outcome<PipelineExecution>)
      requires Valid()
      modifies this
      ensures Valid()
      ensures var a := Access(old(pipelines), userId, pipelineId);
              if a.Failed? then r == Failed(a.failure) && unchanged(this)
              else if FindRunning(old(executions), pipelineId).Some? then r == Failed(AlreadyRunning) && unchanged(this)
              else if a.value.totalRuns.None? then r == Failed(NullPointer) && unchanged(this)
              else
                var x := NewExecution(execId, pipelineId, now);
                r == Ok(ToExecution(x))
                && executions == old(executions) + [x]
                && pipelines == old(pipelines)[pipelineId := Started(a.value, now)]
                && logs == old(logs) + [StartLog(logId, pipelineId, execId, now)]
    {
      var a := Access(pipelines, userId, pipelineId);
      if a.Failed? {
        return Failed(a.failure);
      }
      if FindRunning(executions, pipelineId).Some? {
        return Failed(AlreadyRunning);
      }
      if a.value.totalRuns.None? {
        return Failed(NullPointer);
      }
      var x := NewExecution(execId, pipelineId, now);
      StartKeepsOneRunning(executions, execId, pipelineId, now);
      executions := executions + [x];
      pipelines := pipelines[pipelineId := Started(a.value, now)];
      logs := logs + [StartLog(logId, pipelineId, execId, now)];
      r := Ok(ToExecution(x));
    }

    /**
     * stopExecution(pipelineId): the running execution and the pipeline become
     * "paused" and a log line is added; with nothing running, nothing changes
     * and the result is null.
     */
    method StopExecution(userId: string, pipelineId: string, logId: string, now: int)
      returns (r: Outcome<Option<PipelineExecutionEntity>>)
      requires Valid()
      modifies this
      ensures Valid()
      ensures var a := Access(old(pipelines), userId, pipelineId);
              if a.Failed? then r == Failed(a.failure) && unchanged(this)
              else match FindRunning(old(executions), pipelineId)
                case None => r == Ok(None) && unchanged(this)
                case Some(i) =>
                  var x := Paused(old(executions)[i], now);
                  r == Ok(Some(x))
                  && executions == old(executions)[i := x]
                  && pipelines == old(pipelines)[pipelineId := a.value.(status := Some("paused"), updatedAt := Some(now))]
                  && logs == old(logs) + [PauseLog(logId, pipelineId, old(executions)[i].id, now)]
    {
      var a := Access(pipelines, userId, pipelineId);
      if a.Failed? {
        return Failed(a.failure);
      }
      var found := FindRunning(executions, pipelineId);
      if found.None? {
        return Ok(None);
      }
      var i := found.value;
      var x := Paused(executions[i], now);
      PauseKeepsOneRunning(executions, pipelineId, now, pipelineId);
      logs := logs + [PauseLog(logId, pipelineId, executions[i].id, now)];
      executions := executions[i := x];
      pipelines := pipelines[pipelineId := a.value.(status := Some("paused"), updatedAt := Some(now))];
      r := Ok(Some(x));
    }
  }
}
