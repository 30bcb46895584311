// The migration job's mutable progress record and the code that updates it:
// executeMigration's setup and table loop, processTableMigration with the
// table preparation and the chunked or single copy it chooses, the batched
// row loop of migrateTableRange, pause and resume, and the progress
// reconstructed from stored table statuses.
//
// Other threads and the databases act on a running job from outside; here
// their effect arrives as inputs: what each database statement does, the
// partition bounds the source reports, and the status each fetched row sees.

module MigrationJob {
  import opened JavaStr
  import opened Model
  import MigrationService

  datatype LogLine = LogLine(level: string, message: string, details: Option<string>)

  /** What saveProgressToDatabase writes. */
  datatype Snapshot = Snapshot(status: string, totalTables: int, completedTables: int,
                               migratedRows: int, currentTable: Option<string>)

  /** A thrown exception: getMessage() and toString(). */
  datatype Failure = Failure(message: string, description: string)

  /** A NullPointerException: a null enabled flag unboxed, a null name quoted, a null list iterated. */
  const NullPointer: Failure := Failure("null", "java.lang.NullPointerException")

  /** The SQLException the row loop throws when it finds the job in error. */
  const AbortedFailure: Failure :=
    Failure("Migration aborted due to global error state",
            "java.sql.SQLException: Migration aborted due to global error state")

  /** totalRows % commitInterval with a zero commit interval. */
  const DivideByZero: Failure := Failure("/ by zero", "java.lang.ArithmeticException: / by zero")

  /** new RuntimeException(e): its message is e.toString(). */
  function Wrapped(f: Failure): (w: Failure)
    ensures w.message == f.description
  {
    Failure(f.description, "java.lang.RuntimeException: " + f.description)
  }

  function WrappedOpt(f: Option<Failure>): Option<Failure>
  {
    if f.None? then None else Some(Wrapped(f.value))
  }

  // ------------------------------------------------------------ what the databases do

  /** createTargetTables' existence check and CREATE TABLE for one enabled table. */
  datatype Creation = Created | AlreadyExists | CreationFailed(failure: Failure)

  /** The prepare statement (0 = the first) whose execution throws. */
  datatype StatementFailure = StatementFailure(at: nat, failure: Failure)

  /** fetchPartitionBounds: the MIN and MAX read back, or the exception the query throws. */
  datatype BoundsQuery = Bounds(min: Option<int>, max: Option<int>) | BoundsFailed(failure: Failure)

  /**
   * One call of migrateTableRange: opening the connections and statements
   * may throw; otherwise observed[i] is the job status the i-th fetched row
   * sees once any pause wait is over.
   */
  datatype RangeRun = RangeRun(openFailure: Option<Failure>, observed: seq<string>)

  /**
   * Everything the databases do for one table. copies[j] serves the j-th
   * call of migrateTableRange (the only one, for a single copy); a call
   * beyond the list reads no rows.
   */
  datatype TableRun = TableRun(creation: Creation, prepareFailure: Option<StatementFailure>,
                               bounds: BoundsQuery, copies: seq<RangeRun>)

  /** The settings migrateTableRange reads. */
  datatype CopyConfig = CopyConfig(batchSize: int, commitInterval: int, autoCommit: bool)

  /** batchSize 1000, commitInterval 10000 and autoCommit false by default; None where settings is null. */
  function CopyConfigOf(settings: Option<AppSettings>): Option<CopyConfig>
  {
    if settings.None? then None
    else
      var s := settings.value;
      Some(CopyConfig(if s.batchSize.Some? then s.batchSize.value else 1000,
                      if s.commitInterval.Some? then s.commitInterval.value else 10000,
                      s.autoCommit == Some(true)))
  }

  class Progress {
    var status: string
    var totalTables: int
    var completedTables: int
    var totalRows: int
    var migratedRows: int
    var currentTable: Option<string>
    var pauseFlag: bool
    var logs: seq<LogLine>
    /** Every snapshot persisted, in order. */
    var saved: seq<Snapshot>

    /** new MigrationProgress(projectId): idle, all counters zero, no logs. */
    constructor ()
      ensures status == "idle" && totalTables == 0 && completedTables == 0
      ensures totalRows == 0 && migratedRows == 0 && currentTable.None?
      ensures !pauseFlag && logs == [] && saved == []
    {
      status := "idle";
      totalTables := 0;
      completedTables := 0;
      totalRows := 0;
      migratedRows := 0;
      currentTable := None;
      pauseFlag := false;
      logs := [];
      saved := [];
    }

    function Snap(): Snapshot
      reads this
    {
      Snapshot(status, totalTables, completedTables, migratedRows, currentTable)
    }

    /** The fields the row copy, logging and saving leave alone. */
    function Settled(): (string, int, int, int, Option<string>, bool)
      reads this
    {
      (status, totalTables, completedTables, totalRows, currentTable, pauseFlag)
    }

    method Save()
      modifies this
      ensures saved == old(saved) + [Snap()]
      ensures Settled() == old(Settled()) && migratedRows == old(migratedRows) && logs == old(logs)
    {
      saved := saved + [Snap()];
    }

    method AddLog(level: string, message: string, details: Option<string>)
      modifies this
      ensures logs == old(logs) + [LogLine(level, message, details)]
      ensures Settled() == old(Settled()) && migratedRows == old(migratedRows) && saved == old(saved)
    {
      logs := logs + [LogLine(level, message, details)];
    }

    /**
     * incrementMigratedRows: a non-positive delta changes nothing; otherwise
     * the counter grows by delta and is persisted when it lands on a
     * multiple of 10000.
     */
    method IncrementMigratedRows(delta: int)
      modifies this
      ensures delta <= 0 ==> migratedRows == old(migratedRows) && saved == old(saved)
      ensures delta > 0 ==> migratedRows == old(migratedRows) + delta
      ensures delta > 0 ==> saved == old(saved) + (if migratedRows % 10000 == 0 then [Snap()] else [])
      ensures Settled() == old(Settled()) && logs == old(logs)
    {
      if delta <= 0 {
        return;
      }
      migratedRows := migratedRows + delta;
      if migratedRows % 10000 == 0 {
        Save();
      }
    }

    // ---------------------------------------------------------- one range

    /**
     * migrateTableRange: opening the connections and statements may throw;
     * a null settings object throws at getAutoCommit(); otherwise the rows
     * are copied, and an abort or a zero commit interval ends the copy with
     * an exception.
     */
    method MigrateTableRange(table: Option<string>, r: RangeRun, cfg: Option<CopyConfig>)
      returns (rows: int, failure: Option<Failure>)
      modifies this
      ensures var e := RangeEffect(table, r, cfg);
        logs == old(logs) + e.logs && migratedRows == old(migratedRows) + e.flushed &&
        rows == e.rows && failure == e.failure
      ensures SavedSince(saved, old(saved))
      ensures Settled() == old(Settled())
    {
      if r.openFailure.Some? || cfg.None? {
        assert saved[..|saved|] == saved;
        return 0, if r.openFailure.Some? then r.openFailure else Some(NullPointer);
      }
      var c := cfg.value;
      var stop, copied, flushes, commits := CopyRows(table, r.observed, c.batchSize, c.commitInterval, c.autoCommit);
      rows := copied;
      failure := match stop
        case Finished => None
        case Aborted => Some(AbortedFailure)
        case DividedByZero => Some(DivideByZero);
    }

    /**
     * The row copy of migrateTableRange. A running status copies the row;
     * paused discards it; error aborts with an exception; any other status
     * ends the loop. A batch is executed (and committed unless autoCommit)
     * when rowCount reaches batchSize, at which point its rows are added to
     * migratedRows; a trailing partial batch is flushed after the loop, but
     * not when the copy throws.
     */
    method CopyRows(table: Option<string>, observed: seq<string>, batchSize: int,
                    commitInterval: int, autoCommit: bool)
      returns (stop: RangeStop, copied: nat, flushes: seq<int>, commits: nat)
      modifies this
      ensures stop == RangeStopOf(observed, commitInterval)
      ensures copied == RowsRead(observed, commitInterval)
      ensures forall k :: 0 <= k < |flushes| ==> 0 < flushes[k] <= BatchLimit(batchSize)
      ensures forall k :: 0 <= k < |flushes| - 1 ==> flushes[k] == BatchLimit(batchSize)
      ensures stop.Finished? ==> Sum(flushes) == copied
      ensures !stop.Finished? ==>
        FullBatches(flushes, BatchLimit(batchSize)) &&
        Sum(flushes) == copied / BatchLimit(batchSize) * BatchLimit(batchSize)
      ensures migratedRows == old(migratedRows) + Sum(flushes)
      ensures commits == if autoCommit then 0 else |flushes|
      ensures logs == old(logs) + ProgressLines(table, commitInterval, copied)
      ensures SavedSince(saved, old(saved))
      ensures Settled() == old(Settled())
    {
      var rowCount;
      stop, copied, rowCount, flushes, commits := ReadRows(table, observed, batchSize, commitInterval, autoCommit);
      if !stop.Finished? {
        FlushedFloor(flushes, BatchLimit(batchSize), rowCount);
        return;
      }
      if rowCount > 0 {
        SumSnoc(flushes, rowCount);
        flushes := flushes + [rowCount];
        if !autoCommit {
          commits := commits + 1;
        }
      }
      if rowCount > 0 {
        IncrementMigratedRows(rowCount);
      }
    }

    /** A full batch executed: it is recorded, committed unless autoCommit, and counted. */
    method FlushBatch(rows: int, flushes: seq<int>, commits: nat, autoCommit: bool)
      returns (newFlushes: seq<int>, newCommits: nat)
      requires rows > 0
      modifies this
      ensures newFlushes == flushes + [rows] && Sum(newFlushes) == Sum(flushes) + rows
      ensures newCommits == if autoCommit then commits else commits + 1
      ensures migratedRows == old(migratedRows) + rows
      ensures SavedSince(saved, old(saved))
      ensures Settled() == old(Settled()) && logs == old(logs)
    {
      SumSnoc(flushes, rows);
      newFlushes := flushes + [rows];
      newCommits := commits;
      if !autoCommit {
        newCommits := commits + 1;
      }
      IncrementMigratedRows(rows);
    }

    /**
     * The progress line logged after every commitInterval-th row. With a
     * zero interval the test itself throws ArithmeticException, reported as
     * divided.
     */
    method LogProgress(table: Option<string>, commitInterval: int, totalRows: nat) returns (divided: bool)
      modifies this
      ensures divided <==> commitInterval == 0
      ensures logs == old(logs) + ProgressStep(table, commitInterval, totalRows)
      ensures Settled() == old(Settled()) && migratedRows == old(migratedRows) && saved == old(saved)
    {
      if commitInterval == 0 {
        return true;
      }
      divided := false;
      if totalRows % commitInterval == 0 {
        AddLog("info", ProgressMessage(table, totalRows), None);
      }
    }

    /**
     * The while (rs.next()) loop itself, up to the row that stops it. It
     * reports the rows added since the last flush (rowCount, which always
     * equals rowsSinceLastPersist).
     */
    method ReadRows(table: Option<string>, observed: seq<string>, batchSize: int,
                    commitInterval: int, autoCommit: bool)
      returns (stop: RangeStop, totalRows: nat, rowCount: nat, flushes: seq<int>, commits: nat)
      modifies this
      ensures stop == RangeStopOf(observed, commitInterval)
      ensures totalRows == RowsRead(observed, commitInterval)
      ensures rowCount < BatchLimit(batchSize) && Sum(flushes) + rowCount == totalRows
      ensures FullBatches(flushes, BatchLimit(batchSize))
      ensures migratedRows == old(migratedRows) + Sum(flushes)
      ensures commits == if autoCommit then 0 else |flushes|
      ensures logs == old(logs) + ProgressLines(table, commitInterval, totalRows)
      ensures SavedSince(saved, old(saved))
      ensures Settled() == old(Settled())
    {
      ghost var b := BatchLimit(batchSize);
      totalRows := 0;
      rowCount := 0;
      flushes := [];
      commits := 0;
      stop := Finished;
      var i := 0;
      while i < |observed|
        invariant 0 <= i <= StopPoint(observed)
        invariant totalRows == CopiedCount(observed, i)
        invariant commitInterval == 0 ==> totalRows == 0
        invariant rowCount < b && Sum(flushes) + rowCount == totalRows
        invariant FullBatches(flushes, b)
        invariant migratedRows == old(migratedRows) + Sum(flushes)
        invariant commits == if autoCommit then 0 else |flushes|
        invariant logs == old(logs) + ProgressLines(table, commitInterval, totalRows)
        invariant SavedSince(saved, old(saved))
        invariant Settled() == old(Settled())
      {
        var st := observed[i];
        if st != "running" {
          if st == "paused" {
            i := i + 1;
            continue;
          }
          StoppedAt(observed, i, commitInterval, totalRows);
          if st == "error" {
            stop := Aborted;
            return;
          }
          break;
        }
        ghost var before := saved;
        var divided;
        totalRows, rowCount, flushes, commits, divided :=
          CopyRow(table, batchSize, commitInterval, autoCommit, totalRows, rowCount, flushes, commits,
                  old(logs), old(migratedRows));
        SavedSinceTrans(saved, before, old(saved));
        if divided {
          DividedAt(observed, i);
          stop := DividedByZero;
          return;
        }
        i := i + 1;
      }
      StoppedAt(observed, i, commitInterval, totalRows);
    }

    /**
     * One copied row: it joins the batch, which is executed (and committed
     * unless autoCommit) and counted once it reaches batchSize, and every
     * commitInterval-th row logs the progress. rowsSinceLastPersist of the
     * source always equals rowCount and is not kept separately.
     */
    method CopyRow(table: Option<string>, batchSize: int, commitInterval: int, autoCommit: bool,
                   totalRows: nat, rowCount: nat, flushes: seq<int>, commits: nat,
                   ghost logs0: seq<LogLine>, ghost migrated0: int)
      returns (newTotal: nat, newCount: nat, newFlushes: seq<int>, newCommits: nat, divided: bool)
      requires rowCount < BatchLimit(batchSize) && Sum(flushes) + rowCount == totalRows
      requires FullBatches(flushes, BatchLimit(batchSize))
      requires migratedRows == migrated0 + Sum(flushes)
      requires commits == if autoCommit then 0 else |flushes|
      requires logs == logs0 + ProgressLines(table, commitInterval, totalRows)
      modifies this
      ensures newTotal == totalRows + 1
      ensures divided <==> commitInterval == 0
      ensures newCount < BatchLimit(batchSize) && Sum(newFlushes) + newCount == newTotal
      ensures FullBatches(newFlushes, BatchLimit(batchSize))
      ensures migratedRows == migrated0 + Sum(newFlushes)
      ensures newCommits == if autoCommit then 0 else |newFlushes|
      ensures logs == logs0 + ProgressLines(table, commitInterval, newTotal)
      ensures SavedSince(saved, old(saved))
      ensures Settled() == old(Settled())
    {
      newCount := rowCount + 1;
      newTotal := totalRows + 1;
      newFlushes, newCommits := flushes, commits;
      if newCount >= batchSize {
        newFlushes, newCommits := FlushBatch(newCount, flushes, commits, autoCommit);
        newCount := 0;
      } else {
        assert saved[..|saved|] == saved;
      }
      LogsAssoc(logs0, ProgressLines(table, commitInterval, totalRows), ProgressStep(table, commitInterval, newTotal));
      divided := LogProgress(table, commitInterval, newTotal);
    }

    // ---------------------------------------------------------- one table

    /**
     * The ranges of migrateTableWithChunks, copied one after another in list
     * order; the first failure is the one future.get() rethrows, and the
     * table's row count is the sum of the ranges' counts.
     */
    method MigrateRanges(table: Option<string>, copies: seq<RangeRun>, n: nat, cfg: Option<CopyConfig>)
      returns (rows: int, failure: Option<Failure>)
      modifies this
      ensures var e := Sequenced(RangeEffects(table, copies, cfg, n), n);
        logs == old(logs) + e.logs && migratedRows == old(migratedRows) + e.flushed &&
        rows == e.rows && failure == e.failure
      ensures SavedSince(saved, old(saved))
      ensures Settled() == old(Settled())
    {
      ghost var es := RangeEffects(table, copies, cfg, n);
      rows := 0;
      failure := None;
      assert saved[..|saved|] == saved;
      var j := 0;
      while j < n && failure.None?
        invariant 0 <= j <= n
        invariant logs == old(logs) + Sequenced(es, j).logs
        invariant migratedRows == old(migratedRows) + Sequenced(es, j).flushed
        invariant rows == Sequenced(es, j).rows && failure == Sequenced(es, j).failure
        invariant SavedSince(saved, old(saved))
        invariant Settled() == old(Settled())
      {
        ghost var before := saved;
        rows, failure := NextRange(table, copies, cfg, es, j, rows, old(logs), old(migratedRows));
        SavedSinceTrans(saved, before, old(saved));
        j := j + 1;
      }
      if j < n {
        SequencedStable(es, j, n);
      }
    }

    /** The range after j ranges that did not fail: its effect follows theirs. */
    method NextRange(table: Option<string>, copies: seq<RangeRun>, cfg: Option<CopyConfig>, ghost es: seq<Effect>,
                     j: nat, rows: int, ghost logs0: seq<LogLine>, ghost migrated0: int)
      returns (newRows: int, failure: Option<Failure>)
      requires j < |es| && es == RangeEffects(table, copies, cfg, |es|) && Sequenced(es, j).failure.None?
      requires logs == logs0 + Sequenced(es, j).logs && migratedRows == migrated0 + Sequenced(es, j).flushed
      requires rows == Sequenced(es, j).rows
      modifies this
      ensures logs == logs0 + Sequenced(es, j + 1).logs && migratedRows == migrated0 + Sequenced(es, j + 1).flushed
      ensures newRows == Sequenced(es, j + 1).rows && failure == Sequenced(es, j + 1).failure
      ensures SavedSince(saved, old(saved))
      ensures Settled() == old(Settled())
    {
      SequencedStep(es, j);
      var rangeRows, f := MigrateTableRange(table, RunAt(copies, j), cfg);
      LogsAssoc(logs0, Sequenced(es, j).logs, es[j].logs);
      newRows := rows + rangeRows;
      failure := f;
    }

    /**
     * The copy processTableMigration chooses: the single copy, after the
     * chunking warning when chunking was asked for but the partition column
     * does not qualify, or the chunked copy.
     */
    method CopyTable(tm: TableMapping, run: TableRun, cfg: Option<CopyConfig>)
      returns (rows: int, failure: Option<Failure>)
      modifies this
      ensures var e := CopyEffect(tm, run, cfg);
        logs == old(logs) + e.logs && migratedRows == old(migratedRows) + e.flushed &&
        rows == e.rows && failure == e.failure
      ensures SavedSince(saved, old(saved))
      ensures Settled() == old(Settled())
    {
      var table := tm.sourceTable;
      var plan := MigrationService.PlanTableCopy(tm);
      ghost var n := RangeCount(tm.chunkSize, TableBounds(tm, run.bounds));
      assert CopyEffect(tm, run, cfg) == CopyEffectOf(table, plan, NeedsBounds(tm), tm.chunkWorkers, n, run, cfg);
      if plan.Unchunked? {
        rows, failure := MigrateTable(table, plan.chunkingWarned, run, cfg);
      } else {
        rows, failure := MigrateTableWithChunks(tm, run, cfg);
      }
    }

    /** migrateTable, after the chunking warning when chunking was attempted. */
    method MigrateTable(table: Option<string>, warned: bool, run: TableRun, cfg: Option<CopyConfig>)
      returns (rows: int, failure: Option<Failure>)
      modifies this
      ensures var e := Then(if warned then Logged(ChunkingDisabledLine(table)) else Nothing,
                            RangeEffect(table, RunAt(run.copies, 0), cfg));
        logs == old(logs) + e.logs && migratedRows == old(migratedRows) + e.flushed &&
        rows == e.rows && failure == e.failure
      ensures SavedSince(saved, old(saved))
      ensures Settled() == old(Settled())
    {
      ghost var warning := if warned then [ChunkingDisabledLine(table)] else [];
      if warned {
        AddLog(ChunkingDisabledLine(table).level, ChunkingDisabledLine(table).message, None);
      }
      rows, failure := MigrateTableRange(table, RunAt(run.copies, 0), cfg);
      LogsAssoc(old(logs), warning, RangeEffect(table, RunAt(run.copies, 0), cfg).logs);
    }

    /**
     * migrateTableWithChunks: the bounds the ranges need come from the table
     * or, when a configured bound does not parse, from the source; with no
     * ranges it falls back to the single copy, otherwise it copies the
     * ranges.
     */
    method MigrateTableWithChunks(tm: TableMapping, run: TableRun, cfg: Option<CopyConfig>)
      returns (rows: int, failure: Option<Failure>)
      modifies this
      ensures var e := ChunkedEffect(tm.sourceTable, NeedsBounds(tm), tm.chunkWorkers,
                                     RangeCount(tm.chunkSize, TableBounds(tm, run.bounds)), run, cfg);
        logs == old(logs) + e.logs && migratedRows == old(migratedRows) + e.flushed &&
        rows == e.rows && failure == e.failure
      ensures SavedSince(saved, old(saved))
      ensures Settled() == old(Settled())
    {
      var table := tm.sourceTable;
      if NeedsBounds(tm) && run.bounds.BoundsFailed? {
        assert saved[..|saved|] == saved;
        return 0, Some(run.bounds.failure);
      }
      var ranges := ChunkRanges(tm, run.bounds);
      if |ranges| == 0 {
        AddLog(FallbackLine(table).level, FallbackLine(table).message, None);
        rows, failure := MigrateTableRange(table, RunAt(run.copies, 0), cfg);
        LogsAssoc(old(logs), [FallbackLine(table)], RangeEffect(table, RunAt(run.copies, 0), cfg).logs);
      } else {
        var line := ChunkingLine(table, MigrationService.ChunkWorkerCount(tm.chunkWorkers, |ranges|), |ranges|);
        AddLog(line.level, line.message, None);
        rows, failure := MigrateRanges(table, run.copies, |ranges|, cfg);
        LogsAssoc(old(logs), [line], Sequenced(RangeEffects(table, run.copies, cfg, |ranges|), |ranges|).logs);
      }
    }

    /** The ranges buildChunkRanges makes from the table's bounds and those the source returned. */
    static method ChunkRanges(tm: TableMapping, q: BoundsQuery) returns (ranges: seq<MigrationService.ChunkRange>)
      ensures |ranges| == RangeCount(tm.chunkSize, TableBounds(tm, q))
    {
      ranges := MigrationService.BuildChunkRanges(tm.chunkSize, tm.partitionMinValue, tm.partitionMaxValue, Fetched(q));
      RangesCounted(tm.chunkSize, TableBounds(tm, q), ranges);
    }

    /**
     * prepareTableForMigration: dropBeforeInsert drops and recreates the
     * target table, otherwise truncateBeforeInsert truncates it; each
     * statement that runs is logged, and the first that throws ends it.
     */
    method PrepareTable(tm: TableMapping, pf: Option<StatementFailure>) returns (failure: Option<Failure>)
      modifies this
      ensures logs == old(logs) + PrepareEffect(tm, pf).logs && failure == PrepareEffect(tm, pf).failure
      ensures Settled() == old(Settled()) && migratedRows == old(migratedRows) && saved == old(saved)
    {
      var drop := tm.dropBeforeInsert == Some(true);
      var truncate := tm.truncateBeforeInsert == Some(true);
      if !drop && !truncate {
        return None;
      }
      if tm.targetSchema.None? || tm.targetTable.None? {
        return Some(NullPointer);
      }
      failure := None;
      if FailsAt(pf, 0) {
        return Some(pf.value.failure);
      }
      if drop {
        AddLog("info", "Dropped table: " + tm.targetTable.value, None);
        var create := MigrationService.GenerateCreateTableSql(tm);
        if create.None? {
          return Some(NullPointer);
        }
        if FailsAt(pf, 1) {
          return Some(pf.value.failure);
        }
        AddLog("info", "Recreated table: " + tm.targetTable.value, None);
      } else {
        AddLog("info", "Truncated table: " + tm.targetTable.value, None);
      }
    }

    /**
     * processTableMigration after the pause wait: the table becomes the
     * current one and its start is logged; a first run prepares the target
     * table; then the table is copied. Success marks it migrated, counts and
     * persists it; a failure marks it error and is passed on.
     */
    method ProcessTableMigration(tm: TableMapping, isResume: bool, run: TableRun, cfg: Option<CopyConfig>)
      returns (updated: TableMapping, failure: Option<Failure>)
      modifies this
      ensures var e := TableEffect(tm, isResume, run, cfg);
        failure == e.failure &&
        updated == tm.(status := Some(if e.failure.None? then "migrated" else "error")) &&
        logs == old(logs) + e.logs && migratedRows == old(migratedRows) + e.flushed &&
        completedTables == old(completedTables) + (if e.failure.None? then 1 else 0)
      ensures currentTable == tm.sourceTable
      ensures failure.None? ==>
        |saved| > |old(saved)| && saved[|saved| - 1] == Snap() && SavedSince(saved[..|saved| - 1], old(saved))
      ensures failure.Some? ==> SavedSince(saved, old(saved))
      ensures status == old(status) && totalTables == old(totalTables)
      ensures totalRows == old(totalRows) && pauseFlag == old(pauseFlag)
    {
      ghost var body := TableBody(tm, isResume, run, cfg);
      currentTable := tm.sourceTable;
      AddLog(StartLine(tm).level, StartLine(tm).message, None);
      var rows;
      rows, failure := PrepareAndCopy(tm, isResume, run, cfg);
      LogsAssoc(old(logs), [StartLine(tm)], body.logs);
      if failure.None? {
        updated := tm.(status := Some("migrated"));
        completedTables := completedTables + 1;
        ghost var beforeSave := saved;
        Save();
        assert saved[..|saved| - 1] == beforeSave;
      } else {
        updated := tm.(status := Some("error"));
      }
      var last := TableEndLine(tm, rows, failure);
      AddLog(last.level, last.message, last.details);
      assert logs == old(logs) + ([StartLine(tm)] + body.logs) + [TableEndLine(tm, body.rows, body.failure)];
      LogsAssoc(old(logs), [StartLine(tm)] + body.logs, [TableEndLine(tm, body.rows, body.failure)]);
    }

    /** The try block of processTableMigration: the preparation on a first run, then the copy. */
    method PrepareAndCopy(tm: TableMapping, isResume: bool, run: TableRun, cfg: Option<CopyConfig>)
      returns (rows: int, failure: Option<Failure>)
      modifies this
      ensures var e := TableBody(tm, isResume, run, cfg);
        logs == old(logs) + e.logs && migratedRows == old(migratedRows) + e.flushed &&
        rows == e.rows && failure == e.failure
      ensures SavedSince(saved, old(saved))
      ensures Settled() == old(Settled())
    {
      if isResume {
        rows, failure := CopyTable(tm, run, cfg);
      } else {
        rows, failure := PrepareThenCopy(tm, run, cfg);
      }
    }

    /** A first run prepares the target table and copies it unless the preparation throws. */
    method PrepareThenCopy(tm: TableMapping, run: TableRun, cfg: Option<CopyConfig>)
      returns (rows: int, failure: Option<Failure>)
      modifies this
      ensures var e := Then(PrepareEffect(tm, run.prepareFailure), CopyEffect(tm, run, cfg));
        logs == old(logs) + e.logs && migratedRows == old(migratedRows) + e.flushed &&
        rows == e.rows && failure == e.failure
      ensures SavedSince(saved, old(saved))
      ensures Settled() == old(Settled())
    {
      ghost var prep := PrepareEffect(tm, run.prepareFailure);
      ghost var copy := CopyEffect(tm, run, cfg);
      failure := PrepareTable(tm, run.prepareFailure);
      if failure.Some? {
        assert saved[..|saved|] == saved;
        return 0, failure;
      }
      rows, failure := CopyTable(tm, run, cfg);
      ThenOk(prep, copy);
      LogsAssoc(old(logs), prep.logs, copy.logs);
    }

    // ---------------------------------------------------------- the run

    /**
     * createTargetTables: every enabled table in list order gets its CREATE
     * TABLE unless it already exists; a null enabled flag, a DDL that cannot
     * be built or a failing statement ends it.
     */
    method CreateTargetTables(tables: seq<TableMapping>, runs: seq<TableRun>) returns (failure: Option<Failure>)
      requires |runs| == |tables|
      modifies this
      ensures var e := Sequenced(CreationSteps(tables, runs), |tables|);
        logs == old(logs) + e.logs && failure == e.failure
      ensures Settled() == old(Settled()) && migratedRows == old(migratedRows) && saved == old(saved)
    {
      ghost var es := CreationSteps(tables, runs);
      failure := None;
      var i := 0;
      while i < |tables| && failure.None?
        invariant 0 <= i <= |tables|
        invariant logs == old(logs) + Sequenced(es, i).logs && failure == Sequenced(es, i).failure
        invariant Settled() == old(Settled()) && migratedRows == old(migratedRows) && saved == old(saved)
      {
        ghost var done := Sequenced(es, i);
        failure := CreateTargetTable(tables[i], runs[i]);
        assert es[i] == CreationStep(tables[i], runs[i]);
        LogsAssoc(old(logs), done.logs, es[i].logs);
        i := i + 1;
      }
      if i < |tables| {
        SequencedStable(es, i, |tables|);
      }
    }

    /** One table of createTargetTables. */
    method CreateTargetTable(t: TableMapping, run: TableRun) returns (failure: Option<Failure>)
      modifies this
      ensures logs == old(logs) + CreationStep(t, run).logs && failure == CreationStep(t, run).failure
      ensures Settled() == old(Settled()) && migratedRows == old(migratedRows) && saved == old(saved)
    {
      failure := None;
      if t.enabled.None? {
        return Some(NullPointer);
      }
      if t.enabled == Some(false) {
        return;
      }
      var create := MigrationService.GenerateCreateTableSql(t);
      if create.None? {
        return Some(NullPointer);
      }
      match run.creation
      case Created =>
        AddLog("info", "Created table: " + JavaString(t.targetTable), None);
      case AlreadyExists =>
        AddLog("info", "Table already exists: " + JavaString(t.targetTable), None);
      case CreationFailed(f) =>
        failure := Some(f);
    }

    /**
     * executeMigration, run sequentially. A first run logs its start and
     * creates the target tables; a resumed one logs the resume and fails on
     * a null enabled flag. With nothing left to copy the run completes;
     * otherwise the eligible tables are processed in list order until the
     * first failure, which arrives wrapped in a RuntimeException. The job
     * ends completed with no failure and error otherwise, with no current
     * table and the progress persisted.
     */
    method ExecuteMigration(tables: seq<TableMapping>, runs: seq<TableRun>, settings: Option<AppSettings>)
      returns (newTables: seq<TableMapping>, failure: Option<Failure>)
      requires |runs| == |tables|
      modifies this
      ensures |newTables| == |tables|
      ensures status == (if failure.None? then "completed" else "error")
      ensures currentTable.None?
      ensures |saved| > 0 && saved[|saved| - 1] == Snap()
      ensures var isResume := IsResume(old(completedTables), tables);
        var setup := SetupEffect(isResume, tables, runs);
        var es := TableEffects(tables, runs, isResume, CopyConfigOf(settings));
        var run := Sequenced(RunEffects(tables, es), |tables|);
        if setup.failure.Some? then
          newTables == tables && failure == setup.failure &&
          completedTables == old(completedTables) && migratedRows == old(migratedRows) &&
          logs == old(logs) + [OpeningLine(isResume)] + setup.logs + [EndLine(failure)]
        else if !AnyEligible(tables) then
          newTables == tables && failure.None? &&
          completedTables == old(completedTables) && migratedRows == old(migratedRows) &&
          logs == old(logs) + [OpeningLine(isResume)] + setup.logs + [EndLine(None)]
        else
          newTables == RunStatuses(tables, es) && failure == WrappedOpt(FirstFailure(tables, es)) &&
          completedTables == old(completedTables) + MigratedCount(tables, es, FirstFailureIndex(tables, es)) &&
          migratedRows == old(migratedRows) + run.flushed &&
          logs == old(logs) + [OpeningLine(isResume)] + setup.logs + [WorkersLine(settings)] + run.logs +
                  [EndLine(failure)]
      ensures totalTables == old(totalTables) && totalRows == old(totalRows) && pauseFlag == old(pauseFlag)
    {
      var isResume := IsResume(completedTables, tables);
      ghost var setup := SetupEffect(isResume, tables, runs);
      newTables := tables;
      AddLog(OpeningLine(isResume).level, OpeningLine(isResume).message, None);
      failure := Setup(isResume, tables, runs);
      if failure.None? && AnyEligible(tables) {
        ghost var es := TableEffects(tables, runs, isResume, CopyConfigOf(settings));
        newTables, failure := CopyTables(tables, runs, isResume, settings);
        LogsAssoc(old(logs) + [OpeningLine(isResume)] + setup.logs + [WorkersLine(settings)],
                  Sequenced(RunEffects(tables, es), |tables|).logs, [EndLine(failure)]);
      }
      EndRun(failure);
    }

    /** The copying part of a run: the worker count is logged, then the eligible tables are processed. */
    method CopyTables(tables: seq<TableMapping>, runs: seq<TableRun>, isResume: bool, settings: Option<AppSettings>)
      returns (newTables: seq<TableMapping>, failure: Option<Failure>)
      requires |runs| == |tables|
      modifies this
      ensures var es := TableEffects(tables, runs, isResume, CopyConfigOf(settings));
        var run := Sequenced(RunEffects(tables, es), |tables|);
        newTables == RunStatuses(tables, es) && failure == WrappedOpt(FirstFailure(tables, es)) &&
        completedTables == old(completedTables) + MigratedCount(tables, es, FirstFailureIndex(tables, es)) &&
        migratedRows == old(migratedRows) + run.flushed &&
        logs == old(logs) + [WorkersLine(settings)] + run.logs
      ensures status == old(status) && totalTables == old(totalTables) && totalRows == old(totalRows)
      ensures pauseFlag == old(pauseFlag)
    {
      AddLog(WorkersLine(settings).level, WorkersLine(settings).message, None);
      ghost var es := TableEffects(tables, runs, isResume, CopyConfigOf(settings));
      newTables, failure := RunTables(tables, runs, isResume, CopyConfigOf(settings), es);
    }

    /** A first run creates the target tables; a resumed one unboxes every enabled flag. */
    method Setup(isResume: bool, tables: seq<TableMapping>, runs: seq<TableRun>) returns (failure: Option<Failure>)
      requires |runs| == |tables|
      modifies this
      ensures logs == old(logs) + SetupEffect(isResume, tables, runs).logs
      ensures failure == SetupEffect(isResume, tables, runs).failure
      ensures Settled() == old(Settled()) && migratedRows == old(migratedRows) && saved == old(saved)
    {
      if !isResume {
        failure := CreateTargetTables(tables, runs);
      } else if AnyNullEnabled(tables) {
        failure := Some(NullPointer);
      } else {
        failure := None;
      }
    }

    /**
     * The end of a run: completed, or error with the failure logged; no
     * current table; the progress persisted.
     */
    method EndRun(failure: Option<Failure>)
      modifies this
      ensures status == (if failure.None? then "completed" else "error") && currentTable.None?
      ensures saved == old(saved) + [Snap()]
      ensures logs == old(logs) + [EndLine(failure)]
      ensures totalTables == old(totalTables) && completedTables == old(completedTables)
      ensures totalRows == old(totalRows) && migratedRows == old(migratedRows) && pauseFlag == old(pauseFlag)
    {
      status := if failure.None? then "completed" else "error";
      currentTable := None;
      Save();
      AddLog(EndLine(failure).level, EndLine(failure).message, EndLine(failure).details);
    }

    /** The i-th table of the list: processed when it is eligible, skipped otherwise. */
    method ProcessEntry(tables: seq<TableMapping>, runs: seq<TableRun>, isResume: bool, cfg: Option<CopyConfig>,
                        ghost es: seq<Effect>, i: nat)
      returns (updated: TableMapping, failure: Option<Failure>)
      requires |runs| == |tables| && |es| == |tables| && i < |tables|
      requires forall j {:trigger TableEffect(tables[j], isResume, runs[j], cfg)} :: 0 <= j < |tables| ==>
        TableEffect(tables[j], isResume, runs[j], cfg) == es[j]
      modifies this
      ensures var e := RunEffects(tables, es)[i];
        logs == old(logs) + e.logs && migratedRows == old(migratedRows) + e.flushed && failure == e.failure
      ensures failure.Some? <==> Fault(tables, es, i)
      ensures updated == StatusAfter(tables[i], es[i])
      ensures completedTables == old(completedTables) + (if Eligible(tables[i]) && es[i].failure.None? then 1 else 0)
      ensures status == old(status) && totalTables == old(totalTables) && totalRows == old(totalRows)
      ensures pauseFlag == old(pauseFlag)
    {
      if Eligible(tables[i]) {
        assert TableEffect(tables[i], isResume, runs[i], cfg) == es[i];
        updated, failure := ProcessTableMigration(tables[i], isResume, runs[i], cfg);
      } else {
        updated, failure := tables[i], None;
      }
    }

    /**
     * The table loop of executeMigration: eligible tables in list order
     * until the first failure, which is rethrown wrapped.
     */
    method RunTables(tables: seq<TableMapping>, runs: seq<TableRun>, isResume: bool, cfg: Option<CopyConfig>,
                     ghost es: seq<Effect>)
      returns (newTables: seq<TableMapping>, failure: Option<Failure>)
      requires |runs| == |tables| && |es| == |tables|
      requires forall j {:trigger TableEffect(tables[j], isResume, runs[j], cfg)} :: 0 <= j < |tables| ==>
        TableEffect(tables[j], isResume, runs[j], cfg) == es[j]
      modifies this
      ensures newTables == RunStatuses(tables, es) && failure == WrappedOpt(FirstFailure(tables, es))
      ensures completedTables == old(completedTables) + MigratedCount(tables, es, FirstFailureIndex(tables, es))
      ensures logs == old(logs) + Sequenced(RunEffects(tables, es), |tables|).logs
      ensures migratedRows == old(migratedRows) + Sequenced(RunEffects(tables, es), |tables|).flushed
      ensures status == old(status) && totalTables == old(totalTables) && totalRows == old(totalRows)
      ensures pauseFlag == old(pauseFlag)
    {
      ghost var rs := RunEffects(tables, es);
      ghost var k := FirstFailureIndex(tables, es);
      newTables := tables;
      failure := None;
      var i := 0;
      while i < |tables| && failure.None?
        invariant 0 <= i <= |tables|
        invariant if failure.None? then i <= k else i == k + 1 && failure == WrappedOpt(FirstFailure(tables, es))
        invariant newTables == RunStatusesUpTo(tables, es, i)
        invariant completedTables == old(completedTables) + MigratedCount(tables, es, i)
        invariant logs == old(logs) + Sequenced(rs, i).logs
        invariant migratedRows == old(migratedRows) + Sequenced(rs, i).flushed
        invariant failure.None? == Sequenced(rs, i).failure.None?
        invariant status == old(status) && totalTables == old(totalTables) && totalRows == old(totalRows)
        invariant pauseFlag == old(pauseFlag)
      {
        ghost var done := Sequenced(rs, i);
        SequencedStep(rs, i);
        var updated, f := ProcessEntry(tables, runs, isResume, cfg, es, i);
        StatusStep(tables, es, i);
        newTables := newTables[i := updated];
        if f.Some? {
          assert i == k && f == es[k].failure;
          failure := Some(Wrapped(f.value));
        } else {
          PastNoFault(tables, es, i);
        }
        LogsAssoc(old(logs), done.logs, rs[i].logs);
        i := i + 1;
      }
      CountAtStop(tables, es, i);
      if failure.Some? && i < |tables| {
        SequencedStable(rs, i, |tables|);
      }
    }

    /**
     * pauseMigration: only a running job changes; it becomes paused, is
     * persisted, raises the pause flag and logs the pause.
     */
    method PauseMigration()
      modifies this
      ensures (status, pauseFlag) == AfterPause(old(status), old(pauseFlag))
      ensures old(status) == "running" ==>
        saved == old(saved) + [old(Snap()).(status := "paused")] &&
        logs == old(logs) + [LogLine("info", "Migration paused", None)]
      ensures old(status) != "running" ==> saved == old(saved) && logs == old(logs)
      ensures totalTables == old(totalTables) && completedTables == old(completedTables)
      ensures totalRows == old(totalRows) && migratedRows == old(migratedRows) && currentTable == old(currentTable)
    {
      if status == "running" {
        status := "paused";
        Save();
        pauseFlag := true;
        AddLog("info", "Migration paused", None);
      }
    }

    /**
     * resumeMigration: only a paused job changes. The flag is cleared; a
     * live worker thread just sees the status go back to running. Without
     * one the run is restarted, unless the project is gone, and a failed
     * restart leaves the job in error.
     */
    method ResumeMigration(threadAlive: bool, restart: Restart)
      modifies this
      ensures (status, pauseFlag) == AfterResume(old(status), old(pauseFlag), threadAlive, restart)
      ensures old(status) == "paused" ==> logs == old(logs) + ResumeLogs(threadAlive, restart)
      ensures old(status) == "paused" && (threadAlive || !restart.ProjectMissing?) ==>
        saved == old(saved) + [old(Snap()).(status := status)]
      ensures old(status) != "paused" || (!threadAlive && restart.ProjectMissing?) ==>
        saved == old(saved)
      ensures old(status) != "paused" ==> logs == old(logs)
      ensures totalTables == old(totalTables) && completedTables == old(completedTables)
      ensures totalRows == old(totalRows) && migratedRows == old(migratedRows) && currentTable == old(currentTable)
    {
      if status != "paused" {
        return;
      }
      pauseFlag := false;
      if !threadAlive {
        match restart {
          case ProjectMissing =>
          case Restarted =>
            status := "running";
            Save();
            AddLog("info", "Migration resumed - execution thread restarted", None);
          case RestartFailed(message) =>
            status := "error";
            Save();
            AddLog("error", "Failed to resume migration: " + message, None);
        }
      } else {
        status := "running";
        Save();
        AddLog("info", "Migration resumed", None);
      }
    }

  }

  // ------------------------------------------------------------ row loop specification

  /** How the row loop of one range ends. */
  datatype RangeStop =
    | Finished
    /** "Migration aborted due to global error state": rows of the pending batch are never flushed. */
    | Aborted
    /** The first copied row's progress test divides by a zero commit interval. */
    | DividedByZero

  /** rowCount >= batchSize holds after every row when batchSize < 1: batches of one. */
  function BatchLimit(batchSize: int): (b: int)
    ensures b >= 1
  {
    if batchSize < 1 then 1 else batchSize
  }

  predicate KeepsReading(st: string)
  {
    st == "running" || st == "paused"
  }

  /** The index of the first row whose status ends the loop, or the row count. */
  function StopPoint(observed: seq<string>): (k: nat)
    ensures k <= |observed|
    ensures forall i :: 0 <= i < k ==> KeepsReading(observed[i])
    ensures k < |observed| ==> !KeepsReading(observed[k])
  {
    if observed == [] || !KeepsReading(observed[0]) then 0 else 1 + StopPoint(observed[1..])
  }

  /** Rows among the first n that are copied: those that see a running job. */
  function CopiedCount(observed: seq<string>, n: nat): (c: nat)
    requires n <= |observed|
    ensures c <= n
  {
    if n == 0 then 0 else CopiedCount(observed, n - 1) + (if observed[n - 1] == "running" then 1 else 0)
  }

  lemma {:induction false} CopiedCountMono(observed: seq<string>, m: nat, n: nat)
    requires m <= n <= |observed|
    ensures CopiedCount(observed, m) <= CopiedCount(observed, n)
    decreases n - m
  {
    if m < n {
      CopiedCountMono(observed, m, n - 1);
    }
  }

  function RangeStopOf(observed: seq<string>, commitInterval: int): RangeStop
  {
    if commitInterval == 0 && CopiedCount(observed, StopPoint(observed)) > 0 then DividedByZero
    else if StopPoint(observed) < |observed| && observed[StopPoint(observed)] == "error" then Aborted
    else Finished
  }

  /** The loop stops at the stop point, with the rows it copied before it. */
  lemma StoppedAt(observed: seq<string>, i: nat, commitInterval: int, copied: nat)
    requires i <= StopPoint(observed) && (i == |observed| || !KeepsReading(observed[i]))
    requires copied == CopiedCount(observed, i) && (commitInterval == 0 ==> copied == 0)
    ensures i == StopPoint(observed) && RowsRead(observed, commitInterval) == copied
    ensures RangeStopOf(observed, commitInterval) ==
      if i < |observed| && observed[i] == "error" then Aborted else Finished
  {
  }

  /** The first copied row under a zero interval throws, having read that one row. */
  lemma DividedAt(observed: seq<string>, i: nat)
    requires i < StopPoint(observed) && observed[i] == "running" && CopiedCount(observed, i) == 0
    ensures RangeStopOf(observed, 0) == DividedByZero && RowsRead(observed, 0) == 1
  {
    CopiedCountMono(observed, i + 1, StopPoint(observed));
  }

  /** The rows a copy adds to its batches: the running ones before the stop point, or the one whose test throws. */
  function RowsRead(observed: seq<string>, commitInterval: int): nat
  {
    if RangeStopOf(observed, commitInterval).DividedByZero? then 1
    else CopiedCount(observed, StopPoint(observed))
  }

  lemma LogsAssoc(a: seq<LogLine>, b: seq<LogLine>, c: seq<LogLine>)
    ensures (a + b) + c == a + (b + c)
  {
  }

  /**
   * saved extends before, and every snapshot added since records a
   * migratedRows that is a multiple of 10000.
   */
  predicate SavedSince(saved: seq<Snapshot>, before: seq<Snapshot>)
  {
    |saved| >= |before| && saved[..|before|] == before &&
    forall k :: |before| <= k < |saved| ==> saved[k].migratedRows % 10000 == 0
  }

  lemma SavedSinceTrans(c: seq<Snapshot>, b: seq<Snapshot>, a: seq<Snapshot>)
    requires SavedSince(c, b) && SavedSince(b, a)
    ensures SavedSince(c, a)
  {
    assert c[..|a|] == c[..|b|][..|a|];
    forall k | |a| <= k < |c| ensures c[k].migratedRows % 10000 == 0 {
      if k < |b| { assert c[k] == c[..|b|][k]; }
    }
  }

  predicate FullBatches(flushes: seq<int>, b: int)
  {
    forall k :: 0 <= k < |flushes| ==> flushes[k] == b
  }

  function Sum(xs: seq<int>): int
  {
    if xs == [] then 0 else Sum(xs[..|xs| - 1]) + xs[|xs| - 1]
  }

  lemma SumSnoc(xs: seq<int>, x: int)
    ensures Sum(xs + [x]) == Sum(xs) + x
  {
    assert (xs + [x])[..|xs|] == xs;
  }

  lemma {:induction false} SumFull(flushes: seq<int>, b: int)
    requires FullBatches(flushes, b)
    ensures Sum(flushes) == |flushes| * b
  {
    if flushes != [] {
      var init := flushes[..|flushes| - 1];
      assert forall k :: 0 <= k < |init| ==> init[k] == flushes[k];
      SumFull(init, b);
      assert |flushes| * b == |init| * b + b;
    }
  }

  /** Full batches and a pending remainder below the batch size: the flushed rows are the copied rows rounded down to whole batches. */
  lemma FlushedFloor(flushes: seq<int>, b: int, r: nat)
    requires b >= 1 && r < b && FullBatches(flushes, b)
    ensures Sum(flushes) == (Sum(flushes) + r) / b * b
  {
    SumFull(flushes, b);
    DivUnique(Sum(flushes) + r, b, |flushes|, r);
  }

  function ProgressMessage(table: Option<string>, n: int): string
  {
    "Migrated " + IntToString(n) + " rows from " + JavaString(table)
  }

  /** The line logged after the n-th row, if any. */
  function ProgressStep(table: Option<string>, commitInterval: int, n: nat): seq<LogLine>
  {
    if commitInterval != 0 && n % commitInterval == 0 then [LogLine("info", ProgressMessage(table, n), None)] else []
  }

  /** The info lines logged while copying n rows: one at every multiple of the commit interval. */
  function ProgressLines(table: Option<string>, commitInterval: int, n: nat): seq<LogLine>
  {
    if n == 0 then []
    else ProgressLines(table, commitInterval, n - 1) + ProgressStep(table, commitInterval, n)
  }

  /** Exactly one progress line per multiple of the commit interval, in increasing order. */
  lemma {:induction false} ProgressLinesCount(table: Option<string>, commitInterval: int, n: nat)
    requires commitInterval > 0
    ensures |ProgressLines(table, commitInterval, n)| == n / commitInterval
  {
    if n > 0 {
      ProgressLinesCount(table, commitInterval, n - 1);
      DivStep(n, commitInterval);
    }
  }

  lemma DivStep(n: nat, d: int)
    requires n > 0 && d > 0
    ensures n / d == (n - 1) / d + (if n % d == 0 then 1 else 0)
  {
    var q, r := (n - 1) / d, (n - 1) % d;
    assert n - 1 == q * d + r && 0 <= r < d;
    if r == d - 1 {
      assert n == (q + 1) * d + 0;
      DivUnique(n, d, q + 1, 0);
    } else {
      assert n == q * d + (r + 1);
      DivUnique(n, d, q, r + 1);
    }
  }

  lemma DivUnique(n: int, d: int, q: int, r: int)
    requires d > 0 && n == q * d + r && 0 <= r < d
    ensures n / d == q && n % d == r
  {
    var q0, r0 := n / d, n % d;
    assert n == q0 * d + r0;
    if q0 > q {
      assert q0 * d - q * d == (q0 - q) * d;
      MulAtLeast(q0 - q, d);
    } else if q0 < q {
      assert q * d - q0 * d == (q - q0) * d;
      MulAtLeast(q - q0, d);
    }
  }

  lemma MulAtLeast(a: int, d: int)
    requires a >= 1 && d > 0
    ensures a * d >= d
    decreases a
  {
    if a > 1 {
      MulAtLeast(a - 1, d);
      assert a * d == (a - 1) * d + d;
    }
  }

  /** Paused rows are never copied: the copy count is the number of running rows before the stop point. */
  lemma {:induction false} CopiedCountBounds(observed: seq<string>, n: nat)
    requires n <= |observed|
    ensures CopiedCount(observed, n) == n <==> forall i :: 0 <= i < n ==> observed[i] == "running"
  {
    if n > 0 {
      CopiedCountBounds(observed, n - 1);
    }
  }

  // ------------------------------------------------------------ effects

  /**
   * What a step of the job does to the progress: the lines it logs, the
   * rows it adds to migratedRows, the rows it copies, and the exception it
   * ends with, if any.
   */
  datatype Effect = Effect(logs: seq<LogLine>, flushed: int, rows: int, failure: Option<Failure>)

  const Nothing: Effect := Effect([], 0, 0, None)

  function Logged(line: LogLine): Effect
  {
    Effect([line], 0, 0, None)
  }

  function Fails(f: Failure): Effect
  {
    Effect([], 0, 0, Some(f))
  }

  /** a, then b unless a threw. */
  function Then(a: Effect, b: Effect): Effect
  {
    if a.failure.Some? then a
    else Effect(a.logs + b.logs, a.flushed + b.flushed, a.rows + b.rows, b.failure)
  }

  lemma ThenOk(a: Effect, b: Effect)
    requires a.failure.None?
    ensures Then(a, b) == Effect(a.logs + b.logs, a.flushed + b.flushed, a.rows + b.rows, b.failure)
  {
  }

  /** The first n effects one after another, up to the first that throws. */
  function Sequenced(es: seq<Effect>, n: nat): Effect
    requires n <= |es|
  {
    if n == 0 then Nothing else Then(Sequenced(es, n - 1), es[n - 1])
  }

  /** One more step after steps that did not fail. */
  lemma SequencedStep(es: seq<Effect>, i: nat)
    requires i < |es| && Sequenced(es, i).failure.None?
    ensures Sequenced(es, i + 1).logs == Sequenced(es, i).logs + es[i].logs
    ensures Sequenced(es, i + 1).flushed == Sequenced(es, i).flushed + es[i].flushed
    ensures Sequenced(es, i + 1).rows == Sequenced(es, i).rows + es[i].rows
    ensures Sequenced(es, i + 1).failure == es[i].failure
  {
  }

  /** Nothing runs after a failure. */
  lemma {:induction false} SequencedStable(es: seq<Effect>, k: nat, n: nat)
    requires k <= n <= |es| && Sequenced(es, k).failure.Some?
    ensures Sequenced(es, n) == Sequenced(es, k)
    decreases n
  {
    if n > k {
      SequencedStable(es, k, n - 1);
    }
  }

  /** A sequence of steps ends without failure exactly when none of its steps fails. */
  lemma {:induction false} SequencedSucceeds(es: seq<Effect>, n: nat)
    requires n <= |es|
    ensures Sequenced(es, n).failure.None? <==> forall j :: 0 <= j < n ==> es[j].failure.None?
  {
    if n > 0 {
      SequencedSucceeds(es, n - 1);
    }
  }

  /** The first step that fails decides the failure of the whole sequence. */
  lemma SequencedFirstFailure(es: seq<Effect>, k: nat, n: nat)
    requires k < n <= |es| && es[k].failure.Some?
    requires forall j :: 0 <= j < k ==> es[j].failure.None?
    ensures Sequenced(es, n).failure == es[k].failure
  {
    SequencedSucceeds(es, k);
    SequencedStable(es, k + 1, n);
  }

  /** The rows a step adds to migratedRows: never more than it copies, and all of them when it succeeds. */
  predicate Counted(e: Effect)
  {
    0 <= e.flushed <= e.rows && (e.failure.None? ==> e.flushed == e.rows)
  }

  lemma ThenCounted(a: Effect, b: Effect)
    requires Counted(a) && Counted(b)
    ensures Counted(Then(a, b))
  {
  }

  lemma {:induction false} SequencedCounted(es: seq<Effect>, n: nat)
    requires n <= |es| && forall j :: 0 <= j < |es| ==> Counted(es[j])
    ensures Counted(Sequenced(es, n))
  {
    if n > 0 {
      SequencedCounted(es, n - 1);
      ThenCounted(Sequenced(es, n - 1), es[n - 1]);
    }
  }

  lemma FloorBelow(n: nat, b: int)
    requires b >= 1
    ensures 0 <= n / b * b <= n
  {
    assert n == n / b * b + n % b;
    assert n / b >= 0;
  }

  // ------------------------------------------------------------ one range

  function RangeEffect(table: Option<string>, r: RangeRun, cfg: Option<CopyConfig>): Effect
  {
    if r.openFailure.Some? then Fails(r.openFailure.value)
    else if cfg.None? then Fails(NullPointer)
    else
      var c := cfg.value;
      var b := BatchLimit(c.batchSize);
      var n := RowsRead(r.observed, c.commitInterval);
      var lines := ProgressLines(table, c.commitInterval, n);
      match RangeStopOf(r.observed, c.commitInterval)
        case Finished => Effect(lines, n, n, None)
        case Aborted => Effect(lines, n / b * b, n, Some(AbortedFailure))
        case DividedByZero => Effect(lines, n / b * b, n, Some(DivideByZero))
  }

  /**
   * A range copy adds to migratedRows only whole batches of the rows it
   * read, and every row it read when it finishes.
   */
  lemma RangeCounted(table: Option<string>, r: RangeRun, cfg: Option<CopyConfig>)
    ensures Counted(RangeEffect(table, r, cfg))
  {
    if r.openFailure.None? && cfg.Some? {
      FloorBelow(RowsRead(r.observed, cfg.value.commitInterval), BatchLimit(cfg.value.batchSize));
    }
  }

  /**
   * With a zero commit interval a range throws ArithmeticException as soon
   * as it copies a row, having read exactly that one row; without a running
   * row before the stop point it behaves as with any other interval.
   */
  lemma ZeroIntervalFails(table: Option<string>, observed: seq<string>, batchSize: int, autoCommit: bool)
    ensures var e := RangeEffect(table, RangeRun(None, observed), Some(CopyConfig(batchSize, 0, autoCommit)));
      (e.failure == Some(DivideByZero) <==> exists i :: 0 <= i < StopPoint(observed) && observed[i] == "running") &&
      (e.failure == Some(DivideByZero) ==> e.rows == 1 && e.logs == [] && e.flushed == (if batchSize <= 1 then 1 else 0))
  {
    var n := StopPoint(observed);
    SomeRowCopied(observed, n);
    if RangeStopOf(observed, 0).DividedByZero? {
      assert ProgressLines(table, 0, 1) == [];
      if batchSize > 1 {
        DivUnique(1, batchSize, 0, 1);
      }
    }
  }

  /** Some row among the first n is copied exactly when one of them sees a running job. */
  lemma {:induction false} SomeRowCopied(observed: seq<string>, n: nat)
    requires n <= |observed|
    ensures CopiedCount(observed, n) > 0 <==> exists i :: 0 <= i < n && observed[i] == "running"
  {
    if n > 0 {
      SomeRowCopied(observed, n - 1);
      if observed[n - 1] == "running" {
        assert 0 <= n - 1 < n && observed[n - 1] == "running";
      }
    }
  }

  function RunAt(copies: seq<RangeRun>, j: nat): RangeRun
  {
    if j < |copies| then copies[j] else RangeRun(None, [])
  }

  function RangeEffects(table: Option<string>, copies: seq<RangeRun>, cfg: Option<CopyConfig>, n: nat): (es: seq<Effect>)
    ensures |es| == n
  {
    seq(n, j requires 0 <= j < n => RangeEffect(table, RunAt(copies, j), cfg))
  }

  // ------------------------------------------------------------ one table

  function ChunkingDisabledLine(table: Option<string>): LogLine
  {
    LogLine("warning", "Chunking disabled for " + JavaString(table) + " (partition column is missing or not numeric)",
            None)
  }

  function FallbackLine(table: Option<string>): LogLine
  {
    LogLine("warning", "Unable to determine partition bounds for " + JavaString(table) +
            ". Falling back to single-thread copy.", None)
  }

  function ChunkingLine(table: Option<string>, workers: int, ranges: int): LogLine
  {
    LogLine("info", "Chunking " + JavaString(table) + " using " + IntToString(workers) + " worker(s) across " +
            IntToString(ranges) + " range(s)", None)
  }

  /** buildChunkRanges queries the source only when a configured bound does not parse. */
  predicate NeedsBounds(tm: TableMapping)
  {
    MigrationService.ParseLongSafe(tm.partitionMinValue).None? ||
    MigrationService.ParseLongSafe(tm.partitionMaxValue).None?
  }

  function Fetched(q: BoundsQuery): (Option<int>, Option<int>)
  {
    if q.Bounds? then (q.min, q.max) else (None, None)
  }

  /** How many ranges buildChunkRanges makes from a chunk size and the resolved bounds. */
  function RangeCount(size: Option<int>, bounds: Option<(int, int)>): nat
  {
    if size.None? || size.value <= 0 || bounds.None? || bounds.value.1 < bounds.value.0 then 0
    else (bounds.value.1 - bounds.value.0) / size.value + 1
  }

  /** The resolved bounds of a table, given what the source returned. */
  function TableBounds(tm: TableMapping, q: BoundsQuery): Option<(int, int)>
  {
    MigrationService.ResolveBounds(tm.partitionMinValue, tm.partitionMaxValue, Fetched(q))
  }

  /** A partition of [lo, hi] into ranges of width size has (hi - lo) / size + 1 ranges. */
  lemma {:induction false} PartitionCount(ranges: seq<MigrationService.ChunkRange>, lo: int, hi: int, size: int)
    requires size > 0 && MigrationService.IsPartition(ranges, lo, hi, size)
    ensures lo <= hi && |ranges| == (hi - lo) / size + 1
    decreases |ranges|
  {
    if |ranges| == 1 {
      DivUnique(hi - lo, size, 0, hi - lo);
    } else {
      var rest := ranges[1..];
      assert MigrationService.IsPartition(rest, ranges[1].start, hi, size);
      PartitionCount(rest, ranges[1].start, hi, size);
      var q, r := (hi - lo - size) / size, (hi - lo - size) % size;
      assert hi - lo - size == q * size + r;
      assert (q + 1) * size == q * size + size;
      DivUnique(hi - lo, size, q + 1, r);
    }
  }

  lemma RangesCounted(size: Option<int>, bounds: Option<(int, int)>, ranges: seq<MigrationService.ChunkRange>)
    requires size.None? || size.value <= 0 || bounds.None? ==> ranges == []
    requires size.Some? && size.value > 0 && bounds.Some? ==>
      MigrationService.IsPartition(ranges, bounds.value.0, bounds.value.1, size.value)
    ensures |ranges| == RangeCount(size, bounds)
  {
    if size.Some? && size.value > 0 && bounds.Some? {
      PartitionCount(ranges, bounds.value.0, bounds.value.1, size.value);
    }
  }

  /** The copy of one table, after any preparation. */
  function CopyEffect(tm: TableMapping, run: TableRun, cfg: Option<CopyConfig>): Effect
  {
    CopyEffectOf(tm.sourceTable, MigrationService.PlanTableCopy(tm), NeedsBounds(tm), tm.chunkWorkers,
                 RangeCount(tm.chunkSize, TableBounds(tm, run.bounds)), run, cfg)
  }

  /**
   * The copy given the plan, whether the bounds must be queried, the
   * requested chunk workers and the number of ranges the bounds make.
   */
  function CopyEffectOf(table: Option<string>, plan: MigrationService.CopyPlan, needsBounds: bool,
                        workers: Option<int>, n: nat, run: TableRun, cfg: Option<CopyConfig>): Effect
  {
    var single := RangeEffect(table, RunAt(run.copies, 0), cfg);
    match plan
      case Unchunked(warned) =>
        Then(if warned then Logged(ChunkingDisabledLine(table)) else Nothing, single)
      case Chunked(_) => ChunkedEffect(table, needsBounds, workers, n, run, cfg)
  }

  /**
   * migrateTableWithChunks: a failing bounds query throws; no ranges fall
   * back to the single copy; otherwise the ranges are copied.
   */
  function ChunkedEffect(table: Option<string>, needsBounds: bool, workers: Option<int>, n: nat,
                         run: TableRun, cfg: Option<CopyConfig>): Effect
  {
    if needsBounds && run.bounds.BoundsFailed? then Fails(run.bounds.failure)
    else if n == 0 then Then(Logged(FallbackLine(table)), RangeEffect(table, RunAt(run.copies, 0), cfg))
    else Then(Logged(ChunkingLine(table, MigrationService.ChunkWorkerCount(workers, n), n)),
              Sequenced(RangeEffects(table, run.copies, cfg, n), n))
  }

  predicate FailsAt(pf: Option<StatementFailure>, k: nat)
  {
    pf.Some? && pf.value.at == k
  }

  /** prepareTableForMigration: it logs, copies nothing and counts nothing. */
  function PrepareEffect(tm: TableMapping, pf: Option<StatementFailure>): (e: Effect)
    ensures e.flushed == 0 && e.rows == 0
  {
    var drop := tm.dropBeforeInsert == Some(true);
    var truncate := tm.truncateBeforeInsert == Some(true);
    if !drop && !truncate then Nothing
    else if tm.targetSchema.None? || tm.targetTable.None? then Fails(NullPointer)
    else if FailsAt(pf, 0) then Fails(pf.value.failure)
    else if !drop then Logged(LogLine("info", "Truncated table: " + tm.targetTable.value, None))
    else
      var dropped := LogLine("info", "Dropped table: " + tm.targetTable.value, None);
      if MigrationService.CreateTableSql(tm).None? then Effect([dropped], 0, 0, Some(NullPointer))
      else if FailsAt(pf, 1) then Effect([dropped], 0, 0, Some(pf.value.failure))
      else Effect([dropped, LogLine("info", "Recreated table: " + tm.targetTable.value, None)], 0, 0, None)
  }

  /**
   * Each prepare statement logs one line once it has run: the preparation
   * succeeds exactly when every statement can be built, logging one line
   * per statement, and the statement that throws stops it after the lines
   * of the ones before it.
   */
  lemma PrepareLogsStatements(tm: TableMapping, pf: Option<StatementFailure>)
    ensures PrepareEffect(tm, None).failure.None? <==> MigrationService.PrepareTableStatements(tm).Some?
    ensures MigrationService.PrepareTableStatements(tm).Some? ==>
      |PrepareEffect(tm, None).logs| == |MigrationService.PrepareTableStatements(tm).value|
    ensures MigrationService.PrepareTableStatements(tm).Some? && pf.Some? &&
            pf.value.at < |MigrationService.PrepareTableStatements(tm).value| ==>
      PrepareEffect(tm, pf).failure == Some(pf.value.failure) && |PrepareEffect(tm, pf).logs| == pf.value.at
  {
  }

  function StartLine(tm: TableMapping): LogLine
  {
    LogLine("info", "Migrating table: " + JavaString(tm.sourceTable), None)
  }

  function TableEndLine(tm: TableMapping, rows: int, failure: Option<Failure>): LogLine
  {
    match failure
      case None =>
        LogLine("success", "Completed table: " + JavaString(tm.sourceTable) + " (" + IntToString(rows) +
                " rows migrated)", None)
      case Some(f) =>
        LogLine("error", "Failed to migrate table: " + JavaString(tm.sourceTable) + " - " + f.message,
                Some(f.description))
  }

  /** The preparation on a first run, then the copy. */
  function TableBody(tm: TableMapping, isResume: bool, run: TableRun, cfg: Option<CopyConfig>): Effect
  {
    if isResume then CopyEffect(tm, run, cfg) else Then(PrepareEffect(tm, run.prepareFailure), CopyEffect(tm, run, cfg))
  }

  /** processTableMigration: the start line, the preparation on a first run, the copy, the end line. */
  function TableEffect(tm: TableMapping, isResume: bool, run: TableRun, cfg: Option<CopyConfig>): Effect
  {
    var body := TableBody(tm, isResume, run, cfg);
    Effect([StartLine(tm)] + body.logs + [TableEndLine(tm, body.rows, body.failure)],
           body.flushed, body.rows, body.failure)
  }

  /** A copy adds to migratedRows at most the rows it read, and all of them when it succeeds. */
  lemma CopyCounted(tm: TableMapping, run: TableRun, cfg: Option<CopyConfig>)
    ensures Counted(CopyEffect(tm, run, cfg))
  {
    var table := tm.sourceTable;
    RangeCounted(table, RunAt(run.copies, 0), cfg);
    var n := RangeCount(tm.chunkSize, TableBounds(tm, run.bounds));
    var es := RangeEffects(table, run.copies, cfg, n);
    forall j | 0 <= j < |es| ensures Counted(es[j]) {
      RangeCounted(table, RunAt(run.copies, j), cfg);
    }
    SequencedCounted(es, n);
    CopyOfCounted(table, MigrationService.PlanTableCopy(tm), NeedsBounds(tm), tm.chunkWorkers, n, run, cfg);
  }

  lemma CopyOfCounted(table: Option<string>, plan: MigrationService.CopyPlan, needsBounds: bool,
                      workers: Option<int>, n: nat, run: TableRun, cfg: Option<CopyConfig>)
    requires Counted(RangeEffect(table, RunAt(run.copies, 0), cfg))
    requires Counted(Sequenced(RangeEffects(table, run.copies, cfg, n), n))
    ensures Counted(CopyEffectOf(table, plan, needsBounds, workers, n, run, cfg))
  {
    var single := RangeEffect(table, RunAt(run.copies, 0), cfg);
    match plan
    case Unchunked(warned) =>
      ThenCounted(if warned then Logged(ChunkingDisabledLine(table)) else Nothing, single);
    case Chunked(_) =>
      if !(needsBounds && run.bounds.BoundsFailed?) {
        if n == 0 {
          ThenCounted(Logged(FallbackLine(table)), single);
        } else {
          ThenCounted(Logged(ChunkingLine(table, MigrationService.ChunkWorkerCount(workers, n), n)),
                      Sequenced(RangeEffects(table, run.copies, cfg, n), n));
        }
      }
  }

  /**
   * A migrated table has added exactly the rows it copied to migratedRows
   * and reports that count; a failed one has added at most the rows it
   * read.
   */
  lemma TableCounted(tm: TableMapping, isResume: bool, run: TableRun, cfg: Option<CopyConfig>)
    ensures Counted(TableEffect(tm, isResume, run, cfg))
  {
    CopyCounted(tm, run, cfg);
    if !isResume {
      ThenCounted(PrepareEffect(tm, run.prepareFailure), CopyEffect(tm, run, cfg));
    }
  }
  // ------------------------------------------------------------ run specification

  predicate Eligible(t: TableMapping)
  {
    t.enabled == Some(true) && t.status != Some("migrated")
  }

  predicate AnyNullEnabled(tables: seq<TableMapping>)
  {
    exists i :: 0 <= i < |tables| && tables[i].enabled.None?
  }

  predicate AnyEligible(tables: seq<TableMapping>)
  {
    exists i :: 0 <= i < |tables| && Eligible(tables[i])
  }

  predicate IsResume(completedTables: int, tables: seq<TableMapping>)
  {
    completedTables > 0 || exists i :: 0 <= i < |tables| && tables[i].status == Some("migrated")
  }

  function OpeningLine(isResume: bool): LogLine
  {
    if isResume then LogLine("info", "Migration resumed (parallel tables enabled)", None)
    else LogLine("info", "Migration started", None)
  }

  function WorkersLine(settings: Option<AppSettings>): LogLine
  {
    LogLine("info", "Running " + IntToString(MigrationService.ResolveParallelTables(settings)) +
            " parallel table worker(s)", None)
  }

  /** The last log line of a run. */
  function EndLine(failure: Option<Failure>): LogLine
  {
    match failure
      case None => LogLine("success", "Migration completed successfully", None)
      case Some(f) => LogLine("error", "Migration failed: " + f.message, Some(f.description))
  }

  /** createTargetTables for one table: a null flag throws, a disabled table is skipped. */
  function CreationStep(t: TableMapping, run: TableRun): Effect
  {
    if t.enabled.None? then Fails(NullPointer)
    else if t.enabled == Some(false) then Nothing
    else if MigrationService.CreateTableSql(t).None? then Fails(NullPointer)
    else match run.creation
      case Created => Logged(LogLine("info", "Created table: " + JavaString(t.targetTable), None))
      case AlreadyExists => Logged(LogLine("info", "Table already exists: " + JavaString(t.targetTable), None))
      case CreationFailed(f) => Fails(f)
  }

  function CreationSteps(tables: seq<TableMapping>, runs: seq<TableRun>): (es: seq<Effect>)
    requires |runs| == |tables|
    ensures |es| == |tables|
  {
    seq(|tables|, i requires 0 <= i < |tables| => CreationStep(tables[i], runs[i]))
  }

  /**
   * What happens before any table is copied: a first run creates the
   * target tables; a resumed one unboxes every enabled flag.
   */
  function SetupEffect(isResume: bool, tables: seq<TableMapping>, runs: seq<TableRun>): Effect
    requires |runs| == |tables|
  {
    if !isResume then Sequenced(CreationSteps(tables, runs), |tables|)
    else if AnyNullEnabled(tables) then Fails(NullPointer)
    else Nothing
  }

  /**
   * createTargetTables fails with the failure of the first table in list
   * order whose flag is null, whose DDL cannot be built or whose creation
   * throws; with no such table it fails with nothing.
   */
  lemma CreationFirstFailure(tables: seq<TableMapping>, runs: seq<TableRun>, k: nat)
    requires |runs| == |tables| && k < |tables|
    requires CreationStep(tables[k], runs[k]).failure.Some?
    requires forall j :: 0 <= j < k ==> CreationStep(tables[j], runs[j]).failure.None?
    ensures SetupEffect(false, tables, runs).failure == CreationStep(tables[k], runs[k]).failure
  {
    SequencedFirstFailure(CreationSteps(tables, runs), k, |tables|);
  }

  lemma CreationSucceeds(tables: seq<TableMapping>, runs: seq<TableRun>)
    requires |runs| == |tables|
    ensures SetupEffect(false, tables, runs).failure.None? <==>
      forall j :: 0 <= j < |tables| ==> CreationStep(tables[j], runs[j]).failure.None?
  {
    var es := CreationSteps(tables, runs);
    SequencedSucceeds(es, |tables|);
    assert forall j :: 0 <= j < |tables| ==> es[j] == CreationStep(tables[j], runs[j]);
  }

  /** The effect of processing every table, eligible or not. */
  function TableEffects(tables: seq<TableMapping>, runs: seq<TableRun>, isResume: bool, cfg: Option<CopyConfig>)
    : (es: seq<Effect>)
    requires |runs| == |tables|
    ensures |es| == |tables|
  {
    seq(|tables|, i requires 0 <= i < |tables| => TableEffect(tables[i], isResume, runs[i], cfg))
  }

  /** Only eligible tables are processed. */
  function RunEffects(tables: seq<TableMapping>, es: seq<Effect>): (rs: seq<Effect>)
    requires |es| == |tables|
    ensures |rs| == |tables|
  {
    seq(|tables|, i requires 0 <= i < |tables| => if Eligible(tables[i]) then es[i] else Nothing)
  }

  /** The rows a run adds to migratedRows: never more than it copies, and all of them when it succeeds. */
  lemma RunCounted(tables: seq<TableMapping>, runs: seq<TableRun>, isResume: bool, cfg: Option<CopyConfig>)
    requires |runs| == |tables|
    ensures Counted(Sequenced(RunEffects(tables, TableEffects(tables, runs, isResume, cfg)), |tables|))
  {
    var es := TableEffects(tables, runs, isResume, cfg);
    forall j | 0 <= j < |es| ensures Counted(es[j]) {
      TableCounted(tables[j], isResume, runs[j], cfg);
    }
    EligibleCounted(tables, es);
  }

  lemma EligibleCounted(tables: seq<TableMapping>, es: seq<Effect>)
    requires |es| == |tables| && forall j :: 0 <= j < |es| ==> Counted(es[j])
    ensures Counted(Sequenced(RunEffects(tables, es), |tables|))
  {
    var rs := RunEffects(tables, es);
    assert forall j :: 0 <= j < |rs| ==> Counted(rs[j]);
    SequencedCounted(rs, |tables|);
  }

  /** The j-th table is processed and its copy fails. */
  predicate Fault(tables: seq<TableMapping>, es: seq<Effect>, j: int)
    requires |es| == |tables|
  {
    0 <= j < |tables| && Eligible(tables[j]) && es[j].failure.Some?
  }

  /** The first table at index >= from that is processed and fails, or the table count. */
  function FirstFailureFrom(tables: seq<TableMapping>, es: seq<Effect>, from: nat): (k: nat)
    requires |es| == |tables| && from <= |tables|
    ensures from <= k <= |tables|
    ensures forall j :: from <= j < k ==> !Fault(tables, es, j)
    ensures k < |tables| ==> Fault(tables, es, k)
    decreases |tables| - from
  {
    if from == |tables| || Fault(tables, es, from) then from else FirstFailureFrom(tables, es, from + 1)
  }

  /** The index of the table whose failure ends the run; the table count when none fails. */
  function FirstFailureIndex(tables: seq<TableMapping>, es: seq<Effect>): (k: nat)
    requires |es| == |tables|
    ensures k <= |tables|
    ensures forall j :: 0 <= j < k ==> !Fault(tables, es, j)
    ensures k < |tables| ==> Fault(tables, es, k)
  {
    FirstFailureFrom(tables, es, 0)
  }

  lemma PastNoFault(tables: seq<TableMapping>, es: seq<Effect>, i: nat)
    requires |es| == |tables| && i <= FirstFailureIndex(tables, es) && !Fault(tables, es, i) && i < |tables|
    ensures i + 1 <= FirstFailureIndex(tables, es)
  {
  }

  function FirstFailure(tables: seq<TableMapping>, es: seq<Effect>): Option<Failure>
    requires |es| == |tables|
  {
    var k := FirstFailureIndex(tables, es);
    if k < |tables| then es[k].failure else None
  }

  /** The run's failure is the failure of the first processed table that fails. */
  lemma RunFailure(tables: seq<TableMapping>, es: seq<Effect>)
    requires |es| == |tables|
    ensures Sequenced(RunEffects(tables, es), |tables|).failure == FirstFailure(tables, es)
  {
    var rs := RunEffects(tables, es);
    var k := FirstFailureIndex(tables, es);
    assert forall j :: 0 <= j < k ==> rs[j].failure.None? by {
      forall j | 0 <= j < k ensures rs[j].failure.None? {
        assert !Fault(tables, es, j);
      }
    }
    if k < |tables| {
      SequencedFirstFailure(rs, k, |tables|);
    } else {
      SequencedSucceeds(rs, |tables|);
    }
  }

  /** A table's status once it has been processed; a table that is not eligible keeps its own. */
  function StatusAfter(t: TableMapping, e: Effect): TableMapping
  {
    if Eligible(t) then t.(status := Some(if e.failure.None? then "migrated" else "error")) else t
  }

  function RunStatusesUpTo(tables: seq<TableMapping>, es: seq<Effect>, n: nat): (r: seq<TableMapping>)
    requires |es| == |tables| && n <= |tables|
    ensures |r| == |tables|
  {
    seq(|tables|, i requires 0 <= i < |tables| => if i < n then StatusAfter(tables[i], es[i]) else tables[i])
  }

  lemma StatusStep(tables: seq<TableMapping>, es: seq<Effect>, i: nat)
    requires |es| == |tables| && i < |tables|
    ensures RunStatusesUpTo(tables, es, i)[i := StatusAfter(tables[i], es[i])] == RunStatusesUpTo(tables, es, i + 1)
  {
  }

  /** Every eligible table up to and including the first failing one is updated; the rest are untouched. */
  function RunStatuses(tables: seq<TableMapping>, es: seq<Effect>): (r: seq<TableMapping>)
    requires |es| == |tables|
    ensures |r| == |tables|
  {
    var k := FirstFailureIndex(tables, es);
    RunStatusesUpTo(tables, es, if k < |tables| then k + 1 else k)
  }

  /** Eligible tables among the first n whose copy succeeds. */
  function MigratedCount(tables: seq<TableMapping>, es: seq<Effect>, n: nat): nat
    requires |es| == |tables| && n <= |tables|
  {
    if n == 0 then 0
    else MigratedCount(tables, es, n - 1) + (if Eligible(tables[n - 1]) && es[n - 1].failure.None? then 1 else 0)
  }

  /** The run stops at the first failure, or after the last table: the table that fails is not counted. */
  lemma CountAtStop(tables: seq<TableMapping>, es: seq<Effect>, i: nat)
    requires |es| == |tables| && i <= |tables|
    requires i == FirstFailureIndex(tables, es) || i == FirstFailureIndex(tables, es) + 1
    ensures MigratedCount(tables, es, i) == MigratedCount(tables, es, FirstFailureIndex(tables, es))
  {
    var k := FirstFailureIndex(tables, es);
    if i == k + 1 {
      assert Fault(tables, es, k);
    }
  }

  /** Eligible tables among the first n. */
  function EligibleCount(tables: seq<TableMapping>, n: nat): nat
    requires n <= |tables|
  {
    if n == 0 then 0 else EligibleCount(tables, n - 1) + (if Eligible(tables[n - 1]) then 1 else 0)
  }

  /** Before the first failure every eligible table is migrated and counted. */
  lemma {:induction false} MigratedBeforeFailure(tables: seq<TableMapping>, es: seq<Effect>, n: nat)
    requires |es| == |tables| && n <= FirstFailureIndex(tables, es)
    ensures MigratedCount(tables, es, n) == EligibleCount(tables, n)
  {
    if n > 0 {
      MigratedBeforeFailure(tables, es, n - 1);
      assert !Fault(tables, es, n - 1);
    }
  }

  /**
   * A run without failures migrates every eligible table; a failing run
   * marks exactly one table error and no table after it changes.
   */
  lemma RunOutcome(tables: seq<TableMapping>, es: seq<Effect>)
    requires |es| == |tables|
    ensures FirstFailure(tables, es).None? ==>
      forall i :: 0 <= i < |tables| && Eligible(tables[i]) ==> RunStatuses(tables, es)[i].status == Some("migrated")
    ensures FirstFailure(tables, es).Some? ==>
      var k := FirstFailureIndex(tables, es);
      k < |tables| && RunStatuses(tables, es)[k].status == Some("error") &&
      (forall i :: k < i < |tables| ==> RunStatuses(tables, es)[i] == tables[i]) &&
      (forall i :: 0 <= i < k && Eligible(tables[i]) ==> RunStatuses(tables, es)[i].status == Some("migrated"))
    ensures forall i :: 0 <= i < |tables| && !Eligible(tables[i]) ==> RunStatuses(tables, es)[i] == tables[i]
  {
    var k := FirstFailureIndex(tables, es);
    forall i | 0 <= i < k && Eligible(tables[i])
      ensures RunStatuses(tables, es)[i].status == Some("migrated")
    {
      assert !Fault(tables, es, i);
    }
  }

  // ------------------------------------------------------------ pause and resume

  datatype Restart = ProjectMissing | Restarted | RestartFailed(message: string)

  function AfterPause(status: string, flag: bool): (string, bool)
  {
    if status == "running" then ("paused", true) else (status, flag)
  }

  function AfterResume(status: string, flag: bool, threadAlive: bool, restart: Restart): (string, bool)
  {
    if status != "paused" then (status, flag)
    else if threadAlive then ("running", false)
    else match restart
      case ProjectMissing => ("paused", false)
      case Restarted => ("running", false)
      case RestartFailed(_) => ("error", false)
  }

  function ResumeLogs(threadAlive: bool, restart: Restart): seq<LogLine>
  {
    if threadAlive then [LogLine("info", "Migration resumed", None)]
    else match restart
      case ProjectMissing => []
      case Restarted => [LogLine("info", "Migration resumed - execution thread restarted", None)]
      case RestartFailed(m) => [LogLine("error", "Failed to resume migration: " + m, None)]
  }

  /**
   * Pause acts only on a running job and resume only on a paused one; a
   * pause is undone by a resume that finds the worker alive, and pausing
   * twice is pausing once.
   */
  lemma PauseResumeRules(status: string, flag: bool, threadAlive: bool, restart: Restart)
    ensures status != "running" ==> AfterPause(status, flag) == (status, flag)
    ensures status != "paused" ==> AfterResume(status, flag, threadAlive, restart) == (status, flag)
    ensures status == "running" ==> AfterResume(AfterPause(status, flag).0, AfterPause(status, flag).1, true, restart) == ("running", false)
    ensures var p := AfterPause(status, flag); AfterPause(p.0, p.1) == p
    ensures var r := AfterResume(status, flag, threadAlive, restart);
            status == "paused" ==> !r.1 && (r.0 == "running" || r.0 == "paused" || r.0 == "error")
  {
  }

  // ------------------------------------------------------------ stored progress

  datatype ProgressSummary = ProgressSummary(totalTables: int, completedTables: int,
                                             totalRows: int, migratedRows: int, status: string)

  function CountMigrated(statuses: seq<Option<string>>): (n: nat)
    ensures n <= |statuses|
  {
    if statuses == [] then 0
    else CountMigrated(statuses[..|statuses| - 1]) + (if statuses[|statuses| - 1] == Some("migrated") then 1 else 0)
  }

  function StatusFromCounts(completed: int, total: int): string
  {
    if completed == 0 then "idle" else if completed == total then "completed" else "paused"
  }

  /**
   * calculateProgressFromTableMappings: counts the migrated table
   * statuses (the row totals come from database counts, passed in); a
   * missing project gives a fresh idle progress.
   */
  method CalculateProgressFromTableMappings(projectFound: bool, statuses: seq<Option<string>>,
                                            sourceRows: int, targetRows: int)
    returns (p: ProgressSummary)
    ensures !projectFound ==> p == ProgressSummary(0, 0, 0, 0, "idle")
    ensures projectFound ==> p.totalTables == |statuses| && p.completedTables == CountMigrated(statuses)
    ensures projectFound ==> p.totalRows == sourceRows && p.migratedRows == targetRows
    ensures projectFound ==> p.status == StatusFromCounts(CountMigrated(statuses), |statuses|)
  {
    if !projectFound {
      return ProgressSummary(0, 0, 0, 0, "idle");
    }
    var completed := 0;
    var i := 0;
    while i < |statuses|
      invariant 0 <= i <= |statuses|
      invariant completed == CountMigrated(statuses[..i])
    {
      assert statuses[..i + 1][..i] == statuses[..i];
      if statuses[i] == Some("migrated") {
        completed := completed + 1;
      }
      i := i + 1;
    }
    assert statuses[..i] == statuses;
    var status := if completed == 0 then "idle" else if completed == |statuses| then "completed" else "paused";
    p := ProgressSummary(|statuses|, completed, sourceRows, targetRows, status);
  }

  /** Completed exactly when every table is migrated and there is one; idle exactly when none is. */
  lemma {:induction false} StoredStatusRule(statuses: seq<Option<string>>)
    ensures StatusFromCounts(CountMigrated(statuses), |statuses|) == "completed" <==>
      |statuses| > 0 && forall i :: 0 <= i < |statuses| ==> statuses[i] == Some("migrated")
    ensures StatusFromCounts(CountMigrated(statuses), |statuses|) == "idle" <==>
      forall i :: 0 <= i < |statuses| ==> statuses[i] != Some("migrated")
  {
    CountMigratedAll(statuses);
    CountMigratedNone(statuses);
  }

  lemma {:induction false} CountMigratedAll(statuses: seq<Option<string>>)
    ensures CountMigrated(statuses) == |statuses| <==> forall i :: 0 <= i < |statuses| ==> statuses[i] == Some("migrated")
  {
    if statuses != [] {
      var init := statuses[..|statuses| - 1];
      CountMigratedAll(init);
      assert forall i :: 0 <= i < |init| ==> init[i] == statuses[i];
    }
  }

  lemma {:induction false} CountMigratedNone(statuses: seq<Option<string>>)
    ensures CountMigrated(statuses) == 0 <==> forall i :: 0 <= i < |statuses| ==> statuses[i] != Some("migrated")
  {
    if statuses != [] {
      var init := statuses[..|statuses| - 1];
      CountMigratedNone(init);
      assert forall i :: 0 <= i < |init| ==> init[i] == statuses[i];
    }
  }
}
