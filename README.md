# ora2pg migration UI: a Dafny model of its core

The system is a web tool for moving data from Oracle (or another
PostgreSQL database) into PostgreSQL. A Spring back end holds migration
projects and "pg2pg" pipelines. Each project has a source and a target
connection and a list of table mappings, each with its column mappings. Each
pipeline has connections and ordered steps. From these the back end builds
target DDL and SQL scripts, copies rows in batches, and validates the result
by row counts and checksums. A Next.js front end suggests target types and
column names.

This project models the deterministic core of that system in Dafny and proves
what each part promises. One module covers each source file. The covered parts
are:

- **Migration engine** (`migration_service.dfy`, `migration_job.dfy`):
  - the chunking decision and range partitioning of a numeric partition column;
  - WHERE-clause composition and the CREATE TABLE text;
  - the lenient hex decoder;
  - the batched row-copy loop and the job status machine: state kept in a
    `Progress` class, with pause, resume, per-table status, run completion
    and failure, and progress rebuilt from stored statuses.
- **Type mapping and naming**:
  - `type_mapping.dfy`: DatabaseService's Oracle-to-PostgreSQL type mapping,
    its inverse and the automatic table mapping;
  - `column_names_java.dfy` and `column_names_ts.dfy`: the back-end and
    front-end column naming strategies, related by an equivalence lemma on
    names made of ASCII letters and underscores;
  - `data_type_mappings.dfy`: the front end's default type table and its lookup;
  - `table_mapping_view.dfy`: the pure helpers of the table-mapping screen.
- **SQL text**:
  - `pipeline_sql.dfy`: the pg2pg migration script generator;
  - `pipeline_execution.dfy`: the statement splitter, which follows dollar
    quoting as in section 4.1.2.4 of the PostgreSQL manual and skips comments,
    plus the step ordering and bookkeeping of a pipeline run;
  - `schema_migration.dfy`: the schema-migration DDL builders, rewrites, issue
    checkers and catalogue-row grouping;
  - `data_validation.dfy`: the data-validation reports and checksum input text.
- **Serialisers**:
  - `log_export.dfy`: the CSV log export, following section 2 (rules 6 and 7)
    of RFC 4180 and written as UTF-8 (RFC 3629) after a byte-order mark,
    proved to read back;
  - `hex.dfy`: Base16 as in section 8 of RFC 4648, proved to round-trip
    between the two services;
  - `json_import.dfy`: the JSON mapping import after parsing.
- **Stores**: the pipeline, project, type-rule and settings services. Each is
  a class whose fields are the repositories, updated in place under ownership
  checks. Each keeps an invariant (`Valid`), and a failed operation leaves
  the state unchanged, as the surrounding transaction would.
- **Mappers** (`project_mapper.dfy`, `pipeline_mapper.dfy`): copies between
  records and entities, with round-trip lemmas.

Shared modules:

- `JavaStr` (`strings.dfy`): the Java and JavaScript string primitives, with
  their library semantics.
- `Outcomes`: exceptions by kind, and `Outcome`.
- `Model`, `PipelineModel` and their entities (`records.dfy`,
  `pipeline_records.dfy`): the records. Every nullable Java field is an
  `Option`.
- `QuotedNames` and `Lists`.

Inputs the code cannot see are parameters:

- database rows, bounds and counts;
- the signed-in user;
- generated ids and clock readings;
- what another thread does to a running job.

## Model

| member | source | states |
|---|---|---|
| MigrationService.ResolveParallelTables | backend/src/main/java/com/ora2pg/migration/service/MigrationService.java:102-107 | the table worker count is at least 1, and it is the configured parallelJobs exactly when that is set and at least 1 |
| MigrationService.FirstMatching | backend/src/main/java/com/ora2pg/migration/service/MigrationService.java:175-187 | the index found is the first mapping whose source column equals the partition column ignoring case; None exactly when no mapping matches |
| MigrationService.PartitionColumnFound | backend/src/main/java/com/ora2pg/migration/service/MigrationService.java:175-187 | the mapping found belongs to the table and matches its partition column ignoring case |
| MigrationService.FirstMatchAtUnique | backend/src/main/java/com/ora2pg/migration/service/MigrationService.java:175-187 | at most one index is the first mapping that matches the partition column |
| MigrationService.ChunkableTypes | backend/src/main/java/com/ora2pg/migration/service/MigrationService.java:189-200 | a type is chunkable iff its upper-cased name contains INT, NUMBER, DECIMAL or NUMERIC |
| MigrationService.ChunkingGate | backend/src/main/java/com/ora2pg/migration/service/MigrationService.java:532-551 | a chunked copy is planned exactly when chunking is requested with a non-blank partition column, more than one chunk worker, a positive chunk size and a first matching column whose source type (else target type) is numeric; the plan then partitions on that first matching mapping |
| MigrationService.PlanChunkedWhen | backend/src/main/java/com/ora2pg/migration/service/MigrationService.java:532-551 | the plan is chunked exactly when chunking is requested and the mapping found has a numeric type, and then it partitions on that mapping |
| MigrationService.FoundIsFirstMatch | backend/src/main/java/com/ora2pg/migration/service/MigrationService.java:175-187 | a mapping is found exactly when there is a first matching one, and it is that mapping |
| MigrationService.ChunkingWarning | backend/src/main/java/com/ora2pg/migration/service/MigrationService.java:540-544 | an unchunked copy logs the chunking-disabled warning iff chunking was attempted |
| MigrationService.ChunkWorkerCount | backend/src/main/java/com/ora2pg/migration/service/MigrationService.java:585-586 | the chunk pool has at least one worker, no more than the number of ranges, and the requested count when that lies between 1 and the range count |
| MigrationService.NormalizeFilterCondition | backend/src/main/java/com/ora2pg/migration/service/MigrationService.java:202-215 | a null or blank filter gives the empty text; the result is trimmed; a filter not starting with WHERE is only trimmed |
| MigrationService.WhereKeywordDropped | backend/src/main/java/com/ora2pg/migration/service/MigrationService.java:202-215 | a leading WHERE keyword in any letter case followed by a space is removed and the condition kept |
| MigrationService.WhereClauseCases | backend/src/main/java/com/ora2pg/migration/service/MigrationService.java:217-230 | the clause is empty iff neither a normalized filter nor a non-blank extra condition is present; otherwise " WHERE " and the parenthesised conditions, filter first, joined by " AND " |
| MigrationService.ParseLongSafe | backend/src/main/java/com/ora2pg/migration/service/MigrationService.java:232-241 | null or blank text gives null and any parsed value lies in the Java long range |
| MigrationService.ParseLongSafeOfDecimal | backend/src/main/java/com/ora2pg/migration/service/MigrationService.java:232-241 | every long written in decimal and surrounded by spaces is read back |
| MigrationService.ResolveBounds | backend/src/main/java/com/ora2pg/migration/service/MigrationService.java:248-269 | each bound is the configured value else the fetched one; the pair is unresolved iff either stays null, and is put in order when max < min |
| MigrationService.BuildChunkRanges | backend/src/main/java/com/ora2pg/migration/service/MigrationService.java:243-282 | no ranges for a missing or non-positive chunk size or unresolved bounds; otherwise the ranges partition [min, max] into contiguous chunks of width chunkSize, the last possibly narrower |
| MigrationService.SplitRange | backend/src/main/java/com/ora2pg/migration/service/MigrationService.java:276-281 | the loop's ranges start at lo, are contiguous, end exactly at hi, and each has width size except possibly the last |
| MigrationService.PartitionCovers | backend/src/main/java/com/ora2pg/migration/service/MigrationService.java:276-281 | every value between the bounds lies in one range and in no other |
| MigrationService.StartsIncrease | backend/src/main/java/com/ora2pg/migration/service/MigrationService.java:276-281 | contiguous ranges do not overlap: each starts after every earlier one ends |
| MigrationService.ChunkOverflowAsWritten | backend/src/main/java/com/ora2pg/migration/service/MigrationService.java:276-281 | in long arithmetic the loop test start <= Long.MAX_VALUE never fails and a range near the top ends before it starts |
| MigrationService.QuoteIdentifier | backend/src/main/java/com/ora2pg/migration/service/MigrationService.java:717-720 | the result is wrapped in double quotes |
| MigrationService.QuoteIdentifierRoundTrip | backend/src/main/java/com/ora2pg/migration/service/MigrationService.java:717-720 | removing the outer quotes and undoubling inner ones recovers the identifier |
| MigrationService.CleanDataType | backend/src/main/java/com/ora2pg/migration/service/MigrationService.java:692-715 | a missing or empty type gives TEXT; the result is never a bare VARCHAR or VARCHAR2; a type without a "(n)" placeholder that is not VARCHAR/VARCHAR2 is kept trimmed |
| MigrationService.CleanDataTypeDropsPlaceholder | backend/src/main/java/com/ora2pg/migration/service/MigrationService.java:692-715 | a trimmed base type followed by "(n)" loses the placeholder, and becomes TEXT when the base is VARCHAR or VARCHAR2 |
| MigrationService.ColumnDefinitionsSpec | backend/src/main/java/com/ora2pg/migration/service/MigrationService.java:673-686 | the column list exists iff every column names its target column, and then holds each column's definition (quoted name, cleaned type, NOT NULL when not nullable) in order |
| MigrationService.CreateTableSqlDefined | backend/src/main/java/com/ora2pg/migration/service/MigrationService.java:667-690 | the CREATE TABLE text exists iff the target schema, the target table and every target column are named |
| MigrationService.CreateTableSqlShape | backend/src/main/java/com/ora2pg/migration/service/MigrationService.java:667-690 | the DDL starts with CREATE TABLE and a quoted name and ends by closing the column list |
| MigrationService.GenerateCreateTableSql | backend/src/main/java/com/ora2pg/migration/service/MigrationService.java:667-690 | the StringBuilder loop produces exactly the CREATE TABLE text, or fails where a null target column throws |
| MigrationService.CreateTableListsColumns | backend/src/main/java/com/ora2pg/migration/service/MigrationService.java:677-681 | every column appears in the DDL as its quoted target name followed by its cleaned type |
| MigrationService.PrepareDropWins | backend/src/main/java/com/ora2pg/migration/service/MigrationService.java:139-166 | with neither flag set nothing is issued; with a flag set but no target schema or table the preparation fails; dropBeforeInsert gives DROP ... CASCADE then CREATE TABLE, and fails when the CREATE TABLE text cannot be built; otherwise truncateBeforeInsert gives TRUNCATE |
| MigrationService.PrepareTableStatements | backend/src/main/java/com/ora2pg/migration/service/MigrationService.java:139-166 | the statements prepareTableForMigration issues, in order, or None where it throws; its cases are stated by PrepareDropWins |
| MigrationService.HexStringToByteArray | backend/src/main/java/com/ora2pg/migration/service/MigrationService.java:1269-1288 | null or empty text gives no bytes; otherwise the text stripped of white space, upper-cased and left-padded with 0 to even length is decoded two digits per byte, giving ceil(n/2) bytes for n remaining characters |
| MigrationService.DecodeHexPairs | backend/src/main/java/com/ora2pg/migration/service/MigrationService.java:1282-1285 | the array holds one byte per digit pair, in order |
| Base16.Unsigned | backend/src/main/java/com/ora2pg/migration/service/DataValidationService.java:488-495 | the unsigned value of a Java byte lies in 0..255 and agrees with the byte modulo 256 |
| Base16.ToByte | backend/src/main/java/com/ora2pg/migration/service/MigrationService.java:1283-1284 | the narrowing cast gives the byte that agrees with the value modulo 256 |
| Base16.ToByteOfUnsigned | backend/src/main/java/com/ora2pg/migration/service/MigrationService.java:1283-1284 | narrowing the unsigned value of a byte gives the byte back |
| Base16.HexDigit | backend/src/main/java/com/ora2pg/migration/service/MigrationService.java:1283-1284 | Character.digit(c, 16) gives the value 0..15 of a hex digit and -1 for any other character |
| Base16.LowerHexChar | backend/src/main/java/com/ora2pg/migration/service/DataValidationService.java:488-495 | the digit written for 0..15 is a lower-case hex digit of that value |
| Base16.ByteHex | backend/src/main/java/com/ora2pg/migration/service/DataValidationService.java:491-492 | a byte prints as two lower-case hex digits of its unsigned value |
| Base16.Encode | backend/src/main/java/com/ora2pg/migration/service/DataValidationService.java:488-495 | n bytes give 2n lower-case hex digits |
| Base16.EncodeAt | backend/src/main/java/com/ora2pg/migration/service/DataValidationService.java:488-495 | the digits at positions 2k and 2k+1 are those of byte k |
| Base16.StripSpaces | backend/src/main/java/com/ora2pg/migration/service/MigrationService.java:1275 | the result is no longer than the input and holds no regex white-space character |
| Base16.StripSpacesNoOp | backend/src/main/java/com/ora2pg/migration/service/MigrationService.java:1275 | text without white space is unchanged |
| Base16.Normalize | backend/src/main/java/com/ora2pg/migration/service/MigrationService.java:1275-1279 | the decoder's text has even length: the stripped length, or one more when a 0 is padded |
| Base16.DecodePairs | backend/src/main/java/com/ora2pg/migration/service/MigrationService.java:1281-1285 | an even-length text gives half as many bytes |
| Base16.DecodePairsAt | backend/src/main/java/com/ora2pg/migration/service/MigrationService.java:1281-1285 | byte k is decoded from characters 2k and 2k+1 |
| Base16.PairOfByteHex | backend/src/main/java/com/ora2pg/migration/service/MigrationService.java:1283-1284 | decoding the upper-cased digits of a byte gives the byte back |
| Base16.RoundTrip | backend/src/main/java/com/ora2pg/migration/service/MigrationService.java:1269-1288 | hexStringToByteArray inverts bytesToHex for every byte sequence |
| MigrationJob.Progress.constructor | backend/src/main/java/com/ora2pg/migration/model/MigrationProgress.java:27-35 | a new progress is idle with every counter zero, the pause flag clear and no logs |
| MigrationJob.Progress.Save | backend/src/main/java/com/ora2pg/migration/service/MigrationService.java:1137-1166 | saveProgressToDatabase appends a snapshot of the current counters and status and changes nothing else |
| MigrationJob.Progress.AddLog | backend/src/main/java/com/ora2pg/migration/service/MigrationService.java:991-1019 | addLog appends one log line with the given level, message and details |
| MigrationJob.Progress.IncrementMigratedRows | backend/src/main/java/com/ora2pg/migration/service/MigrationService.java:109-119 | a non-positive delta changes nothing; otherwise migratedRows grows by delta and is persisted when it lands on a multiple of 10000 |
| MigrationJob.Progress.MigrateTableRange | backend/src/main/java/com/ora2pg/migration/service/MigrationService.java:787-987 | the copy aborts iff the row that stops the loop sees status error; the rows copied are those that saw running before the stop; every batch but the last is full; without an abort the batches sum to the rows copied; migratedRows grows by exactly the flushed rows; one commit per batch unless autoCommit; one progress line per commitInterval rows |
| MigrationJob.Progress.FlushBatch | backend/src/main/java/com/ora2pg/migration/service/MigrationService.java:951-959 | a full batch is recorded, committed unless autoCommit, and its rows added to migratedRows |
| MigrationJob.Progress.LogProgress | backend/src/main/java/com/ora2pg/migration/service/MigrationService.java:962-966 | a progress line is logged after the n-th row exactly when n is a multiple of commitInterval |
| MigrationJob.Progress.ReadRows | backend/src/main/java/com/ora2pg/migration/service/MigrationService.java:787-967 | the row loop keeps fewer than batchSize rows pending, the flushed batches plus the pending rows equal totalRows, and migratedRows grows by the flushed rows only |
| MigrationJob.Progress.CopyRow | backend/src/main/java/com/ora2pg/migration/service/MigrationService.java:947-966 | one copied row adds one to totalRows and keeps the batch, commit, counter and progress-log invariants of the loop |
| MigrationJob.Progress.PauseMigration | backend/src/main/java/com/ora2pg/migration/service/MigrationService.java:1191-1212 | only a running job changes: it becomes paused with the flag raised, is persisted and logs the pause; the counters are unchanged |
| MigrationJob.Progress.ResumeMigration | backend/src/main/java/com/ora2pg/migration/service/MigrationService.java:1214-1263 | only a paused job changes: the flag is cleared and the status becomes running, or error when the restart throws; other states change nothing |
| MigrationJob.Progress.ProcessTableMigration | backend/src/main/java/com/ora2pg/migration/service/MigrationService.java:517-570 | the table becomes current; the start line, the preparation on a first run, the copy and the end line are logged as TableEffect says, and migratedRows grows by the rows the copy flushed; a success marks the table migrated, counts it and persists the progress, a failure marks it error and passes the failure on |
| MigrationJob.Progress.ExecuteMigration | backend/src/main/java/com/ora2pg/migration/service/MigrationService.java:434-515 | a first run creates the target tables and fails with the first table in list order whose creation fails; a resumed one fails on a null enabled flag; with nothing eligible the run completes; otherwise the eligible tables are processed in list order until the first failure, the statuses, completedTables, migratedRows and logs follow the tables' effects, and the job ends completed with no failure and error otherwise, with no current table and the progress persisted |
| MigrationJob.Progress.Setup | backend/src/main/java/com/ora2pg/migration/service/MigrationService.java:444-449 | a first run creates the target tables and a resumed one unboxes every enabled flag, with the logs and failure of SetupEffect; nothing else changes |
| MigrationJob.Progress.CopyTables | backend/src/main/java/com/ora2pg/migration/service/MigrationService.java:465-482 | the worker count is logged, then the eligible tables are processed in order until the first failure, which comes back wrapped; the statuses, completedTables, migratedRows and logs follow the tables' effects |
| MigrationJob.Progress.EndRun | backend/src/main/java/com/ora2pg/migration/service/MigrationService.java:484-504 | the run ends completed, or error with the failure logged, with no current table and the progress persisted |
| MigrationJob.Progress.RunTables | backend/src/main/java/com/ora2pg/migration/service/MigrationService.java:470-482 | the table statuses become the reference run statuses, the failure is the first failing eligible table's, and completedTables grows by the tables migrated |
| MigrationJob.Progress.ProcessEntry | backend/src/main/java/com/ora2pg/migration/service/MigrationService.java:470-482 | an eligible table is processed with the effect of its copy, an ineligible one is skipped; the failure is raised exactly for a processed table that fails, and completedTables grows only for a migrated one |
| MigrationJob.Progress.CopyRows | backend/src/main/java/com/ora2pg/migration/service/MigrationService.java:787-987 | one range: how the row loop stops, the rows read, batches of at most the batch size with all but the last full, all copied rows flushed when it finishes, migratedRows grown by the flushed rows, one commit per batch unless autoCommit and the progress lines logged |
| MigrationJob.Progress.MigrateRanges | backend/src/main/java/com/ora2pg/migration/service/MigrationService.java:594-605 | the ranges are copied in order until the first that throws, and the logs and migratedRows are those of the sequenced range effects |
| MigrationJob.Progress.NextRange | backend/src/main/java/com/ora2pg/migration/service/MigrationService.java:594-605 | one more range after ranges that did not fail adds its effect to theirs |
| MigrationJob.Progress.CopyTable | backend/src/main/java/com/ora2pg/migration/service/MigrationService.java:532-551 | a chunked plan goes to migrateTableWithChunks and any other to migrateTable, with the logs, migratedRows and failure of CopyEffect |
| MigrationJob.Progress.MigrateTable | backend/src/main/java/com/ora2pg/migration/service/MigrationService.java:722-725 | the chunking warning when chunking was attempted, then one range over the whole table |
| MigrationJob.Progress.MigrateTableWithChunks | backend/src/main/java/com/ora2pg/migration/service/MigrationService.java:572-618 | a failing bounds query throws; no ranges fall back to the single copy with its line; otherwise the chunking line is logged and the ranges are copied |
| MigrationJob.Progress.PrepareTable | backend/src/main/java/com/ora2pg/migration/service/MigrationService.java:139-166 | the logs and failure are those of PrepareEffect, and nothing else changes |
| MigrationJob.Progress.PrepareAndCopy | backend/src/main/java/com/ora2pg/migration/service/MigrationService.java:527-551 | a first run prepares and then copies, a resumed one only copies, with the effect TableBody states |
| MigrationJob.Progress.PrepareThenCopy | backend/src/main/java/com/ora2pg/migration/service/MigrationService.java:527-551 | the copy runs only when the preparation does not throw, and the effect is the two one after the other |
| MigrationJob.Progress.CreateTargetTables | backend/src/main/java/com/ora2pg/migration/service/MigrationService.java:620-665 | the tables are created in list order until the first that fails, with the logs and failure of the sequenced creation steps |
| MigrationJob.Progress.CreateTargetTable | backend/src/main/java/com/ora2pg/migration/service/MigrationService.java:627-651 | a null enabled flag throws, a disabled table is skipped, an enabled one is created or fails, as CreationStep says |
| MigrationJob.BatchLimit | backend/src/main/java/com/ora2pg/migration/service/MigrationService.java:951 | the batch size the test rowCount >= batchSize enforces is at least one row |
| MigrationJob.StopPoint | backend/src/main/java/com/ora2pg/migration/service/MigrationService.java:799-812 | every row before the stop point keeps the loop going and the row at it, if any, ends it |
| MigrationJob.CopiedCount | backend/src/main/java/com/ora2pg/migration/service/MigrationService.java:799-812 | no more rows are copied than are read |
| MigrationJob.CopiedCountBounds | backend/src/main/java/com/ora2pg/migration/service/MigrationService.java:799-812 | every row read is copied iff every one of them saw a running job: paused rows are discarded |
| MigrationJob.ProgressLinesCount | backend/src/main/java/com/ora2pg/migration/service/MigrationService.java:962-966 | copying n rows logs exactly n / commitInterval progress lines |
| MigrationJob.PauseResumeRules | backend/src/main/java/com/ora2pg/migration/service/MigrationService.java:1191-1263 | pause acts only on a running job and resume only on a paused one; a pause is undone by a resume that finds the worker alive; pausing twice is pausing once |
| MigrationJob.FirstFailureFrom | backend/src/main/java/com/ora2pg/migration/service/MigrationService.java:470-482 | the index found is the first eligible table from the start index whose copy fails, and None when there is none |
| MigrationJob.RunStatusesUpTo | backend/src/main/java/com/ora2pg/migration/service/MigrationService.java:552-564 | the run keeps the number of tables |
| MigrationJob.RunStatuses | backend/src/main/java/com/ora2pg/migration/service/MigrationService.java:552-564 | the run keeps the number of tables |
| MigrationJob.RunOutcome | backend/src/main/java/com/ora2pg/migration/service/MigrationService.java:434-570 | without failures every eligible table ends migrated; with one, the first failing table ends error, earlier eligible tables migrated and later tables unchanged; ineligible tables never change |
| MigrationJob.CountMigrated | backend/src/main/java/com/ora2pg/migration/service/MigrationService.java:1107-1111 | no more tables are counted than there are |
| MigrationJob.CalculateProgressFromTableMappings | backend/src/main/java/com/ora2pg/migration/service/MigrationService.java:1091-1134 | a missing project gives a fresh idle progress; otherwise totalTables is the table count, completedTables the number of migrated tables, and the status idle, completed or paused by that count |
| MigrationJob.StoredStatusRule | backend/src/main/java/com/ora2pg/migration/service/MigrationService.java:1124-1130 | the stored status is completed iff there is a table and every table is migrated, and idle iff none is |
| MigrationJob.CountMigratedAll | backend/src/main/java/com/ora2pg/migration/service/MigrationService.java:1107-1111 | the count equals the table count iff every table is migrated |
| MigrationJob.CountMigratedNone | backend/src/main/java/com/ora2pg/migration/service/MigrationService.java:1107-1111 | the count is zero iff no table is migrated |
| MigrationJob.RangeCounted | backend/src/main/java/com/ora2pg/migration/service/MigrationService.java:787-987 | a range copy adds to migratedRows at most the rows it read, and all of them when it finishes |
| MigrationJob.ZeroIntervalFails | backend/src/main/java/com/ora2pg/migration/service/MigrationService.java:962 | with a zero commit interval a range throws ArithmeticException exactly when a row before the stop point sees a running job; it has then read one row, logged nothing and flushed that row only for a batch size of at most one |
| MigrationJob.SomeRowCopied | backend/src/main/java/com/ora2pg/migration/service/MigrationService.java:799-812 | some row among the first n is copied exactly when one of them sees a running job |
| MigrationJob.PartitionCount | backend/src/main/java/com/ora2pg/migration/service/MigrationService.java:276-281 | a partition of [lo, hi] into ranges of width size has (hi - lo) / size + 1 ranges |
| MigrationJob.PrepareLogsStatements | backend/src/main/java/com/ora2pg/migration/service/MigrationService.java:139-166 | the preparation succeeds exactly when its statements can be built, logging one line per statement; a statement that throws fails it after the lines of the ones before |
| MigrationJob.CopyCounted | backend/src/main/java/com/ora2pg/migration/service/MigrationService.java:532-551 | a table copy adds to migratedRows at most the rows it read, and all of them when it succeeds |
| MigrationJob.TableCounted | backend/src/main/java/com/ora2pg/migration/service/MigrationService.java:517-570 | processing a table adds to migratedRows at most the rows it read, and exactly the rows it copied when it succeeds |
| MigrationJob.CreationFirstFailure | backend/src/main/java/com/ora2pg/migration/service/MigrationService.java:620-665 | createTargetTables fails with the failure of the first table in list order whose creation fails |
| MigrationJob.CreationSucceeds | backend/src/main/java/com/ora2pg/migration/service/MigrationService.java:620-665 | createTargetTables succeeds exactly when every table's creation step does |
| MigrationJob.RunCounted | backend/src/main/java/com/ora2pg/migration/service/MigrationService.java:470-482 | a run adds to migratedRows at most the rows it read, and all of them when it succeeds |
| MigrationJob.RunFailure | backend/src/main/java/com/ora2pg/migration/service/MigrationService.java:470-489 | the run's failure is that of the first processed table that fails |
| MigrationJob.MigratedBeforeFailure | backend/src/main/java/com/ora2pg/migration/service/MigrationService.java:470-482 | before the first failure every eligible table is migrated and counted |
| MigrationJob.CountAtStop | backend/src/main/java/com/ora2pg/migration/service/MigrationService.java:470-482 | the table that fails is not counted: the count at the stop equals the count before the failing table |
| MigrationJob.SequencedFirstFailure | backend/src/main/java/com/ora2pg/migration/service/MigrationService.java:470-482 | the first step that fails decides the failure of the steps run one after another |
| MigrationJob.SequencedSucceeds | backend/src/main/java/com/ora2pg/migration/service/MigrationService.java:470-482 | steps run one after another end without failure exactly when none of them fails |
| MigrationJob.SequencedStable | backend/src/main/java/com/ora2pg/migration/service/MigrationService.java:470-482 | nothing runs after a failure |
| DatabaseService.BaseType | backend/src/main/java/com/ora2pg/migration/service/DatabaseService.java:324 | the base type is the prefix of the upper-cased type text before any "(" |
| DatabaseService.MapDataTypeWithLength | backend/src/main/java/com/ora2pg/migration/service/DatabaseService.java:319-390 | every Oracle type, present or not, maps to a non-empty PostgreSQL type |
| DatabaseService.MapUpperType | backend/src/main/java/com/ora2pg/migration/service/DatabaseService.java:322-389 | after upper-casing and trimming, every branch yields a non-empty type |
| DatabaseService.KindBinary | backend/src/main/java/com/ora2pg/migration/service/DatabaseService.java:375-379 | BLOB, RAW, LONG RAW, LONGRAW and BFILE take a binary branch |
| DatabaseService.KindDate | backend/src/main/java/com/ora2pg/migration/service/DatabaseService.java:373 | DATE takes the date branch |
| DatabaseService.KindLargeText | backend/src/main/java/com/ora2pg/migration/service/DatabaseService.java:372 | CLOB, NCLOB and LONG take the large-text branch |
| DatabaseService.KindUnknown | backend/src/main/java/com/ora2pg/migration/service/DatabaseService.java:389 | a base type the chain does not name, with no LONG RAW in the text, falls through to the default branch |
| DatabaseService.MissingTypeIsText | backend/src/main/java/com/ora2pg/migration/service/DatabaseService.java:320 | a null or empty type maps to TEXT |
| DatabaseService.UnknownUpperIsText | backend/src/main/java/com/ora2pg/migration/service/DatabaseService.java:389 | the default branch yields TEXT |
| DatabaseService.UnknownTypeIsText | backend/src/main/java/com/ora2pg/migration/service/DatabaseService.java:319-390 | any type the mapping does not recognise maps to TEXT |
| DatabaseService.NumberMapping | backend/src/main/java/com/ora2pg/migration/service/DatabaseService.java:327-335 | NUMBER maps to NUMERIC(p,s) with positive precision and scale, NUMERIC(p) with only a positive precision, else NUMERIC |
| DatabaseService.VarcharMapping | backend/src/main/java/com/ora2pg/migration/service/DatabaseService.java:338-348 | VARCHAR2 and NVARCHAR2 map to VARCHAR(length) for a positive length, else VARCHAR with the text's own parameters, else TEXT |
| DatabaseService.CharMapping | backend/src/main/java/com/ora2pg/migration/service/DatabaseService.java:351-360 | CHAR and NCHAR map to CHAR(length) for a positive length, else CHAR with the text's own parameters, else CHAR(1) |
| DatabaseService.BinaryMapping | backend/src/main/java/com/ora2pg/migration/service/DatabaseService.java:375-379 | BLOB, RAW, LONG RAW, LONGRAW and BFILE map to BYTEA |
| DatabaseService.DateMapping | backend/src/main/java/com/ora2pg/migration/service/DatabaseService.java:373 | DATE maps to TIMESTAMP |
| DatabaseService.LargeTextMapping | backend/src/main/java/com/ora2pg/migration/service/DatabaseService.java:372 | CLOB, NCLOB and LONG map to TEXT |
| DatabaseService.ParenDigits | backend/src/main/java/com/ora2pg/migration/service/DatabaseService.java:396-401 | a match means the text is exactly the prefix, a non-empty run of digits and ")" |
| DatabaseService.NumericPair | backend/src/main/java/com/ora2pg/migration/service/DatabaseService.java:405-408 | a match means the text is exactly NUMERIC( two non-empty digit runs separated by a comma ) |
| DatabaseService.ExtractTargetTypeInfo | backend/src/main/java/com/ora2pg/migration/service/DatabaseService.java:392-413 | only the three target size fields can change, and a null or empty type leaves the mapping as it was |
| DatabaseService.ExtractNumericPair | backend/src/main/java/com/ora2pg/migration/service/DatabaseService.java:405-408 | reading NUMERIC(p,s) sets precision p and scale s |
| DatabaseService.ExtractNumeric | backend/src/main/java/com/ora2pg/migration/service/DatabaseService.java:409-411 | reading NUMERIC(p) sets precision p and nothing else |
| DatabaseService.ExtractLength | backend/src/main/java/com/ora2pg/migration/service/DatabaseService.java:396-401 | reading VARCHAR(n) or CHAR(n) sets length n and nothing else |
| DatabaseService.ExtractInvertsNumber | backend/src/main/java/com/ora2pg/migration/service/DatabaseService.java:296-300 | reading back the mapped type of a NUMBER recovers its precision, and its scale when positive |
| DatabaseService.ExtractInvertsLength | backend/src/main/java/com/ora2pg/migration/service/DatabaseService.java:296-300 | reading back the mapped type of a VARCHAR2 or CHAR with a positive length recovers that length |
| DatabaseService.MapColumns | backend/src/main/java/com/ora2pg/migration/service/DatabaseService.java:285-306 | the column loop yields exactly the reference column mappings, or fails where a null name throws |
| DatabaseService.AutoMapTables | backend/src/main/java/com/ora2pg/migration/service/DatabaseService.java:271-313 | the table loop yields exactly the reference table mappings, or fails where a null name or column list throws |
| DatabaseService.AutoMapColumnsShape | backend/src/main/java/com/ora2pg/migration/service/DatabaseService.java:285-306 | one mapping per column, in order: source fields copied, lower-case target name, the mapped type, nullable copied, PK/FK false unless true |
| DatabaseService.AutoMapAllShape | backend/src/main/java/com/ora2pg/migration/service/DatabaseService.java:274-310 | one mapping per table, in order: lower-case target table, target schema defaulting to public, enabled and pending, and the table's column mappings |
| NameWords.CapWord | backend/src/main/java/com/ora2pg/migration/util/ColumnNameTransformer.java:57-61 | a capitalised word keeps its length |
| NameWords.CapWordOfLower | backend/src/main/java/com/ora2pg/migration/util/ColumnNameTransformer.java:57-61 | the word toCamelCase builds from a lower-cased word is that word with its first letter upper-cased |
| NameWords.EmptyWordDropped | backend/src/main/java/com/ora2pg/migration/util/ColumnNameTransformer.java:56 | an empty word between two separators contributes nothing to the joined name |
| NameWords.CapWordsTrailing | backend/src/main/java/com/ora2pg/migration/util/ColumnNameTransformer.java:104-112 | trailing empty words contribute nothing |
| NameWords.CollapseRuns | backend/src/main/java/com/ora2pg/migration/util/ColumnNameTransformer.java:126 | no white space is left, and a name without white space is unchanged |
| ColumnNameTransformer.DefaultKey | backend/src/main/java/com/ora2pg/migration/util/ColumnNameTransformer.java:24-26 | the default strategy name lowercase is already lower-case, so the switch takes its lowercase case |
| ColumnNameTransformer.NormalizeToWords | backend/src/main/java/com/ora2pg/migration/util/ColumnNameTransformer.java:119-140 | the loop of normalizeToWords builds exactly the normalised text |
| ColumnNameTransformer.BoundariesOnlyAddUnderscores | backend/src/main/java/com/ora2pg/migration/util/ColumnNameTransformer.java:130-139 | for a name without '_', dropping the inserted '_' characters gives the upper-cased name back |
| ColumnNameTransformer.UnderscoreIffBoundary | backend/src/main/java/com/ora2pg/migration/util/ColumnNameTransformer.java:133-135 | a '_' is inserted iff some lower-case letter is followed by an upper-case one |
| ColumnNameTransformer.SplitAtBoundariesShape | backend/src/main/java/com/ora2pg/migration/util/ColumnNameTransformer.java:130-139 | the normalised text is at least as long as the name and every character in it is upper-case or an inserted '_' |
| ColumnNameTransformer.ToCamelCase | backend/src/main/java/com/ora2pg/migration/util/ColumnNameTransformer.java:43-65 | toCamelCase returns the reference camelCase text |
| ColumnNameTransformer.JoinCamel | backend/src/main/java/com/ora2pg/migration/util/ColumnNameTransformer.java:54-63 | the loop yields the first word lower-cased followed by every later word capitalised, empty words skipped |
| ColumnNameTransformer.ToSnakeCase | backend/src/main/java/com/ora2pg/migration/util/ColumnNameTransformer.java:71-92 | the loop of toSnakeCase returns the as-written snake text |
| ColumnNameTransformer.SnakeAsWrittenSplitsLetters | backend/src/main/java/com/ora2pg/migration/util/ColumnNameTransformer.java:83-91 | as written, the upper-case word ID becomes i_d, where the intended snake form is id |
| ColumnNameTransformer.SnakeCasedWords | backend/src/main/java/com/ora2pg/migration/util/ColumnNameTransformer.java:71-92 | the intended snake form is the name lower-cased with '_' only at word boundaries, and has a '_' iff the name has a boundary |
| ColumnNameTransformer.CapitalizeFirst | backend/src/main/java/com/ora2pg/migration/util/ColumnNameTransformer.java:145-151 | the first character is upper-cased and the rest lower-cased, the length unchanged |
| ColumnNameTransformer.EmptyNameUnchanged | backend/src/main/java/com/ora2pg/migration/util/ColumnNameTransformer.java:20-22 | a null or empty name is returned unchanged whatever the strategy |
| ColumnNameTransformer.StrategyIgnoresCase | backend/src/main/java/com/ora2pg/migration/util/ColumnNameTransformer.java:28 | strategies that differ only in letter case choose the same transformation |
| ColumnNameTransformer.StrategyDefault | backend/src/main/java/com/ora2pg/migration/util/ColumnNameTransformer.java:24-29 | a null or empty strategy lower-cases the name |
| ColumnNameTransformer.StrategyUnknown | backend/src/main/java/com/ora2pg/migration/util/ColumnNameTransformer.java:35 | a strategy none of the six cases names falls back to lowercase |
| ColumnNameTransformer.StrategyOriginal | backend/src/main/java/com/ora2pg/migration/util/ColumnNameTransformer.java:31 | the name is kept as-is iff the strategy is original in some letter case |
| ColumnNameTransformer.TwoWordsNormalized | backend/src/main/java/com/ora2pg/migration/util/ColumnNameTransformer.java:125-127 | two upper-case words joined by '_' normalise to themselves and split back into the two words |
| ColumnNameTransformer.TwoWordCamel | backend/src/main/java/com/ora2pg/migration/util/ColumnNameTransformer.java:43-65 | camelCase of two upper-case words is the first lower-cased and the second capitalised |
| ColumnNameTransformer.TwoWordPascal | backend/src/main/java/com/ora2pg/migration/util/ColumnNameTransformer.java:98-113 | PascalCase of two upper-case words is both words capitalised |
| ColumnNameTransformer.TwoWordSnake | backend/src/main/java/com/ora2pg/migration/util/ColumnNameTransformer.java:71-92 | snake_case of two upper-case words, as written and as intended, is both words lower-cased around the '_' |
| ColumnNameTransformer.UserIdExamples | backend/src/main/java/com/ora2pg/migration/util/ColumnNameTransformer.java:39-42 | USER_ID gives userId, UserId and, as the program computes it, user_id, as the doc comments promise |
| ColumnNameTransformer.Transform | backend/src/main/java/com/ora2pg/migration/util/ColumnNameTransformer.java:20-35 | a null name gives null and a present one a name; the case strategies and an unknown strategy keep its length |
| ColumnNameTransformer.Apply | backend/src/main/java/com/ora2pg/migration/util/ColumnNameTransformer.java:20-35 | the case strategies keep the name's length; snake_case is the program's form, stated by SnakeAsWrittenSplitsLetters and TwoWordSnake |
| ColumnNameTransformer.FirstNameExample | backend/src/main/java/com/ora2pg/migration/util/ColumnNameTransformer.java:41 | FIRST_NAME gives firstName |
| ColumnNameTransformer.CamelPascalAgree | backend/src/main/java/com/ora2pg/migration/util/ColumnNameTransformer.java:43-113 | when the first word is not empty, camelCase and PascalCase differ only in the case of the first letter |
| ScriptColumnNames.ScriptNormalizeToWords | frontend/lib/column-name-transformer.ts:114-134 | the loop of normalizeToWords builds exactly the normalised text |
| ScriptColumnNames.ScriptToCamelCase | frontend/lib/column-name-transformer.ts:42-61 | the loop of toCamelCase returns the as-written camelCase text |
| ScriptColumnNames.ScriptCamelOfUnderscores | frontend/lib/column-name-transformer.ts:48-53 | as written, the name ___ comes out empty; the corrected camelCase keeps ___ |
| ScriptColumnNames.BackendCamelOfUnderscores | frontend/lib/column-name-transformer.ts:3 | the back end, which the front end claims to match, keeps ___ in camelCase |
| ScriptColumnNames.ScriptCamelNonEmpty | frontend/lib/column-name-transformer.ts:42-61 | the corrected camelCase of a non-empty name is never empty |
| ScriptColumnNames.ScriptToSnakeCase | frontend/lib/column-name-transformer.ts:67-88 | the loop of toSnakeCase returns the as-written snake text |
| ScriptColumnNames.ScriptSnakeSplitsLetters | frontend/lib/column-name-transformer.ts:80-86 | as written, ID becomes i_d, where the intended snake form is id |
| ScriptColumnNames.ScriptSnakeWords | frontend/lib/column-name-transformer.ts:67-88 | corrected, the snake_case of a name of letters without underscores is the name lower-cased, with an underscore exactly at each lower-to-upper boundary |
| ScriptColumnNames.ScriptEmptyNameUnchanged | frontend/lib/column-name-transformer.ts:16-18 | an empty name is returned unchanged whatever the strategy |
| ScriptColumnNames.ScriptStrategyExact | frontend/lib/column-name-transformer.ts:20-35 | the strategy must be spelt exactly: camelcase, CamelCase or pascalcase fall back to lowercase, as does an omitted strategy |
| ScriptColumnNames.DigitBoundaryDiffers | frontend/lib/column-name-transformer.ts:128 | a digit after a lower-case letter starts a word here (user1 gives user_1) but not in the back end (user1) |
| ScriptColumnNames.LowerWordUnsplit | frontend/lib/column-name-transformer.ts:126-132 | a word of lower-case letters gains no '_' in either transformer |
| ScriptColumnNames.BoundariesAgree | frontend/lib/column-name-transformer.ts:128 | on letters, the front-end boundary test inserts '_' exactly where the back end does |
| ScriptColumnNames.NormalizedAgree | frontend/lib/column-name-transformer.ts:114-134 | for names of letters and '_', both normaliseToWords give the same text |
| ScriptColumnNames.CamelWordsAgree | frontend/lib/column-name-transformer.ts:42-61 | once both sides normalise alike, the corrected camelCase equals the back end's |
| ScriptColumnNames.PascalWordsAgree | frontend/lib/column-name-transformer.ts:100-107 | the JavaScript split and the Java split give the same PascalCase, since empty words are filtered |
| ScriptColumnNames.AgreesWithBackend | frontend/lib/column-name-transformer.ts:1-4 | for a name of letters and '_' and each offered strategy (or none), the front end as written returns the back end's name as written, except exactly for camelCase of an all-underscore name |
| ScriptColumnNames.ApplyAgrees | frontend/lib/column-name-transformer.ts:20-35 | each of the six strategies as the program runs them computes the same name on both sides for a name of letters and '_', except exactly for camelCase of an all-underscore name |
| ScriptColumnNames.CamelAsWrittenAgrees | frontend/lib/column-name-transformer.ts:42-61 | the front end's camelCase agrees with the back end's exactly when the name is not made of underscores only |
| ScriptColumnNames.UnderscoreName | frontend/lib/column-name-transformer.ts:114-134 | an all-underscore name is unchanged by normalization and case mapping and splits into empty words only |
| ScriptColumnNames.EmptyWordsMeanUnderscores | frontend/lib/column-name-transformer.ts:42-61 | a normalized name whose words are all empty came from an all-underscore name |
| ScriptColumnNames.SnakeBodiesAgree | frontend/lib/column-name-transformer.ts:80-86 | the two sides' underscore-insertion passes agree on upper-case text |
| ScriptColumnNames.CamelNaming | frontend/lib/column-name-transformer.ts:20-35 | the camelCase strategy is chosen exactly for the strategy name camelCase |
| ScriptColumnNames.ScriptTransform | frontend/lib/column-name-transformer.ts:15-35 | the case strategies keep the name's length; the others are stated by AgreesWithBackend |
| ScriptColumnNames.ApplyScript | frontend/lib/column-name-transformer.ts:20-35 | the case strategies keep the name's length; the program's camel and snake forms are used |
| ScriptColumnNames.NamingAgrees | frontend/lib/column-name-transformer.ts:6 | the six front-end strategy spellings select the same strategy in the back end |
| DataTypeMappings.BaseName | frontend/lib/data-type-mappings.ts:70 | the base name holds no "(" and is a prefix of the spelling |
| DataTypeMappings.FindFromSpec | frontend/lib/data-type-mappings.ts:67-71 | find answers None iff no entry from the start index matches, and otherwise the first entry that does |
| DataTypeMappings.TableTypesNamed | frontend/lib/data-type-mappings.ts:3-62 | every entry of the default table names a non-empty PostgreSQL type, so the TEXT fallback is taken only when nothing matches |
| DataTypeMappings.GetPostgresTypeFirst | frontend/lib/data-type-mappings.ts:66-73 | the lookup answers with the first matching entry's PostgreSQL type |
| DataTypeMappings.GetPostgresTypeNone | frontend/lib/data-type-mappings.ts:72 | when no entry matches the lookup answers TEXT |
| DataTypeMappings.LongPrefixIsText | frontend/lib/data-type-mappings.ts:21 | every type whose upper-cased spelling starts with LONG stops at the LONG entry: TEXT |
| DataTypeMappings.LongRawIsText | frontend/lib/data-type-mappings.ts:43 | LONG RAW maps to TEXT, never reaching its own BYTEA entry |
| DataTypeMappings.TimestampPrefixIsTimestamp | frontend/lib/data-type-mappings.ts:30 | every type whose upper-cased spelling starts with TIMESTAMP stops at the plain TIMESTAMP entry |
| DataTypeMappings.TimestampWithZoneIsTimestamp | frontend/lib/data-type-mappings.ts:31 | TIMESTAMP WITH TIME ZONE maps to TIMESTAMP, never reaching its TIMESTAMPTZ entry |
| DataTypeMappings.NumberPrefixIsNumeric | frontend/lib/data-type-mappings.ts:5 | every type whose upper-cased spelling starts with NUMBER is caught by the first entry: NUMERIC |
| DataTypeMappings.NumberWithParamsIsNumeric | frontend/lib/data-type-mappings.ts:5-7 | NUMBER(10,2) maps to NUMERIC, its written parameters lost |
| DataTypeMappings.MatchesPrefix | frontend/lib/data-type-mappings.ts:70 | an entry without "(" whose spelling starts the upper-cased input matches it |
| DataTypeMappings.LookupIgnoresCase | frontend/lib/data-type-mappings.ts:69-70 | spellings that differ only in letter case get the same PostgreSQL type |
| QuotedNames.Unquoted | backend/src/main/java/com/ora2pg/migration/service/SchemaMigrationService.java:679 | the result holds no double quote, is no longer than the input, and equals it when it had none |
| QuotedNames.QuoteIdentifier | backend/src/main/java/com/ora2pg/migration/service/SchemaMigrationService.java:675-681 | the result is a quoted identifier with no inner quote; null or empty gives ""; an identifier without quotes is wrapped unchanged |
| QuotedNames.QuoteIdentifierBody | backend/src/main/java/com/ora2pg/migration/service/SchemaMigrationService.java:679-680 | the text between the quotes is the identifier without its double quotes |
| QuotedNames.QuoteIdentifierIdempotent | backend/src/main/java/com/ora2pg/migration/service/SchemaMigrationService.java:675-681 | quoting an already quoted identifier gives it back unchanged |
| QuotedNames.QuoteForDatabase | backend/src/main/java/com/ora2pg/migration/service/DataValidationService.java:539-555 | null or empty gives ""; for a postgresql database (any letter case) the unquoted text is wrapped in quotes; otherwise it is upper-cased without quotes |
| Lists.Selected | backend/src/main/java/com/ora2pg/migration/service/DataValidationService.java:628-652 | no more messages are reported than there are checks |
| Lists.SelectedIff | backend/src/main/java/com/ora2pg/migration/service/DataValidationService.java:628-652 | with distinct messages, a message is reported iff its condition holds |
| Lists.FirstSeen | backend/src/main/java/com/ora2pg/migration/service/SchemaMigrationService.java:178-203 | a LinkedHashMap's key set is no longer than the key sequence |
| Lists.FirstSeenSnoc | backend/src/main/java/com/ora2pg/migration/service/SchemaMigrationService.java:178-203 | a new key is appended at the end of the key set and a known key leaves it unchanged |
| Lists.FirstSeenProperties | backend/src/main/java/com/ora2pg/migration/service/SchemaMigrationService.java:178-203 | the key set holds every key of the rows, each once, and no other |
| TableMappingView.ScriptTrim | frontend/components/table-mapping.tsx:209 | the trimmed text is no longer than the input, has no JavaScript white space at either end, and equals the input when that has none |
| TableMappingView.FindBaseSpec | frontend/components/table-mapping.tsx:258-262 | find answers None iff no entry matches the whole text or the base name, and otherwise the first entry that does |
| TableMappingView.LookupType | frontend/components/table-mapping.tsx:258-263 | the table lookup always yields a non-empty type |
| TableMappingView.LookupTypeSpec | frontend/components/table-mapping.tsx:258-263 | the lookup answers the first matching entry's PostgreSQL type |
| TableMappingView.LookupTypeNone | frontend/components/table-mapping.tsx:263 | with no matching entry the lookup falls back to TEXT |
| TableMappingView.MapDataType | frontend/components/table-mapping.tsx:206-264 | the suggested PostgreSQL type is never empty |
| TableMappingView.NumberSuggestion | frontend/components/table-mapping.tsx:224-236 | NUMBER gives NUMERIC(p,s), NUMERIC(p), NUMERIC with the written parameters, or plain NUMERIC |
| TableMappingView.CharDefault | frontend/components/table-mapping.tsx:238-247 | CHAR and NCHAR without a length or written parameters give CHAR(1) |
| TableMappingView.VarcharWithoutLength | frontend/components/table-mapping.tsx:213-222 | VARCHAR2 and NVARCHAR2 without a length or written parameters give TEXT |
| TableMappingView.TimestampKeepsParams | frontend/components/table-mapping.tsx:249-255 | a TIMESTAMP type keeps its written parameters |
| TableMappingView.NumberParamsKept | frontend/components/table-mapping.tsx:231-234 | unlike the back end, which answers NUMERIC, the screen keeps the parameters written inside a NUMBER type without a precision |
| TableMappingView.VarcharSuggestion | frontend/components/table-mapping.tsx:213-222 | VARCHAR2 and NVARCHAR2 give VARCHAR(length), else VARCHAR with the written parameters, else TEXT |
| TableMappingView.CharSuggestion | frontend/components/table-mapping.tsx:238-247 | CHAR and NCHAR give CHAR(length), else CHAR with the written parameters, else CHAR(1) |
| TableMappingView.BothTrimsAgree | frontend/components/table-mapping.tsx:209 | for a text without white space at either end, the JavaScript and Java trims agree |
| TableMappingView.VarcharAgreesWithBackend | frontend/components/table-mapping.tsx:213-222 | for VARCHAR2 and NVARCHAR2 the screen suggests what DatabaseService.mapDataTypeWithLength answers |
| TableMappingView.CharAgreesWithBackend | frontend/components/table-mapping.tsx:238-247 | for CHAR and NCHAR the screen suggests what DatabaseService.mapDataTypeWithLength answers |
| TableMappingView.ParamGroups | frontend/components/table-mapping.tsx:270 | a match of the parenthesised part gives a non-empty digit run and an optional non-empty digit scale that render back to the text |
| TableMappingView.TypePattern | frontend/components/table-mapping.tsx:270 | a match of the whole pattern gives well-formed groups that render back to the text |
| TableMappingView.ParamGroupsComplete | frontend/components/table-mapping.tsx:270 | every digit run with an optional digit scale is matched with those groups |
| TableMappingView.TypePatternComplete | frontend/components/table-mapping.tsx:270 | every text the pattern describes is matched with the groups it was built from |
| TableMappingView.NumberDigits | frontend/components/table-mapping.tsx:284 | a positive number is written as a non-empty run of digits that reads back as the number |
| TableMappingView.ParseRendered | frontend/components/table-mapping.tsx:267-278 | parsing a text the pattern describes gives its word, its length also as precision, and its scale |
| TableMappingView.NumericRoundTrip | frontend/components/table-mapping.tsx:288-293 | formatting NUMERIC(p,s) and parsing it back gives precision p and scale s |
| TableMappingView.NumericPrecisionRoundTrip | frontend/components/table-mapping.tsx:288-293 | formatting NUMERIC(p) without a positive scale and parsing it back gives precision p and no scale |
| TableMappingView.LengthRoundTrip | frontend/components/table-mapping.tsx:282-285 | formatting VARCHAR(n) or CHAR(n) and parsing it back gives length n |
| TableMappingView.FormatDefaults | frontend/components/table-mapping.tsx:286 | without a length, VARCHAR is written as TEXT and CHAR as CHAR(1) |
| TableMappingView.SourceTypeWithParamsUnchanged | frontend/components/table-mapping.tsx:311-313 | a source type that already carries parameters is shown exactly as stored |
| TableMappingView.TrimKeepsChar | frontend/components/table-mapping.tsx:307 | trimming never removes a "(" |
| TableMappingView.SourceTimestampPrecision | frontend/components/table-mapping.tsx:340-350 | a DATE or TIMESTAMP source type shows its precision taken from the scale first, then the length, then the precision |
| TableMappingView.FilterKeepsMatches | frontend/components/table-mapping.tsx:409-444 | a table is listed iff it is one of the tables and matches the search term |
| TableMappingView.FilterShortens | frontend/components/table-mapping.tsx:409-444 | the filter never grows the list |
| TableMappingView.EmptySearchKeepsAll | frontend/components/table-mapping.tsx:410 | an empty search term keeps every table in order |
| TableMappingView.TotalPagesIsCeiling | frontend/components/table-mapping.tsx:447 | the page count is the ceiling: enough pages for every row, no page past the last row, and zero pages iff zero rows |
| TableMappingView.SliceIndex | frontend/components/table-mapping.tsx:450 | the slice index lies within the list |
| TableMappingView.PageIsRange | frontend/components/table-mapping.tsx:448-450 | page p holds the rows from (p - 1) * itemsPerPage up to p * itemsPerPage, cut at the end |
| TableMappingView.FirstPagesPrefix | frontend/components/table-mapping.tsx:448-450 | pages 1..k, one after another, are the first k * itemsPerPage rows |
| TableMappingView.PagesCoverRows | frontend/components/table-mapping.tsx:447-450 | read in order, pages 1..totalPages show every row exactly once |
| TableMappingView.WindowPrefix | frontend/components/table-mapping.tsx:997-1007 | the window's i-th entry is the page number the loop computes for i |
| TableMappingView.WindowInRange | frontend/components/table-mapping.tsx:997-1007 | the window holds min(5, totalPages) consecutive page numbers, all between 1 and totalPages |
| TableMappingView.WindowShowsCurrent | frontend/components/table-mapping.tsx:997-1007 | the current page is in the window whenever it is a real page |
| TableMappingView.SetDrop | frontend/components/table-mapping.tsx:924-928 | the drop toggle keeps the number of tables |
| TableMappingView.SetTruncate | frontend/components/table-mapping.tsx:942-946 | the truncate toggle keeps the number of tables |
| TableMappingView.DropToggle | frontend/components/table-mapping.tsx:924-928 | checking drop clears truncate on the tables with the id; the toggled table never has both; other tables are unchanged |
| TableMappingView.TruncateToggle | frontend/components/table-mapping.tsx:942-946 | checking truncate clears drop on the tables with the id; the toggled table never has both; other tables are unchanged |
| Pg2PgSqlGenerator.BuildSourceExpression | backend/src/main/java/com/ora2pg/migration/service/Pg2PgSqlGenerator.java:190-213 | a null or blank transformation gives the quoted source column; the expression is missing (the source throws) only when the source column is null |
| Pg2PgSqlGenerator.QuotedPlain | backend/src/main/java/com/ora2pg/migration/service/Pg2PgSqlGenerator.java:218-225 | a name without quotes or placeholder characters is quoted by wrapping alone, and the result holds no placeholder character |
| Pg2PgSqlGenerator.ExpressionMentioningColumn | backend/src/main/java/com/ora2pg/migration/service/Pg2PgSqlGenerator.java:198-208 | a transformation that, after substitution, mentions the quoted column is used as it then stands |
| Pg2PgSqlGenerator.PercentSubstitution | backend/src/main/java/com/ora2pg/migration/service/Pg2PgSqlGenerator.java:198-200 | with no other placeholder text around it, "%s" becomes the column |
| Pg2PgSqlGenerator.BraceSubstitution | backend/src/main/java/com/ora2pg/migration/service/Pg2PgSqlGenerator.java:198-200 | with no other placeholder text around it, "{sourceColumn}" becomes the column |
| Pg2PgSqlGenerator.DollarSubstitution | backend/src/main/java/com/ora2pg/migration/service/Pg2PgSqlGenerator.java:198-200 | "${sourceColumn}" keeps its dollar sign, because the brace replace runs first and the last replace then finds nothing |
| Pg2PgSqlGenerator.PercentPlaceholder | backend/src/main/java/com/ora2pg/migration/service/Pg2PgSqlGenerator.java:190-208 | f%sg gives f"col"g for a plain column name |
| Pg2PgSqlGenerator.BracePlaceholder | backend/src/main/java/com/ora2pg/migration/service/Pg2PgSqlGenerator.java:190-208 | f{sourceColumn}g gives f"col"g for a plain column name |
| Pg2PgSqlGenerator.DollarPlaceholder | backend/src/main/java/com/ora2pg/migration/service/Pg2PgSqlGenerator.java:190-208 | f${sourceColumn}g gives f$"col"g: the dollar sign stays in the expression |
| Pg2PgSqlGenerator.BareColumnName | backend/src/main/java/com/ora2pg/migration/service/Pg2PgSqlGenerator.java:202-206 | a transformation without placeholders that does not mention the quoted column has every bare occurrence of the name replaced by the quoted name |
| Pg2PgSqlGenerator.TargetColumns | backend/src/main/java/com/ora2pg/migration/service/Pg2PgSqlGenerator.java:51-52 | one INSERT column per mapping |
| Pg2PgSqlGenerator.TargetColumnsAt | backend/src/main/java/com/ora2pg/migration/service/Pg2PgSqlGenerator.java:52 | the i-th INSERT column is the i-th mapping's quoted target column |
| Pg2PgSqlGenerator.SourceExpressions | backend/src/main/java/com/ora2pg/migration/service/Pg2PgSqlGenerator.java:51-56 | an available SELECT list has one expression per mapping |
| Pg2PgSqlGenerator.SourceExpressionsAt | backend/src/main/java/com/ora2pg/migration/service/Pg2PgSqlGenerator.java:54-55 | the i-th SELECT expression is the i-th mapping's source expression |
| Pg2PgSqlGenerator.SourceExpressionsPrefixFails | backend/src/main/java/com/ora2pg/migration/service/Pg2PgSqlGenerator.java:51-56 | once a prefix of the mappings fails, the whole list fails |
| Pg2PgSqlGenerator.ThrowingMappingFails | backend/src/main/java/com/ora2pg/migration/service/Pg2PgSqlGenerator.java:51-56 | one mapping that throws sinks the whole script |
| Pg2PgSqlGenerator.FailedListHasThrower | backend/src/main/java/com/ora2pg/migration/service/Pg2PgSqlGenerator.java:51-56 | a failed list has a mapping whose expression throws |
| Pg2PgSqlGenerator.SourceExpressionsFail | backend/src/main/java/com/ora2pg/migration/service/Pg2PgSqlGenerator.java:51-56 | the SELECT list is missing exactly when some mapping's expression throws |
| Pg2PgSqlGenerator.BuildColumnLists | backend/src/main/java/com/ora2pg/migration/service/Pg2PgSqlGenerator.java:48-56 | the loop yields the SELECT list of the specification and, when there is one, the INSERT list too |
| Pg2PgSqlGenerator.ColumnDefinitions | backend/src/main/java/com/ora2pg/migration/service/Pg2PgSqlGenerator.java:89-94 | one column definition per mapping |
| Pg2PgSqlGenerator.ColumnDefinitionsAt | backend/src/main/java/com/ora2pg/migration/service/Pg2PgSqlGenerator.java:92-93 | the i-th definition is the i-th mapping's quoted target column, a space and its type |
| Pg2PgSqlGenerator.JoinDefinitionStep | backend/src/main/java/com/ora2pg/migration/service/Pg2PgSqlGenerator.java:89-94 | each step of the loop extends the joined text by a separator (except first) and one definition |
| Pg2PgSqlGenerator.JoinColumnDefinitions | backend/src/main/java/com/ora2pg/migration/service/Pg2PgSqlGenerator.java:89-94 | the loop produces the definitions joined by ", " |
| Pg2PgSqlGenerator.ExecuteLiteralRoundTrip | backend/src/main/java/com/ora2pg/migration/service/Pg2PgSqlGenerator.java:99-100 | undoubling the single quotes of the EXECUTE literal gives back exactly the CREATE TABLE statement |
| Pg2PgSqlGenerator.ActiveFilter | backend/src/main/java/com/ora2pg/migration/service/Pg2PgSqlGenerator.java:146-148 | the filter applies iff it is enabled and has a clause, and is then that clause |
| Pg2PgSqlGenerator.Plan | backend/src/main/java/com/ora2pg/migration/service/Pg2PgSqlGenerator.java:22-185 | the script has fifteen slots in a fixed order |
| Pg2PgSqlGenerator.PlanTransaction | backend/src/main/java/com/ora2pg/migration/service/Pg2PgSqlGenerator.java:44-168 | exactly one BEGIN and one COMMIT, with the target-table block and the INSERT between them |
| Pg2PgSqlGenerator.PlanTriggers | backend/src/main/java/com/ora2pg/migration/service/Pg2PgSqlGenerator.java:119-159 | triggers are switched off before the INSERT iff they are switched back on after it, and nowhere else |
| Pg2PgSqlGenerator.PlanConstraints | backend/src/main/java/com/ora2pg/migration/service/Pg2PgSqlGenerator.java:124-164 | constraints are deferred before the INSERT iff they are made immediate after it, and nowhere else |
| Pg2PgSqlGenerator.PlanFilter | backend/src/main/java/com/ora2pg/migration/service/Pg2PgSqlGenerator.java:32-178 | an active filter appears as the comment, as the only WHERE of the INSERT and in the source count; otherwise the plain count is used |
| Pg2PgSqlGenerator.ColumnListsAgree | backend/src/main/java/com/ora2pg/migration/service/Pg2PgSqlGenerator.java:139-142 | INSERT and SELECT name the same number of items matched by position, ending with job_timestamp and migration_timestamp |
| Pg2PgSqlGenerator.MigrationScript | backend/src/main/java/com/ora2pg/migration/service/Pg2PgSqlGenerator.java:22-185 | a script exists iff the step has a column list and no mapping's expression throws |
| Pg2PgSqlGenerator.GenerateMigrationSql | backend/src/main/java/com/ora2pg/migration/service/Pg2PgSqlGenerator.java:22-185 | the method builds exactly the script of the plan |
| Pg2PgExecutionService.NextDollar | backend/src/main/java/com/ora2pg/migration/service/Pg2PgExecutionService.java:419-422 | the inner scan stops at the first '$' at or after the start, or at the end of the script |
| Pg2PgExecutionService.DropToLineEnd | backend/src/main/java/com/ora2pg/migration/service/Pg2PgExecutionService.java:455 | what is left is a suffix of the text that, when not empty, starts with a line terminator |
| Pg2PgExecutionService.StripLineComments | backend/src/main/java/com/ora2pg/migration/service/Pg2PgExecutionService.java:455 | removing the comments never lengthens the text, and a text without "--" is unchanged |
| Pg2PgExecutionService.Emit | backend/src/main/java/com/ora2pg/migration/service/Pg2PgExecutionService.java:451-459 | a piece contributes nothing, or its trimmed text, which is then not empty |
| Pg2PgExecutionService.Step | backend/src/main/java/com/ora2pg/migration/service/Pg2PgExecutionService.java:372-464 | each turn advances the position and either keeps the statements or appends what the current piece emits |
| Pg2PgExecutionService.Advance | backend/src/main/java/com/ora2pg/migration/service/Pg2PgExecutionService.java:373-463 | the body of the loop performs exactly one turn of the reference scanner |
| Pg2PgExecutionService.ReadTagLabel | backend/src/main/java/com/ora2pg/migration/service/Pg2PgExecutionService.java:413-422 | the tag read runs from the '$' up to the next '$' |
| Pg2PgExecutionService.SplitSqlScript | backend/src/main/java/com/ora2pg/migration/service/Pg2PgExecutionService.java:356-473 | the method yields the statements of the reference scanner run to the end |
| Pg2PgExecutionService.SplitTokenized | backend/src/main/java/com/ora2pg/migration/service/Pg2PgExecutionService.java:356-473 | for a script made of plain characters, semicolons, dollar-quoted bodies and comments, the statements are the pieces cut after each semicolon outside quotes and comments, trimmed, empty and comment-only pieces dropped |
| Pg2PgExecutionService.UnmatchedDollarDropsRest | backend/src/main/java/com/ora2pg/migration/service/Pg2PgExecutionService.java:413-431 | a '$' with no later '$' ends the scan: the rest of the script is dropped |
| Pg2PgExecutionService.StatementsTrimmed | backend/src/main/java/com/ora2pg/migration/service/Pg2PgExecutionService.java:451-472 | every statement run is non-empty and already trimmed |
| Pg2PgExecutionService.EmitTrimmed | backend/src/main/java/com/ora2pg/migration/service/Pg2PgExecutionService.java:451-459 | whatever one piece emits is non-empty and trimmed |
| Pg2PgExecutionService.RunKeepsTrimmed | backend/src/main/java/com/ora2pg/migration/service/Pg2PgExecutionService.java:372-464 | the scan only ever appends trimmed non-empty statements |
| Pg2PgExecutionService.FeedAll | backend/src/main/java/com/ora2pg/migration/service/Pg2PgExecutionService.java:372-464 | reading tokens from code advances by their text and ends in code |
| Pg2PgExecutionService.FeedAllFinish | backend/src/main/java/com/ora2pg/migration/service/Pg2PgExecutionService.java:466-473 | finishing after reading tokens yields the committed statements and the reference pieces |
| Pg2PgExecutionService.TokensAdvance | backend/src/main/java/com/ora2pg/migration/service/Pg2PgExecutionService.java:372-464 | a run of well-formed tokens is read as the reference reads it |
| Pg2PgExecutionService.TokenAdvance | backend/src/main/java/com/ora2pg/migration/service/Pg2PgExecutionService.java:372-464 | one well-formed token read from code leaves the scanner in code with the token appended |
| Pg2PgExecutionService.DollarAdvance | backend/src/main/java/com/ora2pg/migration/service/Pg2PgExecutionService.java:413-445 | a dollar-quoted body with matching tags is read whole, semicolons inside it included |
| Pg2PgExecutionService.DollarOpensBody | backend/src/main/java/com/ora2pg/migration/service/Pg2PgExecutionService.java:413-430 | the opening tag and a body without '$' are appended while the scanner stays in the quote |
| Pg2PgExecutionService.DollarOpens | backend/src/main/java/com/ora2pg/migration/service/Pg2PgExecutionService.java:413-430 | a '$'-free name between two '$' opens a dollar quote with that tag |
| Pg2PgExecutionService.DollarCloses | backend/src/main/java/com/ora2pg/migration/service/Pg2PgExecutionService.java:433-445 | inside a dollar quote, its own tag closes it |
| Pg2PgExecutionService.DollarBodyAdvance | backend/src/main/java/com/ora2pg/migration/service/Pg2PgExecutionService.java:433-447 | text without '$' inside a dollar quote is appended unchanged |
| Pg2PgExecutionService.DashAdvance | backend/src/main/java/com/ora2pg/migration/service/Pg2PgExecutionService.java:376-391 | a "--" comment up to its line break is appended without ending a statement |
| Pg2PgExecutionService.LineTextAdvance | backend/src/main/java/com/ora2pg/migration/service/Pg2PgExecutionService.java:384-391 | text without a line break inside a "--" comment is appended unchanged |
| Pg2PgExecutionService.SlashAdvance | backend/src/main/java/com/ora2pg/migration/service/Pg2PgExecutionService.java:393-411 | a block comment is appended without ending a statement |
| Pg2PgExecutionService.BlockTextAdvance | backend/src/main/java/com/ora2pg/migration/service/Pg2PgExecutionService.java:401-411 | text without '*' inside a block comment is appended unchanged |
| Pg2PgExecutionService.ResolvedSchemaNotBlank | backend/src/main/java/com/ora2pg/migration/service/Pg2PgExecutionService.java:219-239 | the resolved schema is never blank; a non-blank step schema wins, then a non-blank connection schema, else public |
| Pg2PgExecutionService.StepSeesResolvedSchema | backend/src/main/java/com/ora2pg/migration/service/Pg2PgExecutionService.java:43-51 | executeStep's own, looser fallback leaves the schema executePipeline resolved unchanged |
| Pg2PgExecutionService.InsertByOrder | backend/src/main/java/com/ora2pg/migration/service/Pg2PgExecutionService.java:204 | inserting a step keeps every order present and adds exactly that step |
| Pg2PgExecutionService.SortByOrder | backend/src/main/java/com/ora2pg/migration/service/Pg2PgExecutionService.java:204 | the sort is a permutation of the steps |
| Pg2PgExecutionService.ExecutionOrder | backend/src/main/java/com/ora2pg/migration/service/Pg2PgExecutionService.java:203-204 | the order throws iff two or more steps are there and one has no order; otherwise it is a permutation of the steps |
| Pg2PgExecutionService.InsertByOrderSorted | backend/src/main/java/com/ora2pg/migration/service/Pg2PgExecutionService.java:204 | inserting into a sorted list keeps it sorted |
| Pg2PgExecutionService.SortByOrderSorted | backend/src/main/java/com/ora2pg/migration/service/Pg2PgExecutionService.java:204 | the run order is ascending in stepOrder |
| Pg2PgExecutionService.InsertByOrderWithOrder | backend/src/main/java/com/ora2pg/migration/service/Pg2PgExecutionService.java:204 | insertion puts the step first among the steps with its order |
| Pg2PgExecutionService.SortByOrderStable | backend/src/main/java/com/ora2pg/migration/service/Pg2PgExecutionService.java:204 | the sort is stable: steps with equal order keep their relative order |
| Pg2PgExecutionService.Turns | backend/src/main/java/com/ora2pg/migration/service/Pg2PgExecutionService.java:209-271 | the loop yields one step entity per step |
| Pg2PgExecutionService.TurnsAt | backend/src/main/java/com/ora2pg/migration/service/Pg2PgExecutionService.java:209-271 | the k-th step after the loop is the k-th step after its own turn |
| Pg2PgExecutionService.RunSteps | backend/src/main/java/com/ora2pg/migration/service/Pg2PgExecutionService.java:209-271 | the loop yields the steps after their turns and the execution's counters of the specification |
| Pg2PgExecutionService.TurnChanges | backend/src/main/java/com/ora2pg/migration/service/Pg2PgExecutionService.java:209-262 | only configured, draft and error steps run; each ends completed or error on non-blank schemas with nothing else changed; other steps are untouched |
| Pg2PgExecutionService.TurnsCompleted | backend/src/main/java/com/ora2pg/migration/service/Pg2PgExecutionService.java:274-275 | the run is all completed iff every step ran and succeeded or had completed before |
| Pg2PgExecutionService.NoFailedRows | backend/src/main/java/com/ora2pg/migration/service/Pg2PgExecutionService.java:250-262 | a run in which every executed step succeeded reports no failed rows |
| Pg2PgExecutionService.FindConnections | backend/src/main/java/com/ora2pg/migration/service/Pg2PgExecutionService.java:175-184 | the loop keeps the last source and the last target connection |
| Pg2PgExecutionService.ExecutePipeline | backend/src/main/java/com/ora2pg/migration/service/Pg2PgExecutionService.java:140-292 | the method yields the run of the specification, exceptions included |
| Pg2PgExecutionService.RunFinalStatus | backend/src/main/java/com/ora2pg/migration/service/Pg2PgExecutionService.java:198-291 | a run that reaches the step loop ends completed iff every step ends completed, otherwise failed and error, with the summed counters and the end time |
| Pg2PgExecutionService.RunWithoutConnections | backend/src/main/java/com/ora2pg/migration/service/Pg2PgExecutionService.java:186-196 | without a target connection the run fails with "Connections not configured" and the steps are untouched |
| Pg2PgJsonImportService.DetermineTransformationType | backend/src/main/java/com/ora2pg/migration/service/Pg2PgJsonImportService.java:132-156 | the type is always one of the eight transformation kinds |
| Pg2PgJsonImportService.Classify | backend/src/main/java/com/ora2pg/migration/service/Pg2PgJsonImportService.java:137-155 | the rules, tried in order, always give one of the eight kinds |
| Pg2PgJsonImportService.UpperKeepsBlank | backend/src/main/java/com/ora2pg/migration/service/Pg2PgJsonImportService.java:133 | case mapping keeps a blank text blank and a non-blank one non-blank |
| Pg2PgJsonImportService.LowerKeepsBlank | backend/src/main/java/com/ora2pg/migration/service/Pg2PgJsonImportService.java:137 | lower-casing keeps a blank text blank and a non-blank one non-blank |
| Pg2PgJsonImportService.ClassificationIgnoresCase | backend/src/main/java/com/ora2pg/migration/service/Pg2PgJsonImportService.java:137 | the classification does not depend on letter case |
| Pg2PgJsonImportService.SameClassification | backend/src/main/java/com/ora2pg/migration/service/Pg2PgJsonImportService.java:133-155 | two expressions equally blank with the same lower-cased trimmed text are classified alike |
| Pg2PgJsonImportService.ClassificationIgnoresPadding | backend/src/main/java/com/ora2pg/migration/service/Pg2PgJsonImportService.java:137 | the classification does not depend on surrounding blanks |
| Pg2PgJsonImportService.CleanSourceColumn | backend/src/main/java/com/ora2pg/migration/service/Pg2PgJsonImportService.java:84-87 | cleaning fails (the substring throws) exactly when the trimmed key is a lone quote |
| Pg2PgJsonImportService.CleanQuotedKey | backend/src/main/java/com/ora2pg/migration/service/Pg2PgJsonImportService.java:84-87 | a key wrapped in single quotes gives its text back, the quotes and nothing else removed |
| Pg2PgJsonImportService.CleanPlainKey | backend/src/main/java/com/ora2pg/migration/service/Pg2PgJsonImportService.java:84-87 | a key neither quoted nor padded is kept as it is |
| Pg2PgJsonImportService.ConvertColumnMapping | backend/src/main/java/com/ora2pg/migration/service/Pg2PgJsonImportService.java:79-127 | a column converts iff its entry is non-null and its key is not a lone quote, and then carries the cleaned key as source column |
| Pg2PgJsonImportService.ConvertedColumn | backend/src/main/java/com/ora2pg/migration/service/Pg2PgJsonImportService.java:88-121 | a converted column has the import defaults, a target defaulting to the source, and either no transformation and type direct or the transformation with its classification |
| Pg2PgJsonImportService.ConvertedColumns | backend/src/main/java/com/ora2pg/migration/service/Pg2PgJsonImportService.java:55-66 | no more columns are imported than there are entries |
| Pg2PgJsonImportService.ConvertedColumnsDefaults | backend/src/main/java/com/ora2pg/migration/service/Pg2PgJsonImportService.java:104-120 | every imported column is nullable, neither a primary nor a foreign key, with source type VARCHAR |
| Pg2PgJsonImportService.ConvertedColumnsCount | backend/src/main/java/com/ora2pg/migration/service/Pg2PgJsonImportService.java:61-64 | exactly the entries that are neither null nor keyed by a lone quote are imported |
| Pg2PgJsonImportService.ConvertColumns | backend/src/main/java/com/ora2pg/migration/service/Pg2PgJsonImportService.java:55-66 | the loop imports the columns of the specification, in the file's order |
| Pg2PgJsonImportService.ConvertJsonToPipelineStep | backend/src/main/java/com/ora2pg/migration/service/Pg2PgJsonImportService.java:26-74 | a parsed document gives a draft step at order 0 with the document's names, the filter and option fields only when the document has those objects, and its converted columns; an unparsed one gives none |
| PipelineEntities.LastConnection | backend/src/main/java/com/ora2pg/migration/service/Pg2PgExecutionService.java:178-184 | the connection found is one of the list with that type, and none is found iff no connection has the type |
| Utf8.EncodeChar | backend/src/main/java/com/ora2pg/migration/service/MigrationLogExportService.java:34 | a character takes one to four bytes, and an ASCII character is its own byte |
| Utf8.EncodeAppend | backend/src/main/java/com/ora2pg/migration/service/MigrationLogExportService.java:34 | the encoding of two texts one after the other is the two encodings one after the other |
| Utf8.EncodeAscii | backend/src/main/java/com/ora2pg/migration/service/MigrationLogExportService.java:34 | ASCII text is written byte for byte |
| Utf8.DecodeChar | backend/src/main/java/com/ora2pg/migration/service/MigrationLogExportService.java:34 | reading one character consumes one to four bytes of the input |
| Utf8.DecodeTwo | backend/src/main/java/com/ora2pg/migration/service/MigrationLogExportService.java:34 | the two-byte form of a code point below 0x800 reads back as that code point |
| Utf8.DecodeThree | backend/src/main/java/com/ora2pg/migration/service/MigrationLogExportService.java:34 | the three-byte form of a code point below 0x10000 reads back as that code point |
| Utf8.DecodeFour | backend/src/main/java/com/ora2pg/migration/service/MigrationLogExportService.java:34 | the four-byte form of a supplementary code point reads back as that code point |
| Utf8.DecodeEncodeChar | backend/src/main/java/com/ora2pg/migration/service/MigrationLogExportService.java:34 | a character's bytes, followed by anything, read back as that character and its length |
| Utf8.DecodeOfEncode | backend/src/main/java/com/ora2pg/migration/service/MigrationLogExportService.java:34 | decoding the encoding gives the text back, so the export's encoding loses nothing |
| MigrationLogExportService.EscapeCsv | backend/src/main/java/com/ora2pg/migration/service/MigrationLogExportService.java:170-181 | null gives the empty field, a value without comma, quote, CR or LF is kept, any other is quoted |
| MigrationLogExportService.DoubledIsQuotedBody | backend/src/main/java/com/ora2pg/migration/service/MigrationLogExportService.java:177 | after doubling, every quote of the body comes as a pair |
| MigrationLogExportService.EscapeQuoted | backend/src/main/java/com/ora2pg/migration/service/MigrationLogExportService.java:175-178 | a quoted value is a valid RFC 4180 escaped field whose body undoubles back to the value |
| MigrationLogExportService.ParseDoubled | backend/src/main/java/com/ora2pg/migration/service/MigrationLogExportService.java:177 | the doubled body, the closing quote and a field end read back as the value |
| MigrationLogExportService.FieldRoundTrip | backend/src/main/java/com/ora2pg/migration/service/MigrationLogExportService.java:170-181 | any field escapeCsv writes reads back as its value (null as empty) whatever record structure follows |
| MigrationLogExportService.RecordCons | backend/src/main/java/com/ora2pg/migration/service/MigrationLogExportService.java:46-51 | a field and a comma ahead of a record extend it by the field's value |
| MigrationLogExportService.RecordLast | backend/src/main/java/com/ora2pg/migration/service/MigrationLogExportService.java:52-53 | a field and a line feed make a record of one value |
| MigrationLogExportService.JoinedRecord | backend/src/main/java/com/ora2pg/migration/service/MigrationLogExportService.java:46-53 | escaped values joined by commas and ended by a line feed read back as one record of those values |
| MigrationLogExportService.LogLinesSnoc | backend/src/main/java/com/ora2pg/migration/service/MigrationLogExportService.java:45-54 | one more log adds exactly its line at the end |
| MigrationLogExportService.CsvTextSnoc | backend/src/main/java/com/ora2pg/migration/service/MigrationLogExportService.java:42-54 | the text after i + 1 logs is the text after i logs and the next log's line |
| MigrationLogExportService.AppendEncoded | backend/src/main/java/com/ora2pg/migration/service/MigrationLogExportService.java:34-54 | writing more text extends the bytes by its encoding |
| MigrationLogExportService.ExportToCsv | backend/src/main/java/com/ora2pg/migration/service/MigrationLogExportService.java:30-60 | the bytes are the byte-order mark and the UTF-8 of the header and every log's line; a log without a timestamp makes the export fail |
| MigrationLogExportService.ExportOpening | backend/src/main/java/com/ora2pg/migration/service/MigrationLogExportService.java:36-42 | the output starts with EF BB BF and then the header byte for byte |
| MigrationLogExportService.LineIsJoin | backend/src/main/java/com/ora2pg/migration/service/MigrationLogExportService.java:46-53 | a log's line is its four escaped values joined by commas and ended by a line feed |
| MigrationLogExportService.LineRoundTrip | backend/src/main/java/com/ora2pg/migration/service/MigrationLogExportService.java:46-53 | a log's line reads back as one record of its timestamp, level, message and details |
| MigrationLogExportService.LinesRoundTrip | backend/src/main/java/com/ora2pg/migration/service/MigrationLogExportService.java:45-54 | the lines of all logs read back as one record per log, in order |
| MigrationLogExportService.PlainLine | backend/src/main/java/com/ora2pg/migration/service/MigrationLogExportService.java:46-53 | four values escapeCsv leaves alone are written as they are with commas between |
| MigrationLogExportService.PlainRoundTrip | backend/src/main/java/com/ora2pg/migration/service/MigrationLogExportService.java:46-53 | four such values on a line read back as themselves |
| MigrationLogExportService.HeaderRoundTrip | backend/src/main/java/com/ora2pg/migration/service/MigrationLogExportService.java:42 | the header reads back as the four column names |
| MigrationLogExportService.HeaderShape | backend/src/main/java/com/ora2pg/migration/service/MigrationLogExportService.java:42 | the header is the four column names joined by commas, none of which needs quoting |
| MigrationLogExportService.CsvRoundTrip | backend/src/main/java/com/ora2pg/migration/service/MigrationLogExportService.java:30-60 | the whole text reads back as the header record then one record per log with its four values, in order |
| SettingsService.SettingsMapEntries | backend/src/main/java/com/ora2pg/migration/service/SettingsService.java:94-101 | every row's key "key:tab" is in the map, and every entry is a row filed under its own key |
| SettingsService.LoadSettingsMap | backend/src/main/java/com/ora2pg/migration/service/SettingsService.java:94-101 | the loop builds the map of every row under its composite key, a later row replacing an earlier one |
| SettingsService.GetStringValue | backend/src/main/java/com/ora2pg/migration/service/SettingsService.java:114-122 | the loop answers the value under the first key, in iteration order, that starts with key + ":", or the default |
| SettingsService.StringValueDefault | backend/src/main/java/com/ora2pg/migration/service/SettingsService.java:114-122 | without a matching key the default comes back, in any iteration order |
| SettingsService.StringValueAbsent | backend/src/main/java/com/ora2pg/migration/service/SettingsService.java:121 | with no key of the order matching, the default comes back |
| SettingsService.StringValueUnique | backend/src/main/java/com/ora2pg/migration/service/SettingsService.java:115-119 | with exactly one matching key the lookup gives that entry's value, or the default for null, whatever the iteration order |
| SettingsService.ParseBooleanOfBoolString | backend/src/main/java/com/ora2pg/migration/service/SettingsService.java:133-136 | a boolean default written as text reads back as itself |
| SettingsService.ValuesDefault | backend/src/main/java/com/ora2pg/migration/service/SettingsService.java:114-136 | without a matching key the string, int and boolean lookups each give their default |
| SettingsService.IntValueStored | backend/src/main/java/com/ora2pg/migration/service/SettingsService.java:124-131 | a single stored value reads as its int, or as the default when it is no int |
| SettingsService.BoolValueStored | backend/src/main/java/com/ora2pg/migration/service/SettingsService.java:133-136 | a single stored value reads as true iff it is "true" in any case, even when the default is true |
| SettingsService.EmptyStoreDefaults | backend/src/main/java/com/ora2pg/migration/service/SettingsService.java:19-56 | an empty settings table gives every documented default |
| SettingsService.FindPair | backend/src/main/java/com/ora2pg/migration/service/SettingsService.java:104-105 | the position found holds the (key, tab) row, and none is found iff no row has that pair |
| SettingsService.UpsertSetsOne | backend/src/main/java/com/ora2pg/migration/service/SettingsService.java:103-112 | after saving, the table is still unique on (key, tab), exactly one row has the pair with the new value, type and description, other rows are untouched, and a row is added only when the pair was new |
| SettingsService.PrefixOfKey | backend/src/main/java/com/ora2pg/migration/service/SettingsService.java:97-99 | a composite key starts with its key and ":" |
| SettingsService.UpsertOnlyTab | backend/src/main/java/com/ora2pg/migration/service/SettingsService.java:103-112 | saving keeps the condition that only (key, tab) rows look like key + ":" |
| SettingsService.SingleMatch | backend/src/main/java/com/ora2pg/migration/service/SettingsService.java:94-119 | under that condition the map has exactly one key matching key + ":", holding the (key, tab) row |
| SettingsService.SaveThenGet | backend/src/main/java/com/ora2pg/migration/service/SettingsService.java:103-122 | a saved value reads back (the default for null) whatever the iteration order, when no other key starts with key + ":" |
| SettingsService.SettingsStore.constructor | backend/src/main/java/com/ora2pg/migration/service/SettingsService.java:94-101 | the table starts empty and unique on (key, tab) |
| SettingsService.SettingsStore.SaveSetting | backend/src/main/java/com/ora2pg/migration/service/SettingsService.java:103-112 | the table after saving is the upsert of the old table, and stays unique on (key, tab) |
| PipelineMapper.ColumnEntityDefaults | backend/src/main/java/com/ora2pg/migration/mapper/PipelineMapper.java:144-161 | no flag of the stored column is left null: nullable defaults to true and the key flags to false, set flags are copied |
| PipelineMapper.ColumnRoundTrip | backend/src/main/java/com/ora2pg/migration/mapper/PipelineMapper.java:127-161 | a column mapping with its flags set survives the trip to its entity and back |
| PipelineMapper.ColumnEntityRoundTrip | backend/src/main/java/com/ora2pg/migration/mapper/PipelineMapper.java:127-161 | a column entity with its flags set survives the trip to the model and back |
| PipelineMapper.ToColumnMappings | backend/src/main/java/com/ora2pg/migration/mapper/PipelineMapper.java:86-92 | one model column per stored column |
| PipelineMapper.ToColumnMappingEntities | backend/src/main/java/com/ora2pg/migration/mapper/PipelineMapper.java:116-122 | one stored column per model column |
| PipelineMapper.StepEntityDefaults | backend/src/main/java/com/ora2pg/migration/mapper/PipelineMapper.java:97-125 | no status or flag of the stored step is left null (status draft, flags false), and a null column list stores none |
| PipelineMapper.StepRoundTrip | backend/src/main/java/com/ora2pg/migration/mapper/PipelineMapper.java:69-125 | a step with its status, flags and columns set survives the trip to its entity and back |
| PipelineMapper.StepEntityRoundTrip | backend/src/main/java/com/ora2pg/migration/mapper/PipelineMapper.java:69-125 | a step entity with its status and flags set survives the trip to the model and back |
| PipelineMapper.ToPipelineSteps | backend/src/main/java/com/ora2pg/migration/mapper/PipelineMapper.java:25-31 | one model step per stored step |
| PipelineMapper.ToPipelineStepEntities | backend/src/main/java/com/ora2pg/migration/mapper/PipelineMapper.java:58-64 | one stored step per model step |
| PipelineMapper.ConnectionRoundTrip | backend/src/main/java/com/ora2pg/migration/mapper/PipelineMapper.java:163-191 | a connection stored and read back is unchanged and carries its type |
| PipelineMapper.ModelConnections | backend/src/main/java/com/ora2pg/migration/mapper/PipelineMapper.java:35-43 | the source (target) connection is set iff some connection is typed so, from the last such one; other types are ignored |
| PipelineMapper.LastIndex | backend/src/main/java/com/ora2pg/migration/mapper/PipelineMapper.java:35-43 | the connection picked sits at a position after which no connection has that type |
| PipelineMapper.PipelineRoundTrip | backend/src/main/java/com/ora2pg/migration/mapper/PipelineMapper.java:13-67 | a pipeline stored and read back keeps its id, name, description and steps, has the owner's id, status defaulting to draft, no connections and no runs |
| PipelineMapper.LogExecutionId | backend/src/main/java/com/ora2pg/migration/mapper/PipelineMapper.java:207-218 | a log without an execution reads back with a null execution id, otherwise with that execution's id, everything else copied |
| Pg2PgPipelineService.FindId | backend/src/main/java/com/ora2pg/migration/service/Pg2PgPipelineService.java:114-117 | an entry found has the id, a missing id is on no entry, and only the as-written lookup stops on an entry without an id, where the stream filter throws |
| Pg2PgPipelineService.FoundUnique | backend/src/main/java/com/ora2pg/migration/service/Pg2PgPipelineService.java:114-117 | with distinct ids, the lookup of an id at position k finds k, unless the as-written lookup has thrown before reaching it |
| Pg2PgPipelineService.KeepIds | backend/src/main/java/com/ora2pg/migration/service/Pg2PgPipelineService.java:108 | removeIf keeps only ids that were there |
| Pg2PgPipelineService.KeepIdsKeyed | backend/src/main/java/com/ora2pg/migration/service/Pg2PgPipelineService.java:108 | removeIf keeps a list of set, distinct ids so |
| Pg2PgPipelineService.ListedColumnIds | backend/src/main/java/com/ora2pg/migration/service/Pg2PgPipelineService.java:143-146 | the listed ids are exactly the ids of the model's column mappings that are set |
| Pg2PgPipelineService.KeepListedColumns | backend/src/main/java/com/ora2pg/migration/service/Pg2PgPipelineService.java:147 | the kept column entities are stored ones whose id is listed, and every stored one whose id is listed is kept |
| Pg2PgPipelineService.KeepListedColumnsKeyed | backend/src/main/java/com/ora2pg/migration/service/Pg2PgPipelineService.java:147 | removing unlisted columns keeps the ids set and distinct |
| Pg2PgPipelineService.KeptColumnIds | backend/src/main/java/com/ora2pg/migration/service/Pg2PgPipelineService.java:147 | the ids of the kept columns are the kept ids |
| Pg2PgPipelineService.ColumnPassFacts | backend/src/main/java/com/ora2pg/migration/service/Pg2PgPipelineService.java:149-178 | one turn of the column loop never throws, keeps the stored ids in front, updates only the entity with the model's id, and adds a new entity when none has it |
| Pg2PgPipelineService.ColumnsUpdatedStep | backend/src/main/java/com/ora2pg/migration/service/Pg2PgPipelineService.java:149-178 | a turn keeps every stored entity holding the model with its id, or untouched |
| Pg2PgPipelineService.ColumnsAddedStep | backend/src/main/java/com/ora2pg/migration/service/Pg2PgPipelineService.java:149-178 | a turn keeps a new entity for every model so far that names no stored one |
| Pg2PgPipelineService.ColumnsLoop | backend/src/main/java/com/ora2pg/migration/service/Pg2PgPipelineService.java:149-179 | after n turns the column loop has not thrown and the loop invariant holds |
| Pg2PgPipelineService.ColumnsReconciled | backend/src/main/java/com/ora2pg/migration/service/Pg2PgPipelineService.java:142-180 | column reconciliation never throws; exactly the listed stored entities survive, in order and in front, each holding its model's fields with nullable defaulting to true and key flags to false; each unknown model has a new entity after them |
| Pg2PgPipelineService.ReconcileColumnMappings | backend/src/main/java/com/ora2pg/migration/service/Pg2PgPipelineService.java:142-180 | the loop gives the reconciled column list of the specification, for either id lookup, and None where the as-written lookup throws |
| Pg2PgPipelineService.ColumnsNeverFail | backend/src/main/java/com/ora2pg/migration/service/Pg2PgPipelineService.java:149-179 | the null-safe column loop never throws |
| Pg2PgPipelineService.ListedStepIds | backend/src/main/java/com/ora2pg/migration/service/Pg2PgPipelineService.java:104-107 | the listed ids are exactly the ids of the model's steps that are set |
| Pg2PgPipelineService.KeepListedSteps | backend/src/main/java/com/ora2pg/migration/service/Pg2PgPipelineService.java:108 | the kept steps are stored ones whose id is listed, and every stored one whose id is listed is kept |
| Pg2PgPipelineService.KeepListedStepsKeyed | backend/src/main/java/com/ora2pg/migration/service/Pg2PgPipelineService.java:108 | removing unlisted steps keeps the ids set and distinct |
| Pg2PgPipelineService.KeptStepIds | backend/src/main/java/com/ora2pg/migration/service/Pg2PgPipelineService.java:108 | the ids of the kept steps are the kept ids |
| Pg2PgPipelineService.UpdatedStep | backend/src/main/java/com/ora2pg/migration/service/Pg2PgPipelineService.java:127-180 | a stored step after its turn has the model's fields and its columns reconciled, and that never throws |
| Pg2PgPipelineService.SameStepId | backend/src/main/java/com/ora2pg/migration/service/Pg2PgPipelineService.java:182 | steps equal field by field have the same id |
| Pg2PgPipelineService.StepPassFacts | backend/src/main/java/com/ora2pg/migration/service/Pg2PgPipelineService.java:111-184 | one turn of the step loop never throws, keeps the stored ids in front, updates only the step with the model's id, and adds a new step when none has it |
| Pg2PgPipelineService.StepsUpdatedStep | backend/src/main/java/com/ora2pg/migration/service/Pg2PgPipelineService.java:111-184 | a turn keeps every stored step holding the model with its id, or untouched |
| Pg2PgPipelineService.StepsAddedStep | backend/src/main/java/com/ora2pg/migration/service/Pg2PgPipelineService.java:111-184 | a turn keeps a new step for every model so far that names no stored one |
| Pg2PgPipelineService.StepsLoop | backend/src/main/java/com/ora2pg/migration/service/Pg2PgPipelineService.java:111-185 | after n turns the step loop has not thrown and the loop invariant holds |
| Pg2PgPipelineService.StepsNeverFail | backend/src/main/java/com/ora2pg/migration/service/Pg2PgPipelineService.java:111-185 | the null-safe step loop never throws |
| Pg2PgPipelineService.StepsReconciled | backend/src/main/java/com/ora2pg/migration/service/Pg2PgPipelineService.java:101-186 | step reconciliation never throws; exactly the listed stored steps survive, in order and in front, each holding its model's fields and reconciled columns; each unknown model has a new step after them, identical new steps sharing one entry |
| Pg2PgPipelineService.ReconcilePipelineSteps | backend/src/main/java/com/ora2pg/migration/service/Pg2PgPipelineService.java:101-186 | the loop gives the reconciled step list of the specification, for either id lookup, and None where the as-written lookup throws |
| Pg2PgPipelineService.StepTurn | backend/src/main/java/com/ora2pg/migration/service/Pg2PgPipelineService.java:111-184 | one turn of the step loop of the specification, None where the lookup or the column reconciliation throws |
| Pg2PgPipelineService.FindIdAgrees | backend/src/main/java/com/ora2pg/migration/service/Pg2PgPipelineService.java:113-125 | where the as-written id lookup does not throw, it finds what the null-safe one finds |
| Pg2PgPipelineService.ReconcileStepsAgrees | backend/src/main/java/com/ora2pg/migration/service/Pg2PgPipelineService.java:101-186 | where the as-written step reconciliation succeeds it gives the null-safe one's steps |
| Pg2PgPipelineService.UnknownIdAfterNewStepThrows | backend/src/main/java/com/ora2pg/migration/service/Pg2PgPipelineService.java:113-125 | as written, a new step followed by a step with an unknown id throws, because the lookup reaches the new step without an id; the null-safe lookup adds both |
| Pg2PgPipelineService.WithoutType | backend/src/main/java/com/ora2pg/migration/service/Pg2PgPipelineService.java:89 | the connections kept are exactly those not of the type |
| Pg2PgPipelineService.WithoutTypeCount | backend/src/main/java/com/ora2pg/migration/service/Pg2PgPipelineService.java:89 | no connection of the type is left, and every other type keeps its count |
| Pg2PgPipelineService.WithoutTypeLast | backend/src/main/java/com/ora2pg/migration/service/Pg2PgPipelineService.java:89 | the last connection of another type is unchanged |
| Pg2PgPipelineService.ReplaceConnectionSingle | backend/src/main/java/com/ora2pg/migration/service/Pg2PgPipelineService.java:88-99 | a supplied connection replaces every connection of its type by exactly one, which reads back; other types keep their count and what reads back for them |
| Pg2PgPipelineService.UpdatedConnectionsReadBack | backend/src/main/java/com/ora2pg/migration/service/Pg2PgPipelineService.java:87-99 | read back, each supplied connection wins and each omitted one stays |
| Pg2PgPipelineService.WithoutTypeIgnoringCase | backend/src/main/java/com/ora2pg/migration/service/Pg2PgPipelineService.java:312 | the connections kept are exactly those whose type is null or differs from the given one ignoring case |
| Pg2PgPipelineService.SavedConnectionStatus | backend/src/main/java/com/ora2pg/migration/service/Pg2PgPipelineService.java:311-324 | saving a connection changes only the connections and the status; the status becomes configured iff it was, or the pipeline was a draft with steps and now has both a source and a target |
| Pg2PgPipelineService.SavedConnectionReadBack | backend/src/main/java/com/ora2pg/migration/service/Pg2PgPipelineService.java:311-316 | a connection saved as source or target reads back as that type, and the other type is kept |
| Pg2PgPipelineService.SourceTargetDiffer | backend/src/main/java/com/ora2pg/migration/service/Pg2PgPipelineService.java:312 | source and target differ even ignoring case |
| Pg2PgPipelineService.SavedConnectionList | backend/src/main/java/com/ora2pg/migration/service/Pg2PgPipelineService.java:311-316 | the saved list is the old one without the type, ignoring case, plus the new connection |
| Pg2PgPipelineService.IgnoringCaseReplace | backend/src/main/java/com/ora2pg/migration/service/Pg2PgPipelineService.java:311-316 | after the replacement the new connection is the one read for its type, and a type that differs ignoring case is kept |
| Pg2PgPipelineService.IgnoringCaseLast | backend/src/main/java/com/ora2pg/migration/service/Pg2PgPipelineService.java:312 | removing one type ignoring case keeps the last connection of a type that differs ignoring case |
| Pg2PgPipelineService.MixedCaseTypeDropsSource | backend/src/main/java/com/ora2pg/migration/service/Pg2PgPipelineService.java:311-316 | saving under "Source" removes the stored source connection and adds one the mapper does not read as the source |
| Pg2PgPipelineService.ReconciledSteps | backend/src/main/java/com/ora2pg/migration/service/Pg2PgPipelineService.java:101-186 | the reconciled steps are what the null-safe reconciliation gives |
| Pg2PgPipelineService.UpdatedReadBack | backend/src/main/java/com/ora2pg/migration/service/Pg2PgPipelineService.java:83-99 | read back after the update, the name, description and status are the model's, each supplied connection wins, omitted ones stay, and the id, owner and run count are unchanged |
| Pg2PgPipelineService.CreatedIsDraft | backend/src/main/java/com/ora2pg/migration/service/Pg2PgPipelineService.java:60-71 | a created pipeline reads back as an empty draft owned by its creator with no connections and no runs |
| Pg2PgPipelineService.FindRunning | backend/src/main/java/com/ora2pg/migration/service/Pg2PgPipelineService.java:341-344 | the execution found is running and belongs to the pipeline, and none is found iff none is |
| Pg2PgPipelineService.Started | backend/src/main/java/com/ora2pg/migration/service/Pg2PgPipelineService.java:357-359 | the pipeline becomes running, was last run now, and has one more run (wrapping as a Java Integer); nothing else changes |
| Pg2PgPipelineService.StartedWraps | backend/src/main/java/com/ora2pg/migration/service/Pg2PgPipelineService.java:358 | Integer.MAX_VALUE runs plus one gives Integer.MIN_VALUE |
| Pg2PgPipelineService.StartKeepsOneRunning | backend/src/main/java/com/ora2pg/migration/service/Pg2PgPipelineService.java:341-354 | starting where nothing runs keeps at most one running execution per pipeline, and the new one is the one found |
| Pg2PgPipelineService.FindRunningUnique | backend/src/main/java/com/ora2pg/migration/service/Pg2PgPipelineService.java:341 | the only running execution of a pipeline is the one found |
| Pg2PgPipelineService.PauseKeepsOneRunning | backend/src/main/java/com/ora2pg/migration/service/Pg2PgPipelineService.java:427-431 | pausing leaves the pipeline with none running, keeps the rule and changes no other pipeline's running execution |
| Pg2PgPipelineService.StartThenStop | backend/src/main/java/com/ora2pg/migration/service/Pg2PgPipelineService.java:330-448 | a run started and then stopped is the one paused, with its start and end times, and nothing of the pipeline runs afterwards |
| Pg2PgPipelineService.Access | backend/src/main/java/com/ora2pg/migration/service/Pg2PgPipelineService.java:53-55 | the lookup succeeds iff the pipeline exists and the user owns it; otherwise not found or access denied |
| Pg2PgPipelineService.WithStep | backend/src/main/java/com/ora2pg/migration/service/Pg2PgPipelineService.java:215-216 | saving a step with a stored id replaces that step; any other is appended |
| Pg2PgPipelineService.PipelineStore.constructor | backend/src/main/java/com/ora2pg/migration/service/Pg2PgPipelineService.java:48-71 | the repositories start empty |
| Pg2PgPipelineService.PipelineStore.GetPipelineById | backend/src/main/java/com/ora2pg/migration/service/Pg2PgPipelineService.java:48-58 | the pipeline is read back iff it exists and the user owns it; otherwise not found or access denied |
| Pg2PgPipelineService.PipelineStore.CreatePipeline | backend/src/main/java/com/ora2pg/migration/service/Pg2PgPipelineService.java:60-71 | the new pipeline is stored under its id and returned as a draft; nothing else changes |
| Pg2PgPipelineService.PipelineStore.UpdatePipeline | backend/src/main/java/com/ora2pg/migration/service/Pg2PgPipelineService.java:73-190 | after the owner check, a step loop that throws NullPointerException stores nothing and fails; otherwise the stored and returned pipeline is the as-written update; on any failure nothing changes |
| Pg2PgPipelineService.UpdatedAsWrittenAgrees | backend/src/main/java/com/ora2pg/migration/service/Pg2PgPipelineService.java:73-190 | the as-written update fails exactly when the step reconciliation throws, and otherwise equals the null-safe update |
| Pg2PgPipelineService.PipelineStore.DeletePipeline | backend/src/main/java/com/ora2pg/migration/service/Pg2PgPipelineService.java:192-203 | after the owner check the pipeline is removed; on failure nothing changes |
| Pg2PgPipelineService.PipelineStore.AddStepToPipeline | backend/src/main/java/com/ora2pg/migration/service/Pg2PgPipelineService.java:205-218 | after the owner check the mapped step is saved into the pipeline's steps; on failure nothing changes |
| Pg2PgPipelineService.PipelineStore.SaveConnection | backend/src/main/java/com/ora2pg/migration/service/Pg2PgPipelineService.java:301-328 | after the owner check the pipeline holds the saved connections and status; a null status fails once both types exist; on failure nothing changes |
| Pg2PgPipelineService.PipelineStore.StartExecution | backend/src/main/java/com/ora2pg/migration/service/Pg2PgPipelineService.java:330-413 | refused for another user's pipeline or while a run is going on; otherwise a running execution with zero counters, the pipeline running with one more run, and a log line, at most one run per pipeline kept |
| Pg2PgPipelineService.PipelineStore.StopExecution | backend/src/main/java/com/ora2pg/migration/service/Pg2PgPipelineService.java:415-448 | the running execution and the pipeline become paused with a log line; with nothing running nothing changes and the result is null |
| ProjectMapper.ColumnEntityDefaults | backend/src/main/java/com/ora2pg/migration/mapper/ProjectMapper.java:205-207 | a column entity never has a null flag: nullable defaults to true, the key flags to false, and a set flag is copied |
| ProjectMapper.ColumnRoundTrip | backend/src/main/java/com/ora2pg/migration/mapper/ProjectMapper.java:169-210 | a column mapping whose flags are set comes back unchanged through the entity |
| ProjectMapper.ToColumnMappings | backend/src/main/java/com/ora2pg/migration/mapper/ProjectMapper.java:126-132 | mapping a column list to models keeps its length |
| ProjectMapper.ToColumnMappingEntities | backend/src/main/java/com/ora2pg/migration/mapper/ProjectMapper.java:158-164 | mapping a column list to entities keeps its length |
| ProjectMapper.TableEntityDefaults | backend/src/main/java/com/ora2pg/migration/mapper/ProjectMapper.java:137-167 | a table entity has enabled default true, status "pending", drop and truncate false, each only when the model's is null; the chunk and partition settings are copied, and it belongs to the given project |
| ProjectMapper.TableRoundTrip | backend/src/main/java/com/ora2pg/migration/mapper/ProjectMapper.java:108-167 | a table mapping with its flags, status and columns set comes back unchanged, its columns in order |
| ProjectMapper.ToTableMappings | backend/src/main/java/com/ora2pg/migration/mapper/ProjectMapper.java:34-40 | mapping a table list to models keeps its length |
| ProjectMapper.ToTableMappingEntities | backend/src/main/java/com/ora2pg/migration/mapper/ProjectMapper.java:68-74 | mapping a table list to entities keeps its length |
| ProjectMapper.TablesRoundTrip | backend/src/main/java/com/ora2pg/migration/mapper/ProjectMapper.java:34-74 | a list of full table mappings comes back unchanged through the entities |
| ProjectMapper.ConnectionRoundTrip | backend/src/main/java/com/ora2pg/migration/mapper/ProjectMapper.java:79-106 | a connection comes back unchanged through the entity, which carries the given type |
| ProjectMapper.LastConnection | backend/src/main/java/com/ora2pg/migration/mapper/ProjectMapper.java:22-31 | the connection read for a type is one of that type, and there is none iff no connection has the type |
| ProjectMapper.LastIndex | backend/src/main/java/com/ora2pg/migration/mapper/ProjectMapper.java:22-31 | the connection read for a type sits at a position after which no connection has that type |
| ProjectMapper.ModelConnections | backend/src/main/java/com/ora2pg/migration/mapper/ProjectMapper.java:21-31 | toModel sets a side iff some connection has that type, and then to the last connection of that type |
| ProjectMapper.CountSnoc | backend/src/main/java/com/ora2pg/migration/mapper/ProjectMapper.java:56-64 | adding a connection raises its own type's count by one and leaves the others |
| ProjectMapper.LastSnoc | backend/src/main/java/com/ora2pg/migration/mapper/ProjectMapper.java:56-64 | after adding a connection it is the last of its type, and other types keep their last one |
| ProjectMapper.SourcePartFacts | backend/src/main/java/com/ora2pg/migration/mapper/ProjectMapper.java:56-60 | toEntity's source part has one source connection exactly when the model has one, and nothing else |
| ProjectMapper.EntityConnectionsSplit | backend/src/main/java/com/ora2pg/migration/mapper/ProjectMapper.java:55-65 | toEntity's connections are the source part followed by the target, if set |
| ProjectMapper.EntityConnectionsPerType | backend/src/main/java/com/ora2pg/migration/mapper/ProjectMapper.java:55-65 | toEntity creates one connection of a type exactly when the model has that side, and none of any other type |
| ProjectMapper.EntityStatus | backend/src/main/java/com/ora2pg/migration/mapper/ProjectMapper.java:52-53 | the entity keeps the model's status or starts as "draft", and belongs to the given user |
| ProjectMapper.ProjectRoundTrip | backend/src/main/java/com/ora2pg/migration/mapper/ProjectMapper.java:12-77 | a project with its status set and full table mappings comes back unchanged through the entity, but for the times toEntity does not copy |
| ProjectMapper.EntityConnectionsReadBack | backend/src/main/java/com/ora2pg/migration/mapper/ProjectMapper.java:21-65 | the connections toEntity creates read back as the model's source and target |
| ProjectService.Access | backend/src/main/java/com/ora2pg/migration/service/ProjectService.java:49-55 | the lookup succeeds iff the project exists and the user owns it; otherwise not found or access denied |
| ProjectService.CreatedIsDraft | backend/src/main/java/com/ora2pg/migration/service/ProjectService.java:60-71 | a created project reads back as a draft with its id, name, description and times, no connections and no table mappings |
| ProjectService.UpdatedStatus | backend/src/main/java/com/ora2pg/migration/service/ProjectService.java:84-86 | the update never clears the status: a null status keeps the stored one; the name and description are the model's and nothing else changes |
| ProjectService.WithoutTypeIgnoringCase | backend/src/main/java/com/ora2pg/migration/service/ProjectService.java:118 | the connections kept are exactly those whose type is null or differs from the given one ignoring case |
| ProjectService.SavedConnectionStatus | backend/src/main/java/com/ora2pg/migration/service/ProjectService.java:117-130 | once a source and a target exist the project is configured, whatever its status was; otherwise the status is kept; only the connections and the status change |
| ProjectService.IgnoringCaseLast | backend/src/main/java/com/ora2pg/migration/service/ProjectService.java:118 | removing one type ignoring case keeps the last connection of a type that differs ignoring case |
| ProjectService.SourceTargetDiffer | backend/src/main/java/com/ora2pg/migration/service/ProjectService.java:118 | source and target differ even ignoring case |
| ProjectService.SavedConnectionReadBack | backend/src/main/java/com/ora2pg/migration/service/ProjectService.java:117-133 | a connection saved as source or target reads back on that side, and the other side is as it was |
| ProjectService.SavedTableMappingsReadBack | backend/src/main/java/com/ora2pg/migration/service/ProjectService.java:147-158 | after saving, the project reads back with exactly the given table mappings in order, and nothing else changes |
| ProjectService.ProjectStore.constructor | backend/src/main/java/com/ora2pg/migration/service/ProjectService.java:47-58 | the repository starts empty |
| ProjectService.ProjectStore.GetProjectById | backend/src/main/java/com/ora2pg/migration/service/ProjectService.java:47-58 | the project is read back iff it exists and the user owns it; otherwise not found or access denied |
| ProjectService.ProjectStore.CreateProject | backend/src/main/java/com/ora2pg/migration/service/ProjectService.java:60-71 | the new draft project is stored under its id and returned; nothing else changes |
| ProjectService.ProjectStore.UpdateProject | backend/src/main/java/com/ora2pg/migration/service/ProjectService.java:73-90 | after the owner check the stored project has the new name, description and status; a null id is not found; on failure nothing changes |
| ProjectService.ProjectStore.DeleteProject | backend/src/main/java/com/ora2pg/migration/service/ProjectService.java:92-104 | after the owner check the project is removed; on failure nothing changes |
| ProjectService.ProjectStore.SaveConnection | backend/src/main/java/com/ora2pg/migration/service/ProjectService.java:106-134 | after the owner check the project holds the saved connections and status; on failure nothing changes |
| ProjectService.ProjectStore.SaveTableMappings | backend/src/main/java/com/ora2pg/migration/service/ProjectService.java:136-159 | after the owner check the project's table mappings are the given ones in order, added one by one; on failure nothing changes |
| DataTypeMappingRuleService.EntityRoundTrip | backend/src/main/java/com/ora2pg/migration/service/DataTypeMappingRuleService.java:135-155 | a rule through the entity comes back custom with its four text fields and no id, owned by the user |
| DataTypeMappingRuleService.OwnGuard | backend/src/main/java/com/ora2pg/migration/service/DataTypeMappingRuleService.java:124-130 | the guard passes iff the rule exists, is custom and is the user's; a default or another user's rule is refused, a missing one is not found, and a custom rule with no owner throws |
| DataTypeMappingRuleService.UpdateGuard | backend/src/main/java/com/ora2pg/migration/service/DataTypeMappingRuleService.java:91-107 | an update that passes the guards is of the user's own custom rule, whose stored type is set, and either keeps the type or takes one no other rule of the user has; a taken new type is refused as a duplicate |
| DataTypeMappingRuleService.CreateKeepsUnique | backend/src/main/java/com/ora2pg/migration/service/DataTypeMappingRuleService.java:73-81 | a rule created when the user has none of its type keeps each user's types unique |
| DataTypeMappingRuleService.NotTaken | backend/src/main/java/com/ora2pg/migration/service/DataTypeMappingRuleService.java:74-77 | when the type is not taken, no rule of the user has it |
| DataTypeMappingRuleService.UpdateKeepsUnique | backend/src/main/java/com/ora2pg/migration/service/DataTypeMappingRuleService.java:99-114 | an update that passes the guards keeps each user's types unique |
| DataTypeMappingRuleService.UpdatedAgainstOther | backend/src/main/java/com/ora2pg/migration/service/DataTypeMappingRuleService.java:99-107 | after a guarded update no other rule of the user has the new type |
| DataTypeMappingRuleService.DeleteKeepsUnique | backend/src/main/java/com/ora2pg/migration/service/DataTypeMappingRuleService.java:132 | removing a rule keeps each user's types unique |
| DataTypeMappingRuleService.RuleStore.constructor | backend/src/main/java/com/ora2pg/migration/service/DataTypeMappingRuleService.java:69-83 | the repository starts empty |
| DataTypeMappingRuleService.RuleStore.CreateRule | backend/src/main/java/com/ora2pg/migration/service/DataTypeMappingRuleService.java:69-83 | a type the user already has is refused and nothing changes; otherwise the custom rule is stored under its new id and returned, and the types stay unique |
| DataTypeMappingRuleService.RuleStore.UpdateRule | backend/src/main/java/com/ora2pg/migration/service/DataTypeMappingRuleService.java:88-116 | a refused update changes nothing; otherwise only the four text fields of the rule change, and the types stay unique |
| DataTypeMappingRuleService.RuleStore.DeleteRule | backend/src/main/java/com/ora2pg/migration/service/DataTypeMappingRuleService.java:121-133 | a refused delete changes nothing; otherwise exactly that rule is removed |
| DataValidationService.HexOrNull | backend/src/main/java/com/ora2pg/migration/service/DataValidationService.java:488-495 | a null array gives "NULL"; otherwise the text has two digits per byte |
| DataValidationService.BytesToHex | backend/src/main/java/com/ora2pg/migration/service/DataValidationService.java:488-495 | the builder loop gives the null marker or the hex text of the array |
| DataValidationService.HexOrNullDecodes | backend/src/main/java/com/ora2pg/migration/service/DataValidationService.java:488-495 | the hex text of an array decodes back to that array |
| DataValidationService.HexNeverNullMarker | backend/src/main/java/com/ora2pg/migration/service/DataValidationService.java:489-494 | the hex text of an array is never the null marker "NULL" |
| DataValidationService.IsBinaryTypeIgnoresCase | backend/src/main/java/com/ora2pg/migration/service/DataValidationService.java:476-483 | the binary-type test gives the same answer for a type and its upper- and lower-cased forms |
| DataValidationService.ContainsLongRaw | backend/src/main/java/com/ora2pg/migration/service/DataValidationService.java:324-328 | a type mentioning LONG RAW mentions both RAW and LONG, so it never reaches the RAWTOHEX branch |
| DataValidationService.ReadExpression | backend/src/main/java/com/ora2pg/migration/service/DataValidationService.java:321-365 | a column fetched as bytes or an Oracle LONG is selected bare; every text conversion defaults a null to 'NULL' |
| DataValidationService.PostgresReadsText | backend/src/main/java/com/ora2pg/migration/service/DataValidationService.java:339-365 | on PostgreSQL a binary column is hex-encoded in SQL and any other is cast to text |
| DataValidationService.BytesFetchedIff | backend/src/main/java/com/ora2pg/migration/service/DataValidationService.java:321-338 | on Oracle a column is fetched as bytes iff its upper-cased type mentions LONG RAW, or mentions BLOB without being a plain RAW type |
| DataValidationService.CatalogueNames | backend/src/main/java/com/ora2pg/migration/service/DataValidationService.java:305 | the key list of the catalogue has one name per catalogue entry |
| DataValidationService.Expressions | backend/src/main/java/com/ora2pg/migration/service/DataValidationService.java:315-367 | there is one select-list expression per column, each the one its declared type calls for |
| DataValidationService.FetchedPositions | backend/src/main/java/com/ora2pg/migration/service/DataValidationService.java:315-338 | the 1-based positions recorded are exactly those of the columns fetched as bytes |
| DataValidationService.PlanSnoc | backend/src/main/java/com/ora2pg/migration/service/DataValidationService.java:315-367 | one more column adds its expression and, when fetched as bytes, its position |
| DataValidationService.PlanChecksumColumns | backend/src/main/java/com/ora2pg/migration/service/DataValidationService.java:303-367 | the loop covers the requested columns, or the catalogue's when none are requested, and gives their expressions and the positions fetched as bytes |
| DataValidationService.PostgresFetchesNoBytes | backend/src/main/java/com/ora2pg/migration/service/DataValidationService.java:339-342 | on PostgreSQL no column is fetched as bytes |
| DataValidationService.ChecksumQuery | backend/src/main/java/com/ora2pg/migration/service/DataValidationService.java:369-381 | the checksum query is a SELECT of the expressions ordered by ROWID on Oracle and by ctid otherwise |
| DataValidationService.CountQuery | backend/src/main/java/com/ora2pg/migration/service/DataValidationService.java:282-284 | the count query is a SELECT COUNT(*) of the quoted table |
| DataValidationService.CellTexts | backend/src/main/java/com/ora2pg/migration/service/DataValidationService.java:391-449 | each cell contributes its text, "NULL" for a null, and a column fetched as bytes its hex text |
| DataValidationService.SerializedSnoc | backend/src/main/java/com/ora2pg/migration/service/DataValidationService.java:391-451 | each further row appends its cells joined by the bar character and a newline |
| DataValidationService.CellsTextSnoc | backend/src/main/java/com/ora2pg/migration/service/DataValidationService.java:446-448 | a further cell is preceded by the bar character only when one came before it |
| DataValidationService.AppendRow | backend/src/main/java/com/ora2pg/migration/service/DataValidationService.java:392-450 | the cell loop appends exactly the row's line |
| DataValidationService.SerializeRows | backend/src/main/java/com/ora2pg/migration/service/DataValidationService.java:384-451 | the row loop builds exactly the text the digest is taken over |
| DataValidationService.Lines | backend/src/main/java/com/ora2pg/migration/service/DataValidationService.java:391-450 | each row's line is its cell texts joined by the bar character |
| DataValidationService.LineSplits | backend/src/main/java/com/ora2pg/migration/service/DataValidationService.java:442-448 | a row of plain cells has a line with no newline, and splitting it at the bar character gives back its cell texts |
| DataValidationService.SerializedTerminated | backend/src/main/java/com/ora2pg/migration/service/DataValidationService.java:391-451 | the checksum text is the row lines, each followed by a newline |
| DataValidationService.SplitTerminated | backend/src/main/java/com/ora2pg/migration/service/DataValidationService.java:450 | splitting newline-terminated lines at newlines gives them back, and an empty piece at the end |
| DataValidationService.SerializedLines | backend/src/main/java/com/ora2pg/migration/service/DataValidationService.java:391-451 | splitting the checksum text at newlines gives the row lines and an empty last piece |
| DataValidationService.SerializedSplits | backend/src/main/java/com/ora2pg/migration/service/DataValidationService.java:391-451 | when no cell text holds the bar character or a newline, the checksum text gives back every row's cell texts, so different tables of plain cells give different texts |
| DataValidationService.LongDiv | backend/src/main/java/com/ora2pg/migration/service/DataValidationService.java:568-569 | Java's long division agrees with floor division on non-negative operands |
| DataValidationService.TimeFollowsRows | backend/src/main/java/com/ora2pg/migration/service/DataValidationService.java:557-573 | with 1 KiB a row the size is rows times 1024 and the row rate is the bottleneck: the time is rows / 1000 seconds |
| DataValidationService.FormatTime | backend/src/main/java/com/ora2pg/migration/service/DataValidationService.java:587-599 | the text ends in "s" iff the time is under an hour |
| DataValidationService.MinuteOfHour | backend/src/main/java/com/ora2pg/migration/service/DataValidationService.java:595-596 | the minutes of an hour and the hours together give the whole minutes |
| DataValidationService.SecondsDiffer | backend/src/main/java/com/ora2pg/migration/service/DataValidationService.java:588-589 | different times under a minute format differently |
| DataValidationService.MinutesText | backend/src/main/java/com/ora2pg/migration/service/DataValidationService.java:590-593 | a time under an hour formats as its minutes and its remaining seconds |
| DataValidationService.MinutesDiffer | backend/src/main/java/com/ora2pg/migration/service/DataValidationService.java:590-593 | different times under an hour but over a minute format differently |
| DataValidationService.HoursText | backend/src/main/java/com/ora2pg/migration/service/DataValidationService.java:594-597 | an hour or more formats as hours and remaining minutes |
| DataValidationService.HoursDiffer | backend/src/main/java/com/ora2pg/migration/service/DataValidationService.java:594-597 | times of an hour or more in different minutes format differently |
| DataValidationService.SecondsAndMinutesDiffer | backend/src/main/java/com/ora2pg/migration/service/DataValidationService.java:588-593 | a time under a minute and one of minutes never format alike |
| DataValidationService.FormatTimeDistinguishes | backend/src/main/java/com/ora2pg/migration/service/DataValidationService.java:587-599 | formatTime is one-to-one except that it drops the seconds of times of an hour or more |
| DataValidationService.FormatTimeSameMinute | backend/src/main/java/com/ora2pg/migration/service/DataValidationService.java:594-597 | times of an hour or more in the same minute format alike |
| DataValidationService.CheckForIssues | backend/src/main/java/com/ora2pg/migration/service/DataValidationService.java:628-652 | the issue list is the selected checks in their order |
| DataValidationService.IssuesReported | backend/src/main/java/com/ora2pg/migration/service/DataValidationService.java:628-652 | each warning is reported exactly when its threshold is passed, or when there are no column mappings; a very large table is also reported as a large one |
| DataValidationService.PreviewLines | backend/src/main/java/com/ora2pg/migration/service/DataValidationService.java:608-619 | with every nullable flag known, each column gets its line |
| DataValidationService.LinesTextSnoc | backend/src/main/java/com/ora2pg/migration/service/DataValidationService.java:615-618 | a further column line is preceded by a comma and newline, and the last one ends with a newline |
| DataValidationService.DdlPreview | backend/src/main/java/com/ora2pg/migration/service/DataValidationService.java:601-626 | the preview fails exactly when some column has a null nullable flag, which unboxing throws on |
| DataValidationService.PreviewLinesSnoc | backend/src/main/java/com/ora2pg/migration/service/DataValidationService.java:608-619 | one more column with a known flag adds its line |
| DataValidationService.AppendPreviewLines | backend/src/main/java/com/ora2pg/migration/service/DataValidationService.java:607-619 | the loop appends the column lines joined by a comma and newline, then a newline; a null flag fails |
| DataValidationService.GenerateDdlPreview | backend/src/main/java/com/ora2pg/migration/service/DataValidationService.java:601-626 | the builder code gives the DDL preview of the specification |
| DataValidationService.PreviewLineNotNull | backend/src/main/java/com/ora2pg/migration/service/DataValidationService.java:610-614 | a non-nullable column's line ends with NOT NULL, and a nullable one ends with its type, TEXT when unset |
| DataValidationService.CompareCounts | backend/src/main/java/com/ora2pg/migration/service/DataValidationService.java:53-89 | each result names its table; status error iff a count failed; matched iff status match; with two counts the difference is source minus target, and match means equal counts |
| DataValidationService.Algorithm | backend/src/main/java/com/ora2pg/migration/service/DataValidationService.java:113-116 | a missing or empty algorithm name becomes MD5; any other is kept |
| DataValidationService.CompareDigests | backend/src/main/java/com/ora2pg/migration/service/DataValidationService.java:132-178 | each result names its table and algorithm; status valid iff both digests and the row count were read and the digests are equal; error iff a read failed |
| DataValidationService.DryRunOf | backend/src/main/java/com/ora2pg/migration/service/DataValidationService.java:217-264 | each result names its table; error iff the row count failed or the DDL preview threw; warning iff issues were found; otherwise ready |
| DataValidationService.SelectTables | backend/src/main/java/com/ora2pg/migration/service/DataValidationService.java:45-50 | with no names given every table is kept; otherwise the tables kept are exactly those whose source name is listed |
| DataValidationService.KeepNamed | backend/src/main/java/com/ora2pg/migration/service/DataValidationService.java:46-49 | the filter keeps exactly the tables whose source name is listed |
| DataValidationService.Unconfigured | backend/src/main/java/com/ora2pg/migration/service/DataValidationService.java:35-43 | the comparison can go ahead iff both connections are set and there is a table mapping |
| DataValidationService.RowCountResults | backend/src/main/java/com/ora2pg/migration/service/DataValidationService.java:53-90 | there is one result per table, in order |
| DataValidationService.RowCountReport | backend/src/main/java/com/ora2pg/migration/service/DataValidationService.java:30-98 | the report fails with the wrapped message exactly when a connection or the table mappings are missing |
| DataValidationService.CompareRowCounts | backend/src/main/java/com/ora2pg/migration/service/DataValidationService.java:30-98 | the loop gives the row-count report of the specification |
| DataValidationService.RowCountsPerTable | backend/src/main/java/com/ora2pg/migration/service/DataValidationService.java:30-98 | every selected table gets a result in order, and match means equal counts |
| DataValidationService.ChecksumResults | backend/src/main/java/com/ora2pg/migration/service/DataValidationService.java:132-181 | there is one result per table, in order |
| DataValidationService.ChecksumReport | backend/src/main/java/com/ora2pg/migration/service/DataValidationService.java:103-189 | the report fails with the wrapped message exactly when a connection or the table mappings are missing; every result carries the effective algorithm |
| DataValidationService.CompareChecksums | backend/src/main/java/com/ora2pg/migration/service/DataValidationService.java:103-189 | the loop gives the checksum report of the specification |
| DataValidationService.DryRunResults | backend/src/main/java/com/ora2pg/migration/service/DataValidationService.java:217-267 | there is one result per table, in order |
| DataValidationService.DryRunReport | backend/src/main/java/com/ora2pg/migration/service/DataValidationService.java:194-275 | the report fails with the wrapped message exactly when a connection or the table mappings are missing |
| DataValidationService.PerformDryRun | backend/src/main/java/com/ora2pg/migration/service/DataValidationService.java:194-275 | the loop gives the dry-run report of the specification |
| SchemaMigrationService.QuotedColumns | backend/src/main/java/com/ora2pg/migration/service/SchemaMigrationService.java:518-520 | every column is quoted, one per column, in order |
| SchemaMigrationService.Unquote | backend/src/main/java/com/ora2pg/migration/service/SchemaMigrationService.java:679 | there is one unquoted name per column |
| SchemaMigrationService.QuotedColumnsAt | backend/src/main/java/com/ora2pg/migration/service/SchemaMigrationService.java:500 | the i-th quoted column is the i-th column quoted |
| SchemaMigrationService.QuotedColumnsTail | backend/src/main/java/com/ora2pg/migration/service/SchemaMigrationService.java:498-502 | quoting the columns after the first gives the quoted list after its first |
| SchemaMigrationService.QuotedForm | backend/src/main/java/com/ora2pg/migration/service/SchemaMigrationService.java:675-681 | a quoted name is a double quote, the name without its quotes, and a double quote |
| SchemaMigrationService.ParseQuotedHead | backend/src/main/java/com/ora2pg/migration/service/SchemaMigrationService.java:675-681 | a quoted name followed by more text is read as that name, then the rest |
| SchemaMigrationService.ColumnListCons | backend/src/main/java/com/ora2pg/migration/service/SchemaMigrationService.java:498-502 | a list of two or more columns is the first quoted name, a comma and space, then the list of the rest |
| SchemaMigrationService.ParseColumnListCons | backend/src/main/java/com/ora2pg/migration/service/SchemaMigrationService.java:498-502 | reading a quoted name and the separator leaves the rest of the list to read |
| SchemaMigrationService.ColumnListRoundTrip | backend/src/main/java/com/ora2pg/migration/service/SchemaMigrationService.java:497-502 | the column list of a DDL statement reads back as the names without quotes, in order |
| SchemaMigrationService.GenerateIndexDdl | backend/src/main/java/com/ora2pg/migration/service/SchemaMigrationService.java:475-506 | the builder code gives the index DDL of the specification |
| SchemaMigrationService.JoinQuoted | backend/src/main/java/com/ora2pg/migration/service/SchemaMigrationService.java:497-502 | the loop writes a comma and space before every column but the first, giving the quoted column list |
| SchemaMigrationService.IndexWarningIffBitmap | backend/src/main/java/com/ora2pg/migration/service/SchemaMigrationService.java:478-481 | the DDL starts with the warning comment exactly for BITMAP indexes, in any letter case |
| SchemaMigrationService.WarningFirst | backend/src/main/java/com/ora2pg/migration/service/SchemaMigrationService.java:478-487 | with the keyword after it, the DDL starts with a comment exactly for BITMAP indexes |
| SchemaMigrationService.IndexUniqueIff | backend/src/main/java/com/ora2pg/migration/service/SchemaMigrationService.java:483-487 | the statement is CREATE UNIQUE INDEX exactly for unique indexes |
| SchemaMigrationService.KeywordSaysUnique | backend/src/main/java/com/ora2pg/migration/service/SchemaMigrationService.java:483-487 | the keyword says UNIQUE exactly for unique indexes |
| SchemaMigrationService.IndexColumnsLast | backend/src/main/java/com/ora2pg/migration/service/SchemaMigrationService.java:495-505 | the DDL ends with the parenthesised quoted column list and a semicolon |
| SchemaMigrationService.ListLast | backend/src/main/java/com/ora2pg/migration/service/SchemaMigrationService.java:495-505 | whatever precedes it, the statement ends with the parenthesised column list and a semicolon |
| SchemaMigrationService.LeadingSpaces | backend/src/main/java/com/ora2pg/migration/service/SchemaMigrationService.java:638 | the count covers exactly the whitespace characters at the start of the text |
| SchemaMigrationService.MatchLength | backend/src/main/java/com/ora2pg/migration/service/SchemaMigrationService.java:638-645 | a match at the start of the text is at least the keyword long and within the text |
| SchemaMigrationService.ReplaceAllNoMatch | backend/src/main/java/com/ora2pg/migration/service/SchemaMigrationService.java:638-645 | text in which no match starts passes through a replaceAll unchanged |
| SchemaMigrationService.CallRewritten | backend/src/main/java/com/ora2pg/migration/service/SchemaMigrationService.java:638-641 | a keyword in any letter case, whitespace and an opening parenthesis are replaced as one, and the rewrite goes on after them |
| SchemaMigrationService.SpacesThenParen | backend/src/main/java/com/ora2pg/migration/service/SchemaMigrationService.java:638 | the whitespace run before an opening parenthesis is exactly the spaces given |
| SchemaMigrationService.ConvertViewSql | backend/src/main/java/com/ora2pg/migration/service/SchemaMigrationService.java:632-651 | a null view text converts to the empty text |
| SchemaMigrationService.PlainViewSqlKept | backend/src/main/java/com/ora2pg/migration/service/SchemaMigrationService.java:632-651 | view text with none of the Oracle constructs converts to itself |
| SchemaMigrationService.DualDeletedInsideWords | backend/src/main/java/com/ora2pg/migration/service/SchemaMigrationService.java:645 | DUAL in any letter case is deleted where it stands, even inside a longer word such as INDIVIDUAL |
| SchemaMigrationService.DualAtStart | backend/src/main/java/com/ora2pg/migration/service/SchemaMigrationService.java:645 | DUAL at the start of the text is deleted |
| SchemaMigrationService.DualPrefixKept | backend/src/main/java/com/ora2pg/migration/service/SchemaMigrationService.java:645 | a prefix where no DUAL starts is copied unchanged |
| SchemaMigrationService.DualRemovalIsOnePass | backend/src/main/java/com/ora2pg/migration/service/SchemaMigrationService.java:645 | the deletion is one pass: DUDUALAL becomes DUAL, which stays |
| SchemaMigrationService.ConvertCheckCondition | backend/src/main/java/com/ora2pg/migration/service/SchemaMigrationService.java:653-662 | a null check condition converts to the empty text |
| SchemaMigrationService.PlainCheckConditionKept | backend/src/main/java/com/ora2pg/migration/service/SchemaMigrationService.java:653-662 | a condition without NVL or DECODE calls converts to itself |
| SchemaMigrationService.ConvertDeleteRule | backend/src/main/java/com/ora2pg/migration/service/SchemaMigrationService.java:664-673 | a null rule stays null; any other becomes CASCADE, SET NULL or RESTRICT, the first two exactly when the rule spells them in any letter case |
| SchemaMigrationService.DeleteClause | backend/src/main/java/com/ora2pg/migration/service/SchemaMigrationService.java:538-544 | the ON DELETE clause is empty exactly when there is no delete rule |
| SchemaMigrationService.ConstraintDdl | backend/src/main/java/com/ora2pg/migration/service/SchemaMigrationService.java:508-567 | a null constraint type throws; a type other than the four known ones gives empty DDL |
| SchemaMigrationService.ForeignKeyDeleteRule | backend/src/main/java/com/ora2pg/migration/service/SchemaMigrationService.java:523-546 | a foreign key's DDL ends with ON DELETE and the converted rule when it has one, and with a parenthesis and semicolon exactly when it has none |
| SchemaMigrationService.DeleteClauseLast | backend/src/main/java/com/ora2pg/migration/service/SchemaMigrationService.java:536-545 | after the referenced columns the DDL ends with the delete clause and a semicolon, or with the parenthesis alone |
| SchemaMigrationService.NumberClause | backend/src/main/java/com/ora2pg/migration/service/SchemaMigrationService.java:574-588 | a sequence option is written exactly when its value is set |
| SchemaMigrationService.CycleClause | backend/src/main/java/com/ora2pg/migration/service/SchemaMigrationService.java:590-592 | the cycle option is written exactly when it is set |
| SchemaMigrationService.CacheClauseExact | backend/src/main/java/com/ora2pg/migration/service/SchemaMigrationService.java:594-609 | the CACHE clause names exactly the sequence's cache size, and only a size above 1 and at most Integer.MAX_VALUE |
| SchemaMigrationService.NoCacheDiffers | backend/src/main/java/com/ora2pg/migration/service/SchemaMigrationService.java:598-601 | NO CACHE is never a CACHE clause |
| SchemaMigrationService.CacheInLongRange | backend/src/main/java/com/ora2pg/migration/service/SchemaMigrationService.java:594-609 | for a cache size in the long range the source's clause and the intended one agree |
| SchemaMigrationService.CacheWrapAsWritten | backend/src/main/java/com/ora2pg/migration/service/SchemaMigrationService.java:596-606 | a cache size of 2^64 + 5 wraps to 5 in longValue, so the source writes CACHE 5 where the intended clause is NO CACHE |
| SchemaMigrationService.SequenceDdlShape | backend/src/main/java/com/ora2pg/migration/service/SchemaMigrationService.java:569-613 | the sequence DDL the program writes ends with its cache clause, computed through the wrapping longValue, and a semicolon |
| SchemaMigrationService.SequenceDdl | backend/src/main/java/com/ora2pg/migration/service/SchemaMigrationService.java:569-613 | the statement starts with CREATE SEQUENCE and the schema-qualified quoted name |
| SchemaMigrationService.SequenceDdlBare | backend/src/main/java/com/ora2pg/migration/service/SchemaMigrationService.java:569-613 | with no optional value set the statement is the name and NO CACHE |
| SchemaMigrationService.SequenceDdlCache | backend/src/main/java/com/ora2pg/migration/service/SchemaMigrationService.java:594-609 | a cache size within the long range gets the intended clause, CACHE n exactly for 1 < n <= Integer.MAX_VALUE |
| SchemaMigrationService.ViewDdlShape | backend/src/main/java/com/ora2pg/migration/service/SchemaMigrationService.java:615-628 | the converted query follows AS and a newline, then WITH CHECK OPTION exactly when checkOption is true, then a semicolon |
| SchemaMigrationService.ViewChecks | backend/src/main/java/com/ora2pg/migration/service/SchemaMigrationService.java:714-717 | a null view definition has no checks |
| SchemaMigrationService.CheckViewIssues | backend/src/main/java/com/ora2pg/migration/service/SchemaMigrationService.java:714-738 | the issue list is the selected view checks in order |
| SchemaMigrationService.ViewIssuesReported | backend/src/main/java/com/ora2pg/migration/service/SchemaMigrationService.java:719-735 | a view's issues name CONNECT BY, ROWNUM, DECODE and DUAL exactly when its definition contains them in any letter case |
| SchemaMigrationService.CheckIndexIssues | backend/src/main/java/com/ora2pg/migration/service/SchemaMigrationService.java:685-697 | the issue list is the selected index checks in order |
| SchemaMigrationService.IndexIssuesReported | backend/src/main/java/com/ora2pg/migration/service/SchemaMigrationService.java:688-694 | an index is reported as bitmap when its type is BITMAP in any case, and as function-based exactly when its type contains FUNCTION |
| SchemaMigrationService.CheckConstraintIssues | backend/src/main/java/com/ora2pg/migration/service/SchemaMigrationService.java:699-712 | the issue list is the selected constraint checks in order |
| SchemaMigrationService.ConstraintIssuesReported | backend/src/main/java/com/ora2pg/migration/service/SchemaMigrationService.java:702-709 | a constraint is reported as disabled exactly when its status is DISABLED in any case, and as using DECODE exactly when its condition does |
| SchemaMigrationService.FindIndex | backend/src/main/java/com/ora2pg/migration/service/SchemaMigrationService.java:182 | an index found has the name, and with none found no index has it |
| SchemaMigrationService.AddIndexRow | backend/src/main/java/com/ora2pg/migration/service/SchemaMigrationService.java:181-199 | a row adds at most one index |
| SchemaMigrationService.DiscoverIndexes | backend/src/main/java/com/ora2pg/migration/service/SchemaMigrationService.java:178-203 | the row loop gives the index groups of the specification |
| SchemaMigrationService.IndexNames | backend/src/main/java/com/ora2pg/migration/service/SchemaMigrationService.java:181 | there is one index name per row |
| SchemaMigrationService.FirstIndexRow | backend/src/main/java/com/ora2pg/migration/service/SchemaMigrationService.java:184-193 | the first row found for a name is one of the rows and has that name |
| SchemaMigrationService.IndexRowsSnoc | backend/src/main/java/com/ora2pg/migration/service/SchemaMigrationService.java:180-199 | a further row adds its name, is the first row of a new name, and adds its column to its index's columns |
| SchemaMigrationService.AbsentIndexName | backend/src/main/java/com/ora2pg/migration/service/SchemaMigrationService.java:182-184 | a name in no row has no first row and no columns |
| SchemaMigrationService.IndexStepKnown | backend/src/main/java/com/ora2pg/migration/service/SchemaMigrationService.java:196-199 | a row of a known index keeps the description true |
| SchemaMigrationService.IndexStepNew | backend/src/main/java/com/ora2pg/migration/service/SchemaMigrationService.java:184-199 | a row of a new index appends it and keeps the description true |
| SchemaMigrationService.IndexGroupsDescribe | backend/src/main/java/com/ora2pg/migration/service/SchemaMigrationService.java:178-203 | there is one index per distinct name, in first-seen order, built from its first row, with the non-null columns of all its rows in row order |
| SchemaMigrationService.ConstraintKind | backend/src/main/java/com/ora2pg/migration/service/SchemaMigrationService.java:266-272 | P, R, U and C become PRIMARY KEY, FOREIGN KEY, UNIQUE and CHECK, and any other code leaves the type unset |
| SchemaMigrationService.FindConstraint | backend/src/main/java/com/ora2pg/migration/service/SchemaMigrationService.java:258 | a constraint found has the name, and with none found no constraint has it |
| SchemaMigrationService.DiscoverConstraints | backend/src/main/java/com/ora2pg/migration/service/SchemaMigrationService.java:254-293 | the row loop gives the constraint groups of the specification, or the NullPointerException |
| SchemaMigrationService.ConstraintNames | backend/src/main/java/com/ora2pg/migration/service/SchemaMigrationService.java:257 | there is one constraint name per row |
| SchemaMigrationService.FirstConstraintRow | backend/src/main/java/com/ora2pg/migration/service/SchemaMigrationService.java:260-284 | the first row found for a name is one of the rows and has that name |
| SchemaMigrationService.ConstraintRowsSnoc | backend/src/main/java/com/ora2pg/migration/service/SchemaMigrationService.java:256-289 | a further row adds its name, is the first row of a new name, and adds its column to its constraint's column rows |
| SchemaMigrationService.AbsentConstraintName | backend/src/main/java/com/ora2pg/migration/service/SchemaMigrationService.java:258-260 | a name in no row has no first row and no columns |
| SchemaMigrationService.FirstRowsTypedSnoc | backend/src/main/java/com/ora2pg/migration/service/SchemaMigrationService.java:266-267 | the rows stay typed exactly when a further row is of a known constraint or carries a type code |
| SchemaMigrationService.ConstraintOtherRow | backend/src/main/java/com/ora2pg/migration/service/SchemaMigrationService.java:256-289 | a row of another constraint leaves this one's description true |
| SchemaMigrationService.ConstraintSameRow | backend/src/main/java/com/ora2pg/migration/service/SchemaMigrationService.java:286-289 | a row of this constraint adds its column unless it is already listed |
| SchemaMigrationService.ConstraintFirstRow | backend/src/main/java/com/ora2pg/migration/service/SchemaMigrationService.java:260-289 | the first row of a constraint makes it, with its column |
| SchemaMigrationService.ConstraintStepKnown | backend/src/main/java/com/ora2pg/migration/service/SchemaMigrationService.java:286-289 | a row of a known constraint keeps the description true |
| SchemaMigrationService.ConstraintStepNew | backend/src/main/java/com/ora2pg/migration/service/SchemaMigrationService.java:260-289 | a row of a new typed constraint appends it and keeps the description true |
| SchemaMigrationService.ConstraintFailureStays | backend/src/main/java/com/ora2pg/migration/service/SchemaMigrationService.java:267 | once the switch has thrown, later rows do not matter |
| SchemaMigrationService.ConstraintGroupsDescribe | backend/src/main/java/com/ora2pg/migration/service/SchemaMigrationService.java:254-293 | the loop succeeds exactly when every constraint's first row has a type code; then there is one constraint per distinct name, in first-seen order, built from its first row, with its distinct non-null columns in first-seen order |

## Left out

- JDBC work is not modelled, only its outcome. This covers opening connections, running statements, reading result sets, the COUNT, MIN and MAX probes and the catalogue queries (including the foreign-key referenced-columns query of discoverConstraints and the whole of discoverSequences and discoverViews). What these calls return is an input of the model: rows, bounds (MigrationService.BuildChunkRanges takes the fetched bounds as `fetched`), counts (calculateTotalRows, countMigratedRows) and per-table outcomes.
- Threads, thread pools, futures, cancellation and the AtomicBoolean flags are not modelled, because only the sequential outcome is deterministic. What another thread does to a running job arrives as inputs: the status each fetched row sees, and whether the worker thread is alive on resume. Chunk ranges and tables run one after another in list order, and a range that throws stops the ranges after it.
- The waitForResume sleep and executePipeline's retry sleep are left out, because they are timing and not logic.
- The background thread that startExecution spawns is left out for the same reason. Only the state startExecution and stopExecution leave behind is modelled.
- MigrationService's startMigration, getProgress, entityToModel and updateTableMappingStatus are left out. They are database and thread plumbing around the modelled helpers. prepareTableForMigration, createTargetTables and migrateTable are modelled (MigrationJob.Progress.PrepareTable, CreateTargetTables, MigrateTable).
- The WHERE bounds of a range are not used to select rows: the rows a range fetches are an input of the model.
- A failure of setObject or executeBatch in the middle of a range is not modelled; a range either reads its rows or fails with the given exception before the first row.
- A failing commit at the end of createTargetTables is not modelled.
- The snapshots saveProgressToDatabase writes during a copy are stated only through SavedSince: every one added records a multiple of 10000 rows.
- The value-binding dispatch of migrateTableRange is left out. This covers its getTimestamp, getBytes and getBinaryStream fallbacks and objectToByteArray's oracle.sql class-name sniffing, which depend on the vendor driver. The copy loop takes each row's outcome as given.
- DataValidationService.formatSize and the front end's progress percentages are left out, because they are floating point.
- The MD5 and SHA digests of calculateTableChecksum are left out, because they are a foreign library. The text the digest is taken over is modelled, and the model compares digests as given values.
- Jackson parsing in the JSON import is left out. The model starts from the already parsed mapping.
- exportToExcel is left out, because it is written with Apache POI.
- The Java regular-expression engine is not modelled. Each pattern the code uses is written out as an explicit matcher: `\s` is the six ASCII white-space characters, and `(?i)` folds only ASCII case.
- ParseLongSafe (MigrationService.ParseLongSafe): reads ASCII digits only, through JavaStr.ParseLong. Long.parseLong also reads the other Unicode decimal digits, so "\u0661\u0662" is 12 in the program and null in the model.
- IntValueStored (SettingsService.IntValueStored): a stored value counts as "no int" by the ASCII-only JavaStr.ParseInt. Integer.parseInt also reads the other Unicode decimal digits.
- JavaStr.ParseInt and JavaStr.ParseLong: only ASCII digits are read; other Unicode decimal digits are rejected as not a number.
- Base16.HexDigit: only ASCII digits and letters are hex digits; Character.digit(c, 16) also accepts other Unicode decimal digits and the fullwidth Latin letters, for which the model gives -1.
- The AtomicLong row counters of Pg2PgExecutionService are unbounded sums; their 64-bit wrap-around is not modelled.
- TableMappingView: JavaScript numbers are modelled as integers. parseInt beyond 2^53 and the exponent form that `${n}` prints at 1e21 and above are not modelled.
- MigrationService.BuildChunkRanges: computed in unbounded integers, as the loop is intended. The long overflow near Long.MAX_VALUE is stated separately by ChunkOverflowAsWritten, and the chunked copy is built on the intended ranges.
- Case mapping is ASCII only. Java's and JavaScript's Unicode case tables are not modelled.
- Exception message texts are not modelled. Failures are modelled by kind (not found, access denied, duplicate, null pointer, and so on).
- LocalDateTime.now(), UUID.randomUUID() and the DATE_FORMATTER text are not modelled. Clock readings and generated ids are parameters, and a log line's timestamp field is given as text.
- Spring Security's getCurrentUser is not modelled; the signed-in user is the `userId` parameter. JPA repositories are not modelled either; repositories are maps held in the store classes.
- Database constraints and cascades beyond the uniqueness the services check are not modelled. `Valid` states what the services keep.
- Pg2PgPipelineService.PipelineStore.UpdatePipeline: generated ids of new steps and column mappings are not assigned on save, so a new step keeps no id in the store.
- Pg2PgPipelineService.PipelineStore.UpdatePipeline: a pipeline model without an id maps to NotFound, where the repository would throw on a null id.
- Pg2PgPipelineService.PipelineStore.UpdatePipeline: the entity equality that `contains` uses is field-based, as Lombok generates it. Identical new steps therefore collapse into one, as in the source.
- Pg2PgPipelineService.PipelineStore.AddStepToPipeline: a step id that belongs to another pipeline is not checked against the repository, in the same way as in the source.
- Pg2PgPipelineService.PipelineStore.StartExecution: the repository's "non-unique result" exception for two running executions is not modelled. `Valid` keeps at most one execution running per pipeline, and every operation preserves it.
- getAllPipelines, updateStep, deleteStep, getLogs and getExecutions of Pg2PgPipelineService are not modelled as operations, because they are repository reads and single-entity copies. updateStep's column reconciliation is the modelled Pg2PgPipelineService.UpdatedStep.
- getAllProjects in ProjectService is left out, because it is a read whose order the database decides.
- getAllRules, getCustomRules and getDefaultRules in DataTypeMappingRuleService are left out for the same reason.
- SettingsService.updateSettings is left out. It is a fixed sequence of saveSetting calls, and saveSetting is modelled.
- The HashMap iteration order that getStringValue depends on is left unspecified. It is a parameter (`order`), and the lemmas hold for every order.
- SchemaMigrationService.generateSchemaDDL is left out. It only concatenates the modelled builders over the discovered objects.
- IndexInfo's expressions list and ConstraintInfo's updateRule are not modelled, because the code never reads them.
- Java's UTF-16 strings and unpaired surrogates are not modelled. The CSV export encodes Unicode scalar values, and line ends are the '\n' the code writes.
- The UI-only front end, the controllers, authentication and seeding are not part of this model.

## Findings

| source | as written | input that shows it | evidently intended | confidence | as-written member | corrected member |
|---|---|---|---|---|---|---|
| backend/src/main/java/com/ora2pg/migration/service/MigrationService.java:276-281 | `start += chunkSize` overflows a Java long, so with a maximum near Long.MAX_VALUE `start <= maxValue` never fails and the last range ends before it starts | minValue = Long.MAX_VALUE - 1, maxValue = Long.MAX_VALUE, chunkSize = 10 | contiguous ranges from min to max, each chunkSize wide except the last, then the loop ends | not executed | MigrationService.ChunkOverflowAsWritten | MigrationService.BuildChunkRanges |
| backend/src/main/java/com/ora2pg/migration/util/ColumnNameTransformer.java:71-92 | toSnakeCase re-runs its camel-boundary loop on the already upper-cased normalised text, putting '_' before every letter after the first | "ID" gives "i_d" | the lower-cased normalised name, with '_' only at word boundaries ("id") | not executed | ColumnNameTransformer.SnakeAsWrittenSplitsLetters | ColumnNameTransformer.SnakeCasedWords |
| frontend/lib/column-name-transformer.ts:80-86 | the front end's snake_case makes the same second pass over upper-cased text | "ID" gives "i_d" | "id" | not executed | ScriptColumnNames.ScriptSnakeSplitsLetters | ScriptColumnNames.ScriptSnakeWords |
| frontend/lib/column-name-transformer.ts:42-61 | JavaScript's split keeps empty pieces, so the test for zero words never holds and a name of only underscores becomes empty | "___" gives "" | the name unchanged, as the back end returns it ("___") | not executed | ScriptColumnNames.ScriptCamelOfUnderscores | ScriptColumnNames.ScriptCamelNonEmpty |
| backend/src/main/java/com/ora2pg/migration/service/SchemaMigrationService.java:594-609 | BigDecimal.longValue() keeps the low 64 bits and never throws, so the ArithmeticException handler is dead and a huge cache size wraps into range | cache size 2^64 + 5 gives " CACHE 5" | " NO CACHE" for every size above Integer.MAX_VALUE | not executed | SchemaMigrationService.CacheWrapAsWritten | SchemaMigrationService.CacheClauseExact |
| backend/src/main/java/com/ora2pg/migration/service/Pg2PgPipelineService.java:113-125 | the lookup calls `s.getId().equals(...)` on stored steps, including a new step appended earlier in the same update, which has no id yet | steps [a new step without id, then a step with an id no stored step has] throws NullPointerException | both steps are added | not executed | Pg2PgPipelineService.UnknownIdAfterNewStepThrows | Pg2PgPipelineService.StepsReconciled |

The operations the rest of the model calls compute what the program does: Transform, Apply, ScriptTransform, ApplyScript, SequenceDdl and PipelineStore.UpdatePipeline use the as-written halves, and the corrected members state the intended behaviour beside them. BuildChunkRanges is the exception, listed under "## Left out".

Other behaviours the model keeps as written, because they may be intended:

- The statement splitter drops the rest of a script after a '$' that has no later '$'. See Pg2PgExecutionService.UnmatchedDollarDropsRest.
- executeStep's own fallback would keep a blank connection schema, but executePipeline always hands it a resolved, non-blank schema first. See Pg2PgExecutionService.StepSeesResolvedSchema.
- The JSON import silently drops a column whose key is a lone quote. See Pg2PgJsonImportService.ConvertColumnMapping and Pg2PgJsonImportService.ConvertedColumnsCount.
- Saving a connection typed "Source" drops the stored "source" connection, and the mapper cannot read the new one back. See Pg2PgPipelineService.MixedCaseTypeDropsSource.
- totalRuns wraps at Integer.MAX_VALUE. See Pg2PgPipelineService.StartedWraps.
- Removing DUAL from view text is a single pass, so "DUDUALAL" becomes "DUAL". See SchemaMigrationService.DualRemovalIsOnePass.
