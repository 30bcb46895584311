// The sequential helpers of the Oracle-to-PostgreSQL migration engine:
// parallelism and chunking decisions, WHERE-clause composition, the target
// CREATE TABLE text, range partitioning of a numeric partition column, and
// the lenient hex decoder used when binding binary values.

module MigrationService {
  import opened JavaStr
  import opened Model
  import Base16

  // ------------------------------------------------------------ parallelism

  /** Number of table workers: the configured parallelJobs when it is at least 1, else 1. */
  function ResolveParallelTables(settings: Option<AppSettings>): (n: int)
    ensures n >= 1
    ensures settings.Some? && settings.value.parallelJobs.Some? && settings.value.parallelJobs.value >= 1
            ==> n == settings.value.parallelJobs.value
    ensures settings.None? || settings.value.parallelJobs.None? || settings.value.parallelJobs.value < 1
            ==> n == 1
  {
    if settings.None? || settings.value.parallelJobs.None? || settings.value.parallelJobs.value < 1 then 1
    else if settings.value.parallelJobs.value > 1 then settings.value.parallelJobs.value else 1
  }

  // ------------------------------------------------------------ chunking gate

  predicate ShouldUseChunking(tm: TableMapping)
  {
    tm.partitionColumn.Some? && Trim(tm.partitionColumn.value) != [] &&
    tm.chunkWorkers.Some? && tm.chunkWorkers.value > 1 &&
    tm.chunkSize.Some? && tm.chunkSize.value > 0
  }

  predicate MatchesPartitionColumn(cm: ColumnMapping, partitionColumn: string)
  {
    cm.sourceColumn.Some? && EqualsIgnoreCase(cm.sourceColumn.value, partitionColumn)
  }

  /** The index of the first mapping whose source column matches, as Stream.findFirst picks it. */
  function FirstMatching(cms: seq<ColumnMapping>, partitionColumn: string): (r: Option<nat>)
    ensures r.Some? ==> r.value < |cms| && MatchesPartitionColumn(cms[r.value], partitionColumn)
    ensures r.Some? ==> forall j :: 0 <= j < r.value ==> !MatchesPartitionColumn(cms[j], partitionColumn)
    ensures r.None? <==> forall i :: 0 <= i < |cms| ==> !MatchesPartitionColumn(cms[i], partitionColumn)
  {
    if cms == [] then None
    else if MatchesPartitionColumn(cms[0], partitionColumn) then Some(0)
    else
      match FirstMatching(cms[1..], partitionColumn)
        case None => None
        case Some(k) => Some(k + 1)
  }

  /** The first column mapping whose source column equals the partition column, ignoring case. */
  function FindPartitionColumnMapping(tm: TableMapping): Option<ColumnMapping>
  {
    if tm.columnMappings.None? || tm.partitionColumn.None? then None
    else match FirstMatching(tm.columnMappings.value, tm.partitionColumn.value)
      case None => None
      case Some(k) => Some(tm.columnMappings.value[k])
  }

  predicate IsChunkableColumnType(dataType: Option<string>)
  {
    dataType.Some? &&
    var n := Upper(dataType.value);
    Contains(n, "INT") || Contains(n, "NUMBER") || Contains(n, "DECIMAL") ||
    Contains(n, "NUMERIC") || Contains(n, "BIGINT") || Contains(n, "SMALLINT")
  }

  lemma ContainsWithin(s: string, t: string, u: string, k: nat)
    requires Contains(s, t) && k + |u| <= |t| && t[k..k + |u|] == u
    ensures Contains(s, u)
  {
    var i :| 0 <= i <= |s| - |t| && OccursAt(s, t, i);
    forall j | 0 <= j < |u| ensures s[i + k + j] == u[j] {
      assert s[i + k + j] == s[i..i + |t|][k + j] == t[k + j];
      assert t[k + j] == t[k..k + |u|][j];
    }
    assert s[i + k..i + k + |u|] == u;
    assert OccursAt(s, u, i + k);
  }

  /**
   * BIGINT and SMALLINT add nothing: a type is chunkable exactly when its
   * upper-cased name contains INT, NUMBER, DECIMAL or NUMERIC.
   */
  lemma ChunkableTypes(dataType: string)
    ensures IsChunkableColumnType(Some(dataType)) <==>
      (var n := Upper(dataType);
       Contains(n, "INT") || Contains(n, "NUMBER") || Contains(n, "DECIMAL") || Contains(n, "NUMERIC"))
  {
    var n := Upper(dataType);
    if Contains(n, "BIGINT") { ContainsWithin(n, "BIGINT", "INT", 3); }
    if Contains(n, "SMALLINT") { ContainsWithin(n, "SMALLINT", "INT", 5); }
  }

  /** How processTableMigration copies one table. */
  datatype CopyPlan =
    | Chunked(partition: ColumnMapping)
    | Unchunked(chunkingWarned: bool)

  function PlanTableCopy(tm: TableMapping): CopyPlan
  {
    var attempt := ShouldUseChunking(tm);
    var partition := if attempt then FindPartitionColumnMapping(tm) else None;
    var valid := attempt && partition.Some? &&
      IsChunkableColumnType(if partition.value.sourceDataType.Some? then partition.value.sourceDataType
                            else partition.value.targetDataType);
    if attempt && valid then Chunked(partition.value) else Unchunked(attempt)
  }

  /** The mapping findFirst returns belongs to the table and matches the partition column. */
  lemma PartitionColumnFound(tm: TableMapping)
    requires FindPartitionColumnMapping(tm).Some?
    ensures var p := FindPartitionColumnMapping(tm).value;
      tm.columnMappings.Some? && tm.partitionColumn.Some? &&
      p in tm.columnMappings.value && MatchesPartitionColumn(p, tm.partitionColumn.value)
  {
  }

  /** The type chunking accepts: the source type, else the target type, names a numeric type. */
  predicate NumericPartitionType(p: ColumnMapping)
  {
    (p.sourceDataType.Some? || p.targetDataType.Some?) &&
    var t := if p.sourceDataType.Some? then p.sourceDataType.value else p.targetDataType.value;
    Contains(Upper(t), "INT") || Contains(Upper(t), "NUMBER") ||
    Contains(Upper(t), "DECIMAL") || Contains(Upper(t), "NUMERIC")
  }

  /** k is the first mapping whose source column equals the partition column, ignoring case. */
  predicate FirstMatchAt(cms: seq<ColumnMapping>, partitionColumn: string, k: int)
  {
    0 <= k < |cms| && cms[k].sourceColumn.Some? && Upper(cms[k].sourceColumn.value) == Upper(partitionColumn) &&
    forall j :: 0 <= j < k ==> !(cms[j].sourceColumn.Some? && Upper(cms[j].sourceColumn.value) == Upper(partitionColumn))
  }

  /**
   * A table is copied in chunks exactly when it names a non-blank partition
   * column, more than one chunk worker and a positive chunk size, and the
   * first column mapping matching the partition column case-insensitively
   * has a numeric type (its source type, else its target type); that
   * mapping is the partition column of the chunked copy.
   */
  lemma ChunkingGate(tm: TableMapping)
    ensures PlanTableCopy(tm).Chunked? <==>
      tm.partitionColumn.Some? && !IsBlank(tm.partitionColumn.value) &&
      tm.chunkWorkers.Some? && tm.chunkWorkers.value > 1 &&
      tm.chunkSize.Some? && tm.chunkSize.value > 0 &&
      tm.columnMappings.Some? &&
      exists k :: FirstMatchAt(tm.columnMappings.value, tm.partitionColumn.value, k) &&
        NumericPartitionType(tm.columnMappings.value[k])
    ensures PlanTableCopy(tm).Chunked? ==>
      (tm.columnMappings.Some? && tm.partitionColumn.Some? &&
       exists k :: FirstMatchAt(tm.columnMappings.value, tm.partitionColumn.value, k) &&
         tm.columnMappings.value[k] == PlanTableCopy(tm).partition)
  {
    if tm.partitionColumn.Some? { TrimEmptyIffBlank(tm.partitionColumn.value); }
    PlanChunkedWhen(tm);
    if tm.columnMappings.Some? && tm.partitionColumn.Some? {
      FoundIsFirstMatch(tm);
    }
  }

  /** The plan is chunked exactly when chunking is requested and the mapping found has a numeric type. */
  lemma PlanChunkedWhen(tm: TableMapping)
    ensures PlanTableCopy(tm).Chunked? <==>
      ShouldUseChunking(tm) && FindPartitionColumnMapping(tm).Some? &&
      NumericPartitionType(FindPartitionColumnMapping(tm).value)
    ensures PlanTableCopy(tm).Chunked? ==> PlanTableCopy(tm).partition == FindPartitionColumnMapping(tm).value
  {
    var found := FindPartitionColumnMapping(tm);
    if found.Some? {
      var p := found.value;
      if p.sourceDataType.Some? || p.targetDataType.Some? {
        ChunkableTypes(if p.sourceDataType.Some? then p.sourceDataType.value else p.targetDataType.value);
      }
    }
  }

  /** The mapping found is the first matching one, and there is one exactly when something is found. */
  lemma FoundIsFirstMatch(tm: TableMapping)
    requires tm.columnMappings.Some? && tm.partitionColumn.Some?
    ensures FindPartitionColumnMapping(tm).Some? <==>
      exists k :: FirstMatchAt(tm.columnMappings.value, tm.partitionColumn.value, k)
    ensures forall k :: FirstMatchAt(tm.columnMappings.value, tm.partitionColumn.value, k) ==>
      FindPartitionColumnMapping(tm) == Some(tm.columnMappings.value[k])
  {
    var cms, pc := tm.columnMappings.value, tm.partitionColumn.value;
    FirstMatchAtUnique(cms, pc);
    if FirstMatching(cms, pc).Some? {
      assert FirstMatchAt(cms, pc, FirstMatching(cms, pc).value);
    }
  }

  /** The first match is unique, and it is the one FirstMatching finds. */
  lemma FirstMatchAtUnique(cms: seq<ColumnMapping>, pc: string)
    ensures forall k :: FirstMatchAt(cms, pc, k) <==> FirstMatching(cms, pc) == Some(k)
  {
    var r := FirstMatching(cms, pc);
    forall k | FirstMatchAt(cms, pc, k) ensures r == Some(k) {
      assert MatchesPartitionColumn(cms[k], pc);
    }
    if r.Some? {
      assert forall j :: 0 <= j < r.value ==> !MatchesPartitionColumn(cms[j], pc);
    }
  }

  /** A table copied unchunked logs the chunking warning exactly when chunking was attempted. */
  lemma ChunkingWarning(tm: TableMapping)
    requires PlanTableCopy(tm).Unchunked?
    ensures PlanTableCopy(tm).chunkingWarned <==>
      tm.partitionColumn.Some? && !IsBlank(tm.partitionColumn.value) &&
      tm.chunkWorkers.Some? && tm.chunkWorkers.value > 1 &&
      tm.chunkSize.Some? && tm.chunkSize.value > 0
  {
    if tm.partitionColumn.Some? { TrimEmptyIffBlank(tm.partitionColumn.value); }
  }

  /** The chunk worker pool size: the requested count (1 if unset), capped by the range count, at least 1. */
  function ChunkWorkerCount(requested: Option<int>, rangeCount: nat): (n: int)
    ensures n >= 1
    ensures rangeCount >= 1 ==> n <= rangeCount
    ensures requested.Some? && 1 <= requested.value <= rangeCount ==> n == requested.value
  {
    var req := if requested.Some? then requested.value else 1;
    var m := if req < rangeCount then req else rangeCount;
    if m > 1 then m else 1
  }

  // ------------------------------------------------------------ WHERE clause

  /** The filter condition, trimmed, with a leading "WHERE " (any case) removed. */
  function NormalizeFilterCondition(filterCondition: Option<string>): (r: string)
    ensures filterCondition.None? || IsBlank(filterCondition.value) ==> r == []
    ensures r != [] ==> !IsTrimChar(r[0]) && !IsTrimChar(r[|r| - 1])
    ensures filterCondition.Some? && !StartsWith(Upper(Trim(filterCondition.value)), "WHERE ")
            ==> r == Trim(filterCondition.value)
  {
    if filterCondition.None? then []
    else
      var trimmed := Trim(filterCondition.value);
      TrimEmptyIffBlank(filterCondition.value);
      if trimmed == [] then []
      else if StartsWith(Upper(trimmed), "WHERE ") then Trim(trimmed[5..])
      else trimmed
  }

  /** A condition typed with a leading where keyword in any case loses it. */
  lemma {:induction false} WhereKeywordDropped(keyword: string, cond: string)
    requires Upper(keyword) == "WHERE"
    requires cond != [] && !IsTrimChar(cond[0]) && !IsTrimChar(cond[|cond| - 1])
    ensures NormalizeFilterCondition(Some(keyword + " " + cond)) == cond
  {
    var rest := " " + cond;
    var s := keyword + " " + cond;
    AppendAssoc(keyword, " ", cond);
    assert s == keyword + rest;
    assert |keyword| == 5 by { assert |Upper(keyword)| == 5; }
    assert s[|keyword|..] == rest;
    TrimOfTrimmed(s);
    UpperAppend(keyword + " ", cond);
    UpperAppend(keyword, " ");
    assert Upper(s)[..6] == "WHERE ";
    assert TrimStart(rest) == cond;
    TrimOfTrimmed(cond);
  }

  predicate ExtraConditionPresent(extra: Option<string>)
  {
    extra.Some? && !IsBlank(extra.value)
  }

  lemma TrimEmptyIffBlankOpt(s: Option<string>)
    ensures s.Some? ==> (Trim(s.value) == [] <==> IsBlank(s.value))
  {
    if s.Some? { TrimEmptyIffBlank(s.value); }
  }

  /** buildWhereClause: the non-empty parenthesised conditions joined by " AND ". */
  function BuildWhereClause(filterCondition: Option<string>, extra: Option<string>): string
  {
    WhereFromParts(NormalizeFilterCondition(filterCondition), extra)
  }

  function Paren(condition: string): string
  {
    "(" + condition + ")"
  }

  function WhereFromParts(nf: string, extra: Option<string>): string
  {
    var clauses := (if nf != [] then [Paren(nf)] else []) +
                   (if extra.Some? && Trim(extra.value) != [] then [Paren(extra.value)] else []);
    if clauses == [] then [] else " WHERE " + Join(clauses, " AND ")
  }

  /**
   * The clause is empty exactly when neither the normalized filter nor a
   * non-blank extra (range) condition is present; otherwise it is " WHERE "
   * and the parenthesised conditions, the filter first, joined by " AND ".
   */
  lemma WhereClauseCases(filterCondition: Option<string>, extra: Option<string>)
    ensures var r, nf := BuildWhereClause(filterCondition, extra), NormalizeFilterCondition(filterCondition);
      (r == [] <==> nf == [] && !ExtraConditionPresent(extra)) &&
      (nf != [] && ExtraConditionPresent(extra) ==> r == " WHERE " + Paren(nf) + " AND " + Paren(extra.value)) &&
      (nf == [] && ExtraConditionPresent(extra) ==> r == " WHERE " + Paren(extra.value)) &&
      (nf != [] && !ExtraConditionPresent(extra) ==> r == " WHERE " + Paren(nf))
  {
    WherePartsCases(NormalizeFilterCondition(filterCondition), extra);
  }

  lemma WherePartsCases(nf: string, extra: Option<string>)
    ensures var r := WhereFromParts(nf, extra);
      (r == [] <==> nf == [] && !ExtraConditionPresent(extra)) &&
      (nf != [] && ExtraConditionPresent(extra) ==> r == " WHERE " + Paren(nf) + " AND " + Paren(extra.value)) &&
      (nf == [] && ExtraConditionPresent(extra) ==> r == " WHERE " + Paren(extra.value)) &&
      (nf != [] && !ExtraConditionPresent(extra) ==> r == " WHERE " + Paren(nf))
  {
    TrimEmptyIffBlankOpt(extra);
    if nf != [] && ExtraConditionPresent(extra) {
      var a, b := Paren(nf), Paren(extra.value);
      var clauses := [a, b];
      assert clauses[1..] == [b];
      assert Join(clauses, " AND ") == a + " AND " + b;
      AppendAssoc(" WHERE " + a, " AND ", b);
      AppendAssoc(" WHERE ", a, " AND ");
      AppendAssoc(" WHERE ", a + " AND ", b);
    }
  }

  // ------------------------------------------------------------ bounds

  /** parseLongSafe: null, blank or unparsable text gives null. */
  function ParseLongSafe(value: Option<string>): (r: Option<int>)
    ensures value.None? || IsBlank(value.value) ==> r.None?
    ensures r.Some? ==> LONG_MIN <= r.value <= LONG_MAX
  {
    if value.None? then None
    else
      TrimEmptyIffBlank(value.value);
      if Trim(value.value) == [] then None else ParseLong(Trim(value.value))
  }

  /** Any long written in decimal, surrounded by spaces, is read back. */
  lemma ParseLongSafeOfDecimal(n: int)
    requires LONG_MIN <= n <= LONG_MAX
    ensures ParseLongSafe(Some(" " + IntToString(n) + " ")) == Some(n)
  {
    var d := IntToString(n);
    assert d[0] == '-' || IsDigitChar(d[0]);
    assert IsDigitChar(d[|d| - 1]);
    var padded := " " + d + " ";
    assert padded[1..] == d + " ";
    assert TrimStart(padded) == d + " ";
    assert (d + " ")[..|d|] == d;
    assert TrimEnd(d + " ") == d;
    SignedDigitsOfIntToString(n);
  }

  // ------------------------------------------------------------ chunk ranges

  datatype ChunkRange = ChunkRange(start: int, end: int)

  /**
   * The partition bounds: each configured bound, else the fetched one; the
   * pair is put in order when max < min; None when either stays unresolved.
   */
  function ResolveBounds(minText: Option<string>, maxText: Option<string>,
                         fetched: (Option<int>, Option<int>)): (r: Option<(int, int)>)
    ensures r.Some? ==> r.value.0 <= r.value.1
    ensures r.None? <==> (ParseLongSafe(minText).None? && fetched.0.None?) ||
                         (ParseLongSafe(maxText).None? && fetched.1.None?)
    ensures ParseLongSafe(minText).Some? && ParseLongSafe(maxText).Some? ==>
      var a, b := ParseLongSafe(minText).value, ParseLongSafe(maxText).value;
      r == Some(if b < a then (b, a) else (a, b))
  {
    var lo := if ParseLongSafe(minText).Some? then ParseLongSafe(minText) else fetched.0;
    var hi := if ParseLongSafe(maxText).Some? then ParseLongSafe(maxText) else fetched.1;
    if lo.None? || hi.None? then None
    else if hi.value < lo.value then Some((hi.value, lo.value))
    else Some((lo.value, hi.value))
  }

  /**
   * ranges partitions [lo, hi] into consecutive closed ranges of width size,
   * the last one possibly narrower.
   */
  predicate IsPartition(ranges: seq<ChunkRange>, lo: int, hi: int, size: int)
  {
    |ranges| > 0 &&
    ranges[0].start == lo && ranges[|ranges| - 1].end == hi &&
    (forall i :: 0 <= i < |ranges| ==> ranges[i].start <= ranges[i].end) &&
    (forall i :: 0 <= i < |ranges| ==> ranges[i].end - ranges[i].start < size) &&
    (forall i :: 0 <= i < |ranges| - 1 ==> ranges[i].end - ranges[i].start + 1 == size) &&
    (forall i :: 0 <= i < |ranges| - 1 ==> ranges[i].end + 1 == ranges[i + 1].start)
  }

  /** buildChunkRanges, with the bounds the database would return passed in as fetched. */
  method BuildChunkRanges(chunkSize: Option<int>, minText: Option<string>, maxText: Option<string>,
                          fetched: (Option<int>, Option<int>))
    returns (ranges: seq<ChunkRange>)
    ensures chunkSize.None? || chunkSize.value <= 0 ==> ranges == []
    ensures ResolveBounds(minText, maxText, fetched).None? ==> ranges == []
    ensures chunkSize.Some? && chunkSize.value > 0 && ResolveBounds(minText, maxText, fetched).Some? ==>
      var (lo, hi) := ResolveBounds(minText, maxText, fetched).value;
      IsPartition(ranges, lo, hi, chunkSize.value)
  {
    if chunkSize.None? || chunkSize.value <= 0 {
      return [];
    }
    var bounds := ResolveBounds(minText, maxText, fetched);
    if bounds.None? {
      return [];
    }
    var (lo, hi) := bounds.value;
    ranges := SplitRange(lo, hi, chunkSize.value);
  }

  /** The loop of buildChunkRanges: consecutive ranges of width size from lo up to hi. */
  method SplitRange(lo: int, hi: int, size: int) returns (ranges: seq<ChunkRange>)
    requires lo <= hi && size > 0
    ensures IsPartition(ranges, lo, hi, size)
  {
    ranges := [];
    var start := lo;
    while start <= hi
      invariant lo <= start
      invariant ranges == [] ==> start == lo
      invariant ranges != [] ==> ranges[0].start == lo
      invariant ranges != [] ==> ranges[|ranges| - 1].start + size == start && ranges[|ranges| - 1].end <= hi
      invariant ranges != [] && ranges[|ranges| - 1].end < hi ==> ranges[|ranges| - 1].end + 1 == start
      invariant forall i :: 0 <= i < |ranges| ==> ranges[i].start <= ranges[i].end
      invariant forall i :: 0 <= i < |ranges| ==> ranges[i].end - ranges[i].start < size
      invariant forall i :: 0 <= i < |ranges| - 1 ==> ranges[i].end - ranges[i].start + 1 == size
      invariant forall i :: 0 <= i < |ranges| - 1 ==> ranges[i].end + 1 == ranges[i + 1].start
      invariant forall i :: 0 <= i < |ranges| - 1 ==> ranges[i].end < hi
      decreases hi - start
    {
      var end := if start + size - 1 < hi then start + size - 1 else hi;
      ranges := ranges + [ChunkRange(start, end)];
      start := start + size;
    }
  }

  /** Every value in [lo, hi] lies in exactly one range of a partition. */
  lemma {:induction false} PartitionCovers(ranges: seq<ChunkRange>, lo: int, hi: int, size: int, v: int)
    requires IsPartition(ranges, lo, hi, size) && lo <= v <= hi
    ensures exists i :: 0 <= i < |ranges| && ranges[i].start <= v <= ranges[i].end
    ensures forall i, j ::
              (0 <= i < |ranges| && 0 <= j < |ranges| &&
               ranges[i].start <= v <= ranges[i].end && ranges[j].start <= v <= ranges[j].end) ==> i == j
    decreases |ranges|
  {
    if |ranges| > 1 {
      var rest := ranges[1..];
      StartsIncrease(ranges);
      if v > ranges[0].end {
        assert IsPartition(rest, ranges[1].start, hi, size);
        PartitionCovers(rest, ranges[1].start, hi, size, v);
        var k :| 0 <= k < |rest| && rest[k].start <= v <= rest[k].end;
        assert ranges[k + 1] == rest[k];
      }
    }
  }

  /** In a partition, every range starts after the previous ones ended. */
  lemma {:induction false} StartsIncrease(ranges: seq<ChunkRange>)
    requires |ranges| > 0
    requires forall i :: 0 <= i < |ranges| ==> ranges[i].start <= ranges[i].end
    requires forall i :: 0 <= i < |ranges| - 1 ==> ranges[i].end + 1 == ranges[i + 1].start
    ensures forall i, j :: 0 <= i < j < |ranges| ==> ranges[i].end < ranges[j].start
    decreases |ranges|
  {
    if |ranges| > 1 {
      StartsIncrease(ranges[1..]);
      forall i, j | 0 <= i < j < |ranges| ensures ranges[i].end < ranges[j].start {
        if i > 0 {
          assert ranges[i] == ranges[1..][i - 1] && ranges[j] == ranges[1..][j - 1];
        } else if j > 1 {
          assert ranges[1] == ranges[1..][0] && ranges[j] == ranges[1..][j - 1];
        }
      }
    }
  }

  // The range loop as written computes in 64-bit longs.

  function Wrap64(v: int): (r: int)
    ensures LONG_MIN <= r <= LONG_MAX
    ensures LONG_MIN <= v <= LONG_MAX ==> r == v
  {
    (v - LONG_MIN) % 0x1_0000_0000_0000_0000 + LONG_MIN
  }

  /** end = Math.min(start + chunkSize - 1, maxValue), in long arithmetic. */
  function ChunkEndAsWritten(start: int, size: int, hi: int): int
  {
    var e := Wrap64(Wrap64(start + size) - 1);
    if e < hi then e else hi
  }

  /** start += chunkSize, in long arithmetic. */
  function NextStartAsWritten(start: int, size: int): int
  {
    Wrap64(start + size)
  }

  /**
   * With maxValue = Long.MAX_VALUE the loop test start <= maxValue never
   * fails, whatever start becomes, and the first range near the top of the
   * long range ends before it starts.
   */
  lemma ChunkOverflowAsWritten()
    ensures forall start, size :: NextStartAsWritten(start, size) <= LONG_MAX
    ensures var lo := LONG_MAX - 1;
            ChunkEndAsWritten(lo, 10, LONG_MAX) < lo &&
            NextStartAsWritten(lo, 10) < lo
  {
  }

  // ------------------------------------------------------------ target DDL

  /** Java quoteIdentifier here: wrap in double quotes, doubling embedded ones. */
  function QuoteIdentifier(identifier: string): (r: string)
    ensures |r| >= 2 && r[0] == '"' && r[|r| - 1] == '"'
  {
    "\"" + Replace(identifier, "\"", "\"\"") + "\""
  }

  lemma QuoteIdentifierRoundTrip(identifier: string)
    ensures var q := QuoteIdentifier(identifier);
            Undouble(q[1..|q| - 1], '"') == identifier
  {
    var q := QuoteIdentifier(identifier);
    assert q[1..|q| - 1] == Replace(identifier, "\"", "\"\"");
    UndoubleOfDouble(identifier, '"');
  }

  /** Regex '.' does not match these line terminators. */
  predicate IsLineTerminator(c: char)
  {
    c == '\n' || c == '\r' || c == '\U{0085}' || c == '\U{2028}' || c == '\U{2029}'
  }

  /** cleaned.matches(".*\\(n\\).*"): "(n)" occurs and no line terminator does. */
  predicate MatchesPlaceholder(s: string)
  {
    Contains(s, "(n)") && forall i :: 0 <= i < |s| ==> !IsLineTerminator(s[i])
  }

  /** cleanDataType: TEXT for a missing type, "(n)" placeholders dropped, bare VARCHAR/VARCHAR2 made TEXT. */
  function CleanDataType(dataType: Option<string>): (r: string)
    ensures dataType.None? || dataType.value == [] ==> r == "TEXT"
    ensures r != "VARCHAR" && Upper(r) != "VARCHAR2"
    ensures dataType.Some? && dataType.value != [] && !Contains(Trim(dataType.value), "(n)") &&
            Trim(dataType.value) != "VARCHAR" && Upper(Trim(dataType.value)) != "VARCHAR2"
            ==> r == Trim(dataType.value)
  {
    if dataType.None? || dataType.value == [] then "TEXT"
    else
      var trimmed := Trim(dataType.value);
      var cleaned := if MatchesPlaceholder(trimmed) then Replace(trimmed, "(n)", "") else trimmed;
      if cleaned == "VARCHAR" || Upper(cleaned) == "VARCHAR2" then "TEXT" else cleaned
  }

  /**
   * A "(n)" placeholder after a type name is dropped: "CHAR(n)" becomes CHAR,
   * and "VARCHAR(n)" or "varchar2(n)" become TEXT.
   */
  lemma CleanDataTypeDropsPlaceholder(base: string)
    requires base != [] && !IsTrimChar(base[0]) && '(' !in base
    requires forall i :: 0 <= i < |base| ==> !IsLineTerminator(base[i])
    ensures CleanDataType(Some(base + "(n)")) == if base == "VARCHAR" || Upper(base) == "VARCHAR2" then "TEXT" else base
  {
    PlaceholderAfter(base);
  }

  lemma PlaceholderAfter(base: string)
    requires base != [] && !IsTrimChar(base[0]) && '(' !in base
    requires forall i :: 0 <= i < |base| ==> !IsLineTerminator(base[i])
    ensures Trim(base + "(n)") == base + "(n)"
    ensures MatchesPlaceholder(base + "(n)")
    ensures Replace(base + "(n)", "(n)", "") == base
  {
    var s := base + "(n)";
    TrimOfTrimmed(s);
    assert OccursAt(s, "(n)", |base|) by {
      assert s[|base|..|base| + 3] == "(n)";
    }
    forall i | 0 <= i < |s|
      ensures !IsLineTerminator(s[i])
    {
      if i >= |base| {
        assert s[i] in "(n)";
      }
    }
    ReplaceUntouchedPrefix(base, "(n)", "(n)", "");
    ReplaceLeading("(n)", [], "");
    assert "(n)" + [] == "(n)";
  }

  /** One column of the CREATE TABLE list; a null target column fails as the source does. */
  function ColumnDefinition(col: ColumnMapping): Option<string>
  {
    if col.targetColumn.None? then None
    else Some(QuoteIdentifier(col.targetColumn.value) + " " + CleanDataType(col.targetDataType) +
              (if col.nullable == Some(false) then " NOT NULL" else ""))
  }

  /** The definitions of all columns, in order, or None when one of them fails. */
  function ColumnDefinitions(cols: seq<ColumnMapping>): Option<seq<string>>
  {
    if cols == [] then Some([])
    else
      match ColumnDefinitions(cols[..|cols| - 1])
        case None => None
        case Some(init) =>
          match ColumnDefinition(cols[|cols| - 1])
            case None => None
            case Some(d) => Some(init + [d])
  }

  lemma ColumnDefinitionsSnoc(cols: seq<ColumnMapping>, i: nat)
    requires i < |cols| && ColumnDefinitions(cols[..i]).Some? && cols[i].targetColumn.Some?
    ensures ColumnDefinitions(cols[..i + 1]) ==
            Some(ColumnDefinitions(cols[..i]).value + [ColumnDefinition(cols[i]).value])
  {
    assert cols[..i + 1][..i] == cols[..i];
  }

  /** The list succeeds exactly when every column names its target, and then holds each column's definition. */
  lemma {:induction false} ColumnDefinitionsSpec(cols: seq<ColumnMapping>)
    ensures ColumnDefinitions(cols).Some? <==> forall i :: 0 <= i < |cols| ==> cols[i].targetColumn.Some?
    ensures ColumnDefinitions(cols).Some? ==>
      |ColumnDefinitions(cols).value| == |cols| &&
      forall i :: 0 <= i < |cols| ==> Some(ColumnDefinitions(cols).value[i]) == ColumnDefinition(cols[i])
    decreases |cols|
  {
    if cols != [] {
      var init := cols[..|cols| - 1];
      var last := cols[|cols| - 1];
      ColumnDefinitionsSpec(init);
      assert forall i :: 0 <= i < |init| ==> init[i] == cols[i];
      match ColumnDefinitions(init) {
        case None =>
          var k :| 0 <= k < |init| && init[k].targetColumn.None?;
          assert cols[k].targetColumn.None?;
        case Some(ds) =>
          if last.targetColumn.Some? {
            var d := ColumnDefinition(last).value;
            assert ColumnDefinitions(cols) == Some(ds + [d]);
            forall i | 0 <= i < |cols| ensures Some((ds + [d])[i]) == ColumnDefinition(cols[i]) {
              if i < |init| { assert (ds + [d])[i] == ds[i]; } else { assert i == |init|; }
            }
          }
      }
    }
  }

  function CreateTableHeader(schema: string, table: string): string
  {
    "CREATE TABLE " + QuoteIdentifier(schema) + "." + QuoteIdentifier(table) + " ("
  }

  /** The text generateCreateTableSql builds, or None where it throws NullPointerException. */
  function CreateTableSql(tm: TableMapping): Option<string>
  {
    if tm.targetSchema.None? || tm.targetTable.None? || tm.columnMappings.None? then None
    else match ColumnDefinitions(tm.columnMappings.value)
      case None => None
      case Some(defs) =>
        Some(CreateTableHeader(tm.targetSchema.value, tm.targetTable.value) + Join(defs, ", ") + ")")
  }

  /**
   * The DDL exists exactly when the target schema, table and every target
   * column are named; it then opens with CREATE TABLE and a quoted name and
   * closes the column list.
   */
  lemma CreateTableSqlDefined(tm: TableMapping)
    ensures CreateTableSql(tm).Some? <==>
      (tm.targetSchema.Some? && tm.targetTable.Some? && tm.columnMappings.Some? &&
       forall i :: 0 <= i < |tm.columnMappings.value| ==> tm.columnMappings.value[i].targetColumn.Some?)
  {
    if tm.columnMappings.Some? {
      ColumnDefinitionsSpec(tm.columnMappings.value);
    }
  }

  lemma CreateTableSqlShape(tm: TableMapping)
    requires CreateTableSql(tm).Some?
    ensures StartsWith(CreateTableSql(tm).value, "CREATE TABLE \"")
    ensures CreateTableSql(tm).value[|CreateTableSql(tm).value| - 1] == ')'
  {
    var h := CreateTableHeader(tm.targetSchema.value, tm.targetTable.value);
    var r := CreateTableSql(tm).value;
    assert r == h + (Join(ColumnDefinitions(tm.columnMappings.value).value, ", ") + ")");
    assert r[..14] == h[..14];
  }

  /** generateCreateTableSql: the StringBuilder loop over the column mappings. */
  method GenerateCreateTableSql(tm: TableMapping) returns (sql: Option<string>)
    ensures sql == CreateTableSql(tm)
  {
    if tm.targetSchema.None? || tm.targetTable.None? || tm.columnMappings.None? {
      return None;
    }
    var cols := tm.columnMappings.value;
    var header := CreateTableHeader(tm.targetSchema.value, tm.targetTable.value);
    var text := header;
    var first := true;
    var i := 0;
    while i < |cols|
      invariant 0 <= i <= |cols|
      invariant first <==> i == 0
      invariant ColumnDefinitions(cols[..i]).Some?
      invariant |ColumnDefinitions(cols[..i]).value| == i
      invariant text == header + Join(ColumnDefinitions(cols[..i]).value, ", ")
    {
      var col := cols[i];
      if col.targetColumn.None? {
        ColumnDefinitionsSpec(cols);
        return None;
      }
      var def := ColumnDefinition(col).value;
      ghost var before := ColumnDefinitions(cols[..i]).value;
      ghost var joined := Join(before, ", ");
      ColumnDefinitionsSnoc(cols, i);
      if !first {
        text := text + ", ";
      }
      first := false;
      text := text + def;
      JoinSnoc(before, def, ", ");
      if i == 0 {
        assert header + [] == header;
      } else {
        AppendAssoc(header, joined, ", ");
        AppendAssoc(header, joined + ", ", def);
      }
      assert text == header + Join(before + [def], ", ");
      i := i + 1;
    }
    assert cols[..i] == cols;
    sql := Some(text + ")");
  }

  /** Each column appears in the DDL as its quoted name followed by its cleaned type. */
  lemma CreateTableListsColumns(tm: TableMapping, i: nat)
    requires CreateTableSql(tm).Some? && i < |tm.columnMappings.value|
    requires tm.columnMappings.value[i].targetColumn.Some?
    ensures var col := tm.columnMappings.value[i];
            Contains(CreateTableSql(tm).value,
                     QuoteIdentifier(col.targetColumn.value) + " " + CleanDataType(col.targetDataType))
  {
    ColumnDefinitionsSpec(tm.columnMappings.value);
    var defs := ColumnDefinitions(tm.columnMappings.value).value;
    var col := tm.columnMappings.value[i];
    var piece := QuoteIdentifier(col.targetColumn.value) + " " + CleanDataType(col.targetDataType);
    assert Some(defs[i]) == ColumnDefinition(col);
    StartsWithContains(defs[i], piece);
    JoinContainsPart(defs, ", ", i, piece);
    var h := CreateTableHeader(tm.targetSchema.value, tm.targetTable.value);
    ContainsInPart(h, piece, Join(defs, ", "));
    ContainsInPart(h + Join(defs, ", "), piece, ")");
  }

  lemma {:induction false} JoinContainsPart(parts: seq<string>, sep: string, i: nat, t: string)
    requires i < |parts| && Contains(parts[i], t)
    ensures Contains(Join(parts, sep), t)
    decreases |parts|
  {
    if |parts| > 1 {
      if i == 0 {
        ContainsInPart(parts[0], t, sep + Join(parts[1..], sep));
        assert Join(parts, sep) == parts[0] + (sep + Join(parts[1..], sep));
      } else {
        assert parts[1..][i - 1] == parts[i];
        JoinContainsPart(parts[1..], sep, i - 1, t);
        ContainsInPart(parts[0] + sep, t, Join(parts[1..], sep));
      }
    }
  }

  // ------------------------------------------------------------ table preparation

  /** schema.table, both parts quoted. */
  function QualifiedName(schema: string, table: string): string
  {
    QuoteIdentifier(schema) + "." + QuoteIdentifier(table)
  }

  /**
   * The statements prepareTableForMigration issues: DROP ... CASCADE then
   * the CREATE TABLE text when dropBeforeInsert is true, else TRUNCATE
   * when truncateBeforeInsert is true, else nothing. None where quoting a
   * null name or building the CREATE TABLE text throws.
   */
  function PrepareTableStatements(tm: TableMapping): Option<seq<string>>
  {
    var drop := tm.dropBeforeInsert == Some(true);
    var truncate := tm.truncateBeforeInsert == Some(true);
    if !drop && !truncate then Some([])
    else if tm.targetSchema.None? || tm.targetTable.None? then None
    else
      var name := QualifiedName(tm.targetSchema.value, tm.targetTable.value);
      if drop then
        match CreateTableSql(tm)
          case None => None
          case Some(create) => Some(["DROP TABLE IF EXISTS " + name + " CASCADE", create])
      else Some(["TRUNCATE TABLE " + name])
  }

  /** Drop wins over truncate: a table that is dropped is recreated and never truncated. */
  lemma PrepareDropWins(tm: TableMapping)
    ensures tm.dropBeforeInsert != Some(true) && tm.truncateBeforeInsert != Some(true) ==>
      PrepareTableStatements(tm) == Some([])
    ensures (tm.dropBeforeInsert == Some(true) || tm.truncateBeforeInsert == Some(true)) &&
            (tm.targetSchema.None? || tm.targetTable.None?) ==>
      PrepareTableStatements(tm).None?
    ensures tm.dropBeforeInsert == Some(true) && CreateTableSql(tm).None? ==> PrepareTableStatements(tm).None?
    ensures tm.targetSchema.Some? && tm.targetTable.Some? &&
            tm.dropBeforeInsert == Some(true) && CreateTableSql(tm).Some? ==>
      PrepareTableStatements(tm) == Some([
        "DROP TABLE IF EXISTS " + QualifiedName(tm.targetSchema.value, tm.targetTable.value) + " CASCADE",
        CreateTableSql(tm).value])
    ensures tm.targetSchema.Some? && tm.targetTable.Some? &&
            tm.dropBeforeInsert != Some(true) && tm.truncateBeforeInsert == Some(true) ==>
      PrepareTableStatements(tm) == Some(["TRUNCATE TABLE " + QualifiedName(tm.targetSchema.value, tm.targetTable.value)])
  {
  }

  // ------------------------------------------------------------ hex decoding

  /**
   * hexStringToByteArray: null or empty text gives no bytes; otherwise the
   * text is stripped of white space, upper-cased, left-padded to even length
   * and read two digits per byte.
   */
  method HexStringToByteArray(hex: Option<string>) returns (data: array<Base16.JByte>)
    ensures hex.None? || hex.value == [] ==> data.Length == 0
    ensures hex.Some? && hex.value != [] ==>
      data[..] == Base16.DecodePairs(Base16.Normalize(hex.value)) &&
      data.Length == (|Base16.StripSpaces(hex.value)| + 1) / 2
  {
    if hex.None? || hex.value == [] {
      data := new Base16.JByte[0];
      return;
    }
    data := DecodeHexPairs(Base16.Normalize(hex.value));
  }

  /** The loop of hexStringToByteArray: one byte from each pair of hex digits. */
  method DecodeHexPairs(h: string) returns (data: array<Base16.JByte>)
    requires |h| % 2 == 0
    ensures data[..] == Base16.DecodePairs(h)
  {
    var len := |h|;
    data := new Base16.JByte[len / 2];
    var i := 0;
    while i < len
      invariant 0 <= i <= len && i % 2 == 0
      invariant forall k :: 0 <= k < i / 2 ==> data[k] == Base16.PairByte(h[2 * k], h[2 * k + 1])
    {
      data[i / 2] := Base16.ToByte(Base16.HexDigit(h[i]) * 16 + Base16.HexDigit(h[i + 1]));
      i := i + 2;
    }
    forall k | 0 <= k < len / 2 ensures data[k] == Base16.DecodePairs(h)[k] {
      Base16.DecodePairsAt(h, k);
    }
  }
}
